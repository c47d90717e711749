/**
  The command duplex against the history of a run: every read gets one answer, what the answer is, that reads
  deliver everything, and which writes reach stdin and are acknowledged.
 */
module DuplexHistories {
  import opened Basics
  import opened Results
  import opened CommandDuplexes

  lemma {:induction false} ReadRunLast(r: Reading, events: seq<ReadEvent>, e: ReadEvent)
    ensures ReadRun(r, events + [e]) == ReadStep(ReadRun(r, events), e)
    decreases |events|
  {
    if events == [] {
      assert [e][1..] == [];
    } else {
      assert (events + [e])[1..] == events[1..] + [e];
      ReadRunLast(ReadStep(r, events[0]), events[1..], e);
    }
  }

  lemma {:induction false} ReadRunConcat(r: Reading, first: seq<ReadEvent>, second: seq<ReadEvent>)
    ensures ReadRun(r, first + second) == ReadRun(ReadRun(r, first), second)
    decreases |first|
  {
    if first == [] {
      assert first + second == second;
    } else {
      assert (first + second)[1..] == first[1..] + second;
      ReadRunConcat(ReadStep(r, first[0]), first[1..], second);
    }
  }

  // ---------------------------------------------------------------- the flags

  ghost predicate FlagsAre(r: Reading, events: seq<ReadEvent>) {
    && (r.closing <==> CloseCalled in events)
    && (r.closed <==> ChannelCloses in events)
    && (r.aborted <==> Aborts in events)
    && (Aborts in events ==> !r.out.phase.Waiting? && !r.err.phase.Waiting?)
  }

  lemma FlagsStep(r: Reading, events: seq<ReadEvent>, e: ReadEvent)
    requires FlagsAre(r, events)
    ensures FlagsAre(ReadStep(r, e), events + [e])
  {
    match e
    case ReadContinues(name, value, over) => hide Cut;
    case _ => hide ReadTurn;
  }

  /** In every run the flags say what has happened, and no read waits for its source after an abort. */
  lemma {:induction false} FlagsFollowTheHistory(limit: nat, events: seq<ReadEvent>)
    ensures FlagsAre(ReadRun(Started(limit), events), events)
    decreases |events|
  {
    if events != [] {
      var n := |events| - 1;
      var init, e := events[..n], events[n];
      assert events == init + [e];
      hide FlagsAre, ReadStep;
      FlagsFollowTheHistory(limit, init);
      ReadRunLast(Started(limit), init, e);
      FlagsStep(ReadRun(Started(limit), init), init, e);
    }
  }

  // ---------------------------------------------------------------- one answer for each read

  /** The sizes that the accepted reads of one stream asked for, in call order. */
  function Requests(r: Reading, events: seq<ReadEvent>, name: Name): seq<nat>
    decreases |events|
  {
    if events == [] then []
    else
      var e := events[0];
      Accepted(r, e, name) + Requests(ReadStep(r, e), events[1..], name)
  }

  /** The sizes asked for by a read that has been accepted and not answered. */
  function Unanswered(phase: Phase): seq<nat> {
    match phase
    case Queued(max) => [max]
    case Waiting(max) => [max]
    case _ => []
  }

  /** The answers from position `from` on are those of reads that asked for these sizes, the last of them pending. */
  ghost predicate Answers(s: Stream, from: nat, sizes: seq<nat>) {
    && from <= |s.answers|
    && |s.answers| - from + |Unanswered(s.phase)| == |sizes|
    && (forall i | from <= i < |s.answers| && s.answers[i].Chunk? :: s.answers[i].requested == sizes[i - from])
    && (Unanswered(s.phase) != [] ==> Unanswered(s.phase)[0] == sizes[|s.answers| - from])
  }

  /** The event is a read of this stream that is accepted. */
  predicate Accepts(r: Reading, e: ReadEvent, name: Name) {
    e.ReadCalled? && e.name == name && !r.closing && Get(r, name).phase.Idle? && 1 <= e.max <= 9007199254740991
  }

  /** An accepted read waits for its answer, is answered once, and is then forgotten. */
  predicate OneAnswer(before: Stream, accepted: seq<nat>, after: Stream) {
    var n, asked := |before.answers|, Unanswered(before.phase) + accepted;
    || (&& after.answers == before.answers && Unanswered(after.phase) == asked)
    || (&& accepted == [] && asked != [] && after.phase.Settled?
        && |after.answers| == n + 1 && after.answers[..n] == before.answers
        && (after.answers[n].Chunk? ==> after.answers[n].requested == asked[0]))
  }

  function Accepted(r: Reading, e: ReadEvent, name: Name): seq<nat> {
    if Accepts(r, e, name) then [e.max] else []
  }

  lemma ReadIsAnswered(r: Reading, e: ReadEvent, name: Name)
    ensures OneAnswer(Get(r, name), Accepted(r, e, name), Get(ReadStep(r, e), name))
    ensures Accepts(r, e, name) ==> Unanswered(Get(r, name).phase) == []
  {
    match e
    case ReadContinues(n, value, over) =>
      if n == name {
        TurnIsAnswered(r, name, value, over);
      } else {
        OtherStreamStays(r, n, value, over, name);
      }
      hide ReadTurn;
    case _ => hide ReadTurn;
  }

  /** What one call of the source makes of a stream: it fails, serves a chunk, ends or waits. */
  predicate Attempted(s: Stream, max: nat, fits: bool, ended: bool, value: Option<Bytes>, after: Stream) {
    match value
    case Some(bytes) =>
      var taken := s.(consumed := s.consumed + bytes);
      if fits then after == Cut(taken.(accepted := s.accepted + bytes), bytes, max)
      else after == Answered(taken.(overran := after.overran), Failed)
    case None => after == if ended then Answered(s, Eof) else s.(phase := Waiting(max))
  }

  predicate Turned(r: Reading, s: Stream, value: Option<Bytes>, over: bool, after: Stream) {
    var fits, ended := value.Some? ==> r.total + |value.value| <= r.limit, r.closed || over;
    match s.phase
    case Queued(max) =>
      if r.aborted then after == Answered(s, Failed)
      else if |s.remainder| > 0 then after == Cut(s, s.remainder, max)
      else Attempted(s, max, fits, ended, value, after)
    case Waiting(max) => Attempted(s, max, fits, ended, value, after)
    case _ => after == s
  }

  lemma TurnIs(r: Reading, name: Name, value: Option<Bytes>, over: bool)
    ensures Turned(r, Get(r, name), value, over, Get(ReadTurn(r, name, value, over), name))
  {
    hide Cut;
  }

  lemma TurnIsAnswered(r: Reading, name: Name, value: Option<Bytes>, over: bool)
    ensures OneAnswer(Get(r, name), [], Get(ReadTurn(r, name, value, over), name))
  {
    var s := Get(r, name);
    TurnIs(r, name, value, over);
    hide ReadTurn;
    AnsweredIsOne(s, Failed, Unanswered(s.phase));
    AnsweredIsOne(s, Eof, Unanswered(s.phase));
  }

  lemma AnsweredIsOne(s: Stream, answer: Answer, asked: seq<nat>)
    ensures Answered(s, answer).answers[..|s.answers|] == s.answers
  {
  }

  lemma OtherStreamStays(r: Reading, n: Name, value: Option<Bytes>, over: bool, name: Name)
    requires n != name
    ensures Get(ReadTurn(r, n, value, over), name) == Get(r, name)
  {
    hide Cut, Answered;
  }

  /**
    In every run each accepted read of a stream gets exactly one answer, in call order and for the size it
    asked for; at most one, the last, is still to be answered.
   */
  lemma {:induction false} EveryReadGetsOneAnswer(r: Reading, events: seq<ReadEvent>, name: Name)
    requires Unanswered(Get(r, name).phase) == []
    ensures Answers(Get(ReadRun(r, events), name), |Get(r, name).answers|, Requests(r, events, name))
    decreases |events|
  {
    AnswersFollow(r, events, name, |Get(r, name).answers|, []);
    assert [] + Requests(r, events, name) == Requests(r, events, name);
  }

  lemma {:induction false} AnswersFollow(r: Reading, events: seq<ReadEvent>, name: Name, from: nat, sizes: seq<nat>)
    requires Answers(Get(r, name), from, sizes)
    ensures Answers(Get(ReadRun(r, events), name), from, sizes + Requests(r, events, name))
    decreases |events|
  {
    if events == [] {
      assert sizes + Requests(r, events, name) == sizes;
    } else {
      var e := events[0];
      var next := ReadStep(r, e);
      hide ReadStep, Answers, Accepts;
      AnswersStep(r, e, name, from, sizes);
      AnswersFollow(next, events[1..], name, from, sizes + Accepted(r, e, name));
      Associates(sizes, Accepted(r, e, name), Requests(next, events[1..], name));
    }
  }

  lemma Associates(a: seq<nat>, b: seq<nat>, c: seq<nat>)
    ensures a + b + c == a + (b + c)
  {
  }

  lemma AnswersStep(r: Reading, e: ReadEvent, name: Name, from: nat, sizes: seq<nat>)
    requires Answers(Get(r, name), from, sizes)
    ensures Answers(Get(ReadStep(r, e), name), from, sizes + Accepted(r, e, name))
  {
    ReadIsAnswered(r, e, name);
    hide ReadStep;
  }

  // ---------------------------------------------------------------- which answer

  /** A read of this stream turns to its source in this event, which hands out `value`. */
  predicate TurnsToSource(r: Reading, e: ReadEvent, name: Name) {
    var s := Get(r, name);
    && e.ReadContinues? && e.name == name
    && (s.phase.Waiting? || (s.phase.Queued? && !r.aborted && s.remainder == []))
  }

  /** The answer that one event gives to a read of this stream, if any. */
  function AnswerTo(r: Reading, e: ReadEvent, name: Name): Option<Answer> {
    var n, after := |Get(r, name).answers|, Get(ReadStep(r, e), name).answers;
    if |after| > n then Some(after[n]) else None
  }

  /** A read must fail: the signal has aborted or its source fails while it waits, or the limit is exceeded. */
  predicate MustFail(r: Reading, e: ReadEvent, name: Name) {
    var s := Get(r, name);
    || (s.phase.Waiting? && (e.Aborts? || e == SourceFails(name)))
    || (s.phase.Queued? && r.aborted && e.ReadContinues? && e.name == name)
    || (TurnsToSource(r, e, name) && e.value.Some?
        && |r.out.consumed| + |r.err.consumed| + |e.value.value| > r.limit)
  }

  /** A read must report the end: its source has nothing to hand out and has ended, or the channel has closed. */
  predicate MustEnd(r: Reading, e: ReadEvent, name: Name) {
    TurnsToSource(r, e, name) && e.value.None? && (r.closed || e.over)
  }

  /** The answers of a stream after an event: no further one, the end, a failure or a chunk. */
  predicate Verdicts(before: Stream, after: Stream, eof: bool, fails: bool) {
    var n := |before.answers|;
    && (eof <==> |after.answers| > n && after.answers[n] == Eof)
    && (fails <==> |after.answers| > n && after.answers[n] == Failed)
  }

  /**
    A read is answered with a failure exactly when it must fail, and with the end exactly when it must end.
   */
  lemma FailedAndEofExactlyWhen(r: Reading, e: ReadEvent, name: Name)
    requires ReadInv(r)
    ensures Verdicts(Get(r, name), Get(ReadStep(r, e), name), MustEnd(r, e, name), MustFail(r, e, name))
  {
    hide *;
    if e.ReadContinues? && e.name == name {
      VerdictOfTurn(r, name, e.value, e.over);
    } else {
      VerdictOfOthers(r, e, name);
    }
  }

  lemma VerdictOfTurn(r: Reading, name: Name, value: Option<Bytes>, over: bool)
    requires ReadInv(r)
    ensures var e := ReadContinues(name, value, over);
      Verdicts(Get(r, name), Get(ReadStep(r, e), name), MustEnd(r, e, name), MustFail(r, e, name))
  {
    var s, after := Get(r, name), Get(ReadTurn(r, name, value, over), name);
    TurnIs(r, name, value, over);
    hide ReadTurn, StreamInv, Attempted, Verdicts;
    match s.phase
    case Queued(max) =>
      if r.aborted {
        AnsweredVerdict(s, Failed);
      } else if |s.remainder| > 0 {
        CutVerdict(s, s, s.remainder, max);
      } else {
        AttemptVerdict(r, s, max, value, over, after);
      }
    case Waiting(max) => AttemptVerdict(r, s, max, value, over, after);
    case _ => NoVerdict(s);
  }

  lemma AttemptVerdict(r: Reading, s: Stream, max: nat, value: Option<Bytes>, over: bool, after: Stream)
    requires Attempted(s, max, value.Some? ==> r.total + |value.value| <= r.limit, r.closed || over, value, after)
    ensures Verdicts(s, after, value.None? && (r.closed || over),
                     value.Some? && r.total + |value.value| > r.limit)
  {
    if value.Some? {
      var taken := s.(consumed := s.consumed + value.value);
      if r.total + |value.value| <= r.limit {
        CutVerdict(s, taken.(accepted := s.accepted + value.value), value.value, max);
      }
    }
    hide Cut;
  }

  lemma CutVerdict(before: Stream, s: Stream, bytes: Bytes, max: nat)
    requires s.answers == before.answers
    ensures Verdicts(before, Cut(s, bytes, max), false, false)
  {
  }

  lemma AnsweredVerdict(s: Stream, answer: Answer)
    ensures Verdicts(s, Answered(s, answer), answer == Eof, answer == Failed)
  {
  }

  lemma NoVerdict(s: Stream)
    ensures Verdicts(s, s, false, false)
  {
  }

  lemma VerdictOfOthers(r: Reading, e: ReadEvent, name: Name)
    requires !(e.ReadContinues? && e.name == name)
    ensures Verdicts(Get(r, name), Get(ReadStep(r, e), name), MustEnd(r, e, name), MustFail(r, e, name))
  {
    if e.ReadContinues? {
      OtherStreamStays(r, e.name, e.value, e.over, name);
    }
    hide ReadTurn;
  }

  /** What a read can be served from: the remainder, or what the source hands out if nothing remains. */
  function Available(r: Reading, e: ReadEvent, name: Name): Bytes {
    if TurnsToSource(r, e, name) && e.value.Some? then e.value.value else Get(r, name).remainder
  }

  /** The first bytes of what is available: as many as were asked for, or all of them. */
  predicate LargestPart(chunk: Answer, available: Bytes, rest: Bytes)
    requires chunk.Chunk?
  {
    && chunk.bytes + rest == available
    && |chunk.bytes| == (if chunk.requested < |available| then chunk.requested else |available|)
  }

  /**
    Every other answer is a chunk: the first bytes of what is available, as many as were asked for or all of
    them. So something remains only after a chunk of the size asked for.
   */
  lemma ChunkIsAsLargeAsPossible(r: Reading, e: ReadEvent, name: Name)
    requires ReadInv(r) && AnswerTo(r, e, name).Some? && AnswerTo(r, e, name).value.Chunk?
    ensures var after, chunk := Get(ReadStep(r, e), name), AnswerTo(r, e, name).value;
      && LargestPart(chunk, Available(r, e, name), after.remainder)
      && (|after.remainder| > 0 ==> |chunk.bytes| == chunk.requested)
  {
    assert e.ReadContinues? && e.name == name by {
      OnlyTurnsServe(r, e, name);
    }
    TurnServes(r, name, e.value, e.over);
    hide ReadTurn, ReadInv;
  }

  lemma OnlyTurnsServe(r: Reading, e: ReadEvent, name: Name)
    ensures AnswerTo(r, e, name).Some? && AnswerTo(r, e, name).value.Chunk? ==> e.ReadContinues? && e.name == name
  {
    match e
    case ReadContinues(n, value, over) =>
      if n != name {
        OtherStreamStays(r, n, value, over, name);
      }
      hide ReadTurn;
    case _ => hide ReadTurn;
  }

  /** If a further answer is a chunk, it is the largest part of what is available. */
  predicate Serves(before: Stream, after: Stream, available: Bytes) {
    var n := |before.answers|;
    |after.answers| > n && after.answers[n].Chunk? ==> LargestPart(after.answers[n], available, after.remainder)
  }

  lemma TurnServes(r: Reading, name: Name, value: Option<Bytes>, over: bool)
    requires Get(r, name).phase.Waiting? ==> Get(r, name).remainder == []
    ensures Serves(Get(r, name), Get(ReadTurn(r, name, value, over), name),
                   Available(r, ReadContinues(name, value, over), name))
  {
    var s, after := Get(r, name), Get(ReadTurn(r, name, value, over), name);
    TurnIs(r, name, value, over);
    hide ReadTurn, Attempted, Serves;
    match s.phase
    case Queued(max) =>
      if r.aborted {
        AnsweredServes(s, s, Failed, s.remainder);
      } else if |s.remainder| > 0 {
        CutServes(s, s, s.remainder, max);
      } else {
        AttemptServes(r, s, max, value, over, after);
      }
    case Waiting(max) => AttemptServes(r, s, max, value, over, after);
    case _ => NothingServed(s, s.remainder);
  }

  lemma AttemptServes(r: Reading, s: Stream, max: nat, value: Option<Bytes>, over: bool, after: Stream)
    requires Attempted(s, max, value.Some? ==> r.total + |value.value| <= r.limit, r.closed || over, value, after)
    ensures Serves(s, after, if value.Some? then value.value else s.remainder)
  {
    match value
    case Some(bytes) =>
      var taken := s.(consumed := s.consumed + bytes);
      if r.total + |bytes| <= r.limit {
        CutServes(s, taken.(accepted := s.accepted + bytes), bytes, max);
      } else {
        AnsweredServes(s, taken.(overran := after.overran), Failed, bytes);
      }
    case None =>
      AnsweredServes(s, s, Eof, s.remainder);
      NothingServed(s.(phase := Waiting(max)), s.remainder);
  }

  lemma AnsweredServes(before: Stream, s: Stream, answer: Answer, available: Bytes)
    requires s.answers == before.answers && !answer.Chunk?
    ensures Serves(before, Answered(s, answer), available)
  {
  }

  lemma NothingServed(s: Stream, available: Bytes)
    ensures Serves(s, s, available)
  {
  }

  lemma CutServes(before: Stream, s: Stream, bytes: Bytes, max: nat)
    requires s.answers == before.answers
    ensures Serves(before, Cut(s, bytes, max), bytes)
  {
    var size := if max < |bytes| then max else |bytes|;
    assert bytes[..size] + bytes[size..] == bytes;
  }

  /** A chunk that leaves something behind has its full size, in every step of every run. */
  lemma RemainderOnlyAfterAFullChunk(limit: nat, events: seq<ReadEvent>, e: ReadEvent, name: Name)
    requires var r := ReadRun(Started(limit), events);
      AnswerTo(r, e, name).Some? && AnswerTo(r, e, name).value.Chunk?
    ensures var r := ReadRun(Started(limit), events);
      |Get(ReadStep(r, e), name).remainder| > 0 ==>
        |AnswerTo(r, e, name).value.bytes| == AnswerTo(r, e, name).value.requested
  {
    StartedInv(limit);
    ReadRunKeeps(Started(limit), events);
    ChunkIsAsLargeAsPossible(ReadRun(Started(limit), events), e, name);
  }

  /** Bytes are taken from a source only by a read that turns to it, and kept unless they exceed the limit. */
  predicate Takes(r: Reading, e: ReadEvent, name: Name, after: Stream) {
    var before := Get(r, name);
    if TurnsToSource(r, e, name) && e.value.Some?
    then after.consumed == before.consumed + e.value.value
      && after.accepted == before.accepted + (if r.total + |e.value.value| <= r.limit then e.value.value else [])
    else after.consumed == before.consumed && after.accepted == before.accepted
  }

  lemma SourceIsReadOnDemand(r: Reading, e: ReadEvent, name: Name)
    ensures Takes(r, e, name, Get(ReadStep(r, e), name))
  {
    hide *;
    if e.ReadContinues? && e.name == name {
      TurnTakes(r, name, e.value, e.over);
    } else {
      OthersTakeNothing(r, e, name);
    }
  }

  lemma TurnTakes(r: Reading, name: Name, value: Option<Bytes>, over: bool)
    ensures var e := ReadContinues(name, value, over); Takes(r, e, name, Get(ReadStep(r, e), name))
  {
    TurnIs(r, name, value, over);
    hide ReadTurn;
  }

  lemma OthersTakeNothing(r: Reading, e: ReadEvent, name: Name)
    requires !(e.ReadContinues? && e.name == name)
    ensures Takes(r, e, name, Get(ReadStep(r, e), name))
  {
    if e.ReadContinues? {
      OtherStreamStays(r, e.name, e.value, e.over, name);
    }
    hide ReadTurn;
  }

  // ---------------------------------------------------------------- everything is delivered

  /** Reads of `max` bytes, one after the other, `times` times. */
  function ReadsOf(name: Name, max: nat, times: nat): seq<ReadEvent> {
    if times == 0 then []
    else [ReadCalled(name, max), ReadContinues(name, None, false), ReadForgotten(name)] + ReadsOf(name, max, times - 1)
  }

  /** How many pieces of `max` bytes make up `size` bytes. */
  function Pieces(size: nat, max: nat): nat
    requires max > 0
  {
    if size == 0 then 0 else 1 + Pieces(if max < size then size - max else 0, max)
  }

  lemma ServedFromTheRemainder(r: Reading, name: Name, max: nat)
    requires ReadInv(r) && !r.closing && !r.aborted && Get(r, name).phase.Idle?
    requires 1 <= max <= MAX_SAFE_INTEGER && |Get(r, name).remainder| > 0
    ensures var events := [ReadCalled(name, max), ReadContinues(name, None, false), ReadForgotten(name)];
      var s, after := Get(r, name), ReadRun(r, events);
      var size := if max < |s.remainder| then max else |s.remainder|;
      && ReadInv(after) && !after.closing && !after.aborted
      && Get(after, name).answers == s.answers + [Chunk(max, s.remainder[..size])]
      && Get(after, name).remainder == s.remainder[size..] && Get(after, name).phase.Idle?
      && Get(after, name).accepted == s.accepted
  {
    var events := [ReadCalled(name, max), ReadContinues(name, None, false), ReadForgotten(name)];
    var s1 := ReadStep(r, events[0]);
    var s2 := ReadStep(s1, events[1]);
    assert events[1..][1..] == events[2..] && events[2..][1..] == [];
    assert ReadRun(r, events) == ReadRun(s1, events[1..]) == ReadRun(s2, events[2..]) == ReadStep(s2, events[2]);
    ReadRunKeeps(r, events);
  }

  /** Reading on, in pieces of any size, delivers everything that was accepted, in order and to the last byte. */
  lemma {:induction false} ReadsDeliverEverything(r: Reading, name: Name, max: nat, times: nat)
    requires ReadInv(r) && !r.closing && !r.aborted && Get(r, name).phase.Idle?
    requires 1 <= max <= MAX_SAFE_INTEGER && times == Pieces(|Get(r, name).remainder|, max)
    ensures var after := Get(ReadRun(r, ReadsOf(name, max, times)), name);
      && after.remainder == [] && after.accepted == Get(r, name).accepted
      && Delivered(after.answers, |after.answers|) == after.accepted
    decreases times
  {
    var s := Get(r, name);
    if |s.remainder| > 0 {
      var first := [ReadCalled(name, max), ReadContinues(name, None, false), ReadForgotten(name)];
      ReadRunConcat(r, first, ReadsOf(name, max, times - 1));
      ServedFromTheRemainder(r, name, max);
      hide ReadRun, ReadInv;
      ReadsDeliverEverything(ReadRun(r, first), name, max, times - 1);
    } else {
      EverythingDelivered(r, name);
    }
  }

  lemma EverythingDelivered(r: Reading, name: Name)
    requires ReadInv(r) && Get(r, name).remainder == []
    ensures var s := Get(r, name); Delivered(s.answers, |s.answers|) == s.accepted
  {
  }

  // ---------------------------------------------------------------- writes

  lemma {:induction false} WriteRunConcat(w: Writing, first: seq<WriteEvent>, second: seq<WriteEvent>)
    ensures WriteRun(w, first + second) == WriteRun(WriteRun(w, first), second)
    decreases |first|
  {
    if first == [] {
      assert first + second == second;
    } else {
      assert (first + second)[1..] == first[1..] + second;
      WriteRunConcat(WriteStep(w, first[0]), first[1..], second);
    }
  }

  /** The write that an event appends: one called while nothing was closing or closed. */
  function JobCalled(e: WriteEvent): seq<Job> {
    if e.WriteCalled? && e.open then [e.job] else []
  }

  function JobsCalled(events: seq<WriteEvent>): seq<Job>
    decreases |events|
  {
    if events == [] then [] else JobCalled(events[0]) + JobsCalled(events[1..])
  }

  lemma ChainGrows(w: Writing, e: WriteEvent)
    ensures WriteStep(w, e).chain == w.chain + JobCalled(e)
  {
  }

  /** In every run the chain is exactly the accepted writes in call order. */
  lemma {:induction false} ChainFollowsTheCalls(w: Writing, events: seq<WriteEvent>)
    ensures WriteRun(w, events).chain == w.chain + JobsCalled(events)
    decreases |events|
  {
    if events == [] {
      assert w.chain + [] == w.chain;
    } else {
      ChainGrows(w, events[0]);
      hide WriteStep, JobCalled;
      ChainFollowsTheCalls(WriteStep(w, events[0]), events[1..]);
      JobsAssociate(w.chain, JobCalled(events[0]), JobsCalled(events[1..]));
    }
  }

  lemma JobsAssociate(a: seq<Job>, b: seq<Job>, c: seq<Job>)
    ensures a + b + c == a + (b + c)
  {
  }

  /** A write fails: before it starts, when it starts, or while it waits for its acknowledgement. */
  predicate FailsTheWrite(w: Writing, e: WriteEvent) {
    match e
    case ChainContinues(aborted, throws, _) =>
      !w.broken && w.started == w.acknowledged && w.started < |w.chain| && (aborted || throws)
    case CallbackFires(ok) => !ok && !w.broken && w.started == w.acknowledged + 1
    case StdinFails => !w.broken && w.started == w.acknowledged + 1
    case _ => false
  }

  /** Nothing else breaks the chain, and a broken chain acknowledges and starts nothing more. */
  lemma BrokenExactlyWhen(w: Writing, e: WriteEvent)
    ensures WriteStep(w, e).broken <==> w.broken || FailsTheWrite(w, e)
    ensures w.broken ==> WriteStep(w, e).acknowledged == w.acknowledged && WriteStep(w, e).started == w.started
  {
  }

  /** The write begun by this event reaches stdin, and waits for a drain exactly if it is data and the stream asks. */
  lemma WriteStarts(w: Writing, throws: bool, needsDrain: bool)
    requires WriteInv(w) && !w.broken && w.started == w.acknowledged && w.started < |w.chain|
    ensures var after := WriteStep(w, ChainContinues(false, throws, needsDrain));
      && after.stdin == w.stdin + [w.chain[w.started]] && after.started == w.started + 1
      && (!throws ==>
            Active(after) && after.ack == Ack(false, Some(w.chain[w.started].Data? && needsDrain), false))
    ensures WriteStep(w, ChainContinues(true, throws, needsDrain)).stdin == w.stdin
  {
  }

  /**
    Unless it fails, an active write is acknowledged exactly when its callback has come and, if the stream
    asked for it, a drain; in either order, and whatever else is called meanwhile.
   */
  lemma {:induction false} AcknowledgedExactlyWhen(w: Writing, needs: bool, events: seq<WriteEvent>)
    requires WriteInv(w) && Active(w) && w.ack.needsDrain == Some(needs)
    requires CallbackFires(false) !in events && StdinFails !in events
    ensures WriteRun(w, events).acknowledged > w.acknowledged
       <==> (w.ack.callback || CallbackFires(true) in events) && (needs ==> w.ack.drained || DrainFires in events)
    decreases |events|
  {
    if events != [] {
      var e := events[0];
      var next := WriteStep(w, e);
      WriteStepKeeps(w, e);
      assert events == [e] + events[1..];
      if next.acknowledged > w.acknowledged {
        AcknowledgedStays(next, events[1..]);
      } else {
        AcknowledgedExactlyWhen(next, needs, events[1..]);
      }
    }
  }

  lemma {:induction false} AcknowledgedStays(w: Writing, events: seq<WriteEvent>)
    ensures WriteRun(w, events).acknowledged >= w.acknowledged
    decreases |events|
  {
    if events != [] {
      AcknowledgedStays(WriteStep(w, events[0]), events[1..]);
    }
  }

  /** Every write that was accepted can still reach stdin, from every state in which none has failed. */
  lemma {:induction false} EveryWriteCanReachStdin(w: Writing) returns (events: seq<WriteEvent>)
    requires WriteInv(w) && !w.broken
    ensures var after := WriteRun(w, events);
      && after.stdin == w.chain && after.acknowledged == |w.chain| && !after.broken && after.chain == w.chain
    ensures forall e | e in events :: e in [ChainContinues(false, false, false), CallbackFires(true), DrainFires]
    decreases |w.chain| - w.acknowledged, w.started
  {
    if w.acknowledged == |w.chain| {
      return [];
    }
    var first := [ChainContinues(false, false, false), CallbackFires(true), DrainFires];
    WriteMovesOn(w);
    var rest := EveryWriteCanReachStdin(WriteRun(w, first));
    WriteRunConcat(w, first, rest);
    events := first + rest;
  }

  lemma WriteMovesOn(w: Writing)
    requires WriteInv(w) && !w.broken
    requires w.acknowledged < |w.chain|
    ensures var after := WriteRun(w, [ChainContinues(false, false, false), CallbackFires(true), DrainFires]);
      && WriteInv(after) && !after.broken && !Active(after)
      && after.acknowledged == w.acknowledged + 1 && after.chain == w.chain
  {
    var events := [ChainContinues(false, false, false), CallbackFires(true), DrainFires];
    var s1 := WriteStep(w, events[0]);
    var s2 := WriteStep(s1, events[1]);
    assert events[1..][1..] == events[2..] && events[2..][1..] == [];
    assert WriteRun(w, events) == WriteRun(s1, events[1..]) == WriteRun(s2, events[2..]) == WriteStep(s2, events[2]);
    WriteRunKeeps(w, events);
  }
}
