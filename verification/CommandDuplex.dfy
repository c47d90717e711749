/**
  Byte I/O over a remote command: budgeted reads of stdout and stderr with remainders, and a chain of
  writes to stdin.

  Bytes are numbers below 256. One function is one turn; `consumed`, `accepted`, `overran` and `answers` are
  history: what the source handed out, what of it survived the read limit, whether a read of this stream
  has lost bytes to the limit, and what the callers of read got.
 */
module CommandDuplexes {
  import opened Basics
  import opened Results

  // ---------------------------------------------------------------- reading

  datatype Answer =
    | Chunk(requested: nat, bytes: Bytes)
    | Eof
    | Failed

  /** A read: called, waiting for its source, or settled but still registered. */
  datatype Phase = Idle | Queued(max: nat) | Waiting(max: nat) | Settled

  datatype Stream = Stream(
    phase: Phase, remainder: Bytes, consumed: Bytes, accepted: Bytes, overran: bool, answers: seq<Answer>)

  /** `total` counts the bytes of both streams against `limit`. */
  datatype Reading = Reading(
    out: Stream, err: Stream, total: nat, limit: nat, closing: bool, closed: bool, aborted: bool)

  datatype Name = Stdout | Stderr

  function Fresh(): Stream {
    Stream(Idle, [], [], [], false, [])
  }

  function Started(limit: nat): Reading {
    Reading(Fresh(), Fresh(), 0, limit, false, false, false)
  }

  function Get(r: Reading, name: Name): Stream {
    if name.Stdout? then r.out else r.err
  }

  function With(r: Reading, name: Name, s: Stream): Reading {
    if name.Stdout? then r.(out := s) else r.(err := s)
  }

  function Answered(s: Stream, answer: Answer): Stream {
    s.(phase := Settled, answers := s.answers + [answer])
  }

  /** Cut the requested size off some bytes; the rest is what the next read starts from. */
  function Cut(s: Stream, bytes: Bytes, max: nat): Stream {
    var size := if max < |bytes| then max else |bytes|;
    Answered(s, Chunk(max, bytes[..size])).(remainder := bytes[size..])
  }

  predicate ReadAccepted(r: Reading, name: Name, max: int) {
    !r.closing && Get(r, name).phase.Idle? && 1 <= max <= MAX_SAFE_INTEGER
  }

  function ReadCall(r: Reading, name: Name, max: int): Reading {
    if ReadAccepted(r, name, max) then With(r, name, Get(r, name).(phase := Queued(max))) else r
  }

  /** One call of source.read(): `value` is what it returned, `over` that the source has ended. */
  function Attempt(r: Reading, name: Name, max: nat, value: Option<Bytes>, over: bool): Reading {
    var s := Get(r, name);
    match value
    case Some(bytes) =>
      var total := r.total + |bytes|;
      var counted := r.(total := total);
      var taken := s.(consumed := s.consumed + bytes);
      if total > r.limit then With(counted, name, Answered(taken.(overran := s.overran || bytes != []), Failed))
      else With(counted, name, Cut(taken.(accepted := s.accepted + bytes), bytes, max))
    case None =>
      if r.closed || over then With(r, name, Answered(s, Eof))
      else With(r, name, s.(phase := Waiting(max)))
  }

  /** The queued part of a read: serve the remainder, or turn to the source. */
  function ReadTurn(r: Reading, name: Name, value: Option<Bytes>, over: bool): Reading {
    var s := Get(r, name);
    match s.phase
    case Queued(max) =>
      if r.aborted then With(r, name, Answered(s, Failed))
      else if s.remainder != [] then With(r, name, Cut(s, s.remainder, max))
      else Attempt(r, name, max, value, over)
    case Waiting(max) => Attempt(r, name, max, value, over)
    case _ => r
  }

  function FailWaiting(s: Stream): Stream {
    if s.phase.Waiting? then Answered(s, Failed) else s
  }

  datatype ReadEvent =
    | ReadCalled(name: Name, max: int)
    | ReadContinues(name: Name, value: Option<Bytes>, over: bool)
    | SourceFails(name: Name)
    | ReadForgotten(name: Name)
    | Aborts
    | CloseCalled
    | ChannelCloses

  function ReadStep(r: Reading, e: ReadEvent): Reading {
    match e
    case ReadCalled(name, max) => ReadCall(r, name, max)
    case ReadContinues(name, value, over) => ReadTurn(r, name, value, over)
    case SourceFails(name) => With(r, name, FailWaiting(Get(r, name)))
    case ReadForgotten(name) =>
      if Get(r, name).phase.Settled? then With(r, name, Get(r, name).(phase := Idle)) else r
    case Aborts => r.(aborted := true, out := FailWaiting(r.out), err := FailWaiting(r.err))
    case CloseCalled => r.(closing := true)
    case ChannelCloses => r.(closed := true)
  }

  function ReadRun(r: Reading, events: seq<ReadEvent>): Reading
    decreases |events|
  {
    if events == [] then r else ReadRun(ReadStep(r, events[0]), events[1..])
  }

  /** The bytes of the first n answers, in order. */
  function Delivered(answers: seq<Answer>, n: nat): Bytes
    requires n <= |answers|
  {
    if n == 0 then []
    else Delivered(answers, n - 1) + (if answers[n - 1].Chunk? then answers[n - 1].bytes else [])
  }

  lemma {:induction false} DeliveredPrefix(a: seq<Answer>, b: seq<Answer>, n: nat)
    requires n <= |a| && n <= |b| && forall i | 0 <= i < n :: a[i] == b[i]
    ensures Delivered(a, n) == Delivered(b, n)
  {
    if n > 0 {
      DeliveredPrefix(a, b, n - 1);
    }
  }

  lemma DeliveredAppend(answers: seq<Answer>, answer: Answer)
    ensures Delivered(answers + [answer], |answers| + 1)
         == Delivered(answers, |answers|) + (if answer.Chunk? then answer.bytes else [])
  {
    DeliveredPrefix(answers + [answer], answers, |answers|);
  }

  /** One stream: nothing accepted is lost, reordered or duplicated, and no chunk exceeds its request. */
  ghost predicate StreamInv(s: Stream) {
    && s.accepted == Delivered(s.answers, |s.answers|) + s.remainder
    && |s.accepted| <= |s.consumed| && s.accepted == s.consumed[..|s.accepted|]
    && (s.overran <==> |s.accepted| < |s.consumed|)
    && (s.phase.Waiting? ==> s.remainder == [])
    && (forall a | a in s.answers && a.Chunk? :: |a.bytes| <= a.requested)
  }

  ghost predicate ReadInv(r: Reading) {
    && StreamInv(r.out) && StreamInv(r.err)
    && r.total == |r.out.consumed| + |r.err.consumed|
    && |r.out.accepted| + |r.err.accepted| <= r.limit
    && (r.total <= r.limit ==> !r.out.overran && !r.err.overran)
  }

  lemma StartedInv(limit: nat)
    ensures ReadInv(Started(limit))
  {
  }

  lemma AnsweredKeeps(s: Stream, answer: Answer)
    requires StreamInv(s) && !answer.Chunk?
    ensures StreamInv(Answered(s, answer))
  {
    DeliveredAppend(s.answers, answer);
  }

  lemma CutKeeps(s: Stream, bytes: Bytes, max: nat)
    requires StreamInv(s.(remainder := bytes, phase := Idle))
    ensures StreamInv(Cut(s, bytes, max))
  {
    var size := if max < |bytes| then max else |bytes|;
    DeliveredAppend(s.answers, Chunk(max, bytes[..size]));
    assert bytes == bytes[..size] + bytes[size..];
  }

  /** A turn that moves one stream without taking bytes from its source. */
  lemma StreamMoves(r: Reading, name: Name, s: Stream)
    requires ReadInv(r) && StreamInv(s)
    requires (s.consumed, s.accepted, s.overran) == (Get(r, name).consumed, Get(r, name).accepted, Get(r, name).overran)
    ensures ReadInv(With(r, name, s)) && With(r, name, s).limit == r.limit
  {
  }

  lemma TakenKeeps(s: Stream, bytes: Bytes, max: nat)
    requires StreamInv(s) && s.remainder == [] && !s.overran
    ensures var after := Cut(s.(consumed := s.consumed + bytes, accepted := s.accepted + bytes), bytes, max);
            StreamInv(after) && !after.overran && |after.accepted| == |s.accepted| + |bytes|
  {
    var grown := s.(consumed := s.consumed + bytes, accepted := s.accepted + bytes);
    assert s.accepted == s.consumed == Delivered(s.answers, |s.answers|);
    CutKeeps(grown, bytes, max);
  }

  lemma LostKeeps(s: Stream, bytes: Bytes)
    requires StreamInv(s)
    ensures StreamInv(Answered(s.(consumed := s.consumed + bytes, overran := s.overran || bytes != []), Failed))
  {
    var taken := s.(consumed := s.consumed + bytes, overran := s.overran || bytes != []);
    assert taken.consumed[..|s.accepted|] == s.consumed[..|s.accepted|];
    AnsweredKeeps(taken, Failed);
  }

  lemma AttemptKeeps(r: Reading, name: Name, max: nat, value: Option<Bytes>, over: bool)
    requires ReadInv(r) && Get(r, name).remainder == []
    ensures ReadInv(Attempt(r, name, max, value, over))
  {
    var s := Get(r, name);
    match value
    case Some(bytes) =>
      if r.total + |bytes| > r.limit {
        LostKeeps(s, bytes);
      } else {
        TakenKeeps(s, bytes, max);
      }
    case None => AnsweredKeeps(s, Eof);
  }

  lemma TurnKeeps(r: Reading, name: Name, value: Option<Bytes>, over: bool)
    requires ReadInv(r)
    ensures ReadInv(ReadTurn(r, name, value, over))
  {
    var s := Get(r, name);
    match s.phase
    case Queued(max) =>
      if r.aborted {
        AnsweredKeeps(s, Failed);
      } else if s.remainder != [] {
        CutKeeps(s, s.remainder, max);
      } else {
        AttemptKeeps(r, name, max, value, over);
      }
    case Waiting(max) => AttemptKeeps(r, name, max, value, over);
    case _ =>
  }

  lemma TurnKeepsLimit(r: Reading, name: Name, value: Option<Bytes>, over: bool)
    ensures ReadTurn(r, name, value, over).limit == r.limit
  {
  }

  lemma FailKeeps(r: Reading)
    requires ReadInv(r)
    ensures StreamInv(FailWaiting(r.out)) && StreamInv(FailWaiting(r.err))
  {
    AnsweredKeeps(r.out, Failed);
    AnsweredKeeps(r.err, Failed);
  }

  lemma ReadStepKeeps(r: Reading, e: ReadEvent)
    requires ReadInv(r)
    ensures ReadInv(ReadStep(r, e)) && ReadStep(r, e).limit == r.limit
  {
    match e
    case ReadContinues(name, value, over) =>
      TurnKeeps(r, name, value, over);
      TurnKeepsLimit(r, name, value, over);
    case ReadCalled(name, max) =>
      if ReadAccepted(r, name, max) {
        StreamMoves(r, name, Get(r, name).(phase := Queued(max)));
      }
    case SourceFails(name) =>
      FailKeeps(r);
      StreamMoves(r, name, FailWaiting(Get(r, name)));
    case ReadForgotten(name) =>
      if Get(r, name).phase.Settled? {
        StreamMoves(r, name, Get(r, name).(phase := Idle));
      }
    case Aborts => FailKeeps(r);
    case CloseCalled =>
    case ChannelCloses =>
  }

  lemma {:induction false} ReadRunKeeps(r: Reading, events: seq<ReadEvent>)
    requires ReadInv(r)
    ensures ReadInv(ReadRun(r, events)) && ReadRun(r, events).limit == r.limit
    decreases |events|
  {
    if events != [] {
      ReadStepKeeps(r, events[0]);
      ReadRunKeeps(ReadStep(r, events[0]), events[1..]);
    }
  }

  /**
    In every run and for each stream: the chunks read concatenate to a prefix of the bytes the source
    handed out, each within its requested size; over both streams they stay within the read limit; and
    unless this stream lost bytes to the limit, all that is missing is the remainder.
   */
  lemma ChunksAreAPrefixWithinTheLimit(limit: nat, events: seq<ReadEvent>, name: Name)
    ensures var r := ReadRun(Started(limit), events);
            var s := Get(r, name);
            && Delivered(s.answers, |s.answers|) <= s.consumed
            && (forall a | a in s.answers && a.Chunk? :: |a.bytes| <= a.requested)
            && |Delivered(r.out.answers, |r.out.answers|)| + |Delivered(r.err.answers, |r.err.answers|)| <= limit
            && (!s.overran ==> s.consumed == Delivered(s.answers, |s.answers|) + s.remainder)
            && (s.overran ==> r.total > limit)
  {
    StartedInv(limit);
    ReadRunKeeps(Started(limit), events);
  }

  /** A step answers a read of this stream with the end of the stream. */
  predicate ReportsEof(r: Reading, e: ReadEvent, name: Name) {
    var n, after := |Get(r, name).answers|, Get(ReadStep(r, e), name).answers;
    |after| > n && after[n] == Eof
  }

  lemma EofAnswer(r: Reading, e: ReadEvent, name: Name)
    requires ReadInv(r) && ReportsEof(r, e, name)
    ensures Get(r, name).remainder == []
  {
  }

  /**
    The end of a stream is reported only with an empty remainder, when everything accepted has been read.
    It is then everything the source handed out exactly when no read of this stream was lost to the limit.
   */
  lemma EofMeansEverythingAcceptedWasRead(limit: nat, events: seq<ReadEvent>, e: ReadEvent, name: Name)
    requires ReportsEof(ReadRun(Started(limit), events), e, name)
    ensures var s := Get(ReadRun(Started(limit), events), name);
            && s.remainder == []
            && s.accepted == Delivered(s.answers, |s.answers|)
            && (s.consumed == Delivered(s.answers, |s.answers|) <==> !s.overran)
  {
    StartedInv(limit);
    ReadRunKeeps(Started(limit), events);
    EofAnswer(ReadRun(Started(limit), events), e, name);
  }

  /** A read after one that overran the limit can report the end although bytes were lost. */
  lemma EofAfterOverrun()
    ensures var r := ReadRun(Started(1), [ReadCalled(Stdout, 8), ReadContinues(Stdout, Some([7, 7]), false),
                                          ReadForgotten(Stdout), ReadCalled(Stdout, 8)]);
            var after := ReadStep(r, ReadContinues(Stdout, None, true));
            && ReportsEof(r, ReadContinues(Stdout, None, true), Stdout)
            && after.out.consumed == [7, 7] && after.out.accepted == []
  {
    var events := [ReadCalled(Stdout, 8), ReadContinues(Stdout, Some([7, 7]), false), ReadForgotten(Stdout),
                   ReadCalled(Stdout, 8)];
    var s1 := ReadStep(Started(1), events[0]);
    var s2 := ReadStep(s1, events[1]);
    assert s2.out.phase.Settled? && s2.out.consumed == [7, 7] && s2.out.accepted == [];
    var s3 := ReadStep(s2, events[2]);
    assert events[1..][1..] == events[2..] && events[2..][1..] == events[3..] && events[3..][1..] == [];
    assert ReadRun(Started(1), events) == ReadRun(s1, events[1..]);
    assert ReadRun(s1, events[1..]) == ReadRun(s2, events[2..]) == ReadRun(s3, events[3..]);
    assert ReadRun(s3, events[3..]) == ReadRun(ReadStep(s3, events[3]), []);
  }

  // ---------------------------------------------------------------- writing

  datatype Job = Data(bytes: Bytes) | End

  /** The acknowledgements one write waits for. */
  datatype Ack = Ack(callback: bool, needsDrain: Option<bool>, drained: bool)

  /**
    The write chain: the jobs in call order, how many have been started and how many acknowledged, and
    whether one has failed, after which the chain rejects everything. `stdin` is what reached the command.
   */
  datatype Writing = Writing(chain: seq<Job>, started: nat, acknowledged: nat, broken: bool, ack: Ack, stdin: seq<Job>)

  const NO_ACK := Ack(false, None, false)

  function NoWrites(): Writing {
    Writing([], 0, 0, false, NO_ACK, [])
  }

  predicate Active(w: Writing) {
    !w.broken && w.started == w.acknowledged + 1
  }

  predicate Complete(ack: Ack) {
    ack.callback && ack.needsDrain.Some? && (!ack.needsDrain.value || ack.drained)
  }

  /** finish(): resolve the active write once all its acknowledgements are in. */
  function Acknowledge(w: Writing, ack: Ack): Writing {
    if Active(w) && Complete(ack) then w.(acknowledged := w.acknowledged + 1, ack := NO_ACK)
    else w.(ack := ack)
  }

  datatype WriteEvent =
    | WriteCalled(job: Job, open: bool)
    | ChainContinues(aborted: bool, throws: bool, needsDrain: bool)
    | CallbackFires(ok: bool)
    | DrainFires
    | StdinFails

  function WriteStep(w: Writing, e: WriteEvent): Writing {
    match e
    case WriteCalled(job, open) => if open then w.(chain := w.chain + [job]) else w
    case ChainContinues(aborted, throws, needsDrain) =>
      if w.broken || w.started != w.acknowledged || w.started >= |w.chain| then w
      else if aborted then w.(broken := true)
      else
        var job := w.chain[w.started];
        var begun := w.(started := w.started + 1, stdin := w.stdin + [job]);
        if throws then begun.(broken := true)
        else begun.(ack := Ack(false, Some(job.Data? && needsDrain), false))
    case CallbackFires(ok) =>
      if !Active(w) then w
      else if ok then Acknowledge(w, w.ack.(callback := true))
      else w.(broken := true)
    case DrainFires => if Active(w) then Acknowledge(w, w.ack.(drained := true)) else w
    case StdinFails => if Active(w) then w.(broken := true) else w
  }

  function WriteRun(w: Writing, events: seq<WriteEvent>): Writing
    decreases |events|
  {
    if events == [] then w else WriteRun(WriteStep(w, events[0]), events[1..])
  }

  ghost predicate WriteInv(w: Writing) {
    && w.acknowledged <= w.started <= w.acknowledged + 1
    && w.started <= |w.chain|
    && w.stdin == w.chain[..w.started]
    && (!w.broken && w.started == w.acknowledged ==> w.ack == NO_ACK)
    && (Active(w) ==> w.ack.needsDrain.Some? && !Complete(w.ack))
  }

  lemma WriteStepKeeps(w: Writing, e: WriteEvent)
    requires WriteInv(w)
    ensures WriteInv(WriteStep(w, e))
    ensures w.broken ==> WriteStep(w, e).broken && WriteStep(w, e).stdin == w.stdin
    ensures |WriteStep(w, e).stdin| > |w.stdin| ==> w.acknowledged == w.started == |w.stdin| && !w.broken
  {
  }

  lemma {:induction false} WriteRunKeeps(w: Writing, events: seq<WriteEvent>)
    requires WriteInv(w)
    ensures WriteInv(WriteRun(w, events))
    ensures w.broken ==> WriteRun(w, events).stdin == w.stdin
    decreases |events|
  {
    if events != [] {
      WriteStepKeeps(w, events[0]);
      WriteRunKeeps(WriteStep(w, events[0]), events[1..]);
    }
  }

  /**
    In every run what reaches stdin is a prefix of the writes in call order, one at a time: at most one
    is unacknowledged, and a write starts only after all before it have been acknowledged.
   */
  lemma WritesReachStdinInOrder(events: seq<WriteEvent>, e: WriteEvent)
    ensures var w := WriteRun(NoWrites(), events);
            && w.stdin <= w.chain
            && w.acknowledged <= |w.stdin| <= w.acknowledged + 1
            && (WriteStep(w, e).stdin != w.stdin ==>
                  && w.acknowledged == |w.stdin| < |w.chain|
                  && WriteStep(w, e).stdin == w.stdin + [w.chain[|w.stdin|]])
  {
    WriteRunKeeps(NoWrites(), events);
    var w := WriteRun(NoWrites(), events);
    WriteStepKeeps(w, e);
    assert w.chain[..w.started] <= w.chain;
  }

  /** After the first failure nothing more reaches stdin, whatever is called. */
  lemma FirstFailureStopsTheChain(events: seq<WriteEvent>, later: seq<WriteEvent>)
    requires WriteRun(NoWrites(), events).broken
    ensures WriteRun(WriteRun(NoWrites(), events), later).stdin == WriteRun(NoWrites(), events).stdin
  {
    WriteRunKeeps(NoWrites(), events);
    WriteRunKeeps(WriteRun(NoWrites(), events), later);
  }

  // ---------------------------------------------------------------- the object

  class MachineCommandDuplex {
    const limit: nat
    var streams: map<Name, Stream>
    var total: nat
    var closing: bool
    var closed: bool
    var aborted: bool
    var chain: seq<Job>
    var started: nat
    var acknowledged: nat
    var broken: bool
    var ack: Ack
    ghost var stdin: seq<Job>

    ghost predicate Valid()
      reads this
    {
      streams.Keys == {Stdout, Stderr} && ReadInv(Reads()) && WriteInv(Writes())
    }

    ghost function Reads(): Reading
      requires streams.Keys == {Stdout, Stderr}
      reads this
    {
      Reading(streams[Stdout], streams[Stderr], total, limit, closing, closed, aborted)
    }

    ghost function Writes(): Writing
      reads this
    {
      Writing(chain, started, acknowledged, broken, ack, stdin)
    }

    constructor (limit: nat)
      ensures Valid() && Reads() == Started(limit) && Writes() == NoWrites()
    {
      this.limit := limit;
      streams, total := map[Stdout := Fresh(), Stderr := Fresh()], 0;
      closing, closed, aborted := false, false, false;
      chain, started, acknowledged, broken, ack, stdin := [], 0, 0, false, NO_ACK, [];
      new;
      StartedInv(limit);
    }

    /** `accepted` says whether the read starts; a refused read fails at once. */
    method ReadFrom(name: Name, max: int) returns (accepted: bool)
      requires Valid()
      modifies this`streams
      ensures Valid() && accepted == ReadAccepted(old(Reads()), name, max)
      ensures Reads() == ReadStep(old(Reads()), ReadCalled(name, max))
    {
      ReadStepKeeps(Reads(), ReadCalled(name, max));
      if closing || !streams[name].phase.Idle? || max < 1 || max > MAX_SAFE_INTEGER {
        return false;
      }
      streams := streams[name := streams[name].(phase := Queued(max))];
      return true;
    }

    method ServeChunk(name: Name, bytes: Bytes, max: nat)
      requires streams.Keys == {Stdout, Stderr}
      modifies this`streams
      ensures streams.Keys == {Stdout, Stderr}
      ensures Reads() == With(old(Reads()), name, Cut(Get(old(Reads()), name), bytes, max))
    {
      var s := streams[name];
      var size := if max < |bytes| then max else |bytes|;
      streams := streams[name := s.(phase := Settled, remainder := bytes[size..],
                                    answers := s.answers + [Chunk(max, bytes[..size])])];
    }

    method AttemptRead(name: Name, max: nat, value: Option<Bytes>, over: bool)
      requires streams.Keys == {Stdout, Stderr}
      modifies this`streams, this`total
      ensures streams.Keys == {Stdout, Stderr}
      ensures Reads() == Attempt(old(Reads()), name, max, value, over)
    {
      var s := streams[name];
      if value.None? {
        streams := streams[name := if closed || over then Answered(s, Eof) else s.(phase := Waiting(max))];
        return;
      }
      total := total + |value.value|;
      s := s.(consumed := s.consumed + value.value);
      if total > limit {
        streams := streams[name := Answered(s.(overran := s.overran || value.value != []), Failed)];
        return;
      }
      streams := streams[name := s.(accepted := s.accepted + value.value)];
      ServeChunk(name, value.value, max);
    }

    method ContinueRead(name: Name, value: Option<Bytes>, over: bool)
      requires Valid()
      modifies this`streams, this`total
      ensures Valid() && Reads() == ReadStep(old(Reads()), ReadContinues(name, value, over))
    {
      ReadStepKeeps(Reads(), ReadContinues(name, value, over));
      ServeRead(name, value, over);
    }

    method ServeRead(name: Name, value: Option<Bytes>, over: bool)
      requires streams.Keys == {Stdout, Stderr}
      modifies this`streams, this`total
      ensures streams.Keys == {Stdout, Stderr}
      ensures Reads() == ReadTurn(old(Reads()), name, value, over)
    {
      var s := streams[name];
      match s.phase
      case Queued(max) =>
        if aborted {
          streams := streams[name := Answered(s, Failed)];
        } else if s.remainder != [] {
          ServeChunk(name, s.remainder, max);
        } else {
          AttemptRead(name, max, value, over);
        }
      case Waiting(max) => AttemptRead(name, max, value, over);
      case _ =>
    }

    /** A write or an end joins the chain; after closing it fails at once instead. */
    method Append(job: Job) returns (accepted: bool)
      requires Valid()
      modifies this`chain
      ensures Valid() && accepted == (!closing && !closed)
      ensures Writes() == WriteStep(old(Writes()), WriteCalled(job, accepted))
    {
      WriteStepKeeps(Writes(), WriteCalled(job, !closing && !closed));
      if closing || closed {
        return false;
      }
      chain := chain + [job];
      return true;
    }

    /** The chain reaches its next job. */
    method ContinueChain(throws: bool, needsDrain: bool)
      requires Valid()
      modifies this`started, this`broken, this`ack, this`stdin
      ensures Valid() && Writes() == WriteStep(old(Writes()), ChainContinues(aborted, throws, needsDrain))
    {
      WriteStepKeeps(Writes(), ChainContinues(aborted, throws, needsDrain));
      if broken || started != acknowledged || started >= |chain| {
        return;
      }
      if aborted {
        broken := true;
        return;
      }
      var job := chain[started];
      stdin := stdin + [job];
      started := started + 1;
      if throws {
        broken := true;
        return;
      }
      ack := Ack(false, Some(job.Data? && needsDrain), false);
    }

    method FinishWrite()
      modifies this`acknowledged, this`ack
      ensures Writes() == Acknowledge(old(Writes()), old(ack))
    {
      if !broken && started == acknowledged + 1
         && ack.callback && ack.needsDrain.Some? && (!ack.needsDrain.value || ack.drained) {
        acknowledged := acknowledged + 1;
        ack := NO_ACK;
      }
    }

    method OnCallback(ok: bool)
      requires Valid()
      modifies this`acknowledged, this`ack, this`broken
      ensures Valid() && Writes() == WriteStep(old(Writes()), CallbackFires(ok))
    {
      WriteStepKeeps(Writes(), CallbackFires(ok));
      if broken || started != acknowledged + 1 {
        return;
      }
      if !ok {
        broken := true;
        return;
      }
      ack := ack.(callback := true);
      FinishWrite();
    }

    method OnDrain()
      requires Valid()
      modifies this`acknowledged, this`ack
      ensures Valid() && Writes() == WriteStep(old(Writes()), DrainFires)
    {
      WriteStepKeeps(Writes(), DrainFires);
      if broken || started != acknowledged + 1 {
        return;
      }
      ack := ack.(drained := true);
      FinishWrite();
    }

    /** The listeners that watch an active write on stdin report an error or a close. */
    method OnStdinFailure()
      requires Valid()
      modifies this`broken
      ensures Valid() && Writes() == WriteStep(old(Writes()), StdinFails)
    {
      WriteStepKeeps(Writes(), StdinFails);
      if !broken && started == acknowledged + 1 {
        broken := true;
      }
    }

    method FailWaitingRead(name: Name)
      requires streams.Keys == {Stdout, Stderr}
      modifies this`streams
      ensures streams.Keys == {Stdout, Stderr}
      ensures Reads() == With(old(Reads()), name, FailWaiting(Get(old(Reads()), name)))
    {
      if streams[name].phase.Waiting? {
        streams := streams[name := Answered(streams[name], Failed)];
      }
    }

    method OnSourceFailure(name: Name)
      requires Valid()
      modifies this`streams
      ensures Valid() && Reads() == ReadStep(old(Reads()), SourceFails(name))
    {
      ReadStepKeeps(Reads(), SourceFails(name));
      FailWaitingRead(name);
    }

    /** A settled read is forgotten, and the stream can be read again. */
    method ForgetRead(name: Name)
      requires Valid() && streams[name].phase.Settled?
      modifies this`streams
      ensures Valid() && Reads() == ReadStep(old(Reads()), ReadForgotten(name))
    {
      ReadStepKeeps(Reads(), ReadForgotten(name));
      streams := streams[name := streams[name].(phase := Idle)];
    }

    method OnAbort()
      requires Valid()
      modifies this`streams, this`aborted
      ensures Valid() && Reads() == ReadStep(old(Reads()), Aborts)
    {
      ReadStepKeeps(Reads(), Aborts);
      aborted := true;
      FailWaitingRead(Stdout);
      FailWaitingRead(Stderr);
    }

    /** From here on reads and writes are refused; those under way go on. */
    method Close()
      requires Valid()
      modifies this`closing
      ensures Valid() && Reads() == ReadStep(old(Reads()), CloseCalled)
    {
      ReadStepKeeps(Reads(), CloseCalled);
      closing := true;
    }

    method OnChannelClose()
      requires Valid()
      modifies this`closed
      ensures Valid() && Reads() == ReadStep(old(Reads()), ChannelCloses)
    {
      ReadStepKeeps(Reads(), ChannelCloses);
      closed := true;
    }
  }
}
