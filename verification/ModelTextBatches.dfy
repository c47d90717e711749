/**
  Coalescing a model's text deltas: the generator reads one event ahead and joins adjacent deltas until a
  timer fires or the frame budget is reached, and control events keep their place.

  The producer is a sequence of events followed by its end. `late` holds the positions whose read loses its
  race against the timer of the batch before it; no position is raced for twice. The consumer may stop after
  some number of outputs. What the generator reports when it is torn down is the function Conclude.
 */
module ModelTextBatches {
  import opened Results
  import opened Utf8

  const BATCH_BYTES: nat := 128 * 1024

  datatype Event = TextDelta(text: Text) | Control(id: nat)

  datatype Kind = Timeout | CleanupFailed | Other

  datatype Failure = Failure(id: nat, kind: Kind)

  datatype End = Done | Fails(failure: Failure)

  /** One settled read. */
  datatype Read = Got(event: Event) | Finished | Failed(failure: Failure)

  function ReadAt(input: seq<Event>, end: End, n: nat): Read {
    if n < |input| then Got(input[n])
    else if end.Fails? then Failed(end.failure)
    else Finished
  }

  // ---------------------------------------------------------------- merging

  /** Append an event, joining it to the last one when both are text. */
  function Push(events: seq<Event>, e: Event): seq<Event> {
    var n := |events|;
    if n > 0 && events[n - 1].TextDelta? && e.TextDelta?
    then events[..n - 1] + [TextDelta(events[n - 1].text + e.text)]
    else events + [e]
  }

  /** The first n events with every maximal run of text deltas joined: what the stream means. */
  function Merged(events: seq<Event>, n: nat): seq<Event>
    requires n <= |events|
  {
    if n == 0 then [] else Push(Merged(events, n - 1), events[n - 1])
  }

  function Meaning(events: seq<Event>): seq<Event> {
    Merged(events, |events|)
  }

  lemma {:induction false} MergedPrefix(a: seq<Event>, b: seq<Event>, n: nat)
    requires n <= |a| && n <= |b| && a[..n] == b[..n]
    ensures Merged(a, n) == Merged(b, n)
  {
    if n > 0 {
      assert a[..n - 1] == a[..n][..n - 1] == b[..n][..n - 1] == b[..n - 1];
      assert a[n - 1] == a[..n][n - 1] == b[..n][n - 1] == b[n - 1];
      MergedPrefix(a, b, n - 1);
    }
  }

  lemma MeaningOfPush(events: seq<Event>, e: Event)
    ensures Meaning(events + [e]) == Push(Meaning(events), e)
  {
    MergedPrefix(events + [e], events, |events|);
  }

  /** Pushing two deltas one after the other is pushing their concatenation. */
  lemma PushTwice(events: seq<Event>, a: Text, b: Text)
    ensures Push(Push(events, TextDelta(a)), TextDelta(b)) == Push(events, TextDelta(a + b))
  {
    var n := |events|;
    if n > 0 && events[n - 1].TextDelta? {
      assert (events[n - 1].text + a) + b == events[n - 1].text + (a + b);
    }
  }

  // ---------------------------------------------------------------- tearing down

  /** What the caller of the generator finally sees. */
  datatype Outcome =
    | Returned
    | Threw(failure: Failure)
    | ThrewAll(failures: seq<Failure>)
    | ThrewCleanup(failures: seq<Failure>)

  predicate IsCleanup(f: Option<Failure>) {
    f.Some? && f.value.kind.CleanupFailed?
  }

  /** Append a failure that is not listed yet. */
  function Include(failures: seq<Failure>, f: Option<Failure>): seq<Failure> {
    if f.Some? && f.value !in failures then failures + [f.value] else failures
  }

  /** The failure of the producer's return(), unless it is the timeout that stopping it provokes. */
  function ReturnFailure(returned: Option<Failure>): Option<Failure> {
    if returned.Some? && returned.value.kind.Timeout? then None else returned
  }

  /**
    The finally block. `primary` is the failure being thrown, `deferred` one that was read but not yet
    thrown, `late` the failure of a read still outstanding, unless that is a cancellation.
   */
  function Conclude(primary: Option<Failure>, deferred: Option<Failure>, late: Option<Failure>,
                    returned: Option<Failure>): Outcome {
    var lateIsNew := late.Some? && late != deferred;
    var cleanupFailed := IsCleanup(deferred) || (lateIsNew && IsCleanup(late)) || ReturnFailure(returned).Some?;
    Throwing(Found(deferred, late, returned), primary, cleanupFailed)
  }

  /** The failures the finally block collects. */
  function Found(deferred: Option<Failure>, late: Option<Failure>, returned: Option<Failure>): seq<Failure> {
    Include(Include(Include([], deferred), late), ReturnFailure(returned))
  }

  /** How the collected failures replace, or leave alone, the failure already being thrown. */
  function Throwing(found: seq<Failure>, primary: Option<Failure>, cleanupFailed: bool): Outcome {
    var failures := WithPrimary(found, primary);
    if cleanupFailed then ThrewCleanup(failures)
    else if |failures| == 1 then Threw(failures[0])
    else if |failures| > 1 then ThrewAll(failures)
    else if primary.Some? then Threw(primary.value)
    else Returned
  }

  /** The failure already being thrown joins the list only when there is another one. */
  function WithPrimary(found: seq<Failure>, primary: Option<Failure>): seq<Failure> {
    if found != [] && primary.Some? && primary.value !in found then [primary.value] + found else found
  }

  ghost function AsSet(fs: seq<Failure>): set<Failure> {
    set f | f in fs
  }

  ghost predicate Distinct(fs: seq<Failure>) {
    forall i, j | 0 <= i < j < |fs| :: fs[i] != fs[j]
  }

  ghost function Reported(o: Outcome): set<Failure> {
    match o
    case Returned => {}
    case Threw(f) => {f}
    case ThrewAll(fs) => AsSet(fs)
    case ThrewCleanup(fs) => AsSet(fs)
  }

  function Known(f: Option<Failure>): set<Failure> {
    if f.Some? then {f.value} else {}
  }

  lemma IncludeAdds(fs: seq<Failure>, f: Option<Failure>)
    requires Distinct(fs)
    ensures AsSet(Include(fs, f)) == AsSet(fs) + Known(f) && Distinct(Include(fs, f))
    ensures |Include(fs, f)| >= |fs|
  {
    var all := Include(fs, f);
    assert forall g :: g in all <==> g in fs || g in Known(f);
  }

  lemma PrimaryAdds(found: seq<Failure>, primary: Option<Failure>)
    requires Distinct(found)
    ensures var all := WithPrimary(found, primary);
            && Distinct(all)
            && AsSet(all) == if found == [] then {} else AsSet(found) + Known(primary)
  {
    var all := WithPrimary(found, primary);
    assert forall g :: g in all <==> g in found || (found != [] && g in Known(primary));
  }

  lemma FewFailures(fs: seq<Failure>)
    ensures AsSet(fs) == {} <==> fs == []
    ensures |fs| == 1 ==> AsSet(fs) == {fs[0]}
  {
    if fs != [] {
      assert fs[0] in AsSet(fs);
    }
  }

  lemma FoundIsComplete(deferred: Option<Failure>, late: Option<Failure>, returned: Option<Failure>)
    ensures AsSet(Found(deferred, late, returned)) == Known(deferred) + Known(late) + Known(ReturnFailure(returned))
    ensures Distinct(Found(deferred, late, returned))
  {
    var none: seq<Failure> := [];
    FewFailures(none);
    IncludeAdds(none, deferred);
    IncludeAdds(Include(none, deferred), late);
    IncludeAdds(Include(Include(none, deferred), late), ReturnFailure(returned));
  }

  lemma ThrowingReportsAll(found: seq<Failure>, primary: Option<Failure>, cleanupFailed: bool)
    requires Distinct(found) && (cleanupFailed ==> found != [])
    ensures var o := Throwing(found, primary, cleanupFailed);
            && Reported(o) == Known(primary) + AsSet(found)
            && (o.Returned? <==> Reported(o) == {})
            && (o.ThrewCleanup? <==> cleanupFailed)
            && (o.ThrewAll? ==> |o.failures| >= 2)
            && (o.ThrewAll? || o.ThrewCleanup? ==> Distinct(o.failures))
  {
    PrimaryAdds(found, primary);
    FewFailures(found);
    FewFailures(WithPrimary(found, primary));
  }

  /**
    Tearing down swallows nothing and invents nothing: the failures reported are exactly those that are
    known, each once, and the outcome is a cleanup failure exactly when cleaning up failed.
   */
  lemma ConcludeReportsEveryFailure(primary: Option<Failure>, deferred: Option<Failure>, late: Option<Failure>,
                                    returned: Option<Failure>)
    ensures var o := Conclude(primary, deferred, late, returned);
            && Reported(o) == Known(primary) + Known(deferred) + Known(late) + Known(ReturnFailure(returned))
            && (o.Returned? <==> Reported(o) == {})
            && (o.ThrewCleanup? <==> IsCleanup(deferred) || IsCleanup(late) || ReturnFailure(returned).Some?)
            && (o.ThrewAll? ==> |o.failures| >= 2)
            && (o.ThrewAll? || o.ThrewCleanup? ==> Distinct(o.failures))
  {
    FoundIsComplete(deferred, late, returned);
    var found := Found(deferred, late, returned);
    var cleanupFailed := IsCleanup(deferred) || IsCleanup(late) || ReturnFailure(returned).Some?;
    assert Conclude(primary, deferred, late, returned) == Throwing(found, primary, cleanupFailed);
    if cleanupFailed {
      SomethingFound(found, Known(deferred), Known(late), Known(ReturnFailure(returned)));
    }
    ThrowingReportsAll(found, primary, cleanupFailed);
    UnionsAgree(Known(primary), Known(deferred), Known(late), Known(ReturnFailure(returned)));
  }

  lemma SomethingFound(found: seq<Failure>, a: set<Failure>, b: set<Failure>, c: set<Failure>)
    requires AsSet(found) == a + b + c && (a != {} || b != {} || c != {})
    ensures found != []
  {
    var f :| f in a + b + c;
    assert f in AsSet(found);
  }

  lemma UnionsAgree(a: set<Failure>, b: set<Failure>, c: set<Failure>, d: set<Failure>)
    ensures a + (b + c + d) == a + b + c + d
  {
  }

  // ---------------------------------------------------------------- the generator

  /** What the generator has read beyond its last output when the consumer stops. */
  datatype Ahead = Nothing | Outstanding | Examined

  /** How the generator ends when it has emitted the first `covered` events and is then torn down. */
  function Ending(input: seq<Event>, end: End, covered: nat, stopped: bool, ahead: Ahead,
                  cancelled: bool, returned: Option<Failure>): Outcome {
    var next := ReadAt(input, end, covered);
    var failure := if next.Failed? then Some(next.failure) else None;
    if !stopped then Conclude(failure, None, None, returned)
    else match ahead
      case Nothing => Conclude(None, None, None, returned)
      case Outstanding => Conclude(None, None, if cancelled then None else failure, returned)
      case Examined => Conclude(None, failure, None, returned)
  }

  /**
    Is the failure of the producer to be reported? It is when nobody stops the generator; otherwise when the
    read that fails has been examined, or was outstanding and is no cancellation.
   */
  predicate Surfaces(input: seq<Event>, end: End, covered: nat, stopped: bool, ahead: Ahead, cancelled: bool) {
    && end.Fails?
    && (stopped ==> covered == |input| && (ahead.Examined? || (ahead.Outstanding? && !cancelled)))
  }

  /**
    How a run ends. A failure of return() other than the timeout that stopping provokes is a cleanup failure,
    which lists the producer's failure first. Without one, the producer's failure is thrown as it is, unless
    it is a cleanup failure that was found on tearing down.
   */
  predicate EndsWith(surfaces: bool, end: End, stopped: bool, returned: Option<Failure>, outcome: Outcome)
    requires surfaces ==> end.Fails?
  {
    if returned.Some? && !returned.value.kind.Timeout? then
      outcome == ThrewCleanup(
        if surfaces && end.failure != returned.value then [end.failure, returned.value] else [returned.value])
    else if surfaces then
      outcome == if stopped && end.failure.kind.CleanupFailed? then ThrewCleanup([end.failure]) else Threw(end.failure)
    else outcome == Returned
  }

  lemma EndingReports(input: seq<Event>, end: End, covered: nat, stopped: bool, ahead: Ahead,
                      cancelled: bool, returned: Option<Failure>)
    requires covered <= |input| && (!stopped ==> covered == |input|)
    ensures var outcome := Ending(input, end, covered, stopped, ahead, cancelled, returned);
      var surfaces := Surfaces(input, end, covered, stopped, ahead, cancelled);
      EndsWith(surfaces, end, stopped, returned, outcome)
  {
    var next := ReadAt(input, end, covered);
    assert next.Failed? <==> end.Fails? && covered == |input|;
    var r := ReturnFailure(returned);
    if end.Fails? {
      var f := end.failure;
      assert Include([], Some(f)) == [f];
      assert Found(Some(f), None, returned) == Include([f], r) == Found(None, Some(f), returned);
    }
    assert Found(None, None, returned) == Include([], r);
  }

  predicate OneDelta(input: seq<Event>, text: Text) {
    TextDelta(text) in input
  }

  /** No output exceeds the frame budget unless it is a single delta of the producer. */
  predicate WithinFrames(input: seq<Event>, output: seq<Event>) {
    forall e | e in output && e.TextDelta? :: OneDelta(input, e.text) || ByteLength(e.text) <= 131072
  }

  predicate AllText(input: seq<Event>, start: nat, read: nat)
    requires start <= read <= |input|
  {
    forall n | start <= n < read :: input[n].TextDelta?
  }

  /** The text of the deltas from `start` up to `read`. */
  function Joined(input: seq<Event>, start: nat, read: nat): Text
    requires start <= read <= |input| && AllText(input, start, read)
    decreases read
  {
    if read == start then [] else Joined(input, start, read - 1) + input[read - 1].text
  }

  /** The running count: the bytes of the deltas, each encoded on its own. */
  function Counted(input: seq<Event>, start: nat, read: nat): nat
    requires start <= read <= |input| && AllText(input, start, read)
    decreases read
  {
    if read == start then 0 else Counted(input, start, read - 1) + ByteLength(input[read - 1].text)
  }

  lemma JoinedOnce(input: seq<Event>, start: nat)
    requires start < |input| && input[start].TextDelta?
    ensures Joined(input, start, start + 1) == input[start].text
    ensures OneDelta(input, Joined(input, start, start + 1))
  {
    assert input[start] in input;
  }

  /** Joining deltas one by one is merging them. */
  lemma {:induction false} JoiningMerges(input: seq<Event>, start: nat, read: nat)
    requires start < read <= |input| && AllText(input, start, read)
    ensures Push(Merged(input, start), TextDelta(Joined(input, start, read))) == Merged(input, read)
  {
    if read == start + 1 {
      assert Joined(input, start, read) == input[start].text;
    } else {
      JoiningMerges(input, start, read - 1);
      PushTwice(Merged(input, start), Joined(input, start, read - 1), input[read - 1].text);
    }
  }

  /**
    The count never falls short of the joined text, and is over by at most two bytes for each join, which may
    have completed a surrogate pair.
   */
  lemma {:induction false} CountCoversTheText(input: seq<Event>, start: nat, read: nat)
    requires start < read <= |input| && AllText(input, start, read)
    ensures ByteLength(Joined(input, start, read))
      <= Counted(input, start, read)
      <= ByteLength(Joined(input, start, read)) + 2 * (read - start - 1)
  {
    hide ByteLength, JoinsPair;
    if read == start + 1 {
      JoinedOnce(input, start);
    } else {
      CountCoversTheText(input, start, read - 1);
      ByteLengthOfConcat(Joined(input, start, read - 1), input[read - 1].text);
    }
  }

  /** Does the read at position n end a batch of so many bytes? */
  predicate EndsBatch(input: seq<Event>, n: nat, bytes: nat) {
    n >= |input| || !input[n].TextDelta? || bytes + ByteLength(input[n].text) > BATCH_BYTES
  }

  /** Why the batch is emitted before the event at `read` is joined to it, if it is. */
  function Emits(input: seq<Event>, read: nat, bytes: nat, late: set<nat>): Option<Ahead> {
    if bytes >= BATCH_BYTES || read in late then Some(Outstanding)
    else if EndsBatch(input, read, bytes) then Some(Examined)
    else None
  }

  /** Where the batch that starts at `start` ends: the first position from n on at which it is emitted. */
  function BatchEnd(input: seq<Event>, start: nat, n: nat, late: set<nat>): (end: nat)
    requires start < n <= |input| && AllText(input, start, n)
    ensures n <= end <= |input| && AllText(input, start, end)
    ensures Emits(input, end, Counted(input, start, end), late).Some?
    ensures forall k | n <= k < end :: Emits(input, k, Counted(input, start, k), late).None?
    decreases |input| - n
  {
    if Emits(input, n, Counted(input, start, n), late).Some? then n else BatchEnd(input, start, n + 1, late)
  }

  /** A batch is due before the event at `n`: it is full, the timer has fired, or the event does not fit in. */
  predicate Due(input: seq<Event>, start: nat, n: nat, late: set<nat>)
    requires start <= n <= |input| && AllText(input, start, n)
  {
    || Counted(input, start, n) >= 131072
    || n in late
    || n == |input|
    || !input[n].TextDelta?
    || Counted(input, start, n) + ByteLength(input[n].text) > 131072
  }

  /**
    A batch ends at the first position at which it is due, and nowhere else. The event there is still being
    read if the batch was full or the timer fired, and has been examined otherwise.
   */
  lemma BatchEndsExactlyWhenDue(input: seq<Event>, start: nat, late: set<nat>)
    requires start < |input| && input[start].TextDelta?
    ensures var end := BatchEnd(input, start, start + 1, late);
      && Due(input, start, end, late)
      && (forall n | start < n < end :: !Due(input, start, n, late))
      && var ahead := Emits(input, end, Counted(input, start, end), late);
         && (ahead == Some(Outstanding) <==> Counted(input, start, end) >= 131072 || end in late)
         && (ahead == Some(Examined) <==> Counted(input, start, end) < 131072 && end !in late)
  {
    var end := BatchEnd(input, start, start + 1, late);
    forall n | start < n < end
      ensures !Due(input, start, n, late)
    {
      assert Emits(input, n, Counted(input, start, n), late).None?;
    }
  }

  /** All outputs of a run that nobody stops, when `output` are those for the events before `from`. */
  function Completed(input: seq<Event>, late: set<nat>, from: nat, output: seq<Event>): seq<Event>
    requires from <= |input|
    decreases |input| - from
  {
    if from == |input| then output
    else if input[from].Control? then Completed(input, late, from + 1, output + [input[from]])
    else
      var end := BatchEnd(input, from, from + 1, late);
      Completed(input, late, end, output + [TextDelta(Joined(input, from, end))])
  }

  lemma {:induction false} CompletedExtends(input: seq<Event>, late: set<nat>, from: nat, output: seq<Event>)
    requires from <= |input|
    ensures output <= Completed(input, late, from, output)
    decreases |input| - from
  {
    if from < |input| {
      if input[from].Control? {
        CompletedExtends(input, late, from + 1, output + [input[from]]);
      } else {
        var end := BatchEnd(input, from, from + 1, late);
        CompletedExtends(input, late, end, output + [TextDelta(Joined(input, from, end))]);
      }
    }
  }

  /** The output for the events from `from` up to `covered`, and what has become of the read after them. */
  predicate Piece(input: seq<Event>, late: set<nat>, from: nat, covered: nat, e: Event, ahead: Ahead) {
    && from < covered <= |input|
    && if input[from].Control? then covered == from + 1 && e == input[from] && ahead == Nothing
       else
         && AllText(input, from, covered) && covered == BatchEnd(input, from, from + 1, late)
         && e == TextDelta(Joined(input, from, covered))
         && Some(ahead) == Emits(input, covered, Counted(input, from, covered), late)
  }

  /**
    The inner loop: starting from a delta at position `start`, read and join until the batch is due.
    `read` counts the events consumed into the batch; `ahead` says whether the event after it has been
    examined or is still being read.
   */
  method JoinBatch(input: seq<Event>, start: nat, late: set<nat>)
    returns (text: Text, bytes: nat, read: nat, ahead: Ahead)
    requires start < |input| && input[start].TextDelta?
    ensures start < read <= |input| && AllText(input, start, read)
    ensures text == Joined(input, start, read) && bytes == Counted(input, start, read)
    ensures read > start + 1 ==> bytes <= BATCH_BYTES
    ensures read == BatchEnd(input, start, start + 1, late)
    ensures Emits(input, read, bytes, late) == Some(ahead)
    ensures forall n | start < n < read :: Emits(input, n, Counted(input, start, n), late) == None
  {
    hide ByteLength;
    text, bytes := input[start].text, ByteLength(input[start].text);
    read := start + 1;
    assert text == Joined(input, start, start) + text;
    while true
      invariant start < read <= |input| && AllText(input, start, read)
      invariant text == Joined(input, start, read) && bytes == Counted(input, start, read)
      invariant read > start + 1 ==> bytes <= BATCH_BYTES
      invariant BatchEnd(input, start, start + 1, late) == BatchEnd(input, start, read, late)
      decreases |input| - read
    {
      var emits := Emits(input, read, bytes, late);
      if emits.Some? {
        ahead := emits.value;
        return;
      }
      text := text + input[read].text;
      bytes := bytes + ByteLength(input[read].text);
      read := read + 1;
    }
  }

  /** The outputs so far mean the covered events and keep within their frames. */
  predicate Covers(input: seq<Event>, output: seq<Event>, covered: nat) {
    && |output| <= covered <= |input|
    && Meaning(output) == Merged(input, covered)
    && WithinFrames(input, output)
  }

  lemma ControlIsCovered(input: seq<Event>, output: seq<Event>, covered: nat)
    requires Covers(input, output, covered) && covered < |input| && input[covered].Control?
    ensures Covers(input, output + [input[covered]], covered + 1)
  {
    MeaningOfPush(output, input[covered]);
    hide ByteLength;
  }

  lemma BatchIsCovered(input: seq<Event>, output: seq<Event>, covered: nat, read: nat)
    requires Covers(input, output, covered) && covered < read <= |input| && AllText(input, covered, read)
    requires read > covered + 1 ==> Counted(input, covered, read) <= BATCH_BYTES
    ensures Covers(input, output + [TextDelta(Joined(input, covered, read))], read)
  {
    hide ByteLength, Joined, Counted;
    MeaningOfPush(output, TextDelta(Joined(input, covered, read)));
    JoiningMerges(input, covered, read);
    CountCoversTheText(input, covered, read);
    if read == covered + 1 {
      JoinedOnce(input, covered);
    }
  }

  /** The next output: a control event as it is, or the batch that starts here. */
  method NextOutput(input: seq<Event>, late: set<nat>, from: nat, ghost output: seq<Event>)
    returns (e: Event, covered: nat, ahead: Ahead)
    requires from < |input| && Covers(input, output, from)
    ensures Piece(input, late, from, covered, e, ahead)
    ensures Completed(input, late, from, output) == Completed(input, late, covered, output + [e])
    ensures Covers(input, output + [e], covered)
  {
    if input[from].Control? {
      ControlIsCovered(input, output, from);
      return input[from], from + 1, Nothing;
    }
    var text, bytes, read, beyond := JoinBatch(input, from, late);
    BatchIsCovered(input, output, from, read);
    return TextDelta(text), read, beyond;
  }

  lemma PieceMovesOn(input: seq<Event>, late: set<nat>, from: nat, covered: nat, e: Event, ahead: Ahead)
    requires Piece(input, late, from, covered, e, ahead)
    ensures from < covered <= |input|
  {
  }

  lemma CoversCounts(input: seq<Event>, output: seq<Event>, covered: nat)
    requires Covers(input, output, covered)
    ensures |output| <= covered
  {
  }

  lemma CoveredMeans(input: seq<Event>, late: set<nat>, output: seq<Event>, covered: nat)
    requires Covers(input, output, covered)
    ensures Meaning(output) == Merged(input, covered) && WithinFrames(input, output)
    ensures covered == |input| ==>
      Meaning(output) == Meaning(input) && Completed(input, late, covered, output) == output
  {
  }

  /** The consumer stops exactly when it has got as many outputs as it wants. */
  predicate StopsAt(stopAfter: Option<nat>, stopped: bool, outputs: nat) {
    && (stopped ==> stopAfter == Some(outputs))
    && (!stopped && stopAfter.Some? ==> outputs < stopAfter.value)
  }

  lemma StopsMeans(stopAfter: Option<nat>, stopped: bool, outputs: nat)
    requires StopsAt(stopAfter, stopped, outputs)
    ensures if stopped then stopAfter == Some(outputs) else stopAfter.Some? ==> outputs < stopAfter.value
  {
  }

  lemma StopsNext(stopAfter: Option<nat>, outputs: nat)
    requires StopsAt(stopAfter, false, outputs)
    ensures StopsAt(stopAfter, stopAfter == Some(outputs + 1), outputs + 1)
  {
  }

  /** The last output is the piece that starts at `last`, and decides what is read ahead. */
  predicate EndsIn(input: seq<Event>, late: set<nat>, output: seq<Event>, last: nat, covered: nat, ahead: Ahead) {
    if |output| == 0 then ahead == Nothing else Piece(input, late, last, covered, output[|output| - 1], ahead)
  }

  lemma EndsInPiece(
      input: seq<Event>, late: set<nat>, output: seq<Event>, last: nat, covered: nat, e: Event, ahead: Ahead)
    requires Piece(input, late, last, covered, e, ahead)
    ensures EndsIn(input, late, output + [e], last, covered, ahead)
  {
  }

  lemma EndsInMeans(input: seq<Event>, late: set<nat>, output: seq<Event>, last: nat, covered: nat, ahead: Ahead)
    requires EndsIn(input, late, output, last, covered, ahead)
    ensures output == [] ==> ahead == Nothing
    ensures output != [] ==> Piece(input, late, last, covered, output[|output| - 1], ahead)
  {
  }

  /** The outer loop: output after output, until the input ends or the consumer stops. */
  method EmitAll(input: seq<Event>, late: set<nat>, stopAfter: Option<nat>)
    returns (output: seq<Event>, covered: nat, stopped: bool, ahead: Ahead, ghost last: nat)
    requires stopAfter.Some? ==> stopAfter.value > 0
    ensures |output| <= covered <= |input| && Covers(input, output, covered)
    ensures Completed(input, late, 0, []) == Completed(input, late, covered, output)
    ensures EndsIn(input, late, output, last, covered, ahead)
    ensures StopsAt(stopAfter, stopped, |output|) && (!stopped ==> covered == |input|)
  {
    output, covered, stopped, ahead, last := [], 0, false, Nothing, 0;
    assert Covers(input, output, covered) && StopsAt(stopAfter, stopped, |output|);
    assert EndsIn(input, late, output, last, covered, ahead);
    hide *;
    while covered < |input| && !stopped
      invariant |output| <= covered <= |input| && Covers(input, output, covered)
      invariant Completed(input, late, 0, []) == Completed(input, late, covered, output)
      invariant EndsIn(input, late, output, last, covered, ahead)
      invariant StopsAt(stopAfter, stopped, |output|)
      decreases |input| - covered
    {
      var e, next, beyond := NextOutput(input, late, covered, output);
      PieceMovesOn(input, late, covered, next, e, beyond);
      CoversCounts(input, output + [e], next);
      StopsNext(stopAfter, |output|);
      EndsInPiece(input, late, output, covered, next, e, beyond);
      last := covered;
      output, covered, ahead := output + [e], next, beyond;
      stopped := stopAfter == Some(|output|);
    }
  }

  /**
    The generator. `stopAfter`: the consumer stops after that many outputs; `cancelled`: the outstanding
    read ended as a cancellation; `returned`: the producer's return() failed.

    For every input, every outcome of every race and every consumer, the outputs mean what the events they
    cover mean, no output exceeds its frame, and unless the consumer stops, they cover the whole input
    before its failure, if any, is thrown. They are a prefix of the batches that the races determine; the
    last one starts at `last` and decides what is read ahead.
   */
  method Batches(input: seq<Event>, end: End, late: set<nat>, stopAfter: Option<nat>,
                 cancelled: bool, returned: Option<Failure>)
    returns (output: seq<Event>, covered: nat, stopped: bool, ahead: Ahead, outcome: Outcome, ghost last: nat)
    requires stopAfter.Some? ==> stopAfter.value > 0
    ensures covered <= |input| && Meaning(output) == Merged(input, covered)
    ensures WithinFrames(input, output)
    ensures |output| <= covered
    ensures stopped <==> stopAfter.Some? && stopAfter.value <= |Completed(input, late, 0, [])|
    ensures stopped ==> stopAfter == Some(|output|)
    ensures !stopped ==> covered == |input| && Meaning(output) == Meaning(input)
    ensures output <= Completed(input, late, 0, [])
    ensures !stopped ==> output == Completed(input, late, 0, [])
    ensures output == [] ==> ahead == Nothing
    ensures output != [] ==> Piece(input, late, last, covered, output[|output| - 1], ahead)
    ensures EndsWith(Surfaces(input, end, covered, stopped, ahead, cancelled), end, stopped, returned, outcome)
  {
    hide *;
    output, covered, stopped, ahead, last := EmitAll(input, late, stopAfter);
    CoveredMeans(input, late, output, covered);
    CompletedExtends(input, late, covered, output);
    StopsMeans(stopAfter, stopped, |output|);
    EndsInMeans(input, late, output, last, covered, ahead);
    EndingReports(input, end, covered, stopped, ahead, cancelled, returned);
    outcome := Ending(input, end, covered, stopped, ahead, cancelled, returned);
  }

  /** Batching cannot be seen through merging: merging what is already merged changes nothing. */
  lemma {:induction false} MeaningIsIdempotent(events: seq<Event>, n: nat)
    requires n <= |events|
    ensures Meaning(Merged(events, n)) == Merged(events, n)
  {
    if n > 0 {
      MeaningIsIdempotent(events, n - 1);
      var before := Merged(events, n - 1);
      var e := events[n - 1];
      var k := |before|;
      if k > 0 && before[k - 1].TextDelta? && e.TextDelta? {
        assert before[..k - 1] + [before[k - 1]] == before;
        MeaningOfPush(before[..k - 1], before[k - 1]);
        MeaningOfPush(before[..k - 1], TextDelta(before[k - 1].text + e.text));
        PushTwice(Meaning(before[..k - 1]), before[k - 1].text, e.text);
      } else {
        MeaningOfPush(before, e);
      }
    }
  }
}
