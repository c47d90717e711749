/**
  The failure classes of the agent: the recursive classifiers, the two aggregators, and what counts as a
  drain failure. Failures are trees, because an aggregate lists the failures it was made from.
 */
module AgentFailures {

  datatype Code = StorageUnavailable | OperationUnknown | InternalFailure | LimitExceeded | Forbidden
                | ProviderRequestFailed | OtherCode

  datatype Failure =
    | Agent(code: Code)
    | StorageStatement
    | CapacityBusy
    | ContextLimit
    | CapabilityDenied
    | ResourceFenced(cause: seq<Failure>)
    | ProviderRequest
    | OperationRefusal
    | MutationAdmissionRefusal
    | ExecutionFailure
    | ExecutionUnknown(cause: seq<Failure>)
    | CleanupFailure(cause: seq<Failure>)
    | Aggregate(errors: seq<Failure>)
    | Foreign(id: nat)

  // ---------------------------------------------------------------- the class hierarchy

  predicate IsAgentFailure(f: Failure) {
    !(f.OperationRefusal? || f.MutationAdmissionRefusal? || f.ExecutionFailure? || f.Aggregate? || f.Foreign?)
  }

  predicate IsExecutionUnknown(f: Failure) {
    f.ExecutionUnknown? || f.CleanupFailure?
  }

  predicate IsOperationRefusal(f: Failure) {
    f.OperationRefusal? || f.MutationAdmissionRefusal?
  }

  function CodeOf(f: Failure): Code
    requires IsAgentFailure(f)
  {
    match f
    case Agent(code) => code
    case StorageStatement => InternalFailure
    case CapacityBusy => LimitExceeded
    case ContextLimit => LimitExceeded
    case CapabilityDenied => Forbidden
    case ProviderRequest => ProviderRequestFailed
    case _ => OperationUnknown
  }

  // ---------------------------------------------------------------- the classifiers

  predicate Fenced(f: Failure) {
    f.ResourceFenced? || (f.Aggregate? && f.errors != [] && forall e | e in f.errors :: Fenced(e))
  }

  predicate Unconfirmed(f: Failure) {
    IsExecutionUnknown(f) || (f.Aggregate? && f.errors != [] && forall e | e in f.errors :: Unconfirmed(e))
  }

  predicate CleanupFailed(f: Failure) {
    f.CleanupFailure? || (f.Aggregate? && exists e | e in f.errors :: CleanupFailed(e))
  }

  predicate AllFenced(fs: seq<Failure>) {
    fs != [] && forall f | f in fs :: Fenced(f)
  }

  predicate AllUnconfirmed(fs: seq<Failure>) {
    fs != [] && forall f | f in fs :: Unconfirmed(f)
  }

  predicate SomeCleanup(fs: seq<Failure>) {
    exists f | f in fs :: CleanupFailed(f)
  }

  function AggregateAgent(failures: seq<Failure>): Failure {
    if AllFenced(failures) then ResourceFenced(failures) else Agent(OperationUnknown)
  }

  function AggregateTool(failures: seq<Failure>): Failure {
    if AllFenced(failures) then ResourceFenced(failures)
    else if AllUnconfirmed(failures) then
      if SomeCleanup(failures) then CleanupFailure(failures) else ExecutionUnknown(failures)
    else Aggregate(failures)
  }

  predicate IsDrainFailure(f: Failure) {
    if IsOperationRefusal(f) || f.ResourceFenced? || f.ExecutionFailure? then false
    else
      || !IsAgentFailure(f)
      || CodeOf(f).StorageUnavailable? || CodeOf(f).OperationUnknown? || CodeOf(f).InternalFailure?
  }

  // ---------------------------------------------------------------- grouping

  /** What the callers of an aggregator distinguish. */
  datatype Class = Fence | Unknown | CleanupUnknown | Other

  function ClassOf(f: Failure): Class {
    if Fenced(f) then Fence
    else if Unconfirmed(f) then (if CleanupFailed(f) then CleanupUnknown else Unknown)
    else Other
  }

  /** A way of aggregating: a single failure, or an aggregate of aggregates. */
  datatype Grouping = Single(failure: Failure) | Group(members: seq<Grouping>)

  /** No group is empty. */
  predicate Inhabited(g: Grouping) {
    g.Group? ==> g.members != [] && forall m | m in g.members :: Inhabited(m)
  }

  function Evaluate(g: Grouping): Failure {
    match g
    case Single(f) => f
    case Group(members) => AggregateTool(EvaluateAll(members))
  }

  function EvaluateAll(gs: seq<Grouping>): (fs: seq<Failure>)
    ensures |fs| == |gs|
    ensures forall i | 0 <= i < |gs| :: fs[i] == Evaluate(gs[i])
  {
    seq(|gs|, i requires 0 <= i < |gs| => Evaluate(gs[i]))
  }

  /** The failures of a grouping, from left to right, without the grouping. */
  function Flat(g: Grouping): seq<Failure> {
    match g
    case Single(f) => [f]
    case Group(members) => FlatAll(members)
  }

  function FlatAll(gs: seq<Grouping>): seq<Failure> {
    if gs == [] then [] else Flat(gs[0]) + FlatAll(gs[1..])
  }

  /** No failure is fenced and unconfirmed at once, and no fenced failure reports a failed cleanup. */
  lemma {:induction false} FencedExcludesOthers(f: Failure)
    requires Fenced(f)
    ensures !Unconfirmed(f) && !CleanupFailed(f)
    decreases f
  {
    if f.Aggregate? {
      forall e | e in f.errors
        ensures !Unconfirmed(e) && !CleanupFailed(e)
      {
        FencedExcludesOthers(e);
      }
      assert f.errors[0] in f.errors;
    }
  }

  /** What the classifiers say of an aggregate is what they say of all, or of some, of its members. */
  lemma AggregateClassifiers(fs: seq<Failure>)
    ensures Fenced(AggregateTool(fs)) <==> AllFenced(fs)
    ensures Unconfirmed(AggregateTool(fs)) <==> AllUnconfirmed(fs)
    ensures CleanupFailed(AggregateTool(fs)) <==> SomeCleanup(fs)
  {
    if AllFenced(fs) {
      forall f | f in fs
        ensures !Unconfirmed(f) && !CleanupFailed(f)
      {
        FencedExcludesOthers(f);
      }
      assert fs[0] in fs;
    }
  }

  /** The classifiers see through any grouping, however deep. */
  lemma {:induction false} GroupingKeepsClassifiers(g: Grouping)
    requires Inhabited(g)
    ensures Flat(g) != []
    ensures Fenced(Evaluate(g)) <==> AllFenced(Flat(g))
    ensures Unconfirmed(Evaluate(g)) <==> AllUnconfirmed(Flat(g))
    ensures CleanupFailed(Evaluate(g)) <==> SomeCleanup(Flat(g))
    decreases g
  {
    match g
    case Single(f) =>
      assert f in [f];
    case Group(members) =>
      AggregateClassifiers(EvaluateAll(members));
      MembersKeepClassifiers(members);
  }

  /** The classifiers of a list are those of its parts. */
  lemma ConcatClassifiers(a: seq<Failure>, b: seq<Failure>)
    requires a != [] && b != []
    ensures AllFenced(a + b) <==> AllFenced(a) && AllFenced(b)
    ensures AllUnconfirmed(a + b) <==> AllUnconfirmed(a) && AllUnconfirmed(b)
    ensures SomeCleanup(a + b) <==> SomeCleanup(a) || SomeCleanup(b)
  {
    hide Fenced, Unconfirmed, CleanupFailed;
    assert forall f :: f in a + b <==> f in a || f in b;
  }

  lemma SingleClassifiers(f: Failure)
    ensures AllFenced([f]) <==> Fenced(f)
    ensures AllUnconfirmed([f]) <==> Unconfirmed(f)
    ensures SomeCleanup([f]) <==> CleanupFailed(f)
  {
    hide Fenced, Unconfirmed, CleanupFailed;
    assert f in [f];
  }

  lemma {:induction false} MembersKeepClassifiers(gs: seq<Grouping>)
    requires gs != [] && forall m | m in gs :: Inhabited(m)
    ensures FlatAll(gs) != []
    ensures AllFenced(EvaluateAll(gs)) <==> AllFenced(FlatAll(gs))
    ensures AllUnconfirmed(EvaluateAll(gs)) <==> AllUnconfirmed(FlatAll(gs))
    ensures SomeCleanup(EvaluateAll(gs)) <==> SomeCleanup(FlatAll(gs))
    decreases gs
  {
    hide Fenced, Unconfirmed, CleanupFailed, AllFenced, AllUnconfirmed, SomeCleanup, Evaluate, Flat;
    var head, tail := gs[0], gs[1..];
    assert head in gs;
    GroupingKeepsClassifiers(head);
    SingleClassifiers(Evaluate(head));
    assert EvaluateAll(gs) == [Evaluate(head)] + EvaluateAll(tail);
    if tail == [] {
      assert FlatAll(gs) == Flat(head) && EvaluateAll(gs) == [Evaluate(head)];
    } else {
      assert forall m | m in tail :: m in gs;
      MembersKeepClassifiers(tail);
      ConcatClassifiers([Evaluate(head)], EvaluateAll(tail));
      ConcatClassifiers(Flat(head), FlatAll(tail));
    }
  }

  /** Grouping does not matter: aggregating aggregates gives the class of aggregating the flat list. */
  lemma GroupingDoesNotMatter(g: Grouping)
    requires Inhabited(g)
    ensures ClassOf(Evaluate(g)) == ClassOf(AggregateTool(Flat(g)))
  {
    GroupingKeepsClassifiers(g);
    AggregateClassifiers(Flat(g));
  }

  // ---------------------------------------------------------------- drain failures

  /** The failures at the leaves of a tree of aggregates. */
  ghost predicate Leaf(x: Failure, f: Failure)
    decreases f
  {
    if f.Aggregate? then exists e | e in f.errors :: Leaf(x, e) else x == f
  }

  /** Some aggregate in the tree is empty. */
  ghost predicate HasEmptyAggregate(f: Failure)
    decreases f
  {
    f.Aggregate? && (f.errors == [] || exists e | e in f.errors :: HasEmptyAggregate(e))
  }

  lemma {:induction false} FencedMeansEveryLeafIsAFence(f: Failure)
    ensures Fenced(f) <==> !HasEmptyAggregate(f) && forall x | Leaf(x, f) :: x.ResourceFenced?
    decreases f
  {
    if f.Aggregate? {
      forall e | e in f.errors
        ensures Fenced(e) <==> !HasEmptyAggregate(e) && forall x | Leaf(x, e) :: x.ResourceFenced?
      {
        FencedMeansEveryLeafIsAFence(e);
      }
      forall e, x | e in f.errors && Leaf(x, e)
        ensures Leaf(x, f)
      {
      }
    } else {
      assert Leaf(f, f);
    }
  }

  /**
    An agent aggregate is not a drain failure exactly when it is made of something and every leaf below
    it is a resource fence.
   */
  lemma AgentAggregateIsNoDrainFailureExactlyWhenFenced(fs: seq<Failure>)
    ensures !IsDrainFailure(AggregateAgent(fs))
       <==> fs != [] && forall f | f in fs :: !HasEmptyAggregate(f) && forall x | Leaf(x, f) :: x.ResourceFenced?
    ensures IsAgentFailure(AggregateAgent(fs)) && CodeOf(AggregateAgent(fs)) == OperationUnknown
  {
    forall f | f in fs
      ensures Fenced(f) <==> !HasEmptyAggregate(f) && forall x | Leaf(x, f) :: x.ResourceFenced?
    {
      FencedMeansEveryLeafIsAFence(f);
    }
  }

  lemma {:induction false} UnconfirmedMeansEveryLeafIsUnknown(f: Failure)
    ensures Unconfirmed(f) <==> !HasEmptyAggregate(f) && forall x | Leaf(x, f) :: IsExecutionUnknown(x)
    decreases f
  {
    if f.Aggregate? {
      forall e | e in f.errors
        ensures Unconfirmed(e) <==> !HasEmptyAggregate(e) && forall x | Leaf(x, e) :: IsExecutionUnknown(x)
      {
        UnconfirmedMeansEveryLeafIsUnknown(e);
      }
      forall e, x | e in f.errors && Leaf(x, e)
        ensures Leaf(x, f)
      {
      }
    } else {
      assert Leaf(f, f);
    }
  }

  lemma {:induction false} CleanupFailedMeansSomeLeafIs(f: Failure)
    ensures CleanupFailed(f) <==> exists x :: Leaf(x, f) && x.CleanupFailure?
    decreases f
  {
    if f.Aggregate? {
      forall e | e in f.errors
        ensures CleanupFailed(e) <==> exists x :: Leaf(x, e) && x.CleanupFailure?
      {
        CleanupFailedMeansSomeLeafIs(e);
      }
      forall e, x | e in f.errors && Leaf(x, e)
        ensures Leaf(x, f)
      {
      }
    } else {
      assert Leaf(f, f);
    }
  }

  /** The list is made of something, down to the leaves. */
  ghost predicate Made(fs: seq<Failure>) {
    fs != [] && forall f | f in fs :: !HasEmptyAggregate(f)
  }

  ghost predicate LeafOf(x: Failure, fs: seq<Failure>) {
    exists f | f in fs :: Leaf(x, f)
  }

  /**
    What a tool aggregate is follows from the leaves below it: a fence if all are fences, an uncertain
    execution if all are uncertain, and a failed cleanup if one of those is; otherwise the list as it is.
   */
  lemma ToolAggregateFollowsItsLeaves(fs: seq<Failure>)
    ensures var fenced := Made(fs) && forall x | LeafOf(x, fs) :: x.ResourceFenced?;
      var uncertain := Made(fs) && forall x | LeafOf(x, fs) :: x.ExecutionUnknown? || x.CleanupFailure?;
      var unclean := exists x :: LeafOf(x, fs) && x.CleanupFailure?;
      AggregateTool(fs)
      == (if fenced then ResourceFenced(fs)
          else if uncertain && unclean then CleanupFailure(fs)
          else if uncertain then ExecutionUnknown(fs)
          else Aggregate(fs))
  {
    AllFencedByLeaves(fs);
    AllUnconfirmedByLeaves(fs);
    SomeCleanupByLeaves(fs);
    hide AllFenced, AllUnconfirmed, SomeCleanup, LeafOf, Made;
  }

  lemma AllFencedByLeaves(fs: seq<Failure>)
    ensures AllFenced(fs) <==> Made(fs) && forall x | LeafOf(x, fs) :: x.ResourceFenced?
  {
    forall f | f in fs
      ensures Fenced(f) <==> !HasEmptyAggregate(f) && forall x | Leaf(x, f) :: x.ResourceFenced?
    {
      FencedMeansEveryLeafIsAFence(f);
    }
    assert forall f, x | f in fs && Leaf(x, f) :: LeafOf(x, fs);
    hide Fenced, Leaf, HasEmptyAggregate;
  }

  lemma AllUnconfirmedByLeaves(fs: seq<Failure>)
    ensures AllUnconfirmed(fs) <==> Made(fs) && forall x | LeafOf(x, fs) :: x.ExecutionUnknown? || x.CleanupFailure?
  {
    forall f | f in fs
      ensures Unconfirmed(f) <==> !HasEmptyAggregate(f) && forall x | Leaf(x, f) :: IsExecutionUnknown(x)
    {
      UnconfirmedMeansEveryLeafIsUnknown(f);
    }
    assert forall f, x | f in fs && Leaf(x, f) :: LeafOf(x, fs);
    hide Unconfirmed, Leaf, HasEmptyAggregate;
  }

  lemma SomeCleanupByLeaves(fs: seq<Failure>)
    ensures SomeCleanup(fs) <==> exists x :: LeafOf(x, fs) && x.CleanupFailure?
  {
    forall f | f in fs
      ensures CleanupFailed(f) <==> exists x :: Leaf(x, f) && x.CleanupFailure?
    {
      CleanupFailedMeansSomeLeafIs(f);
    }
    assert forall f, x | f in fs && Leaf(x, f) :: LeafOf(x, fs);
    hide CleanupFailed, Leaf;
  }

  /** Each failure that is expected and no evidence against the shutdown. */
  predicate Expected(f: Failure) {
    match f
    case Agent(code) => code in {LimitExceeded, Forbidden, ProviderRequestFailed, OtherCode}
    case StorageStatement => false
    case ExecutionUnknown(_) => false
    case CleanupFailure(_) => false
    case Aggregate(_) => false
    case Foreign(_) => false
    case _ => true
  }

  /**
    Exactly the unexpected failures are drain failures; and an aggregate of tool failures is one, unless it is
    made of fences alone.
   */
  lemma DrainFailuresAreTheUnexpectedOnes(f: Failure, fs: seq<Failure>)
    ensures IsDrainFailure(f) <==> !Expected(f)
    ensures IsDrainFailure(AggregateTool(fs)) <==> !(Made(fs) && forall x | LeafOf(x, fs) :: x.ResourceFenced?)
  {
    ToolAggregateFollowsItsLeaves(fs);
  }
}
