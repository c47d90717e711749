/**
  The dependency closure check of a plugin install plan: a worklist over the manifests of the listed
  packages. Whether a version satisfies a range is a parameter.
 */
module InstallPlans {
  import opened FiniteSets
  import opened Results

  datatype Dependency = Dependency(packageId: string, publisherKeyId: string, minVersion: string, maxVersion: string)

  /** What the check knows of a listed package: its identity and its manifest's dependencies. */
  datatype Identity = Identity(
    packageId: string, version: string, publisherKeyId: string, dependencies: seq<Dependency>)

  /** satisfies(version, '>=min <=max') */
  type InRange = (string, string, string) -> bool

  // ---------------------------------------------------------------- what a plan has to be

  predicate Demands(dependencies: seq<Dependency>, id: string) {
    exists i | 0 <= i < |dependencies| :: dependencies[i].packageId == id
  }

  /** A chain of listed packages, each demanded by the one before it and the first by the target. */
  ghost predicate Chain(target: Identity, listed: seq<Identity>, chain: seq<nat>) {
    && chain != []
    && (forall i | 0 <= i < |chain| :: chain[i] < |listed|)
    && Demands(target.dependencies, listed[chain[0]].packageId)
    && (forall i | 0 <= i < |chain| - 1 :: Demands(listed[chain[i]].dependencies, listed[chain[i + 1]].packageId))
  }

  ghost predicate Reachable(target: Identity, listed: seq<Identity>, k: nat) {
    exists chain :: Chain(target, listed, chain) && chain[|chain| - 1] == k
  }

  predicate Distinct(target: Identity, listed: seq<Identity>) {
    && (forall i, j | 0 <= i < j < |listed| :: listed[i].packageId != listed[j].packageId)
    && (forall i | 0 <= i < |listed| :: listed[i].packageId != target.packageId)
  }

  predicate Fits(identity: Identity, d: Dependency, inRange: InRange) {
    && identity.packageId == d.packageId
    && identity.publisherKeyId == d.publisherKeyId
    && inRange(identity.version, d.minVersion, d.maxVersion)
  }

  predicate Satisfied(listed: seq<Identity>, d: Dependency, inRange: InRange) {
    exists i | 0 <= i < |listed| :: Fits(listed[i], d, inRange)
  }

  predicate AllSatisfied(listed: seq<Identity>, dependencies: seq<Dependency>, inRange: InRange) {
    forall d | d in dependencies :: Satisfied(listed, d, inRange)
  }

  /**
    The plan lists each package once and not the target; it lists exactly what is reachable from the
    target; and every dependency in that closure is met by a listed package of its publisher and range.
   */
  ghost predicate Acceptable(target: Identity, listed: seq<Identity>, inRange: InRange) {
    && Distinct(target, listed)
    && (forall k | 0 <= k < |listed| :: Reachable(target, listed, k))
    && AllSatisfied(listed, target.dependencies, inRange)
    && (forall k | 0 <= k < |listed| && Reachable(target, listed, k) ::
          AllSatisfied(listed, listed[k].dependencies, inRange))
  }

  // ---------------------------------------------------------------- reachability

  lemma ReachableFromTarget(target: Identity, listed: seq<Identity>, k: nat)
    requires k < |listed| && Demands(target.dependencies, listed[k].packageId)
    ensures Reachable(target, listed, k)
  {
    assert Chain(target, listed, [k]) && [k][|[k]| - 1] == k;
  }

  lemma ReachableFromListed(target: Identity, listed: seq<Identity>, j: nat, k: nat)
    requires j < |listed| && k < |listed| && Reachable(target, listed, j)
    requires Demands(listed[j].dependencies, listed[k].packageId)
    ensures Reachable(target, listed, k)
  {
    var chain :| Chain(target, listed, chain) && chain[|chain| - 1] == j;
    var longer := chain + [k];
    assert Chain(target, listed, longer) && longer[|longer| - 1] == k;
  }

  /** `d` is a dependency of the target or of a package the target reaches. */
  ghost predicate InClosure(target: Identity, listed: seq<Identity>, d: Dependency) {
    || d in target.dependencies
    || exists k | 0 <= k < |listed| :: Reachable(target, listed, k) && d in listed[k].dependencies
  }

  lemma InClosureReaches(target: Identity, listed: seq<Identity>, d: Dependency, k: nat)
    requires InClosure(target, listed, d) && k < |listed| && listed[k].packageId == d.packageId
    ensures Reachable(target, listed, k)
  {
    if d in target.dependencies {
      ReachableFromTarget(target, listed, k);
    } else {
      var j :| 0 <= j < |listed| && Reachable(target, listed, j) && d in listed[j].dependencies;
      ReachableFromListed(target, listed, j, k);
    }
  }

  // ---------------------------------------------------------------- the worklist

  function Ids(listed: seq<Identity>): set<string> {
    set i | 0 <= i < |listed| :: listed[i].packageId
  }

  lemma {:induction false} DistinctIdsCount(listed: seq<Identity>)
    requires forall i, j | 0 <= i < j < |listed| :: listed[i].packageId != listed[j].packageId
    ensures |Ids(listed)| == |listed|
    decreases |listed|
  {
    if listed != [] {
      var n := |listed| - 1;
      DistinctIdsCount(listed[..n]);
      assert Ids(listed) == Ids(listed[..n]) + {listed[n].packageId};
    }
  }

  /** The edges of visited packages are still pending, or are met by a visited package. */
  ghost predicate Handled(
      listed: seq<Identity>, d: Dependency, visited: set<string>, pending: seq<Dependency>, inRange: InRange) {
    d in pending || (Satisfied(listed, d, inRange) && d.packageId in visited)
  }

  ghost predicate WorkInv(
      target: Identity, listed: seq<Identity>, visited: set<string>, pending: seq<Dependency>, inRange: InRange) {
    && target.packageId in visited
    && visited <= Ids(listed) + {target.packageId}
    && (forall k | 0 <= k < |listed| && listed[k].packageId in visited :: Reachable(target, listed, k))
    && (forall d | d in pending :: InClosure(target, listed, d))
    && (forall d | d in target.dependencies :: Handled(listed, d, visited, pending, inRange))
    && (forall k, d | 0 <= k < |listed| && listed[k].packageId in visited && d in listed[k].dependencies ::
          Handled(listed, d, visited, pending, inRange))
  }

  /** With nothing pending, a reachable package has been visited. */
  lemma {:induction false} ChainIsVisited(
      target: Identity, listed: seq<Identity>, visited: set<string>, inRange: InRange, chain: seq<nat>, n: nat)
    requires WorkInv(target, listed, visited, [], inRange)
    requires Chain(target, listed, chain) && n < |chain|
    ensures listed[chain[n]].packageId in visited
  {
    if n == 0 {
      var i :| 0 <= i < |target.dependencies| && target.dependencies[i].packageId == listed[chain[0]].packageId;
      assert Handled(listed, target.dependencies[i], visited, [], inRange);
    } else {
      ChainIsVisited(target, listed, visited, inRange, chain, n - 1);
      assert Demands(listed[chain[n - 1]].dependencies, listed[chain[n - 1 + 1]].packageId);
      var previous := chain[n - 1];
      var from := listed[previous].dependencies;
      var i :| 0 <= i < |from| && from[i].packageId == listed[chain[n]].packageId;
      assert from[i] in listed[previous].dependencies;
      assert Handled(listed, from[i], visited, [], inRange);
    }
  }

  lemma AllVisitedIsAcceptable(target: Identity, listed: seq<Identity>, visited: set<string>, inRange: InRange)
    requires Distinct(target, listed) && WorkInv(target, listed, visited, [], inRange)
    requires Ids(listed) <= visited
    ensures Acceptable(target, listed, inRange)
  {
    forall k | 0 <= k < |listed|
      ensures Reachable(target, listed, k) && AllSatisfied(listed, listed[k].dependencies, inRange)
    {
      assert listed[k].packageId in Ids(listed);
      forall d | d in listed[k].dependencies
        ensures Satisfied(listed, d, inRange)
      {
        assert Handled(listed, d, visited, [], inRange);
      }
    }
    forall d | d in target.dependencies
      ensures Satisfied(listed, d, inRange)
    {
      assert Handled(listed, d, visited, [], inRange);
    }
  }

  lemma AcceptableIsAllVisited(target: Identity, listed: seq<Identity>, visited: set<string>, inRange: InRange)
    requires WorkInv(target, listed, visited, [], inRange) && Acceptable(target, listed, inRange)
    ensures Ids(listed) <= visited
  {
    forall k | 0 <= k < |listed|
      ensures listed[k].packageId in visited
    {
      assert Reachable(target, listed, k);
      var chain :| Chain(target, listed, chain) && chain[|chain| - 1] == k;
      ChainIsVisited(target, listed, visited, inRange, chain, |chain| - 1);
    }
  }

  lemma ExhaustedWorklistDecides(target: Identity, listed: seq<Identity>, visited: set<string>, inRange: InRange)
    requires Distinct(target, listed) && WorkInv(target, listed, visited, [], inRange)
    ensures |visited| == |listed| + 1 <==> Acceptable(target, listed, inRange)
  {
    var all := Ids(listed) + {target.packageId};
    DistinctIdsCount(listed);
    assert target.packageId !in Ids(listed);
    assert |all| == |listed| + 1;
    if |visited| == |listed| + 1 {
      SubsetOfSameSize(visited, all);
      AllVisitedIsAcceptable(target, listed, visited, inRange);
    }
    if Acceptable(target, listed, inRange) {
      AcceptableIsAllVisited(target, listed, visited, inRange);
      assert visited == all;
    }
  }

  /** identities.find(...) */
  method Find(listed: seq<Identity>, id: string) returns (found: Option<nat>)
    ensures found.Some? ==> found.value < |listed| && listed[found.value].packageId == id
    ensures found.None? ==> forall i | 0 <= i < |listed| :: listed[i].packageId != id
  {
    for i := 0 to |listed|
      invariant forall j | 0 <= j < i :: listed[j].packageId != id
    {
      if listed[i].packageId == id {
        return Some(i);
      }
    }
    return None;
  }

  /** A dependency popped off the worklist that no listed package fits refutes the plan. */
  lemma UnmetDependencyRefutes(target: Identity, listed: seq<Identity>, d: Dependency, inRange: InRange)
    requires InClosure(target, listed, d) && !Satisfied(listed, d, inRange)
    ensures !Acceptable(target, listed, inRange)
  {
  }

  /** One step of the worklist keeps its invariant. */
  lemma VisitKeeps(target: Identity, listed: seq<Identity>, visited: set<string>, pending: seq<Dependency>,
                   inRange: InRange, k: nat)
    requires WorkInv(target, listed, visited, pending, inRange) && Distinct(target, listed)
    requires pending != [] && k < |listed| && Fits(listed[k], pending[|pending| - 1], inRange)
    ensures var id, rest := listed[k].packageId, pending[..|pending| - 1];
            var more := if id in visited then rest else rest + listed[k].dependencies;
            WorkInv(target, listed, visited + {id}, more, inRange)
  {
    var d, rest := pending[|pending| - 1], pending[..|pending| - 1];
    var id := listed[k].packageId;
    var after := if id in visited then rest else rest + listed[k].dependencies;
    assert pending == rest + [d];
    InClosureReaches(target, listed, d, k);
    assert Satisfied(listed, d, inRange) && id in Ids(listed);
    assert forall j | 0 <= j < |listed| && listed[j].packageId == id :: j == k;
    assert forall e | e in listed[k].dependencies :: InClosure(target, listed, e);
    hide Satisfied, InClosure, Reachable, Distinct, Fits, Ids;
    forall e | Handled(listed, e, visited, pending, inRange)
      ensures Handled(listed, e, visited + {id}, after, inRange)
    {
    }
  }

  /** Does the dependency list of the plan match its target? Accepted if and only if it is acceptable. */
  method CheckClosure(target: Identity, listed: seq<Identity>, inRange: InRange) returns (accepted: bool)
    ensures accepted <==> Acceptable(target, listed, inRange)
  {
    if !Distinct(target, listed) {
      return false;
    }
    var visited := {target.packageId};
    var pending := target.dependencies;
    while pending != []
      invariant WorkInv(target, listed, visited, pending, inRange)
      decreases |Ids(listed) + {target.packageId}| - |visited|, |pending|
    {
      var required := pending[|pending| - 1];
      assert required in pending;
      var found := Find(listed, required.packageId);
      if found.None? || !Fits(listed[found.value], required, inRange) {
        assert !Satisfied(listed, required, inRange);
        UnmetDependencyRefutes(target, listed, required, inRange);
        return false;
      }
      var identity := listed[found.value];
      VisitKeeps(target, listed, visited, pending, inRange, found.value);
      pending := pending[..|pending| - 1];
      if identity.packageId !in visited {
        visited := visited + {identity.packageId};
        pending := pending + identity.dependencies;
      } else {
        assert visited + {identity.packageId} == visited;
      }
      SubsetCount(visited, Ids(listed) + {target.packageId});
    }
    ExhaustedWorklistDecides(target, listed, visited, inRange);
    return |visited| == |listed| + 1;
  }

  /** Cycles among the listed packages are fine, but one that leads back to the target is always refused. */
  lemma CycleThroughTargetIsRefused(target: Identity, listed: seq<Identity>, inRange: InRange, d: Dependency)
    requires InClosure(target, listed, d) && d.packageId == target.packageId
    ensures !Acceptable(target, listed, inRange)
  {
  }

  /**
    In an acceptable plan each dependency of the closure names exactly one listed package, and that one has the
    publisher and a version in the range that the dependency asks for.
   */
  lemma DependencyNamesItsPackage(target: Identity, listed: seq<Identity>, inRange: InRange, d: Dependency)
    returns (k: nat)
    requires Acceptable(target, listed, inRange) && InClosure(target, listed, d)
    ensures k < |listed| && listed[k].packageId == d.packageId && listed[k].publisherKeyId == d.publisherKeyId
    ensures inRange(listed[k].version, d.minVersion, d.maxVersion)
    ensures forall j | 0 <= j < |listed| && j != k :: listed[j].packageId != d.packageId
    ensures target.packageId != d.packageId
  {
    k :| k < |listed| && Fits(listed[k], d, inRange);
  }
}
