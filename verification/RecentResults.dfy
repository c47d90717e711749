/**
  A cache of completed results bounded by age and by number: an insertion-ordered map that is pruned on
  every call and evicts its oldest keys. It is specified by the history of its `set` calls.
 */
module RecentResultsCache {
  import opened Basics
  import opened FiniteSets
  import opened Results

  /** One call of set, with the time it stamped. */
  datatype Stored<K, T> = Stored(key: K, value: T, at: int)

  datatype Entry<K, T> = Entry(key: K, value: T, expiresAt: int)

  // ---------------------------------------------------------------- what the history says

  /** The clock never runs backwards. */
  predicate Chronological<K, T>(log: seq<Stored<K, T>>) {
    forall i, j | 0 <= i < j < |log| :: log[i].at <= log[j].at
  }

  /** Call j is the last one that stored its key. */
  predicate IsLast<K(==), T>(log: seq<Stored<K, T>>, j: nat)
    requires j < |log|
  {
    forall i | j < i < |log| :: log[i].key != log[j].key
  }

  /** The distinct keys stored after call j. */
  function KeysSince<K(==), T>(log: seq<Stored<K, T>>, j: nat): set<K> {
    set i | j < i < |log| :: log[i].key
  }

  /** Call j is what the cache must still know at `now`: nothing replaced it, it is young enough, and fewer
      than `capacity` distinct other keys have been stored since. */
  predicate Kept<K(==), T>(log: seq<Stored<K, T>>, j: nat, capacity: nat, ttl: nat, now: int)
    requires j < |log|
  {
    IsLast(log, j) && log[j].at + ttl > now && |KeysSince(log, j)| < capacity
  }

  /** The value the history prescribes for a key. */
  ghost predicate Recalls<K, T>(log: seq<Stored<K, T>>, key: K, value: T, capacity: nat, ttl: nat, now: int) {
    exists j | 0 <= j < |log| :: log[j].key == key && log[j].value == value && Kept(log, j, capacity, ttl, now)
  }

  lemma RecallIsUnique<K, T>(log: seq<Stored<K, T>>, key: K, v: T, w: T, capacity: nat, ttl: nat, now: int)
    requires Recalls(log, key, v, capacity, ttl, now) && Recalls(log, key, w, capacity, ttl, now)
    ensures v == w
  {
    var i :| 0 <= i < |log| && log[i].key == key && log[i].value == v && Kept(log, i, capacity, ttl, now);
    var j :| 0 <= j < |log| && log[j].key == key && log[j].value == w && Kept(log, j, capacity, ttl, now);
    assert !(i < j) && !(j < i);
  }

  // ---------------------------------------------------------------- what the map holds

  /** `live` lists, in order, the calls that are kept. */
  ghost predicate Represents<K, T>(log: seq<Stored<K, T>>, live: seq<nat>, capacity: nat, ttl: nat, now: int) {
    && Increasing(live)
    && (forall j | j in live :: j < |log|)
    && (forall j: nat | j < |log| :: j in live <==> Kept(log, j, capacity, ttl, now))
  }

  ghost predicate Mirrors<K, T>(entries: seq<Entry<K, T>>, live: seq<nat>, log: seq<Stored<K, T>>, ttl: nat) {
    && |entries| == |live|
    && (forall p | 0 <= p < |live| :: live[p] < |log|
          && entries[p] == Entry(log[live[p]].key, log[live[p]].value, log[live[p]].at + ttl))
  }

  predicate InLog<K, T>(log: seq<Stored<K, T>>, indices: seq<nat>) {
    forall p | 0 <= p < |indices| :: indices[p] < |log|
  }

  /** The keys of some calls. */
  function KeysOf<K(==), T>(log: seq<Stored<K, T>>, indices: seq<nat>): set<K>
    requires InLog(log, indices)
  {
    set p | 0 <= p < |indices| :: log[indices[p]].key
  }

  lemma {:induction false} DistinctKeysCount<K, T>(log: seq<Stored<K, T>>, indices: seq<nat>)
    requires Increasing(indices) && InLog(log, indices)
    requires forall p | 0 <= p < |indices| :: IsLast(log, indices[p])
    ensures |KeysOf(log, indices)| == |indices|
    decreases |indices|
  {
    if indices != [] {
      var n := |indices| - 1;
      var init := indices[..n];
      DistinctKeysCount(log, init);
      assert forall p | 0 <= p < n :: indices[p] < indices[n] && log[indices[p]].key != log[indices[n]].key;
      assert KeysOf(log, indices) == KeysOf(log, init) + {log[indices[n]].key};
    }
  }

  /** The last call that stores the key of call j. */
  lemma {:induction false} LastAfter<K, T>(log: seq<Stored<K, T>>, j: nat) returns (i: nat)
    requires j < |log|
    ensures j <= i < |log| && log[i].key == log[j].key && IsLast(log, i)
    decreases |log| - j
  {
    if IsLast(log, j) {
      i := j;
    } else {
      var k :| j < k < |log| && log[k].key == log[j].key;
      i := LastAfter(log, k);
    }
  }

  /** Some last calls of their keys that contain, with any call, every later last call. */
  ghost predicate Closed<K, T>(log: seq<Stored<K, T>>, live: seq<nat>) {
    && Increasing(live) && InLog(log, live)
    && (forall p | 0 <= p < |live| :: IsLast(log, live[p]))
    && (forall j, i | j in live && j < i < |log| && IsLast(log, i) :: i in live)
  }

  lemma RepresentsIsClosed<K, T>(log: seq<Stored<K, T>>, live: seq<nat>, capacity: nat, ttl: nat, now: int)
    requires Chronological(log) && Represents(log, live, capacity, ttl, now)
    ensures Closed(log, live)
  {
    assert forall p | 0 <= p < |live| :: live[p] in live;
    forall j, i | j in live && j < i < |log| && IsLast(log, i)
      ensures i in live
    {
      SubsetCount(KeysSince(log, i), KeysSince(log, j));
      assert Kept(log, i, capacity, ttl, now);
    }
  }

  /** In a closed list the position of a call counts the distinct keys stored after it. */
  lemma PositionCountsKeys<K, T>(log: seq<Stored<K, T>>, live: seq<nat>, p: nat)
    requires Closed(log, live) && p < |live|
    ensures |KeysSince(log, live[p])| == |live| - 1 - p
  {
    var j := live[p];
    assert j in live;
    var later := live[p + 1..];
    assert forall q | 0 <= q < |later| :: later[q] == live[p + 1 + q];
    forall key | key in KeysSince(log, j)
      ensures key in KeysOf(log, later)
    {
      var k :| j < k < |log| && log[k].key == key;
      var i := LastAfter(log, k);
      assert i in live;
      var q :| 0 <= q < |live| && live[q] == i;
      assert later[q - (p + 1)] == i;
    }
    forall key | key in KeysOf(log, later)
      ensures key in KeysSince(log, j)
    {
      var q :| 0 <= q < |later| && log[later[q]].key == key;
      assert later[q] > j;
    }
    assert KeysOf(log, later) == KeysSince(log, j);
    DistinctKeysCount(log, later);
  }

  /** Appending a call supersedes the calls of its key and adds its key after every other call. */
  lemma AppendCall<K, T>(log: seq<Stored<K, T>>, call: Stored<K, T>, j: nat)
    requires j < |log|
    ensures IsLast(log + [call], j) <==> IsLast(log, j) && log[j].key != call.key
    ensures KeysSince(log + [call], j) == KeysSince(log, j) + {call.key}
  {
    var more := log + [call];
    assert forall i | 0 <= i < |log| :: more[i] == log[i];
    assert more[|log|] == call;
    if IsLast(more, j) {
      assert more[|log|].key != more[j].key;
      assert forall i | j < i < |log| :: more[i].key != more[j].key;
    }
    forall key | key in KeysSince(log, j) + {call.key}
      ensures key in KeysSince(more, j)
    {
      if key == call.key {
        assert more[|log|].key == key;
      } else {
        var i :| j < i < |log| && log[i].key == key;
        assert more[i].key == key;
      }
    }
  }

  /** `next` is `live` without the calls of the new key, followed by the new call. */
  ghost predicate Replaces<K, T>(log: seq<Stored<K, T>>, live: seq<nat>, key: K, next: seq<nat>)
    requires InLog(log, live)
  {
    && Increasing(next)
    && (forall j: nat | j < |log| :: j in next <==> j in live && log[j].key != key)
    && |log| in next && (forall j | j in next :: j <= |log|)
  }

  lemma ReplacedIsClosed<K, T>(log: seq<Stored<K, T>>, live: seq<nat>, call: Stored<K, T>, next: seq<nat>)
    requires Closed(log, live) && Replaces(log, live, call.key, next)
    ensures Closed(log + [call], next)
  {
    var more := log + [call];
    forall p | 0 <= p < |next|
      ensures next[p] < |more| && IsLast(more, next[p])
    {
      assert next[p] in next;
      if next[p] < |log| {
        AppendCall(log, call, next[p]);
        var q :| 0 <= q < |live| && live[q] == next[p];
      }
    }
    forall j, i | j in next && j < i < |more| && IsLast(more, i)
      ensures i in next
    {
      if i < |log| {
        AppendCall(log, call, i);
      }
    }
  }

  function Excess(size: nat, capacity: nat): nat {
    if size > capacity then size - capacity else 0
  }

  /** Among the last `capacity` calls of a closed list are exactly those with fewer keys after them. */
  lemma EvictionCountsKeys<K, T>(log: seq<Stored<K, T>>, next: seq<nat>, capacity: nat, j: nat)
    requires Closed(log, next) && j < |log|
    ensures j in next[Excess(|next|, capacity)..] <==> j in next && |KeysSince(log, j)| < capacity
  {
    var drop := Excess(|next|, capacity);
    var kept := next[drop..];
    assert forall q | 0 <= q < |kept| :: kept[q] == next[drop + q];
    if j in kept {
      var q :| 0 <= q < |kept| && kept[q] == j;
      PositionCountsKeys(log, next, drop + q);
      assert next[drop + q] in next;
    }
    if j in next && |KeysSince(log, j)| < capacity {
      var p :| 0 <= p < |next| && next[p] == j;
      PositionCountsKeys(log, next, p);
      assert kept[p - drop] == j;
    }
  }

  lemma StoredIsKept<K, T>(log: seq<Stored<K, T>>, live: seq<nat>, call: Stored<K, T>, next: seq<nat>,
                           capacity: nat, ttl: nat, now: int, j: nat)
    requires capacity >= 1 && ttl >= 1 && call.at >= now && j <= |log|
    requires Represents(log, live, capacity, ttl, now)
    requires InLog(log, live) && Replaces(log, live, call.key, next)
    requires Closed(log + [call], next)
    ensures j in next && |KeysSince(log + [call], j)| < capacity <==> Kept(log + [call], j, capacity, ttl, now)
  {
    var more := log + [call];
    if j < |log| {
      AppendCall(log, call, j);
      SubsetCount(KeysSince(log, j), KeysSince(more, j));
    } else {
      assert KeysSince(more, j) == {};
    }
  }

  /** Storing a result: replace, then keep the last `capacity` calls. */
  lemma StoreKeeps<K, T>(log: seq<Stored<K, T>>, live: seq<nat>, call: Stored<K, T>, next: seq<nat>,
                         capacity: nat, ttl: nat, now: int)
    requires capacity >= 1 && ttl >= 1 && call.at >= now
    requires Chronological(log) && Represents(log, live, capacity, ttl, now)
    requires InLog(log, live) && Replaces(log, live, call.key, next)
    ensures Represents(log + [call], next[Excess(|next|, capacity)..], capacity, ttl, now)
  {
    var more := log + [call];
    var kept := next[Excess(|next|, capacity)..];
    RepresentsIsClosed(log, live, capacity, ttl, now);
    ReplacedIsClosed(log, live, call, next);
    forall j: nat | j < |more|
      ensures j in kept <==> Kept(more, j, capacity, ttl, now)
    {
      EvictionCountsKeys(more, next, capacity, j);
      StoredIsKept(log, live, call, next, capacity, ttl, now, j);
    }
    forall j | j in kept
      ensures j < |more|
    {
      assert j in next;
    }
  }

  /** Leaving out one position of an increasing list leaves out exactly that call. */
  lemma RemovePosition<K, T>(entries: seq<Entry<K, T>>, live: seq<nat>, log: seq<Stored<K, T>>, ttl: nat, i: nat)
    requires Mirrors(entries, live, log, ttl) && Increasing(live) && i < |live|
    ensures var rest := live[..i] + live[i + 1..];
            && Mirrors(entries[..i] + entries[i + 1..], rest, log, ttl) && Increasing(rest)
            && (forall j :: j in rest <==> j in live && j != live[i])
            && (forall p | 0 <= p < i :: rest[p] == live[p])
  {
    var rest := live[..i] + live[i + 1..];
    assert forall p | 0 <= p < |rest| :: rest[p] == live[if p < i then p else p + 1];
    forall j | j in live && j != live[i]
      ensures j in rest
    {
      var p :| 0 <= p < |live| && live[p] == j;
      assert rest[if p < i then p else p - 1] == j;
    }
    forall j | j in rest
      ensures j in live && j != live[i]
    {
      var p :| 0 <= p < |rest| && rest[p] == j;
    }
  }

  /** Pruning has looked at the first `i` entries and has left out none but expired ones. */
  ghost predicate Pruning<K, T>(entries: seq<Entry<K, T>>, live: seq<nat>, before: seq<nat>, log: seq<Stored<K, T>>,
                                ttl: nat, now: int, i: nat) {
    && i <= |entries| && Mirrors(entries, live, log, ttl) && Increasing(live)
    && (forall j | j in live :: j in before)
    && (forall j | j in before :: j < |log| && (j in live || log[j].at + ttl <= now))
    && (forall p | 0 <= p < i :: log[live[p]].at + ttl > now)
  }

  lemma PruneStep<K, T>(entries: seq<Entry<K, T>>, live: seq<nat>, before: seq<nat>, log: seq<Stored<K, T>>,
                        ttl: nat, now: int, i: nat)
    requires Pruning(entries, live, before, log, ttl, now, i) && i < |entries| && entries[i].expiresAt <= now
    ensures Pruning(entries[..i] + entries[i + 1..], live[..i] + live[i + 1..], before, log, ttl, now, i)
  {
    RemovePosition(entries, live, log, ttl, i);
  }

  /** When pruning is done, exactly the calls that are still young enough are left. */
  lemma PruneKeeps<K, T>(entries: seq<Entry<K, T>>, young: seq<nat>, live: seq<nat>, log: seq<Stored<K, T>>,
                         capacity: nat, ttl: nat, before: int, now: int)
    requires before <= now && Represents(log, live, capacity, ttl, before)
    requires Pruning(entries, young, live, log, ttl, now, |entries|)
    ensures Represents(log, young, capacity, ttl, now)
  {
    forall j | j in young
      ensures log[j].at + ttl > now
    {
      var p :| 0 <= p < |young| && young[p] == j;
    }
  }

  /** The new call goes last in the list, its entry last in the map. */
  lemma AppendPosition<K, T>(entries: seq<Entry<K, T>>, live: seq<nat>, log: seq<Stored<K, T>>, ttl: nat,
                             before: seq<nat>, call: Stored<K, T>)
    requires Mirrors(entries, live, log, ttl) && Increasing(live)
    requires InLog(log, before) && forall j | j in live :: j < |log|
    requires forall j: nat | j < |log| :: j in live <==> j in before && log[j].key != call.key
    requires Chronological(log) && forall j | 0 <= j < |log| :: log[j].at <= call.at
    ensures var next := live + [|log|];
            && Replaces(log, before, call.key, next)
            && Mirrors(entries + [Entry(call.key, call.value, call.at + ttl)], next, log + [call], ttl)
            && Chronological(log + [call])
  {
    var next := live + [|log|];
    assert next[|live|] == |log|;
    assert forall p | 0 <= p < |live| :: next[p] == live[p] && live[p] in live;
  }

  // ---------------------------------------------------------------- the object

  class RecentResults<K(==), T> {
    const capacity: nat
    const ttl: nat
    var entries: seq<Entry<K, T>>
    ghost var log: seq<Stored<K, T>>
    ghost var live: seq<nat>
    ghost var pruned: int        // when the entries were last pruned
    ghost var clock: int         // the latest reading of the clock

    ghost predicate Valid()
      reads this
    {
      && capacity >= 1 && ttl >= 1
      && Chronological(log) && (forall j | 0 <= j < |log| :: log[j].at <= clock)
      && pruned <= clock && Represents(log, live, capacity, ttl, pruned)
      && Mirrors(entries, live, log, ttl)
    }

    constructor (capacity: nat, ttl: nat)
      requires 1 <= capacity <= MAX_SAFE_INTEGER && 1 <= ttl <= MAX_SAFE_INTEGER
      ensures this.capacity == capacity && this.ttl == ttl && Valid() && log == []
    {
      this.capacity, this.ttl := capacity, ttl;
      entries, log, live := [], [], [];
      clock := pruned;
    }

    /** A cache with checked limits; there is none for invalid ones. */
    static method Create(capacity: int, ttl: int) returns (cache: Option<RecentResults<K, T>>)
      ensures cache.Some? <==> 1 <= capacity <= MAX_SAFE_INTEGER && 1 <= ttl <= MAX_SAFE_INTEGER
      ensures cache.Some? ==> fresh(cache.value) && cache.value.Valid() && cache.value.log == []
      ensures cache.Some? ==> cache.value.capacity == capacity && cache.value.ttl == ttl
    {
      if capacity < 1 || capacity > MAX_SAFE_INTEGER || ttl < 1 || ttl > MAX_SAFE_INTEGER {
        return None;
      }
      var created := new RecentResults<K, T>(capacity, ttl);
      return Some(created);
    }

    /** Delete every entry that has expired. */
    method DeleteExpired(now: int)
      requires Mirrors(entries, live, log, ttl) && Increasing(live)
      modifies this`entries, this`live
      ensures Pruning(entries, live, old(live), log, ttl, now, |entries|)
    {
      var i := 0;
      assert forall j | j in live :: j < |log|;
      while i < |entries|
        invariant Pruning(entries, live, old(live), log, ttl, now, i)
        decreases |entries| - i
      {
        if entries[i].expiresAt <= now {
          PruneStep(entries, live, old(live), log, ttl, now, i);
          entries := entries[..i] + entries[i + 1..];
          live := live[..i] + live[i + 1..];
        } else {
          i := i + 1;
        }
      }
    }

    method Prune(now: int)
      requires Valid() && clock <= now
      modifies this`entries, this`live, this`pruned, this`clock
      ensures Valid() && clock == pruned == now
    {
      ghost var before := live;
      DeleteExpired(now);
      PruneKeeps(entries, live, before, log, capacity, ttl, pruned, now);
      pruned, clock := now, now;
    }

    /** Delete one key, if it is there. */
    method Delete(key: K)
      requires Valid()
      modifies this`entries, this`live
      ensures Mirrors(entries, live, log, ttl) && Increasing(live)
      ensures forall j: nat | j < |log| :: j in live <==> j in old(live) && log[j].key != key
      ensures forall j | j in live :: j < |log|
    {
      RepresentsIsClosed(log, live, capacity, ttl, pruned);
      var i := 0;
      while i < |entries| && entries[i].key != key
        invariant 0 <= i <= |entries|
        invariant forall p | 0 <= p < i :: entries[p].key != key
      {
        i := i + 1;
      }
      forall p | 0 <= p < |live| && p != i
        ensures log[live[p]].key != key
      {
        if i < p {
          assert live[i] < live[p];
        } else {
          assert entries[p].key != key;
        }
      }
      if i < |entries| {
        RemovePosition(entries, live, log, ttl, i);
        entries := entries[..i] + entries[i + 1..];
        live := live[..i] + live[i + 1..];
      }
    }

    /** Evict the oldest entries beyond the capacity. */
    method Evict()
      requires Mirrors(entries, live, log, ttl)
      modifies this`entries, this`live
      ensures live == old(live[Excess(|live|, capacity)..])
      ensures Mirrors(entries, live, log, ttl)
    {
      ghost var all := live;
      while |entries| > capacity
        invariant |entries| == |live| <= |all| && Excess(|all|, capacity) <= |all| - |live| + Excess(|live|, capacity)
        invariant |all| - |live| <= Excess(|all|, capacity)
        invariant live == all[|all| - |live|..]
        invariant Mirrors(entries, live, log, ttl)
        decreases |entries|
      {
        entries := entries[1..];
        live := live[1..];
      }
    }

    /** `now` and `stamp` are the two readings of the clock in one call. */
    method Set(key: K, value: T, now: int, stamp: int)
      requires Valid() && clock <= now <= stamp
      modifies this
      ensures Valid() && clock == stamp
      ensures log == old(log) + [Stored(key, value, stamp)]
    {
      Prune(now);
      ghost var before := live;
      Delete(key);
      Append(key, value, stamp, before);
      Evict();
    }

    /** The rest of Set after the key has been deleted, up to the eviction. `before`: what was kept until then. */
    method Append(key: K, value: T, stamp: int, ghost before: seq<nat>)
      requires capacity >= 1 && ttl >= 1 && pruned <= clock <= stamp
      requires Chronological(log) && forall j | 0 <= j < |log| :: log[j].at <= clock
      requires Represents(log, before, capacity, ttl, pruned)
      requires Mirrors(entries, live, log, ttl) && Increasing(live) && forall j | j in live :: j < |log|
      requires forall j: nat | j < |log| :: j in live <==> j in before && log[j].key != key
      modifies this`entries, this`live, this`log, this`clock
      ensures log == old(log) + [Stored(key, value, stamp)] && clock == stamp
      ensures Chronological(log) && forall j | 0 <= j < |log| :: log[j].at <= clock
      ensures Mirrors(entries, live, log, ttl)
      ensures Represents(log, live[Excess(|live|, capacity)..], capacity, ttl, pruned)
    {
      ghost var call := Stored(key, value, stamp);
      RepresentsIsClosed(log, before, capacity, ttl, pruned);
      AppendPosition(entries, live, log, ttl, before, call);
      entries := entries + [Entry(key, value, stamp + ttl)];
      live := live + [|log|];
      StoreKeeps(log, before, call, live, capacity, ttl, pruned);
      log := log + [call];
      clock := stamp;
    }

    /** The answer is the value the history prescribes, if it prescribes one. */
    method Get(key: K, now: int) returns (found: Option<T>)
      requires Valid() && clock <= now
      modifies this`entries, this`live, this`pruned, this`clock
      ensures Valid() && clock == now
      ensures found.Some? ==> Recalls(log, key, found.value, capacity, ttl, now)
      ensures found.None? ==> forall j: nat | j < |log| && log[j].key == key :: !Kept(log, j, capacity, ttl, now)
    {
      Prune(now);
      var i := 0;
      while i < |entries|
        invariant 0 <= i <= |entries|
        invariant forall p | 0 <= p < i :: entries[p].key != key
      {
        if entries[i].key == key {
          assert live[i] in live;
          return Some(entries[i].value);
        }
        i := i + 1;
      }
      return None;
    }
  }
}
