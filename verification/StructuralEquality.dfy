/**
  Structural equality of JSON-like application state, against an independent canonical form in which a
  record is a finite map and object identities are gone.

  Arrays, plain records and other objects carry the number of their reference. The trees are finite,
  without holes in arrays and without hidden properties in records.
 */
module StructuralEquality {
  import opened FiniteSets

  datatype Number = Finite(value: real) | NegativeZero | NotANumber | Infinite(positive: bool)

  datatype Field = Field(key: string, value: Value)

  datatype Value =
    | Undefined
    | Null
    | Boolean(truth: bool)
    | Num(number: Number)
    | Str(text: string)
    | List(ref: nat, items: seq<Value>)
    | Record(ref: nat, fields: seq<Field>)
    | Opaque(ref: nat)

  predicate IsObject(v: Value) {
    v.List? || v.Record? || v.Opaque?
  }

  /** Object.is: the same primitive, or the same object. */
  predicate Same(l: Value, r: Value) {
    if IsObject(l) && IsObject(r) then l.ref == r.ref else l == r
  }

  /** The position of a key, or the number of fields when it is absent. */
  function IndexOf(fields: seq<Field>, key: string): (i: nat)
    ensures i <= |fields|
    ensures i < |fields| ==> fields[i].key == key
    ensures i == |fields| ==> forall j | 0 <= j < |fields| :: fields[j].key != key
    decreases |fields|
  {
    if fields == [] then 0
    else if fields[0].key == key then 0
    else 1 + IndexOf(fields[1..], key)
  }

  predicate HasOwn(fields: seq<Field>, key: string) {
    IndexOf(fields, key) < |fields|
  }

  predicate StructurallyEqual(l: Value, r: Value)
    decreases l
  {
    if Same(l, r) then true
    else
      match l
      case List(_, items) =>
        r.List? && |items| == |r.items|
        && forall i | 0 <= i < |items| :: StructurallyEqual(items[i], r.items[i])
      case Record(_, fields) =>
        r.Record? && |fields| == |r.fields|
        && forall i | 0 <= i < |fields| ::
             HasOwn(r.fields, fields[i].key)
             && StructurallyEqual(fields[i].value, r.fields[IndexOf(r.fields, fields[i].key)].value)
      case _ => false
  }

  // ---------------------------------------------------------------- canonical forms

  datatype Canon =
    | CanonPrimitive(value: Value)
    | CanonList(items: seq<Canon>)
    | CanonRecord(fields: map<string, Canon>)
    | CanonOpaque(ref: nat)

  function Keys(fields: seq<Field>): set<string> {
    set i | 0 <= i < |fields| :: fields[i].key
  }

  function Canonical(v: Value): Canon
    decreases v
  {
    match v
    case List(_, items) => CanonList(seq(|items|, i requires 0 <= i < |items| => Canonical(items[i])))
    case Record(_, fields) =>
      CanonRecord(map key | key in Keys(fields) :: Canonical(fields[IndexOf(fields, key)].value))
    case Opaque(ref) => CanonOpaque(ref)
    case _ => CanonPrimitive(v)
  }

  // ---------------------------------------------------------------- what is assumed of the heap

  ghost predicate DistinctKeys(fields: seq<Field>) {
    forall i, j | 0 <= i < j < |fields| :: fields[i].key != fields[j].key
  }

  /** No record of the tree repeats a key. */
  ghost predicate WellFormed(v: Value)
    decreases v
  {
    match v
    case List(_, items) => forall i | 0 <= i < |items| :: WellFormed(items[i])
    case Record(_, fields) =>
      DistinctKeys(fields) && forall i | 0 <= i < |fields| :: WellFormed(fields[i].value)
    case _ => true
  }

  ghost predicate Within(x: Value, v: Value)
    decreases v
  {
    x == v ||
    match v
    case List(_, items) => exists i | 0 <= i < |items| :: Within(x, items[i])
    case Record(_, fields) => exists i | 0 <= i < |fields| :: Within(x, fields[i].value)
    case _ => false
  }

  /** The two trees are read from one heap: a reference occurring in both stands for one object. */
  ghost predicate OneHeap(l: Value, r: Value) {
    forall x, y | Within(x, l) && Within(y, r) && IsObject(x) && IsObject(y) && x.ref == y.ref :: x == y
  }

  lemma ChildrenShareTheHeap(l: Value, r: Value, a: Value, b: Value)
    requires OneHeap(l, r)
    requires forall x | Within(x, a) :: Within(x, l)
    requires forall y | Within(y, b) :: Within(y, r)
    ensures OneHeap(a, b)
  {
  }

  lemma OneHeapIsSymmetric(l: Value, r: Value)
    requires OneHeap(l, r)
    ensures OneHeap(r, l)
  {
  }

  // ---------------------------------------------------------------- the theorem

  lemma {:induction false} KeysCount(fields: seq<Field>)
    requires DistinctKeys(fields)
    ensures |Keys(fields)| == |fields|
    decreases |fields|
  {
    if fields != [] {
      var n := |fields| - 1;
      KeysCount(fields[..n]);
      assert Keys(fields) == Keys(fields[..n]) + {fields[n].key};
    }
  }

  /** With as many fields, the left keys being among the right keys means that the keys are the same. */
  lemma LeftKeysSuffice(l: seq<Field>, r: seq<Field>)
    requires DistinctKeys(l) && DistinctKeys(r) && |l| == |r|
    requires forall i | 0 <= i < |l| :: HasOwn(r, l[i].key)
    ensures Keys(l) == Keys(r)
  {
    KeysCount(l);
    KeysCount(r);
    forall key | key in Keys(l)
      ensures key in Keys(r)
    {
      assert r[IndexOf(r, key)].key == key;
    }
    SubsetOfSameSize(Keys(l), Keys(r));
  }

  lemma {:induction false} EqualMeansSameCanonicalForm(l: Value, r: Value)
    requires WellFormed(l) && WellFormed(r) && OneHeap(l, r)
    ensures StructurallyEqual(l, r) <==> Canonical(l) == Canonical(r)
    decreases l, 2
  {
    if Same(l, r) {
      assert Within(l, l) && Within(r, r);
      assert l == r;
    } else if l.List? && r.List? {
      ListsAgree(l, r);
    } else if l.Record? && r.Record? {
      RecordsAgree(l, r);
    }
  }

  lemma {:induction false} ListsAgree(l: Value, r: Value)
    requires l.List? && r.List? && !Same(l, r)
    requires WellFormed(l) && WellFormed(r) && OneHeap(l, r)
    ensures StructurallyEqual(l, r) <==> Canonical(l) == Canonical(r)
    decreases l, 1
  {
    if |l.items| == |r.items| {
      forall i | 0 <= i < |l.items|
        ensures StructurallyEqual(l.items[i], r.items[i]) <==> Canonical(l).items[i] == Canonical(r).items[i]
      {
        ChildrenShareTheHeap(l, r, l.items[i], r.items[i]);
        EqualMeansSameCanonicalForm(l.items[i], r.items[i]);
      }
    } else {
      assert |Canonical(l).items| == |l.items| && |Canonical(r).items| == |r.items|;
    }
  }

  lemma KeysAreOwn(fields: seq<Field>, key: string)
    ensures key in Keys(fields) <==> HasOwn(fields, key)
  {
  }

  /** The fields of two records, compared from the left. */
  predicate FieldsEqual(l: seq<Field>, r: seq<Field>) {
    && |l| == |r|
    && (forall i | 0 <= i < |l| ::
         HasOwn(r, l[i].key) && StructurallyEqual(l[i].value, r[IndexOf(r, l[i].key)].value))
  }

  /** Two records' maps agree on a left field exactly when its values compare equal. */
  ghost predicate ValuesAgree(l: seq<Field>, r: seq<Field>, cl: map<string, Canon>, cr: map<string, Canon>) {
    forall i | 0 <= i < |l| && HasOwn(r, l[i].key) ::
      var key := l[i].key;
      key in cl && key in cr && (StructurallyEqual(l[i].value, r[IndexOf(r, key)].value) <==> cl[key] == cr[key])
  }

  lemma EqualFieldsHaveEqualMaps(l: seq<Field>, r: seq<Field>, cl: map<string, Canon>, cr: map<string, Canon>)
    requires DistinctKeys(l) && DistinctKeys(r) && cl.Keys == Keys(l) && cr.Keys == Keys(r)
    requires ValuesAgree(l, r, cl, cr) && FieldsEqual(l, r)
    ensures cl == cr
  {
    hide StructurallyEqual, IndexOf;
    LeftKeysSuffice(l, r);
    forall key | key in cl
      ensures cl[key] == cr[key]
    {
      var i :| 0 <= i < |l| && l[i].key == key;
      assert HasOwn(r, l[i].key);
    }
  }

  lemma EqualMapsHaveEqualFields(l: seq<Field>, r: seq<Field>, cl: map<string, Canon>, cr: map<string, Canon>)
    requires DistinctKeys(l) && DistinctKeys(r) && cl.Keys == Keys(l) && cr.Keys == Keys(r)
    requires ValuesAgree(l, r, cl, cr) && cl == cr
    ensures FieldsEqual(l, r)
  {
    hide StructurallyEqual, IndexOf, DistinctKeys;
    KeysCount(l);
    KeysCount(r);
    forall i | 0 <= i < |l|
      ensures HasOwn(r, l[i].key) && StructurallyEqual(l[i].value, r[IndexOf(r, l[i].key)].value)
    {
      assert l[i].key in Keys(l);
      KeysAreOwn(r, l[i].key);
    }
  }

  lemma {:induction false} RecordsAgree(l: Value, r: Value)
    requires l.Record? && r.Record? && !Same(l, r)
    requires WellFormed(l) && WellFormed(r) && OneHeap(l, r)
    ensures StructurallyEqual(l, r) <==> Canonical(l) == Canonical(r)
    decreases l, 1
  {
    var cl, cr := Canonical(l).fields, Canonical(r).fields;
    assert cl.Keys == Keys(l.fields) && cr.Keys == Keys(r.fields);
    forall i | 0 <= i < |l.fields| && HasOwn(r.fields, l.fields[i].key)
      ensures var key := l.fields[i].key;
              && key in cl && key in cr
              && (StructurallyEqual(l.fields[i].value, r.fields[IndexOf(r.fields, key)].value) <==> cl[key] == cr[key])
    {
      FieldAgrees(l, r, i);
    }
    assert ValuesAgree(l.fields, r.fields, cl, cr);
    assert StructurallyEqual(l, r) <==> FieldsEqual(l.fields, r.fields);
    if FieldsEqual(l.fields, r.fields) {
      EqualFieldsHaveEqualMaps(l.fields, r.fields, cl, cr);
    } else if cl == cr {
      EqualMapsHaveEqualFields(l.fields, r.fields, cl, cr);
    }
  }

  lemma {:induction false} FieldAgrees(l: Value, r: Value, i: nat)
    requires l.Record? && r.Record? && i < |l.fields| && HasOwn(r.fields, l.fields[i].key)
    requires WellFormed(l) && WellFormed(r) && OneHeap(l, r)
    ensures var key := l.fields[i].key;
      && key in Canonical(l).fields && key in Canonical(r).fields
      && (StructurallyEqual(l.fields[i].value, r.fields[IndexOf(r.fields, key)].value)
          <==> Canonical(l).fields[key] == Canonical(r).fields[key])
    decreases l, 0
  {
    var key := l.fields[i].key;
    var k := IndexOf(r.fields, key);
    assert IndexOf(l.fields, key) == i;
    assert r.fields[k].key in Keys(r.fields);
    ChildrenShareTheHeap(l, r, l.fields[i].value, r.fields[k].value);
    EqualMeansSameCanonicalForm(l.fields[i].value, r.fields[k].value);
  }

  /** Although only the left keys are iterated, the relation is an equivalence. */
  lemma StructuralEqualityIsAnEquivalence(a: Value, b: Value, c: Value)
    requires WellFormed(a) && WellFormed(b) && WellFormed(c)
    requires OneHeap(a, b) && OneHeap(b, c) && OneHeap(a, c)
    ensures StructurallyEqual(a, a)
    ensures StructurallyEqual(a, b) <==> StructurallyEqual(b, a)
    ensures StructurallyEqual(a, b) && StructurallyEqual(b, c) ==> StructurallyEqual(a, c)
  {
    OneHeapIsSymmetric(a, b);
    EqualMeansSameCanonicalForm(a, b);
    EqualMeansSameCanonicalForm(b, a);
    EqualMeansSameCanonicalForm(b, c);
    EqualMeansSameCanonicalForm(a, c);
  }

  /** Reordering the fields of a record cannot be seen. */
  lemma FieldOrderIsIgnored(ref: nat, other: nat, fields: seq<Field>, reordered: seq<Field>)
    requires WellFormed(Record(ref, fields)) && WellFormed(Record(other, reordered))
    requires OneHeap(Record(ref, fields), Record(other, reordered))
    requires forall f :: f in fields <==> f in reordered
    ensures StructurallyEqual(Record(ref, fields), Record(other, reordered))
  {
    var l, r := Record(ref, fields), Record(other, reordered);
    forall key | key in Keys(fields)
      ensures key in Keys(reordered)
      ensures fields[IndexOf(fields, key)] == reordered[IndexOf(reordered, key)]
    {
      var f := fields[IndexOf(fields, key)];
      assert f in reordered;
      var j :| 0 <= j < |reordered| && reordered[j] == f;
      assert IndexOf(reordered, key) == j;
    }
    forall key | key in Keys(reordered)
      ensures key in Keys(fields)
    {
      var f := reordered[IndexOf(reordered, key)];
      assert f in fields;
    }
    assert Keys(fields) == Keys(reordered);
    assert Canonical(l).fields == Canonical(r).fields;
    EqualMeansSameCanonicalForm(l, r);
  }
}
