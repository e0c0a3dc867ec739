/** Right-biased deep merge (`objectMerge`). */
module Merge {
  import opened Values

  /** `objectMerge(objA, objB)`; `None` is `undefined`. Reading a key of a `null`
      `objA` throws in the source, so a `null` base is only accepted when there is
      nothing to merge into it. */
  function ObjectMerge(a: Value, b: Option<Value>): (r: Value)
    requires !a.Null? || IsEmpty(b)
    ensures IsEmpty(b) ==> r == a
    ensures !IsEmpty(b) ==> r.Obj? && r.fields.Keys == FieldsOf(a).Keys + FieldsOf(b.value).Keys
    ensures !IsEmpty(b) ==>
              forall k :: k in FieldsOf(a) && k !in FieldsOf(b.value) ==> r.fields[k] == FieldsOf(a)[k]
    ensures !IsEmpty(b) ==>
              forall k :: k in FieldsOf(b.value) && !(k in FieldsOf(a) && BothObjects(FieldsOf(a)[k], FieldsOf(b.value)[k])) ==>
                r.fields[k] == FieldsOf(b.value)[k]
    decreases a, 0
  {
    if IsEmpty(b) then a
    else
      var fa := if a.Obj? then a.fields else map[];
      var fb := FieldsOf(b.value);
      Obj(map k | k in fa.Keys + fb.Keys :: if k in fa then MergeKey(fa[k], Lookup(b.value, k)) else fb[k])
  }

  /** Two distinct values that are objects to lodash `isObject` and are not
      arrays meet at a key: the merge descends. A Date is such a value. */
  predicate BothObjects(x: Value, y: Value) {
    x != y && IsObject(x) && IsObject(y) && !x.Arr? && !y.Arr?
  }

  /** One key of `objA`: equal values are kept, two objects are merged, otherwise
      the incoming value wins when it is defined. */
  function MergeKey(x: Value, y: Option<Value>): (r: Value)
    ensures y.Some? && !BothObjects(x, y.value) ==> r == y.value
    ensures y.None? ==> r == x
    decreases x, 1
  {
    if y == Some(x) then x
    else if y.Some? && BothObjects(x, y.value) then ObjectMerge(x, y)
    else y.GetOr(x)
  }

  /** `r` holds everything `b` holds: equal to it, or an object with every key of
      `b`, each extending `b`'s value there. */
  ghost predicate Extends(r: Value, b: Value)
    decreases b
  {
    r == b ||
    (r.Obj? && b.Obj? && forall k :: k in b.fields ==> k in r.fields && Extends(r.fields[k], b.fields[k]))
  }

  /** Where both sides hold distinct objects, the merge holds their merge. */
  lemma MergeDescends(a: Value, b: Value, k: string)
    requires !a.Null? && b.Obj? && k in FieldsOf(a) && k in b.fields
    requires BothObjects(FieldsOf(a)[k], b.fields[k])
    ensures var r := ObjectMerge(a, Some(b));
            k in r.fields && r.fields[k] == ObjectMerge(FieldsOf(a)[k], Some(b.fields[k]))
  {
    assert Lookup(b, k) == Some(b.fields[k]);
    assert ObjectMerge(a, Some(b)).fields[k] == MergeKey(a.fields[k], Lookup(b, k));
  }

  /** Merging an object into itself gives it back. */
  lemma MergeSelf(a: Value)
    requires a.Obj?
    ensures ObjectMerge(a, Some(a)) == a
  {
    if !IsEmpty(Some(a)) {
      var r := ObjectMerge(a, Some(a));
      assert r.fields.Keys == a.fields.Keys;
      forall k | k in a.fields
        ensures r.fields[k] == a.fields[k]
      {
        assert Lookup(a, k) == Some(a.fields[k]);
      }
    }
  }

  /** For Date-free trees the incoming tree wins: every key path of `b` is
      present in the merge, with `b`'s leaf values. */
  lemma {:induction false} IncomingSurvives(a: Value, b: Value)
    requires b.Obj? && !a.Null? && DateFree(a) && DateFree(b)
    requires a.Obj? || b.fields != map[]
    ensures Extends(ObjectMerge(a, Some(b)), b)
    decreases a
  {
    if b.fields != map[] {
      var r := ObjectMerge(a, Some(b));
      forall k | k in b.fields
        ensures k in r.fields && Extends(r.fields[k], b.fields[k])
      {
        if k in FieldsOf(a) && BothObjects(FieldsOf(a)[k], b.fields[k]) {
          MergeDescends(a, b, k);
          IncomingSurvives(a.fields[k], b.fields[k]);
        } else {
          assert r.fields[k] == b.fields[k];
        }
      }
    }
  }

  /** Merging into `a` a tree carved out of `a` itself changes nothing. */
  lemma {:induction false} MergeCarved(a: Value, b: Value)
    requires a.Obj? && b.Obj? && Carved(b, a)
    ensures ObjectMerge(a, Some(b)) == a
    decreases b
  {
    if b == a {
      MergeSelf(a);
    } else if b.fields != map[] {
      var r := ObjectMerge(a, Some(b));
      forall k | k in a.fields
        ensures r.fields[k] == a.fields[k]
      {
        if k in b.fields && BothObjects(a.fields[k], b.fields[k]) {
          MergeDescends(a, b, k);
          MergeCarved(a.fields[k], b.fields[k]);
        }
      }
      assert r.fields == a.fields;
    }
  }

  /** Merging the same update twice is merging it once. */
  lemma {:induction false} MergeTwice(a: Value, b: Option<Value>)
    requires !a.Null? || IsEmpty(b)
    ensures ObjectMerge(ObjectMerge(a, b), b) == ObjectMerge(a, b)
    decreases a
  {
    if !IsEmpty(b) {
      var r := ObjectMerge(a, b);
      var fa := FieldsOf(a);
      var fb := FieldsOf(b.value);
      var again := ObjectMerge(r, b);
      assert again.fields.Keys == r.fields.Keys;
      forall k | k in r.fields
        ensures again.fields[k] == r.fields[k]
      {
        assert again.fields[k] == MergeKey(r.fields[k], Lookup(b.value, k));
        if k in fb {
          assert Lookup(b.value, k) == Some(fb[k]);
          if k in fa && BothObjects(fa[k], fb[k]) {
            assert r.fields[k] == MergeKey(fa[k], Lookup(b.value, k));
            MergeTwice(fa[k], Some(fb[k]));
          }
        }
      }
    }
  }

  /** A Date is an object to lodash `isObject` and is empty to `isEmpty`, so a
      changed Date meeting an older one is merged into it and the older one is
      kept. */
  lemma ChangedDateKept()
    ensures ObjectMerge(Obj(map["at" := Date(1)]), Some(Obj(map["at" := Date(2)]))) == Obj(map["at" := Date(1)])
  {
    var a, b := Obj(map["at" := Date(1)]), Obj(map["at" := Date(2)]);
    assert Lookup(b, "at") == Some(Date(2));
    assert ObjectMerge(a, Some(b)).fields["at"] == MergeKey(Date(1), Some(Date(2)));
  }

  /** The merge with plain objects only descending: a Date, like any other
      non-object, is replaced by the incoming value. */
  function IntendedMerge(a: Value, b: Option<Value>): (r: Value)
    requires !a.Null? || IsEmpty(b)
    ensures IsEmpty(b) ==> r == a
    ensures !IsEmpty(b) ==> r.Obj? && r.fields.Keys == FieldsOf(a).Keys + FieldsOf(b.value).Keys
    ensures !IsEmpty(b) ==>
              forall k :: k in FieldsOf(a) && k !in FieldsOf(b.value) ==> r.fields[k] == FieldsOf(a)[k]
    ensures !IsEmpty(b) ==>
              forall k :: k in FieldsOf(b.value) && !(k in FieldsOf(a) && PlainObjects(FieldsOf(a)[k], FieldsOf(b.value)[k])) ==>
                r.fields[k] == FieldsOf(b.value)[k]
    decreases a, 0
  {
    if IsEmpty(b) then a
    else
      var fa := if a.Obj? then a.fields else map[];
      var fb := FieldsOf(b.value);
      Obj(map k | k in fa.Keys + fb.Keys :: if k in fa then IntendedMergeKey(fa[k], Lookup(b.value, k)) else fb[k])
  }

  /** Two distinct plain objects. */
  predicate PlainObjects(x: Value, y: Value) {
    x != y && x.Obj? && y.Obj?
  }

  /** One key of the intended merge. */
  function IntendedMergeKey(x: Value, y: Option<Value>): (r: Value)
    ensures y.Some? && !PlainObjects(x, y.value) ==> r == y.value
    ensures y.None? ==> r == x
    decreases x, 1
  {
    if y == Some(x) then x
    else if y.Some? && PlainObjects(x, y.value) then IntendedMerge(x, y)
    else y.GetOr(x)
  }

  /** With the intended merge the incoming tree wins on every tree, Dates
      included. */
  lemma {:induction false} IntendedIncomingSurvives(a: Value, b: Value)
    requires b.Obj? && !a.Null?
    requires a.Obj? || b.fields != map[]
    ensures Extends(IntendedMerge(a, Some(b)), b)
    decreases a
  {
    if b.fields != map[] {
      var r := IntendedMerge(a, Some(b));
      forall k | k in b.fields
        ensures k in r.fields && Extends(r.fields[k], b.fields[k])
      {
        if k in FieldsOf(a) && PlainObjects(FieldsOf(a)[k], b.fields[k]) {
          assert Lookup(b, k) == Some(b.fields[k]);
          assert r.fields[k] == IntendedMergeKey(a.fields[k], Some(b.fields[k]));
          IntendedIncomingSurvives(a.fields[k], b.fields[k]);
        } else {
          assert r.fields[k] == b.fields[k];
        }
      }
    }
  }

  /** On Date-free trees the two merges agree. */
  lemma {:induction false} IntendedAgreesWithoutDates(a: Value, b: Value)
    requires !a.Null? && DateFree(a) && DateFree(b)
    ensures IntendedMerge(a, Some(b)) == ObjectMerge(a, Some(b))
    decreases a
  {
    if !IsEmpty(Some(b)) {
      var r, q := IntendedMerge(a, Some(b)), ObjectMerge(a, Some(b));
      forall k | k in r.fields
        ensures r.fields[k] == q.fields[k]
      {
        if k in FieldsOf(a) && k in FieldsOf(b) {
          assert DateFree(a.fields[k]) && DateFree(b.fields[k]);
          assert Lookup(b, k) == Some(b.fields[k]);
          assert r.fields[k] == IntendedMergeKey(a.fields[k], Some(b.fields[k]));
          assert q.fields[k] == MergeKey(a.fields[k], Some(b.fields[k]));
          if PlainObjects(a.fields[k], b.fields[k]) {
            IntendedAgreesWithoutDates(a.fields[k], b.fields[k]);
          }
        }
      }
      assert r.fields == q.fields;
    }
  }
}
