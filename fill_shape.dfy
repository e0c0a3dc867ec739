/** Shape projection (`fillShape`): keep only the parts of a tree that a
    subscriber's interest shape names. */
module Shapes {
  import opened Values

  /** A sink leaf. `Fields` is a nested object (a `null` leaf behaves as
      `Fields(map[])`, since lodash `keys(null)` is empty); `Computed` is a
      function evaluated against the candidate subtree; `Unset` is `undefined`;
      `Invalid` is any other leaf (`false`, a number, a string). */
  datatype Shape =
    | Whole
    | Fields(fields: map<string, Shape>)
    | Computed(fn: Value -> Shape)
    | Unset
    | Invalid

  /** `fillShape(source, sink)`; `None` is `undefined`. A function sink is applied
      once; what it returns is used as the shape (a function or a scalar returned
      from it has no keys, so it yields `{}`). */
  function FillShape(source: Value, sink: Shape): (r: Result<Option<Value>>)
    ensures r.Ok? && r.value.Some? ==> Within(r.value.value, source)
    ensures r.Throws? ==> ShapeError(r.error)
    ensures sink.Fields? && r.Ok? ==>
              r.value.Some? && r.value.value.Obj? &&
              r.value.value.fields.Keys <= sink.fields.Keys * FieldsOf(source).Keys
    decreases source, 1
  {
    var shape := if sink.Computed? then sink.fn(source) else sink;
    match shape
    case Whole => Ok(Some(source))
    case Unset => Ok(None)
    case Fields(m) => FillFields(source, m)
    case _ => Ok(Some(Empty))
  }

  /** How `fillShape` can fail: a malformed sink leaf, or a key read on a
      `null` source under a non-empty sink. */
  predicate ShapeError(e: Error) {
    e == InvalidShapeLeaf || e == PropertyOfNull
  }

  /** The object branch of `fillShape`: visit the sink's keys, skip those the
      source lacks, project the others. Reading a key of `null` throws. When
      several keys throw, the malformed leaf is the error reported. */
  function FillFields(source: Value, sink: map<string, Shape>): (r: Result<Option<Value>>)
    ensures r.Ok? ==>
              r.value.Some? && r.value.value.Obj? &&
              r.value.value.fields.Keys <= sink.Keys * FieldsOf(source).Keys &&
              Within(r.value.value, source)
    ensures r.Throws? ==> ShapeError(r.error)
    ensures source.Null? ==> (r.Throws? <==> sink != map[]) && (r.Throws? ==> r.error == PropertyOfNull)
    decreases source, 0
  {
    if !source.Obj? then
      if source.Null? && sink != map[] then Throws(PropertyOfNull) else Ok(Some(Empty))
    else
      var present := map k | k in sink && k in source.fields :: ProjectKey(source.fields[k], sink[k]);
      if exists k :: k in present && present[k] == Throws(InvalidShapeLeaf) then Throws(InvalidShapeLeaf)
      else if exists k :: k in present && present[k].Throws? then Throws(PropertyOfNull)
      else Ok(Some(Obj(map k | k in present && present[k].value.Some? :: present[k].value.value)))
  }

  /** One key of the object branch: a nested shape, a function or `true` is
      projected, any other leaf throws. */
  function ProjectKey(v: Value, leaf: Shape): (r: Result<Option<Value>>)
    ensures r.Ok? && r.value.Some? ==> Within(r.value.value, v)
    ensures r.Throws? ==> ShapeError(r.error)
    ensures !(leaf.Fields? || leaf.Computed? || leaf.Whole?) ==> r == Throws(InvalidShapeLeaf)
    decreases v, 2
  {
    if leaf.Fields? || leaf.Computed? || leaf.Whole? then FillShape(v, leaf) else Throws(InvalidShapeLeaf)
  }

  /** A shape without function leaves. */
  ghost predicate Static(sh: Shape)
    decreases sh
  {
    match sh
    case Computed(_) => false
    case Fields(m) => forall k :: k in m ==> Static(m[k])
    case _ => true
  }

  /** `true` returns the source itself and `undefined` returns `undefined`. */
  lemma TrueAndUndefinedSinks(source: Value)
    ensures FillShape(source, Whole) == Ok(Some(source))
    ensures FillShape(source, Unset) == Ok(None)
  {
  }

  /** A function sink is applied to the source first, and its result is the shape. */
  lemma ComputedAppliedFirst(source: Value, f: Value -> Shape)
    requires !f(source).Computed?
    ensures FillShape(source, Computed(f)) == FillShape(source, f(source))
  {
  }

  /** An empty sink yields an empty object, whatever the source. */
  lemma EmptySinkYieldsEmpty(source: Value)
    ensures FillShape(source, Fields(map[])) == Ok(Some(Empty))
  {
  }

  /** A sink whose leaves are all `true` restricts the source to the sink's keys,
      copying each value verbatim. */
  lemma WholeLeavesRestrict(source: Value, m: map<string, Shape>)
    requires source.Obj?
    requires forall k :: k in m ==> m[k].Whole?
    ensures FillShape(source, Fields(m)) == Ok(Some(Obj(map k | k in m && k in source.fields :: source.fields[k])))
  {
    var present := map k | k in m && k in source.fields :: ProjectKey(source.fields[k], m[k]);
    forall k | k in present
      ensures present[k] == Ok(Some(source.fields[k]))
    {
      TrueAndUndefinedSinks(source.fields[k]);
    }
    var r := map k | k in present && present[k].value.Some? :: present[k].value.value;
    assert r == map k | k in m && k in source.fields :: source.fields[k];
    assert FillShape(source, Fields(m)) == FillFields(source, m);
  }

  /** For a `true` leaf whose key the source has, the result holds the source's
      value there verbatim. */
  lemma WholeLeafVerbatim(source: Value, m: map<string, Shape>, k: string)
    requires source.Obj? && k in m && m[k].Whole? && k in source.fields
    requires FillShape(source, Fields(m)).Ok?
    ensures var r := FillShape(source, Fields(m)).value;
            r.Some? && r.value.Obj? && k in r.value.fields && r.value.fields[k] == source.fields[k]
  {
    var present := map k | k in m && k in source.fields :: ProjectKey(source.fields[k], m[k]);
    TrueAndUndefinedSinks(source.fields[k]);
    assert present[k] == Ok(Some(source.fields[k]));
    assert FillShape(source, Fields(m)) == FillFields(source, m);
  }

  /** What lands at one key the object source has, whatever the leaf: the
      key's projection succeeds, and the result holds its value there exactly
      when that value is defined. */
  lemma KeyProjected(source: Value, m: map<string, Shape>, k: string)
    requires source.Obj? && k in m && k in source.fields
    requires FillShape(source, Fields(m)).Ok?
    ensures var p := ProjectKey(source.fields[k], m[k]);
            var r := FillShape(source, Fields(m)).value;
            && p.Ok? && r.Some? && r.value.Obj?
            && (k in r.value.fields <==> p.value.Some?)
            && (p.value.Some? ==> r.value.fields[k] == p.value.value)
  {
    var present := map j | j in m && j in source.fields :: ProjectKey(source.fields[j], m[j]);
    assert FillShape(source, Fields(m)) == FillFields(source, m);
    assert present[k] == ProjectKey(source.fields[k], m[k]);
  }

  /** A malformed leaf throws when the source has its key. */
  lemma InvalidLeafThrows(source: Value, m: map<string, Shape>, k: string)
    requires source.Obj? && k in m && k in source.fields
    requires m[k].Invalid? || m[k].Unset?
    ensures FillShape(source, Fields(m)) == Throws(InvalidShapeLeaf)
  {
    var present := map k | k in m && k in source.fields :: ProjectKey(source.fields[k], m[k]);
    assert present[k].Throws?;
    assert FillShape(source, Fields(m)) == FillFields(source, m);
  }

  /** The object branch throws exactly when the projection of some key that
      both the sink and the source have throws, and it reports a malformed
      leaf exactly when one of those projections does. */
  lemma FieldsThrowExactly(source: Value, m: map<string, Shape>)
    requires source.Obj?
    ensures FillShape(source, Fields(m)).Throws? <==>
              exists k :: k in m && k in source.fields && ProjectKey(source.fields[k], m[k]).Throws?
    ensures FillShape(source, Fields(m)) == Throws(InvalidShapeLeaf) <==>
              exists k :: k in m && k in source.fields && ProjectKey(source.fields[k], m[k]) == Throws(InvalidShapeLeaf)
  {
    var present := map k | k in m && k in source.fields :: ProjectKey(source.fields[k], m[k]);
    assert FillShape(source, Fields(m)) == FillFields(source, m);
    if exists k :: k in m && k in source.fields && ProjectKey(source.fields[k], m[k]).Throws? {
      var k :| k in m && k in source.fields && ProjectKey(source.fields[k], m[k]).Throws?;
      assert present[k].Throws?;
    }
    if exists k :: k in m && k in source.fields && ProjectKey(source.fields[k], m[k]) == Throws(InvalidShapeLeaf) {
      var k :| k in m && k in source.fields && ProjectKey(source.fields[k], m[k]) == Throws(InvalidShapeLeaf);
      assert present[k] == Throws(InvalidShapeLeaf);
    }
  }

  /** A sink built from `true` leaves and nested objects only, over a source
      that has no `null` where the sink asks for keys. */
  ghost predicate Fits(source: Value, sh: Shape)
    decreases sh
  {
    match sh
    case Whole => true
    case Fields(m) =>
      && (source.Null? ==> m == map[])
      && forall k :: k in m ==>
           && (m[k].Whole? || m[k].Fields?)
           && (source.Obj? && k in source.fields ==> Fits(source.fields[k], m[k]))
    case _ => false
  }

  /** Such a sink never makes `fillShape` throw. */
  lemma {:induction false} FitsNeverThrows(source: Value, sh: Shape)
    requires Fits(source, sh)
    ensures FillShape(source, sh).Ok?
    decreases source
  {
    if sh.Fields? && source.Obj? {
      var m := sh.fields;
      forall k | k in m && k in source.fields
        ensures ProjectKey(source.fields[k], m[k]).Ok?
      {
        FitsNeverThrows(source.fields[k], m[k]);
      }
      FieldsThrowExactly(source, m);
    }
  }

  /** A key the source lacks is skipped before its leaf is looked at, so what the
      sink holds there (even a malformed leaf) does not matter. */
  lemma AbsentKeyIgnored(source: Value, m: map<string, Shape>, k: string, leaf: Shape)
    requires source.Obj? && k !in source.fields
    ensures FillShape(source, Fields(m[k := leaf])) == FillShape(source, Fields(m))
  {
    var m' := m[k := leaf];
    var present := map j | j in m && j in source.fields :: ProjectKey(source.fields[j], m[j]);
    var present' := map j | j in m' && j in source.fields :: ProjectKey(source.fields[j], m'[j]);
    assert present'.Keys == present.Keys;
    assert present' == present;
    assert FillShape(source, Fields(m)) == FillFields(source, m);
    assert FillShape(source, Fields(m')) == FillFields(source, m');
  }

  /** A nested sink whose subtree shares no key with the source's subtree yields an
      empty object at that key, not an absent key. */
  lemma DisjointSubtreeYieldsEmpty(source: Value, m: map<string, Shape>, k: string)
    requires source.Obj? && k in m && k in source.fields
    requires source.fields[k].Obj? && m[k].Fields?
    requires m[k].fields.Keys !! source.fields[k].fields.Keys
    requires FillShape(source, Fields(m)).Ok?
    ensures var r := FillShape(source, Fields(m)).value;
            r.Some? && r.value.Obj? && k in r.value.fields && r.value.fields[k] == Empty
  {
    var v := source.fields[k];
    var inner := map j | j in m[k].fields && j in v.fields :: ProjectKey(v.fields[j], m[k].fields[j]);
    assert inner == map[];
    assert FillShape(v, m[k]) == Ok(Some(Empty));
    var present := map j | j in m && j in source.fields :: ProjectKey(source.fields[j], m[j]);
    assert present[k] == Ok(Some(Empty));
  }

  /** A sink sharing no key with an object source yields an empty object. */
  lemma DisjointSinkYieldsEmpty(source: Value, m: map<string, Shape>)
    requires source.Obj? && m.Keys !! source.fields.Keys
    ensures FillShape(source, Fields(m)) == Ok(Some(Empty))
  {
    var present := map k | k in m && k in source.fields :: ProjectKey(source.fields[k], m[k]);
    assert present == map[];
    assert FillShape(source, Fields(m)) == FillFields(source, m);
  }

  /** A one-key source through a one-key sink at that key: the result holds the
      projection of the value under the key. */
  lemma OneKeyProjection(k: string, v: Value, leaf: Shape, w: Value)
    requires leaf.Fields? || leaf.Whole?
    requires FillShape(v, leaf) == Ok(Some(w))
    ensures FillShape(Obj(map[k := v]), Fields(map[k := leaf])) == Ok(Some(Obj(map[k := w])))
  {
    var source := Obj(map[k := v]);
    var m := map[k := leaf];
    var present := map j | j in m && j in source.fields :: ProjectKey(source.fields[j], m[j]);
    assert present == map[k := Ok(Some(w))];
    assert (map j | j in present && present[j].value.Some? :: present[j].value.value) == map[k := w];
    assert FillShape(source, Fields(m)) == FillFields(source, m);
  }

  /** Projecting a projection again through the same static shape changes nothing. */
  lemma {:induction false} ProjectTwice(source: Value, sh: Shape)
    requires Static(sh)
    requires FillShape(source, sh).Ok? && FillShape(source, sh).value.Some?
    ensures FillShape(FillShape(source, sh).value.value, sh) == FillShape(source, sh)
    decreases source
  {
    if sh.Fields? && source.Obj? {
      var m := sh.fields;
      var present := map k | k in m && k in source.fields :: ProjectKey(source.fields[k], m[k]);
      forall k | k in present
        ensures present[k].Ok? && present[k].value.Some?
        ensures FillShape(present[k].value.value, m[k]) == present[k]
      {
        assert !present[k].Throws?;
        ProjectTwice(source.fields[k], m[k]);
      }
      var r := map k | k in present && present[k].value.Some? :: present[k].value.value;
      assert FillShape(source, sh) == FillFields(source, m);
      assert FillShape(source, sh) == Ok(Some(Obj(r)));
      var again := map k | k in m && k in r :: ProjectKey(r[k], m[k]);
      assert again.Keys == present.Keys;
      assert forall k :: k in again ==> again[k] == present[k];
      assert again == present;
      assert (map k | k in again && again[k].value.Some? :: again[k].value.value) == r;
      assert FillShape(Obj(r), sh) == FillFields(Obj(r), m);
    }
  }
}
