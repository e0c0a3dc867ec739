/** Subtraction (`filterObject`): remove from a tree every key that a deletion
    marker tree marks with `true`. */
module Filter {
  import opened Values

  /** `filterObject(source, filter)`; `None` is `undefined`. */
  function FilterObject(source: Value, filter: Option<Value>): (r: Result<Value>)
    ensures r.Ok? ==> Truthy(r.value) && Within(r.value, source)
    ensures r.Ok? ==> FieldsOf(r.value).Keys <= FieldsOf(source).Keys
    ensures r.Ok? && source.Obj? ==> r.value.Obj?
    ensures r.Throws? ==> r.error == InvalidFilterLeaf
    decreases source, 1
  {
    if !Truthy(source) || filter == Some(Marker) then Ok(Empty)
    else if IsEmpty(filter) then Ok(source)
    else if !source.Obj? then Ok(Empty)
    else
      var results := KeyResults(source, filter.value);
      if exists k :: k in results && results[k].Throws? then Throws(InvalidFilterLeaf)
      else Ok(Obj(map k | k in results && results[k].value.Some? :: results[k].value.value))
  }

  /** What each key of an object source becomes under `filter`. */
  function KeyResults(source: Value, filter: Value): (r: map<string, Result<Option<Value>>>)
    requires source.Obj?
    ensures r.Keys == source.fields.Keys
    ensures forall k :: k in r ==> r[k] == FilterKey(source.fields[k], Lookup(filter, k))
    decreases source, 0
  {
    map k | k in source.fields :: FilterKey(source.fields[k], Lookup(filter, k))
  }

  /** One key of the source: an object filter leaf is recursed into, `true` drops
      the key, another truthy leaf throws, an absent or falsy leaf copies the value. */
  function FilterKey(v: Value, leaf: Option<Value>): (r: Result<Option<Value>>)
    ensures r.Ok? && r.value.Some? ==> Within(r.value.value, v)
    ensures r.Throws? ==> r.error == InvalidFilterLeaf
    decreases v, 2
  {
    match leaf
    case None => Ok(Some(v))
    case Some(f) =>
      if IsObject(f) then
        match FilterObject(v, leaf)
        case Ok(x) => Ok(Some(x))
        case Throws(e) => Throws(e)
      else if f == Marker then Ok(None)
      else if Truthy(f) then Throws(InvalidFilterLeaf)
      else Ok(Some(v))
  }

  /** A deletion marker tree: `true`, or an object whose values are marker trees. */
  ghost predicate MarkerTree(v: Value)
    decreases v
  {
    v == Marker || (v.Obj? && forall k :: k in v.fields ==> MarkerTree(v.fields[k]))
  }

  /** Every `true` in the marker tree `m` marks a key that `s` lacks, and every
      nested marker object meets an object in `s`, or nothing. */
  ghost predicate Misses(m: Value, s: Value)
    decreases m
  {
    m.Obj? &&
    forall k :: k in m.fields ==>
      if m.fields[k] == Marker then k !in FieldsOf(s)
      else m.fields[k].Obj? && (k in FieldsOf(s) ==> s.fields[k].Obj? && Misses(m.fields[k], s.fields[k]))
  }

  /** Subtracting a marker tree that marks nothing present gives the source back. */
  lemma {:induction false} MissingMarksKeepAll(s: Value, m: Value)
    requires s.Obj? && Misses(m, s)
    ensures FilterObject(s, Some(m)) == Ok(s)
    decreases s
  {
    if m.fields != map[] {
      var results := KeyResults(s, m);
      forall k | k in results
        ensures results[k] == Ok(Some(s.fields[k]))
      {
        if k in m.fields {
          MissingMarksKeepAll(s.fields[k], m.fields[k]);
        }
      }
      assert (map k | k in results && results[k].value.Some? :: results[k].value.value) == s.fields;
    }
  }

  /** A falsy source or a `true` filter gives `{}`; an empty (or absent) filter
      returns a truthy source unchanged. */
  lemma FastPaths(source: Value, filter: Option<Value>)
    ensures !Truthy(source) || filter == Some(Marker) ==> FilterObject(source, filter) == Ok(Empty)
    ensures Truthy(source) && filter != Some(Marker) && IsEmpty(filter) ==> FilterObject(source, filter) == Ok(source)
  {
  }

  /** What happens to one key of an object source under a non-empty filter: `true`
      drops it, an absent or falsy leaf copies it, an object leaf is recursed into. */
  lemma KeyFate(source: Value, filter: Value, k: string)
    requires source.Obj? && k in source.fields
    requires !IsEmpty(Some(filter)) && filter != Marker
    requires FilterObject(source, Some(filter)).Ok?
    ensures var r := FilterObject(source, Some(filter)).value;
            var leaf := Lookup(filter, k);
            && r.Obj?
            && (leaf == Some(Marker) ==> k !in r.fields)
            && (leaf.None? || !Truthy(leaf.value) ==> k in r.fields && r.fields[k] == source.fields[k])
            && (leaf.Some? && IsObject(leaf.value) ==>
                  k in r.fields && FilterObject(source.fields[k], leaf) == Ok(r.fields[k]))
  {
    var results := KeyResults(source, filter);
    assert results[k].Ok?;
  }

  /** A truthy filter leaf that is neither `true` nor an object throws, when the
      source has that key. */
  lemma InvalidLeafThrows(source: Value, filter: Value, k: string)
    requires source.Obj? && k in source.fields
    requires !IsEmpty(Some(filter)) && filter != Marker
    requires Lookup(filter, k).Some?
    requires var f := Lookup(filter, k).value; Truthy(f) && f != Marker && !IsObject(f)
    ensures FilterObject(source, Some(filter)) == Throws(InvalidFilterLeaf)
  {
    var results := KeyResults(source, filter);
    assert results[k].Throws?;
  }

  /** A filter key the object source lacks has no effect. */
  lemma AbsentKeyIgnored(source: Value, m: map<string, Value>, k: string, leaf: Value)
    requires source.Obj? && k !in source.fields
    ensures FilterObject(source, Some(Obj(m[k := leaf]))) == FilterObject(source, Some(Obj(m)))
  {
    if m == map[] {
      AbsentKeyOnly(source, k, leaf);
      FastPaths(source, Some(Obj(m)));
    } else {
      var m' := m[k := leaf];
      var results' := KeyResults(source, Obj(m'));
      var results := KeyResults(source, Obj(m));
      assert results' == results;
      assert Obj(m') != Marker && !IsEmpty(Some(Obj(m')));
      assert Obj(m) != Marker && !IsEmpty(Some(Obj(m)));
    }
  }

  /** A filter whose only key the object source lacks gives the source back. */
  lemma AbsentKeyOnly(source: Value, k: string, leaf: Value)
    requires source.Obj? && k !in source.fields
    ensures FilterObject(source, Some(Obj(map[k := leaf]))) == Ok(source)
  {
    var results := KeyResults(source, Obj(map[k := leaf]));
    assert forall j :: j in results ==> results[j] == Ok(Some(source.fields[j]));
    assert (map j | j in results && results[j].value.Some? :: results[j].value.value) == source.fields;
  }

  /** Subtracting a marker tree never throws. */
  lemma {:induction false} MarkerTreeNeverThrows(source: Value, filter: Value)
    requires MarkerTree(filter)
    ensures FilterObject(source, Some(filter)).Ok?
    decreases source
  {
    if Truthy(source) && filter != Marker && !IsEmpty(Some(filter)) && source.Obj? {
      var results := KeyResults(source, filter);
      forall j | j in results
        ensures results[j].Ok?
      {
        if Lookup(filter, j).Some? && IsObject(Lookup(filter, j).value) {
          MarkerTreeNeverThrows(source.fields[j], Lookup(filter, j).value);
        }
      }
    }
  }

  /** Subtracting a marker tree from an object, one key at a time: a key the
      tree marks `true` is gone, a key it does not name is kept, and a key with
      a nested marker object holds the subtree minus that object. */
  lemma SubtractKey(source: Tree, del: Tree, k: string)
    requires MarkerTree(Obj(del))
    ensures var f := FilterObject(Obj(source), Some(Obj(del)));
            && f.Ok? && f.value.Obj? && f.value.fields.Keys <= source.Keys
            && (k in source && k !in del ==> k in f.value.fields && f.value.fields[k] == source[k])
            && (k in source && k in del && del[k] == Marker ==> k !in f.value.fields)
            && (k in source && k in del && del[k] != Marker ==>
                  del[k].Obj? && k in f.value.fields && FilterObject(source[k], Some(del[k])) == Ok(f.value.fields[k]))
  {
    MarkerTreeNeverThrows(Obj(source), Obj(del));
    if del == map[] {
      FastPaths(Obj(source), Some(Obj(del)));
    } else if k in source {
      KeyFate(Obj(source), Obj(del), k);
    }
  }

  /** The example in the function's own documentation:
      `filterObject({a: 1, b: {c: {}}}, {b: {c: true}})` is `{a: 1, b: {}}`. */
  lemma DocumentedExample()
    ensures FilterObject(Obj(map["a" := Num(1), "b" := Obj(map["c" := Empty])]),
                         Some(Obj(map["b" := Obj(map["c" := Marker])])))
            == Ok(Obj(map["a" := Num(1), "b" := Empty]))
  {
    var source := Obj(map["a" := Num(1), "b" := Obj(map["c" := Empty])]);
    var filter := Obj(map["b" := Obj(map["c" := Marker])]);
    var r := FilterObject(source, Some(filter));
    assert r.Ok? by {
      assert MarkerTree(filter.fields["b"].fields["c"]);
      MarkerTreeNeverThrows(source, filter);
    }
    assert filter != Marker && "a" !in filter.fields && "b" in filter.fields;
    assert "a" in r.value.fields && r.value.fields["a"] == Num(1) by {
      KeyFate(source, filter, "a");
    }
    assert "b" in r.value.fields && r.value.fields["b"] == Empty by {
      KeyFate(source, filter, "b");
      DocumentedExampleInner();
    }
    assert r.value.fields.Keys == {"a", "b"};
    assert r.value.fields == map["a" := Num(1), "b" := Empty];
  }

  /** The inner step of the documented example: `{c: {}}` minus `{c: true}`. */
  lemma DocumentedExampleInner()
    ensures FilterObject(Obj(map["c" := Empty]), Some(Obj(map["c" := Marker]))) == Ok(Empty)
  {
    var inner := Obj(map["c" := Empty]);
    var innerFilter := Obj(map["c" := Marker]);
    assert MarkerTree(innerFilter.fields["c"]);
    MarkerTreeNeverThrows(inner, innerFilter);
    KeyFate(inner, innerFilter, "c");
    var r := FilterObject(inner, Some(innerFilter)).value;
    assert r.fields == map[];
  }
}
