/** The diff between two snapshots of a state tree (`objectDifference`). */
module Difference {
  import opened Values
  import opened Filter

  /** `{updated, deleted}`: what was added or changed, and a marker tree of what
      was removed. */
  datatype Delta = Delta(updated: Tree, deleted: Tree)

  /** `+v` for the values the Date comparison meets; `None` is `NaN`. Strings,
      arrays and objects are taken to coerce to `NaN`. */
  function Numeric(v: Option<Value>): Option<int> {
    match v
    case Some(Num(n)) => Some(n)
    case Some(Date(i)) => Some(i)
    case Some(Bool(b)) => Some(if b then 1 else 0)
    case Some(Null) => Some(0)
    case _ => None
  }

  /** Both sides are objects that differ, so the diff descends. A Date counts
      as an object on the old side (lodash `isObject`); on the new side the Date
      test comes first. */
  predicate Descends(o: Option<Value>, n: Value) {
    o.Some? && o.value != n && (o.value.Obj? || o.value.Date?) && n.Obj?
  }

  /** Outside the descending case: whether the new value is recorded whole. An
      equal value is not; a Date is recorded unless the old value coerces to the
      same instant; anything else is. */
  predicate Recorded(o: Option<Value>, n: Value) {
    if o == Some(n) then false
    else if n.Date? then Numeric(o) != Some(n.instant)
    else true
  }

  /** `objectDifference(oldValue, newValue)` on two trees. */
  function ObjectDifference(before: Tree, after: Tree): (d: Delta)
    ensures d.updated.Keys <= after.Keys && d.deleted.Keys <= before.Keys
    ensures MarkerTree(Obj(d.deleted))
    ensures Carved(Obj(d.updated), Obj(after))
    decreases Obj(after)
  {
    var nested := map k | k in after && Descends(Lookup(Obj(before), k), after[k]) ::
                    ObjectDifference(FieldsOf(before[k]), after[k].fields);
    var updated := map k | k in after &&
                             (if k in nested then nested[k].updated != map[] else Recorded(Lookup(Obj(before), k), after[k])) ::
                     if k in nested then Obj(nested[k].updated) else after[k];
    var deleted := map k | k in before && (k in after ==> k in nested && nested[k].deleted != map[]) ::
                     if k in after then Obj(nested[k].deleted) else Marker;
    Delta(updated, deleted)
  }

  /** What the diff records for one key: a removed key is marked `true`, a new
      key is recorded verbatim, an unchanged key (or a Date at the same instant)
      is not recorded, and a changed value outside the descending case is
      recorded whole. A key marked `true` is never also in `updated`. */
  lemma KeyFate(before: Tree, after: Tree, k: string)
    ensures var d := ObjectDifference(before, after);
            && (k in before && k !in after ==> k in d.deleted && d.deleted[k] == Marker && k !in d.updated)
            && (k in after && k !in before ==> k in d.updated && d.updated[k] == after[k] && k !in d.deleted)
            && (k in after && Lookup(Obj(before), k) == Some(after[k]) ==> k !in d.updated && k !in d.deleted)
            && (k in after && after[k].Date? && Numeric(Lookup(Obj(before), k)) == Some(after[k].instant) ==>
                  k !in d.updated && k !in d.deleted)
            && (k in after && !Descends(Lookup(Obj(before), k), after[k]) && Recorded(Lookup(Obj(before), k), after[k]) ==>
                  k in d.updated && d.updated[k] == after[k] && k !in d.deleted)
            && (k in d.deleted && d.deleted[k] == Marker ==> k !in d.updated)
            && (k in after && k in d.deleted ==> Descends(Lookup(Obj(before), k), after[k]))
  {
  }

  /** The diff's marker tree marks nothing the new snapshot holds. */
  lemma {:induction false} DeletedMissesAfter(before: Tree, after: Tree)
    ensures Misses(Obj(ObjectDifference(before, after).deleted), Obj(after))
    decreases Obj(after)
  {
    var d := ObjectDifference(before, after);
    forall k | k in d.deleted
      ensures if d.deleted[k] == Marker then k !in after
              else d.deleted[k].Obj? && (k in after ==> after[k].Obj? && Misses(d.deleted[k], after[k]))
    {
      KeyFate(before, after, k);
      if k in after {
        NestedRecorded(before, after, k);
        DeletedMissesAfter(FieldsOf(before[k]), after[k].fields);
      }
    }
  }

  /** The empty diff. */
  const NoChange := Delta(map[], map[])

  /** Equal snapshots give an empty diff. */
  lemma SelfDifferenceIsEmpty(t: Tree)
    ensures ObjectDifference(t, t) == NoChange
  {
    var d := ObjectDifference(t, t);
    assert d.updated.Keys == {};
    assert d.deleted.Keys == {};
  }

  /** A change the diff does not see: a number replaced by a Date at the same
      instant coerces equal (`+5 === +new Date(5)`), so nothing is recorded and
      a replica keeps the number. */
  lemma NumberBecomesDate()
    ensures ObjectDifference(map["a" := Num(5)], map["a" := Date(5)]) == NoChange
  {
    var d := ObjectDifference(map["a" := Num(5)], map["a" := Date(5)]);
    KeyFate(map["a" := Num(5)], map["a" := Date(5)], "a");
    assert d.updated.Keys == {} && d.deleted.Keys == {};
  }

  /** Another: an old Date replaced by `{}` is descended into as an object and
      has no keys to compare, so nothing is recorded and a replica keeps the
      Date. */
  lemma DateBecomesEmpty()
    ensures ObjectDifference(map["a" := Date(5)], map["a" := Empty]) == NoChange
  {
    var d := ObjectDifference(map["a" := Date(5)], map["a" := Empty]);
    SelfDifferenceIsEmpty(map[]);
    NestedRecorded(map["a" := Date(5)], map["a" := Empty], "a");
    assert d.updated.Keys == {} && d.deleted.Keys == {};
  }

  /** The example in the function's own documentation:
      `objectDifference({a: 1}, {b: 2})` is `{updated: {b: 2}, deleted: {a: true}}`. */
  lemma DocumentedExample()
    ensures ObjectDifference(map["a" := Num(1)], map["b" := Num(2)])
            == Delta(map["b" := Num(2)], map["a" := Marker])
  {
    var d := ObjectDifference(map["a" := Num(1)], map["b" := Num(2)]);
    assert d.updated.Keys == {"b"};
    assert d.deleted.Keys == {"a"};
  }

  /** Two objects that differ at a key: the nested diff is recorded under that
      key on each side where it is non-empty. */
  lemma NestedRecorded(before: Tree, after: Tree, k: string)
    requires k in before && k in after && Descends(Some(before[k]), after[k])
    ensures var d := ObjectDifference(before, after);
            var nd := ObjectDifference(FieldsOf(before[k]), after[k].fields);
            && (nd.updated != map[] <==> k in d.updated)
            && (nd.updated != map[] ==> d.updated[k] == Obj(nd.updated))
            && (nd.deleted != map[] <==> k in d.deleted)
            && (nd.deleted != map[] ==> d.deleted[k] == Obj(nd.deleted))
  {
    assert Lookup(Obj(before), k) == Some(before[k]);
  }

  /** A team record `{name, rating}`. */
  function Team(name: string, rating: int): Value {
    Obj(map["name" := Str(name), "rating" := Num(rating)])
  }

  /** Two snapshots with the same keys that differ at one flat key only: the
      diff records that key's new value and deletes nothing. */
  lemma OneFlatChange(before: Tree, after: Tree, k: string)
    requires before.Keys == after.Keys && k in after
    requires forall j :: j in after && j != k ==> before[j] == after[j]
    requires before[k] != after[k] && !after[k].Obj? && !after[k].Date?
    ensures ObjectDifference(before, after) == Delta(map[k := after[k]], map[])
  {
    var d := ObjectDifference(before, after);
    forall j | j in after
      ensures j == k <==> j in d.updated
      ensures j !in d.deleted
    {
      KeyFate(before, after, j);
      if j != k {
        assert Lookup(Obj(before), j) == Some(after[j]);
      }
    }
    assert k in d.updated && d.updated[k] == after[k] by {
      KeyFate(before, after, k);
    }
    SingleKey(d.updated, k, after[k]);
    assert d.deleted.Keys == {};
  }

  /** Re-rating team `'1'` inside the roster: only the rating is recorded. */
  lemma TeamRerated()
    ensures ObjectDifference(Team("A", 5).fields, Team("A", 7).fields)
            == Delta(map["rating" := Num(7)], map[])
  {
    OneFlatChange(Team("A", 5).fields, Team("A", 7).fields, "rating");
  }

  /** The roster level: team `'1'` re-rated, team `'2'` removed. */
  lemma RosterChanged()
    ensures ObjectDifference(map["1" := Team("A", 5), "2" := Team("B", 3)], map["1" := Team("A", 7)])
            == Delta(map["1" := Obj(map["rating" := Num(7)])], map["2" := Marker])
  {
    var before := map["1" := Team("A", 5), "2" := Team("B", 3)];
    var after := map["1" := Team("A", 7)];
    var d := ObjectDifference(before, after);
    assert "1" in d.updated && d.updated["1"] == Obj(map["rating" := Num(7)]) && "1" !in d.deleted by {
      TeamRerated();
      assert Team("A", 5).fields["rating"] != Team("A", 7).fields["rating"];
      NestedRecorded(before, after, "1");
    }
    assert "2" in d.deleted && d.deleted["2"] == Marker by {
      KeyFate(before, after, "2");
    }
    SingleKey(d.updated, "1", Obj(map["rating" := Num(7)]));
    SingleKey(d.deleted, "2", Marker);
  }

  /** A tree with one known key and no others is that one-key tree. */
  lemma SingleKey(t: Tree, k: string, v: Value)
    requires k in t && t[k] == v && t.Keys <= {k}
    ensures t == map[k := v]
  {
  }

  /** Changing the rating of team `'1'` to 7 and deleting team `'2'` yields
      `updated = {teams: {'1': {rating: 7}}}` and `deleted = {teams: {'2': true}}`. */
  lemma TeamsScenario()
    ensures ObjectDifference(map["teams" := Obj(map["1" := Team("A", 5), "2" := Team("B", 3)])],
                             map["teams" := Obj(map["1" := Team("A", 7)])])
            == Delta(map["teams" := Obj(map["1" := Obj(map["rating" := Num(7)])])],
                     map["teams" := Obj(map["2" := Marker])])
  {
    var before := map["teams" := Obj(map["1" := Team("A", 5), "2" := Team("B", 3)])];
    var after := map["teams" := Obj(map["1" := Team("A", 7)])];
    var d := ObjectDifference(before, after);
    var nested := Delta(map["1" := Obj(map["rating" := Num(7)])], map["2" := Marker]);
    assert d.updated["teams"] == Obj(nested.updated) && d.deleted["teams"] == Obj(nested.deleted) by {
      RosterChanged();
      assert "2" !in after["teams"].fields;
      NestedRecorded(before, after, "teams");
    }
    SingleKey(d.updated, "teams", Obj(nested.updated));
    SingleKey(d.deleted, "teams", Obj(nested.deleted));
  }
}
