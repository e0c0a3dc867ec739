/** The replica's delta-apply step (subtract `deleted`, then merge `updated`)
    and how it relates to the primary's diff: applying the diff of two
    snapshots to the first rebuilds the second. */
module Sync {
  import opened Values
  import opened Filter
  import opened Merge
  import opened Difference
  import opened Shapes

  /** `objectMerge(filterObject(state, deleted), updated)`. */
  function ApplyDelta(state: Value, deleted: Option<Value>, updated: Option<Value>): (r: Result<Value>)
    ensures r.Throws? <==> FilterObject(state, deleted).Throws?
    ensures r.Throws? ==> r.error == InvalidFilterLeaf
    ensures r.Ok? && IsEmpty(updated) ==> Within(r.value, state)
    ensures r.Ok? && IsEmpty(deleted) && deleted != Some(Marker) && Truthy(state) ==> r.value == ObjectMerge(state, updated)
  {
    match FilterObject(state, deleted)
    case Throws(e) => Throws(e)
    case Ok(remainder) => Ok(ObjectMerge(remainder, updated))
  }

  /** A delta as it travels: both halves present as objects. */
  function Patch(state: Value, d: Delta): Result<Value> {
    ApplyDelta(state, Some(Obj(d.deleted)), Some(Obj(d.updated)))
  }

  /** What subtracting the diff's marker tree leaves of the old snapshot, one
      key at a time: a removed key is gone, an untouched key is kept, and a key
      with nested deletions holds the old subtree minus those deletions. */
  lemma RemainderFate(before: Tree, after: Tree, k: string)
    ensures var d := ObjectDifference(before, after);
            var f := FilterObject(Obj(before), Some(Obj(d.deleted)));
            && f.Ok? && f.value.Obj? && f.value.fields.Keys <= before.Keys
            && (k in before && k !in after ==> k !in f.value.fields)
            && (k in before && k in after && k !in d.deleted ==> k in f.value.fields && f.value.fields[k] == before[k])
            && (k in before && k in after && k in d.deleted ==>
                  k in f.value.fields && FilterObject(before[k], Some(d.deleted[k])) == Ok(f.value.fields[k]))
  {
    var d := ObjectDifference(before, after);
    SubtractKey(before, d.deleted, k);
    Difference.KeyFate(before, after, k);
    if k in before && k in after && k in d.deleted {
      NestedRecorded(before, after, k);
    }
  }

  /** A key whose value changed without both sides being objects: the diff
      carries the new value whole and the merge puts it back. */
  lemma FlatKeyRestored(before: Tree, after: Tree, k: string)
    requires k in after && !after[k].Date?
    requires !Descends(Lookup(Obj(before), k), after[k])
    ensures var d := ObjectDifference(before, after);
            var r := Patch(Obj(before), d);
            r.Ok? && r.value.Obj? && k in r.value.fields && r.value.fields[k] == after[k]
  {
    var d := ObjectDifference(before, after);
    RemainderFate(before, after, k);
    Difference.KeyFate(before, after, k);
    var f := FilterObject(Obj(before), Some(Obj(d.deleted))).value;
    if k in before && before[k] == after[k] {
      assert Lookup(Obj(before), k) == Some(after[k]);
    } else {
      assert Recorded(Lookup(Obj(before), k), after[k]);
      assert Lookup(Obj(d.updated), k) == Some(after[k]);
    }
  }

  /** An empty deletion tree leaves an object as it is. */
  lemma EmptyFilterKeeps(v: Value, m: Tree)
    requires v.Obj? && m == map[]
    ensures FilterObject(v, Some(Obj(m))) == Ok(v)
  {
    FastPaths(v, Some(Obj(m)));
  }

  /** A key where two distinct objects meet: what remains there after the
      subtraction is the old subtree minus the nested diff's deletions. */
  lemma NestedRemainder(before: Tree, after: Tree, k: string)
    requires k in before && k in after && before[k].Obj?
    requires Descends(Some(before[k]), after[k])
    ensures var d := ObjectDifference(before, after);
            var nd := ObjectDifference(before[k].fields, after[k].fields);
            var f := FilterObject(Obj(before), Some(Obj(d.deleted)));
            var fk := FilterObject(before[k], Some(Obj(nd.deleted)));
            f.Ok? && f.value.Obj? && k in f.value.fields && fk == Ok(f.value.fields[k]) && fk.value.Obj?
  {
    var d := ObjectDifference(before, after);
    var nd := ObjectDifference(before[k].fields, after[k].fields);
    RemainderFate(before, after, k);
    NestedRecorded(before, after, k);
    var f := FilterObject(Obj(before), Some(Obj(d.deleted)));
    var fk := FilterObject(before[k], Some(Obj(nd.deleted)));
    if nd.deleted == map[] {
      assert k !in d.deleted;
      EmptyFilterKeeps(before[k], nd.deleted);
    } else {
      assert d.deleted[k] == Obj(nd.deleted);
      MarkerTreeNeverThrows(before[k], Obj(nd.deleted));
      assert fk == Ok(f.value.fields[k]);
    }
  }

  /** A key where two distinct objects meet: given that the nested diff
      rebuilds the nested snapshot, the merge puts the nested result back. */
  lemma NestedKeyRestored(before: Tree, after: Tree, k: string)
    requires k in before && k in after && before[k].Obj?
    requires Descends(Some(before[k]), after[k])
    requires Patch(before[k], ObjectDifference(before[k].fields, after[k].fields)) == Ok(after[k])
    ensures var d := ObjectDifference(before, after);
            var r := Patch(Obj(before), d);
            r.Ok? && r.value.Obj? && k in r.value.fields && r.value.fields[k] == after[k]
  {
    var d := ObjectDifference(before, after);
    var nd := ObjectDifference(before[k].fields, after[k].fields);
    NestedRemainder(before, after, k);
    NestedRecorded(before, after, k);
    var f := FilterObject(Obj(before), Some(Obj(d.deleted))).value;
    var fk := f.fields[k];
    assert Patch(before[k], nd) == Ok(ObjectMerge(fk, Some(Obj(nd.updated))));
    MergeAtNestedKey(f, d.updated, k, nd.updated, after[k]);
    assert Patch(Obj(before), d) == Ok(ObjectMerge(f, Some(Obj(d.updated))));
  }

  /** Merging `u` into `f` where `u` holds the nested update `nu` at `k` (or
      nothing, when `nu` is empty) leaves at `k` what merging `nu` into `f`'s
      subtree gives. */
  lemma MergeAtNestedKey(f: Value, u: Tree, k: string, nu: Tree, target: Value)
    requires f.Obj? && k in f.fields && f.fields[k].Obj?
    requires nu != map[] ==> k in u && u[k] == Obj(nu)
    requires nu == map[] ==> k !in u
    requires ObjectMerge(f.fields[k], Some(Obj(nu))) == target
    ensures var r := ObjectMerge(f, Some(Obj(u)));
            r.Obj? && k in r.fields && r.fields[k] == target
  {
    if nu != map[] {
      if f.fields[k] == Obj(nu) {
        MergeSelf(f.fields[k]);
      } else {
        MergeDescends(f, Obj(u), k);
      }
    }
  }

  /** Round trip: subtracting `deleted` from the old snapshot and merging
      `updated` into what remains gives the new snapshot, for trees without
      Dates. */
  lemma {:induction false} RoundTrip(before: Tree, after: Tree)
    requires DateFree(Obj(before)) && DateFree(Obj(after))
    ensures Patch(Obj(before), ObjectDifference(before, after)) == Ok(Obj(after))
    decreases Obj(after), 1
  {
    var d := ObjectDifference(before, after);
    var r := Patch(Obj(before), d);
    assert r.Ok? && r.value.Obj? by {
      RemainderFate(before, after, "");
    }
    forall k | k in after
      ensures k in r.value.fields && r.value.fields[k] == after[k]
    {
      RoundTripKey(before, after, k);
    }
    forall k | k in r.value.fields
      ensures k in after
    {
      RemainderFate(before, after, k);
    }
    assert r.value.fields == after;
  }

  /** The round trip at one key of the new snapshot. */
  lemma {:induction false} RoundTripKey(before: Tree, after: Tree, k: string)
    requires DateFree(Obj(before)) && DateFree(Obj(after))
    requires k in after
    ensures var r := Patch(Obj(before), ObjectDifference(before, after));
            r.Ok? && r.value.Obj? && k in r.value.fields && r.value.fields[k] == after[k]
    decreases Obj(after), 0
  {
    assert DateFree(after[k]);
    if Descends(Lookup(Obj(before), k), after[k]) {
      assert DateFree(before[k]);
      RoundTrip(before[k].fields, after[k].fields);
      NestedKeyRestored(before, after, k);
    } else {
      FlatKeyRestored(before, after, k);
    }
  }

  /** The diff of two snapshots, applied to the newer one, changes nothing: a
      broadcast delivered again is harmless. */
  lemma ReapplyChangesNothing(before: Tree, after: Tree)
    ensures Patch(Obj(after), ObjectDifference(before, after)) == Ok(Obj(after))
  {
    var d := ObjectDifference(before, after);
    DeletedMissesAfter(before, after);
    MissingMarksKeepAll(Obj(after), Obj(d.deleted));
    MergeCarved(Obj(after), Obj(d.updated));
  }

  /** Applying the same diff twice gives what applying it once gives. */
  lemma ApplyTwice(before: Tree, after: Tree)
    requires DateFree(Obj(before)) && DateFree(Obj(after))
    ensures var d := ObjectDifference(before, after);
            var once := Patch(Obj(before), d);
            once.Ok? && Patch(once.value, d) == once
  {
    RoundTrip(before, after);
    ReapplyChangesNothing(before, after);
  }

  /** The interest `{teams: {'1': true}}`. */
  const TeamOneInterest := Fields(map["teams" := Fields(map["1" := Whole])])

  /** Team `'1'`'s re-rating as the diff records it. */
  const ReratedOne := Obj(map["1" := Obj(map["rating" := Num(7)])])

  /** A replica interested in team `'1'` only receives the re-rating whole, and
      of the deletion of team `'2'` only an empty object under `teams`. */
  lemma TeamsProjection()
    ensures FillShape(Obj(map["teams" := ReratedOne]), TeamOneInterest)
            == Ok(Some(Obj(map["teams" := ReratedOne])))
    ensures FillShape(Obj(map["teams" := Obj(map["2" := Marker])]), TeamOneInterest)
            == Ok(Some(Obj(map["teams" := Empty])))
  {
    var one := Fields(map["1" := Whole]);
    assert FillShape(ReratedOne, one) == Ok(Some(ReratedOne)) by {
      WholeLeavesRestrict(ReratedOne, one.fields);
      assert (map k | k in one.fields && k in ReratedOne.fields :: ReratedOne.fields[k]) == ReratedOne.fields;
    }
    OneKeyProjection("teams", ReratedOne, one, ReratedOne);
    var gone := Obj(map["2" := Marker]);
    DisjointSinkYieldsEmpty(gone, one.fields);
    OneKeyProjection("teams", gone, one, Empty);
  }

  /** The empty object the replica receives under `teams` deletes nothing: the
      replica's teams, whatever they hold, survive the subtraction. */
  lemma EmptyDeletionHarmless(teams: Value)
    requires teams.Obj?
    ensures FilterObject(Obj(map["teams" := teams]), Some(Obj(map["teams" := Empty])))
            == Ok(Obj(map["teams" := teams]))
  {
    MissingMarksKeepAll(Obj(map["teams" := teams]), Obj(map["teams" := Empty]));
  }
}
