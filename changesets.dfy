/**
 Change-sets as the field tracker reports them: each changed attribute mapped to
 the value it had before the change. This module holds the no-op filter applied
 by `save`, the "older value wins" merge used to coalesce saves within one
 transaction, and `Net`, an independent pointwise description of what a whole
 transaction's worth of saves should coalesce to.
 */
module ChangeSets {

  /** Previous value of a tracked attribute (`None` before the entity was first saved). */
  datatype Value = Null | Int(i: int) | Text(s: string) | Bool(b: bool)

  type Field = string

  type ChangeSet = map<Field, Value>

  /** The identity attribute; its presence in a change-set means the save created the entity. */
  const IdField: Field := "id"

  /** The housekeeping timestamp whose change alone is not worth a notification. */
  const DateUpdatedField: Field := "date_updated"

  /** The filter at the top of `save`: nothing changed, or only `date_updated` did. */
  predicate IsNoOp(cs: ChangeSet)
  {
    |cs| == 0 || (|cs| == 1 && DateUpdatedField in cs)
  }

  /** A save is suppressed exactly when every changed field is the housekeeping timestamp. */
  lemma NoOpIffOnlyHousekeeping(cs: ChangeSet)
    ensures IsNoOp(cs) <==> cs.Keys <= {DateUpdatedField}
  {
    if cs.Keys <= {DateUpdatedField} {
      if DateUpdatedField in cs {
        assert cs.Keys == {DateUpdatedField};
      } else {
        assert cs.Keys == {};
      }
    }
    if |cs| == 1 && DateUpdatedField in cs {
      assert |cs.Keys - {DateUpdatedField}| == 0;
    }
  }

  /** `date_updated` together with any other field is delivered, not suppressed. */
  lemma DateUpdatedWithOtherIsDelivered(cs: ChangeSet, f: Field)
    requires DateUpdatedField in cs && f in cs && f != DateUpdatedField
    ensures !IsNoOp(cs)
  {
    NoOpIffOnlyHousekeeping(cs);
  }

  /**
   `newer.update(cached)`: every field of the cached (older) change-set keeps
   its cached value, and fields that only the newer change-set has are kept.
   */
  function Merge(newer: ChangeSet, cached: ChangeSet): (r: ChangeSet)
    ensures r.Keys == newer.Keys + cached.Keys
    ensures forall f :: f in cached ==> r[f] == cached[f]
    ensures forall f :: f in newer && f !in cached ==> r[f] == newer[f]
  {
    newer + cached
  }

  /** Fields touched by the saves of `saves` that the no-op filter lets through. */
  function Touched(saves: seq<ChangeSet>): set<Field>
  {
    if saves == [] then {}
    else (if IsNoOp(saves[0]) then {} else saves[0].Keys) + Touched(saves[1..])
  }

  /** The previous value reported for `f` by the first non-suppressed save that touched it. */
  function FirstValue(saves: seq<ChangeSet>, f: Field): Value
    requires f in Touched(saves)
  {
    if !IsNoOp(saves[0]) && f in saves[0] then saves[0][f] else FirstValue(saves[1..], f)
  }

  /**
   The net change of a sequence of saves: each touched field with the previous
   value reported by the first save that got through the no-op filter and
   touched it. A value reported only by a suppressed save is lost.
   */
  function Net(saves: seq<ChangeSet>): (r: ChangeSet)
    ensures r.Keys == Touched(saves)
  {
    map f | f in Touched(saves) :: FirstValue(saves, f)
  }

  /**
   A suppressed save reports nothing: when a save changes only `date_updated`,
   the `date_updated` value of the next save that gets through is the one
   reported, not the older one.
   */
  lemma SuppressedSaveValueLost()
    ensures var saves := [map[DateUpdatedField := Int(0)], map["status" := Text("x"), DateUpdatedField := Int(1)]];
      DateUpdatedField in Net(saves) && Net(saves)[DateUpdatedField] == Int(1)
  {
    var first: ChangeSet := map[DateUpdatedField := Int(0)];
    var second: ChangeSet := map["status" := Text("x"), DateUpdatedField := Int(1)];
    var saves := [first, second];
    assert IsNoOp(first);
    assert !IsNoOp(second) by {
      assert "status" in second && "status" != DateUpdatedField;
      DateUpdatedWithOtherIsDelivered(second, "status");
    }
    assert saves[1..] == [second];
    assert [second][1..] == [];
    assert DateUpdatedField in Touched(saves);
    assert FirstValue(saves, DateUpdatedField) == FirstValue([second], DateUpdatedField) == Int(1);
  }

  lemma {:induction false} TouchedSnoc(saves: seq<ChangeSet>, s: ChangeSet)
    ensures Touched(saves + [s]) == Touched(saves) + (if IsNoOp(s) then {} else s.Keys)
  {
    if saves == [] {
      assert [s][1..] == [];
    } else {
      assert (saves + [s])[1..] == saves[1..] + [s];
      TouchedSnoc(saves[1..], s);
    }
  }

  lemma {:induction false} FirstValueSnoc(saves: seq<ChangeSet>, s: ChangeSet, f: Field)
    requires f in Touched(saves + [s])
    ensures f in Touched(saves) ==> FirstValue(saves + [s], f) == FirstValue(saves, f)
    ensures f !in Touched(saves) ==> !IsNoOp(s) && f in s && FirstValue(saves + [s], f) == s[f]
  {
    TouchedSnoc(saves, s);
    if saves == [] {
      assert [s][1..] == [];
    } else {
      assert (saves + [s])[1..] == saves[1..] + [s];
      if !IsNoOp(saves[0]) && f in saves[0] {
      } else {
        FirstValueSnoc(saves[1..], s, f);
      }
    }
  }

  /** Appending one save to a transaction merges its change-set under the net change so far. */
  lemma {:induction false} NetSnoc(saves: seq<ChangeSet>, s: ChangeSet)
    ensures Net(saves + [s]) == if IsNoOp(s) then Net(saves) else Merge(s, Net(saves))
  {
    TouchedSnoc(saves, s);
    var expected := if IsNoOp(s) then Net(saves) else Merge(s, Net(saves));
    forall f | f in Touched(saves + [s])
      ensures Net(saves + [s])[f] == expected[f]
    {
      FirstValueSnoc(saves, s, f);
    }
  }

  /** A transaction in which some save got through the filter has a non-empty net change. */
  lemma {:induction false} TouchedNonEmpty(saves: seq<ChangeSet>)
    ensures Touched(saves) == {} <==> forall i :: 0 <= i < |saves| ==> IsNoOp(saves[i])
  {
    if saves != [] {
      TouchedNonEmpty(saves[1..]);
      if !IsNoOp(saves[0]) {
        assert saves[0] != map[];
        var f :| f in saves[0];
        assert f in Touched(saves);
      }
      forall i | 1 <= i < |saves|
        ensures saves[i] == saves[1..][i - 1]
      {
      }
    }
  }
}
