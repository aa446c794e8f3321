/** Values set by several zones for one attribute, and the rule that picks the effective one. */
module MultiZone {
  import opened Wrappers

  datatype ZoneId = ZoneId(name: string)

  /** The empty identifier: a caller without a zone. */
  const NO_ZONE := ZoneId("")

  const ZONE_TYPE_TEST: u8 := 3

  datatype ZoneValue = ZoneValue(zoneType: u8, value: int, duration: int, setAt: int) {
    /** Only a value with a positive duration expires, and only strictly after its last instant. */
    predicate Expired(now: int) {
      duration > 0 && now > setAt + duration
    }
  }

  type Values = map<ZoneId, ZoneValue>

  function Unexpired(m: Values, now: int): Values {
    map z | z in m && !m[z].Expired(now) :: m[z]
  }

  /** TEST zones only observe. */
  predicate Eligible(m: Values, z: ZoneId) {
    z in m && m[z].zoneType != ZONE_TYPE_TEST
  }

  /** "a" restricts strictly more than "b": a non-negative limit beats a negative one,
      a smaller non-negative one beats a larger, and a negative one closer to zero beats the rest. */
  predicate Tighter(a: int, b: int) {
    if a >= 0 then b < 0 || a < b else b < 0 && b < a
  }

  /** "e" is a most restrictive eligible value, or absent exactly when no zone is eligible. */
  ghost predicate IsEffective(m: Values, e: Option<int>) {
    match e
    case None => forall z :: z in m ==> !Eligible(m, z)
    case Some(v) =>
      && (exists z :: Eligible(m, z) && m[z].value == v)
      && (forall z :: Eligible(m, z) ==> !Tighter(m[z].value, v))
  }

  lemma EffectiveUnique(m: Values, e: Option<int>, f: Option<int>)
    requires IsEffective(m, e) && IsEffective(m, f)
    ensures e == f
  {
    if e.Some? {
      var z :| Eligible(m, z) && m[z].value == e.value;
      assert f.Some?;
    }
  }

  lemma {:induction false} EffectiveExists(m: Values)
    ensures exists e :: IsEffective(m, e)
    decreases |m|
  {
    if z :| Eligible(m, z) {
      var rest := m - {z};
      EffectiveExists(rest);
      var e :| IsEffective(rest, e);
      assert forall w :: Eligible(m, w) ==> w == z || (Eligible(rest, w) && rest[w] == m[w]);
      if e.None? || Tighter(m[z].value, e.value) {
        assert forall w :: Eligible(rest, w) ==> !Tighter(rest[w].value, m[z].value);
        assert IsEffective(m, Some(m[z].value));
      } else {
        var y :| Eligible(rest, y) && rest[y].value == e.value;
        assert Eligible(m, y) && m[y].value == e.value;
        assert IsEffective(m, e);
      }
    } else {
      assert IsEffective(m, None);
    }
  }

  ghost function Effective(m: Values): (e: Option<int>)
    ensures IsEffective(m, e)
  {
    EffectiveExists(m);
    var e :| IsEffective(m, e);
    e
  }

  /** With the non-negative values that the limit resolver admits, "most restrictive" is the minimum. */
  lemma EffectiveIsMinimum(m: Values, v: int)
    requires forall z :: Eligible(m, z) ==> m[z].value >= 0
    ensures Effective(m) == Some(v) <==>
            (exists z :: Eligible(m, z) && m[z].value == v) && (forall z :: Eligible(m, z) ==> v <= m[z].value)
    ensures Effective(m) == None <==> forall z :: z in m ==> m[z].zoneType == ZONE_TYPE_TEST
  {
    var e := Effective(m);
    if (exists z :: Eligible(m, z) && m[z].value == v) && (forall z :: Eligible(m, z) ==> v <= m[z].value) {
      assert IsEffective(m, Some(v));
      EffectiveUnique(m, e, Some(v));
    }
    if forall z :: z in m ==> m[z].zoneType == ZONE_TYPE_TEST {
      assert IsEffective(m, None);
      EffectiveUnique(m, e, None);
    }
    if e.None? {
      assert forall z :: z in m ==> !Eligible(m, z);
    }
  }

  /** What a TEST zone (type 3) sets makes no difference to the effective value. */
  lemma TestZonesIgnored(m: Values, z: ZoneId, v: ZoneValue)
    requires v.zoneType == 3 && z !in m
    ensures Effective(m[z := v]) == Effective(m)
  {
    var m', e := m[z := v], Effective(m);
    assert forall y :: Eligible(m', y) <==> Eligible(m, y);
    assert forall y :: Eligible(m, y) ==> m'[y] == m[y];
    if e.Some? {
      var y :| Eligible(m, y) && m[y].value == e.value;
      assert Eligible(m', y) && m'[y].value == e.value;
    }
    assert IsEffective(m', e);
    EffectiveUnique(m', Effective(m'), e);
  }

  /** Among values of both signs the least non-negative one counts; among negative ones the greatest. */
  lemma EffectiveBySign(m: Values, v: int)
    requires Effective(m) == Some(v)
    ensures forall z :: Eligible(m, z) && m[z].value >= 0 ==> 0 <= v <= m[z].value
    ensures forall z :: Eligible(m, z) && v < 0 ==> m[z].value < 0 && m[z].value <= v
    ensures exists z :: Eligible(m, z) && m[z].value == v
  {
  }

  class MultiZoneValue {
    var values: Values
    var effectiveValue: Option<int>
    var winningZone: ZoneId

    constructor ()
      ensures values == map[] && effectiveValue == None && winningZone == NO_ZONE
    {
      values, effectiveValue, winningZone := map[], None, NO_ZONE;
    }

    method Set(z: ZoneId, zoneType: u8, value: int, duration: int, now: int)
      modifies this`values
      ensures values == old(values)[z := ZoneValue(zoneType, value, duration, now)]
    {
      values := values[z := ZoneValue(zoneType, value, duration, now)];
    }

    method Clear(z: ZoneId)
      modifies this`values
      ensures values == old(values) - {z}
    {
      values := values - {z};
    }

    method RemoveExpired(now: int)
      modifies this`values
      ensures values == Unexpired(old(values), now)
    {
      var todo := values.Keys;
      while todo != {}
        invariant todo <= values.Keys
        invariant values == map z | z in old(values) && (!old(values)[z].Expired(now) || z in todo) :: old(values)[z]
      {
        var z :| z in todo;
        if values[z].Expired(now) {
          values := values - {z};
        }
        todo := todo - {z};
      }
    }

    /** Visits the zones in an arbitrary order; the value found does not depend on it, and the
        winning zone is some zone that set that value. */
    method ResolveLimits(now: int) returns (effective: Option<int>, winner: ZoneId)
      modifies this
      ensures values == Unexpired(old(values), now)
      ensures effective == Effective(values)
      ensures effective == effectiveValue && winner == winningZone
      ensures effective.Some? ==> Eligible(values, winner) && values[winner].value == effective.value
      ensures effective.None? ==> winner == NO_ZONE
    {
      RemoveExpired(now);
      effective, winner := None, NO_ZONE;
      var todo := values.Keys;
      while todo != {}
        invariant todo <= values.Keys && values == Unexpired(old(values), now)
        invariant effective.None? ==> winner == NO_ZONE && forall z :: Eligible(values, z) ==> z in todo
        invariant effective.Some? ==>
                    Eligible(values, winner) && values[winner].value == effective.value
        invariant effective.Some? ==>
                    forall z :: Eligible(values, z) && z !in todo ==> !Tighter(values[z].value, effective.value)
      {
        var z :| z in todo;
        todo := todo - {z};
        var v := values[z];
        if v.zoneType != ZONE_TYPE_TEST {
          if effective.None? {
            effective, winner := Some(v.value), z;
          } else if v.value >= 0 && effective.value >= 0 {
            if v.value < effective.value {
              effective, winner := Some(v.value), z;
            }
          } else if v.value < 0 && effective.value < 0 {
            if v.value > effective.value {
              effective, winner := Some(v.value), z;
            }
          } else if v.value >= 0 && effective.value < 0 {
            effective, winner := Some(v.value), z;
          }
        }
      }
      assert IsEffective(values, effective);
      EffectiveUnique(values, effective, Effective(values));
      effectiveValue, winningZone := effective, winner;
    }
  }
}
