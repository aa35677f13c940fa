/** The preference functions of the PROMETHEE engine (`preference_functions.py`), over the reals. */
module Preferences {

  datatype Shape = Usual | UShape | VShape | VShape2 | Level

  /** A registered function with its two thresholds; an unregistered name is refused before it is looked up. */
  datatype Preference = Preference(shape: Shape, q: real, p: real)

  /** The preference that a difference `d` in a criterion earns. */
  function Prefer(f: Preference, d: real): real {
    match f.shape
    case Usual => if d > 0.0 then 1.0 else 0.0
    case UShape => if d > f.q then 1.0 else 0.0
    case VShape =>
      if 0.0 < d <= f.p then d / (if f.p > 0.0 then f.p else 1.0)
      else if d > f.p then 1.0 else 0.0
    case VShape2 =>
      if f.q < d <= f.p then (d - f.q) / (if f.p > f.q then f.p - f.q else 1.0)
      else if d > f.p then 1.0 else 0.0
    case Level =>
      if f.q < d <= f.p then 0.5
      else if d > f.p then 1.0 else 0.0
  }

  lemma ProductPositive(a: real, b: real)
    requires 0.0 < a && 0.0 < b
    ensures 0.0 < a * b
  {
  }

  lemma RatioMonotone(a: real, a': real, b: real)
    requires a <= a' && 0.0 < b
    ensures a / b <= a' / b
  {
    var r, r' := a / b, a' / b;
    assert r * b == a && r' * b == a';
    assert (r - r') * b == a - a';
    if r > r' {
      ProductPositive(r - r', b);
    }
  }

  lemma RatioInUnit(a: real, b: real)
    requires 0.0 <= a <= b && 0.0 < b
    ensures 0.0 <= a / b <= 1.0
  {
    RatioMonotone(0.0, a, b);
    RatioMonotone(a, b, b);
    assert b / b == 1.0 && 0.0 / b == 0.0;
  }

  /** Every shape, whatever its thresholds, stays in the unit interval. */
  lemma PreferInUnit(f: Preference, d: real)
    ensures 0.0 <= Prefer(f, d) <= 1.0
  {
    if f.shape.VShape? && 0.0 < d <= f.p {
      RatioInUnit(d, f.p);
    } else if f.shape.VShape2? && f.q < d <= f.p {
      RatioInUnit(d - f.q, f.p - f.q);
    }
  }

  /** Every shape, whatever its thresholds, never falls. */
  lemma PreferMonotone(f: Preference, d: real, e: real)
    requires d <= e
    ensures Prefer(f, d) <= Prefer(f, e)
  {
    PreferInUnit(f, d);
    PreferInUnit(f, e);
    if f.shape.VShape? && 0.0 < d && e <= f.p {
      RatioMonotone(d, e, f.p);
    } else if f.shape.VShape2? && f.q < d && e <= f.p {
      RatioMonotone(d - f.q, e - f.q, f.p - f.q);
    }
  }

  /** When a tie earns nothing: a condition on the thresholds the shape uses. */
  predicate TieEarnsNothing(f: Preference) {
    match f.shape
    case Usual => true
    case UShape => f.q >= 0.0
    case VShape => f.p >= 0.0
    case VShape2 => f.q >= 0.0 && f.p >= 0.0
    case Level => f.q >= 0.0 && f.p >= 0.0
  }

  lemma TieIsZero(f: Preference)
    ensures Prefer(f, 0.0) == 0.0 <==> TieEarnsNothing(f)
  {
    if f.shape.VShape2? && f.q < 0.0 <= f.p {
      var r := (0.0 - f.q) / (f.p - f.q);
      assert r * (f.p - f.q) == -f.q;
    }
  }

  /** A difference beyond both thresholds is worth a full point. */
  lemma LargeIsOne(f: Preference, d: real)
    requires d > 0.0 && d > f.q && d > f.p
    ensures Prefer(f, d) == 1.0
  {
  }

  /** The values between the thresholds: linear for the two V shapes, a half for the level. */
  lemma BetweenThresholds(f: Preference, d: real)
    ensures f.shape.Usual? ==> Prefer(f, d) == if d > 0.0 then 1.0 else 0.0
    ensures f.shape.UShape? ==> Prefer(f, d) == if d > f.q then 1.0 else 0.0
    ensures f.shape.VShape? && 0.0 < d <= f.p ==> Prefer(f, d) * f.p == d
    ensures f.shape.VShape2? && f.q < d <= f.p ==> Prefer(f, d) * (f.p - f.q) == d - f.q
    ensures f.shape.Level? && f.q < d <= f.p ==> Prefer(f, d) == 0.5
  {
  }

  /** Outside them: nothing below, a full point above. */
  lemma OutsideThresholds(f: Preference, d: real)
    requires f.shape.VShape? || f.shape.VShape2? || f.shape.Level?
    ensures d > f.p && d > (if f.shape.VShape? then 0.0 else f.q) ==> Prefer(f, d) == 1.0
    ensures d <= f.p && d <= (if f.shape.VShape? then 0.0 else f.q) ==> Prefer(f, d) == 0.0
    ensures d > f.p ==> Prefer(f, d) == 1.0
  {
  }
}
