/**
 * The quantity split (`modificationQuantity`): every open lot's quantity is
 * rescaled by quantityAfter / quantityBefore. A ratio whose denominator is
 * one multiplies exactly; otherwise each quantity is rounded HALF_UP at the
 * trade's scale and the first lot in iteration order absorbs the rounding
 * residue, so the total equals the rounded rescaled total.
 */
module Splits {
  import opened Wrappers
  import opened Trades

  function Pow10(n: nat): (r: real)
    ensures r >= 1.0
  {
    if n == 0 then 1.0 else 10.0 * Pow10(n - 1)
  }

  /** The value of one unit in the last place at decimal `scale`
      (scale 2 gives 0.01, scale -1 gives 10). */
  function Unit(scale: int): (u: real)
    ensures u > 0.0
  {
    if scale >= 0 then 1.0 / Pow10(scale) else Pow10(-scale)
  }

  /** `x` is a whole number of units at `scale`. */
  predicate OnGrid(x: real, scale: int) {
    IsMultiple(x, Unit(scale))
  }

  predicate IsMultiple(x: real, u: real)
    requires u > 0.0
  {
    (x / u).Floor as real == x / u
  }

  /** The nearest whole number to `m`, ties away from zero. */
  function NearestAwayFromZero(m: real): (k: int)
    ensures Abs(k as real - m) <= 0.5
    ensures Abs(k as real - m) == 0.5 ==> Abs(k as real) > Abs(m)
    ensures m >= 0.0 ==> k >= 0
    ensures m <= 0.0 ==> k <= 0
  {
    if m >= 0.0 then (m + 0.5).Floor else -((-m + 0.5).Floor)
  }

  /** Rounding to `scale` decimal places with ties away from zero
      (java.math.RoundingMode.HALF_UP); its properties are `HalfUpIsNearest`. */
  function HalfUp(x: real, scale: int): real {
    RoundToUnit(x, Unit(scale))
  }

  /** Rounding to a whole number of units `u`, ties away from zero. */
  function RoundToUnit(x: real, u: real): real
    requires u > 0.0
  {
    NearestAwayFromZero(x / u) as real * u
  }

  /**
   * HALF_UP rounding lands on the grid of the scale, at most half a unit from
   * `x`, keeps the sign; counted in units, it is the nearest whole number, and
   * a tie moves away from zero.
   */
  lemma HalfUpIsNearest(x: real, scale: int)
    ensures OnGrid(HalfUp(x, scale), scale)
    ensures Abs(HalfUp(x, scale) - x) <= Unit(scale) / 2.0
    ensures var units := HalfUp(x, scale) / Unit(scale); var exact := x / Unit(scale);
      Abs(units - exact) == 0.5 ==> Abs(units) > Abs(exact)
    ensures x >= 0.0 ==> HalfUp(x, scale) >= 0.0
    ensures x <= 0.0 ==> HalfUp(x, scale) <= 0.0
  {
    RoundToUnitIsNearest(x, Unit(scale));
  }

  lemma RoundToUnitIsNearest(x: real, u: real)
    requires u > 0.0
    ensures IsMultiple(RoundToUnit(x, u), u)
    ensures Abs(RoundToUnit(x, u) - x) <= u / 2.0
    ensures Abs(RoundToUnit(x, u) / u - x / u) == 0.5 ==> Abs(RoundToUnit(x, u) / u) > Abs(x / u)
    ensures x >= 0.0 ==> RoundToUnit(x, u) >= 0.0
    ensures x <= 0.0 ==> RoundToUnit(x, u) <= 0.0
  {
    var m := x / u;
    var k := NearestAwayFromZero(m);
    var kr := k as real;
    assert RoundToUnit(x, u) == kr * u;
    assert IsMultiple(RoundToUnit(x, u), u) by {
      MulDiv(kr, u);
      assert kr.Floor == k;
    }
    assert Abs(RoundToUnit(x, u) - x) <= u / 2.0 by {
      DivMul(x, u);
      ScaleDistance(x, u, m, kr);
    }
    assert Abs(RoundToUnit(x, u) / u - x / u) == 0.5 ==> Abs(RoundToUnit(x, u) / u) > Abs(x / u) by {
      MulDiv(kr, u);
    }
    assert (x >= 0.0 ==> RoundToUnit(x, u) >= 0.0) && (x <= 0.0 ==> RoundToUnit(x, u) <= 0.0) by {
      DivMul(x, u);
      ScaleSign(x, u, m, kr);
    }
  }

  lemma DivMul(x: real, u: real)
    requires u > 0.0
    ensures (x / u) * u == x
  {
  }

  lemma MulDiv(k: real, u: real)
    requires u > 0.0
    ensures (k * u) / u == k
  {
  }

  /** Distances scale by the unit. */
  lemma ScaleDistance(x: real, u: real, m: real, k: real)
    requires u > 0.0 && x == m * u
    requires Abs(k - m) <= 0.5
    ensures Abs(k * u - x) == Abs(k - m) * u
    ensures Abs(k * u - x) <= u / 2.0
  {
    assert k * u - x == (k - m) * u;
    MulAbs(k - m, u);
    assert Abs(k * u - x) == Abs((k - m) * u);
    assert Abs(k * u - x) == Abs(k - m) * u;
    MulMonotone(Abs(k - m), 0.5, u);
    assert Abs(k - m) * u <= 0.5 * u;
    Half(u);
    assert 0.5 * u == u / 2.0;
  }

  lemma Half(u: real)
    ensures 0.5 * u == u / 2.0
  {
  }

  lemma ScaleSign(x: real, u: real, m: real, k: real)
    requires u > 0.0 && x == m * u
    requires m >= 0.0 ==> k >= 0.0
    requires m <= 0.0 ==> k <= 0.0
    ensures x >= 0.0 ==> k * u >= 0.0
    ensures x <= 0.0 ==> k * u <= 0.0
  {
    if m > 0.0 {
      MulStrict(0.0, m, u);
      MulMonotone(0.0, k, u);
    } else if m < 0.0 {
      MulStrict(m, 0.0, u);
      MulMonotone(k, 0.0, u);
    } else {
      assert x == 0.0;
      assert k == 0.0;
    }
  }

  lemma MulAbs(a: real, u: real)
    requires u > 0.0
    ensures Abs(a * u) == Abs(a) * u
  {
    if a < 0.0 {
      MulStrict(a, 0.0, u);
      assert Abs(a * u) == -(a * u) == (-a) * u;
    } else {
      MulMonotone(0.0, a, u);
    }
  }

  lemma MulMonotone(a: real, b: real, u: real)
    requires u > 0.0 && a <= b
    ensures a * u <= b * u
  {
    assert b * u - a * u == (b - a) * u;
  }

  lemma MulStrict(a: real, b: real, u: real)
    requires u > 0.0 && a < b
    ensures a * u < b * u
  {
    assert b * u - a * u == (b - a) * u;
  }

  lemma MulCancel(a: real, b: real, u: real)
    requires u > 0.0 && a * u == b * u
    ensures a == b
  {
    assert (a - b) * u == 0.0;
  }

  /** Rescales every quantity exactly (the ratio's denominator is one). */
  function Multiply(ls: seq<Lot>, after: real): (r: seq<Lot>)
    ensures |r| == |ls|
    ensures forall i {:trigger r[i]} :: 0 <= i < |ls| ==> r[i] == ls[i].(quantity := ls[i].quantity * after)
  {
    if |ls| == 0 then [] else [ls[0].(quantity := ls[0].quantity * after)] + Multiply(ls[1..], after)
  }

  /** One quantity rescaled by after / before and rounded HALF_UP at `scale`. */
  function Rescaled(q: real, before: real, after: real, scale: int): real
    requires before != 0.0
  {
    HalfUp(q * after / before, scale)
  }

  /** Every lot's quantity rounded HALF_UP after rescaling. */
  function RoundEach(ls: seq<Lot>, before: real, after: real, scale: int): (r: seq<Lot>)
    requires before != 0.0
    ensures |r| == |ls|
    ensures forall i {:trigger r[i]} :: 0 <= i < |ls| ==>
      r[i] == ls[i].(quantity := Rescaled(ls[i].quantity, before, after, scale))
  {
    if |ls| == 0 then []
    else [ls[0].(quantity := Rescaled(ls[0].quantity, before, after, scale))] + RoundEach(ls[1..], before, after, scale)
  }

  /**
   * `modificationQuantity` on the lots in iteration order. No lots: nothing
   * changes. A zero `before` with lots to rescale is a division by zero.
   */
  function Rescale(ls: seq<Lot>, before: real, after: real, scale: int): (r: Result<seq<Lot>, Error>)
    ensures r.Failure? <==> |ls| > 0 && before != 1.0 && before == 0.0
    ensures r.Failure? ==> r.error == DivisionByZero
    ensures |ls| == 0 ==> r == Success(ls)
  {
    if |ls| == 0 then Success(ls)
    else if before == 1.0 then Success(Multiply(ls, after))
    else if before == 0.0 then Failure(DivisionByZero)
    else Success(Absorb(ls, before, after, scale))
  }

  /** Every lot but the first rounded on its own; the first takes the rest of
      the rounded total. */
  function Absorb(ls: seq<Lot>, before: real, after: real, scale: int): seq<Lot>
    requires |ls| > 0 && before != 0.0
  {
    var total := Rescaled(SumQuantity(ls), before, after, scale);
    var others := RoundEach(ls[1..], before, after, scale);
    [ls[0].(quantity := total - SumQuantity(others))] + others
  }

  /** Only quantities change: every lot keeps its identity, source and amount,
      and the order and count of lots are unchanged. */
  lemma RescaleKeepsLots(ls: seq<Lot>, before: real, after: real, scale: int)
    requires Rescale(ls, before, after, scale).Success?
    ensures var r := Rescale(ls, before, after, scale).value;
      && |r| == |ls|
      && (forall i :: 0 <= i < |ls| ==>
            r[i].ref == ls[i].ref && r[i].source == ls[i].source && r[i].amount == ls[i].amount)
      && SumAmount(r) == SumAmount(ls)
  {
    var r := Rescale(ls, before, after, scale).value;
    SameAmountsSameSum(r, ls);
  }

  lemma {:induction false} SameAmountsSameSum(a: seq<Lot>, b: seq<Lot>)
    requires |a| == |b|
    requires forall i :: 0 <= i < |a| ==> a[i].amount == b[i].amount
    ensures SumAmount(a) == SumAmount(b)
  {
    if |a| > 0 {
      SameAmountsSameSum(a[1..], b[1..]);
    }
  }

  /** A ratio with denominator one multiplies every quantity exactly. */
  lemma RescaleByOne(ls: seq<Lot>, after: real, scale: int)
    ensures Rescale(ls, 1.0, after, scale).Success?
    ensures var r := Rescale(ls, 1.0, after, scale).value;
      forall i :: 0 <= i < |ls| ==> r[i].quantity == ls[i].quantity * after
  {
  }

  /**
   * Otherwise every lot but the first is rounded on its own, and the first takes
   * the residue: the new total is exactly the rounded rescaled old total.
   */
  lemma {:induction false} RescaleAbsorbsResidue(ls: seq<Lot>, before: real, after: real, scale: int)
    requires |ls| > 0 && before != 1.0 && before != 0.0
    ensures Rescale(ls, before, after, scale).Success?
    ensures var r := Rescale(ls, before, after, scale).value;
      && (forall i :: 1 <= i < |ls| ==> r[i].quantity == Rescaled(ls[i].quantity, before, after, scale))
      && SumQuantity(r) == Rescaled(SumQuantity(ls), before, after, scale)
  {
    var r := Absorb(ls, before, after, scale);
    var others := RoundEach(ls[1..], before, after, scale);
    AbsorbShape(ls, before, after, scale);
    assert SumQuantity(r) == r[0].quantity + SumQuantity(r[1..]);
    forall i | 1 <= i < |ls|
      ensures r[i].quantity == Rescaled(ls[i].quantity, before, after, scale)
    {
      assert r[i] == others[i - 1];
      assert ls[1..][i - 1] == ls[i];
    }
  }

  lemma AbsorbShape(ls: seq<Lot>, before: real, after: real, scale: int)
    requires |ls| > 0 && before != 0.0
    ensures var r := Absorb(ls, before, after, scale); var others := RoundEach(ls[1..], before, after, scale);
      && |r| == |ls| && r[1..] == others
      && r[0].quantity == Rescaled(SumQuantity(ls), before, after, scale) - SumQuantity(others)
  {
    var others := RoundEach(ls[1..], before, after, scale);
    var first := ls[0].(quantity := Rescaled(SumQuantity(ls), before, after, scale) - SumQuantity(others));
    assert ([first] + others)[1..] == others;
  }

  /** The residue is not bounded by one unit: four lots of one unit halved at
      scale 0 round to one each, leaving the first lot with -1. */
  lemma ResidueCanMakeFirstLotNegative()
    ensures var l := Lot(Bought(0), None, 1.0, 0.0);
      var r := Rescale([l, l, l, l], 2.0, 1.0, 0);
      r.Success? && r.value[0].quantity == -1.0
  {
    var l := Lot(Bought(0), None, 1.0, 0.0);
    var ls := [l, l, l, l];
    assert HalfUp(0.5, 0) == 1.0;
    assert HalfUp(2.0, 0) == 2.0;
    assert SumQuantity(ls) == 4.0 by {
      assert ls[1..] == [l, l, l] && ls[2..] == [l, l] && ls[3..] == [l];
      assert SumQuantity([l]) == 1.0;
      assert SumQuantity([l, l]) == 2.0 by { assert [l, l][1..] == [l]; }
      assert SumQuantity([l, l, l]) == 3.0 by { assert [l, l, l][1..] == [l, l]; }
      assert SumQuantity([l, l, l, l]) == 4.0 by { assert [l, l, l, l][1..] == [l, l, l]; }
    }
    var l' := l.(quantity := 1.0);
    var others := RoundEach(ls[1..], 2.0, 1.0, 0);
    assert others == [l', l', l'];
    assert SumQuantity(others) == 3.0 by {
      assert SumQuantity([l']) == 1.0;
      assert SumQuantity([l', l']) == 2.0 by { assert [l', l'][1..] == [l']; }
      assert SumQuantity([l', l', l']) == 3.0 by { assert [l', l', l'][1..] == [l', l']; }
    }
  }
}
