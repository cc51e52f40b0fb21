/**
 * Properties of price modifications: every traversal that completes changes
 * the total amount by exactly the amount it spreads, the records mirror the
 * lot changes, forced shares land exactly, and only amounts ever change.
 */
module ModificationLaws {
  import opened Wrappers
  import opened Trades
  import opened Splits
  import opened Modifications

  /* ---------- frames ---------- */

  lemma {:induction false} SumAmountUpdate(ls: seq<Lot>, i: nat, x: Lot)
    requires i < |ls|
    ensures SumAmount(ls[i := x]) == SumAmount(ls) - ls[i].amount + x.amount
  {
    if i > 0 {
      assert ls[i := x][1..] == ls[1..][i - 1 := x];
      SumAmountUpdate(ls[1..], i - 1, x);
    } else {
      assert ls[i := x][1..] == ls[1..];
    }
  }

  lemma {:induction false} RecordedChangeCons(r: ModRecord, rs: seq<ModRecord>)
    ensures RecordedChange([r] + rs) == (r.amountAfter - r.amountBefore) + RecordedChange(rs)
  {
    assert ([r] + rs)[1..] == rs;
  }

  /** Changing a lot before index `i` does not change the masked sums from `i`. */
  lemma {:induction false} MaskedFrame(lots: seq<Lot>, cand: seq<bool>, i: nat, j: nat, x: Lot)
    requires |cand| == |lots| && j < i <= |lots|
    ensures MaskedAmount(lots[j := x], cand, i) == MaskedAmount(lots, cand, i)
    ensures MaskedQuantity(lots[j := x], cand, i) == MaskedQuantity(lots, cand, i)
    decreases |lots| - i
  {
    if i < |lots| {
      MaskedFrame(lots, cand, i + 1, j, x);
    }
  }

  lemma {:induction false} NoCandidateMaskedZero(lots: seq<Lot>, cand: seq<bool>, i: nat)
    requires |cand| == |lots| && i <= |lots|
    requires !HasCandidate(cand, i)
    ensures MaskedAmount(lots, cand, i) == 0.0 && MaskedQuantity(lots, cand, i) == 0.0
    decreases |lots| - i
  {
    if i < |lots| {
      assert !cand[i];
      NoCandidateMaskedZero(lots, cand, i + 1);
    }
  }

  /** Amounts from index `i` on are non-negative. */
  predicate NonNegativeFrom(lots: seq<Lot>, i: nat) {
    forall j :: i <= j < |lots| ==> lots[j].amount >= 0.0
  }

  lemma {:induction false} MaskedAmountNonNegative(lots: seq<Lot>, cand: seq<bool>, i: nat)
    requires |cand| == |lots| && i <= |lots|
    requires NonNegativeFrom(lots, i)
    ensures MaskedAmount(lots, cand, i) >= 0.0
    decreases |lots| - i
  {
    if i < |lots| {
      MaskedAmountNonNegative(lots, cand, i + 1);
    }
  }

  /* ---------- the quantity traversal ---------- */

  /** The records of a quantity traversal account for exactly the amount it
      changed, including when it stops on an error. */
  lemma {:induction false} QuantitySweepRecords(lots: seq<Lot>, cand: seq<bool>, i: nat, delta: real, base: real,
                                                tid: TradeId, round: real -> real)
    requires |cand| == |lots| && i <= |lots|
    ensures var r := QuantitySweep(lots, cand, i, delta, base, tid, round);
      RecordedChange(r.records) == SumAmount(r.lots) - SumAmount(lots)
    decreases |lots| - i
  {
    if i < |lots| {
      if !cand[i] {
        QuantitySweepRecords(lots, cand, i + 1, delta, base, tid, round);
      } else {
        var l := lots[i];
        if l.quantity == base {
          var diff := l.amount + delta;
          if diff >= 0.0 {
            SumAmountUpdate(lots, i, l.(amount := diff));
            RecordedChangeCons(Record(l, tid, l.amount, diff), []);
          }
        } else if base != 0.0 {
          var value := round(Share(delta, l.quantity, base));
          var diff := l.amount + value;
          if diff >= 0.0 {
            var lots' := lots[i := l.(amount := diff)];
            var rest := QuantitySweep(lots', cand, i + 1, delta - value, base - l.quantity, tid, round);
            assert QuantitySweep(lots, cand, i, delta, base, tid, round)
              == Sweep(rest.lots, [Record(l, tid, l.amount, diff)] + rest.records, rest.failure);
            SumAmountUpdate(lots, i, l.(amount := diff));
            QuantitySweepRecords(lots', cand, i + 1, delta - value, base - l.quantity, tid, round);
            RecordedChangeCons(Record(l, tid, l.amount, diff), rest.records);
          }
        }
      }
    }
  }

  /**
   * A quantity traversal that completes ends on the lot whose quantity equals
   * the remaining base, which takes what is left: the total amount changes by
   * exactly `delta`.
   */
  lemma {:induction false} QuantitySweepConserves(lots: seq<Lot>, cand: seq<bool>, i: nat, delta: real, base: real,
                                                  tid: TradeId, round: real -> real)
    requires |cand| == |lots| && i <= |lots|
    requires QuantitySweep(lots, cand, i, delta, base, tid, round).failure.None?
    ensures SumAmount(QuantitySweep(lots, cand, i, delta, base, tid, round).lots) == SumAmount(lots) + delta
    decreases |lots| - i, 1
  {
    assert i < |lots|;
    if !cand[i] {
      QuantitySweepConserves(lots, cand, i + 1, delta, base, tid, round);
    } else {
      var l := lots[i];
      if l.quantity == base {
        SumAmountUpdate(lots, i, l.(amount := l.amount + delta));
      } else {
        QuantityConservesShareStep(lots, cand, i, delta, base, tid, round);
      }
    }
  }

  lemma {:induction false} QuantityConservesShareStep(lots: seq<Lot>, cand: seq<bool>, i: nat, delta: real, base: real,
                                                      tid: TradeId, round: real -> real)
    requires |cand| == |lots| && i < |lots| && cand[i] && lots[i].quantity != base
    requires QuantitySweep(lots, cand, i, delta, base, tid, round).failure.None?
    ensures SumAmount(QuantitySweep(lots, cand, i, delta, base, tid, round).lots) == SumAmount(lots) + delta
    decreases |lots| - i, 0
  {
    QuantitySweepShareStep(lots, cand, i, delta, base, tid, round);
    var l := lots[i];
    var value := round(Share(delta, l.quantity, base));
    QuantitySweepConserves(lots[i := l.(amount := l.amount + value)], cand, i + 1, delta - value, base - l.quantity, tid, round);
    SumAmountUpdate(lots, i, l.(amount := l.amount + value));
  }

  /** One proportional step of the quantity traversal that does not fail. */
  lemma QuantitySweepShareStep(lots: seq<Lot>, cand: seq<bool>, i: nat, delta: real, base: real,
                               tid: TradeId, round: real -> real)
    requires |cand| == |lots| && i < |lots| && cand[i] && lots[i].quantity != base
    requires QuantitySweep(lots, cand, i, delta, base, tid, round).failure.None?
    ensures base != 0.0
    ensures var l := lots[i]; var value := round(Share(delta, l.quantity, base));
      var rest := QuantitySweep(lots[i := l.(amount := l.amount + value)], cand, i + 1, delta - value, base - l.quantity, tid, round);
      && l.amount + value >= 0.0
      && QuantitySweep(lots, cand, i, delta, base, tid, round)
           == Sweep(rest.lots, [Record(l, tid, l.amount, l.amount + value)] + rest.records, rest.failure)
  {
  }

  /* ---------- the amount traversal ---------- */

  lemma {:induction false} AmountSweepRecords(lots: seq<Lot>, cand: seq<bool>, i: nat, delta: real, stock: real,
                                              tid: TradeId, round: real -> real)
    requires |cand| == |lots| && i <= |lots|
    ensures var r := AmountSweep(lots, cand, i, delta, stock, tid, round);
      RecordedChange(r.records) == SumAmount(r.lots) - SumAmount(lots)
    decreases |lots| - i, 1
  {
    if i < |lots| {
      if !cand[i] {
        AmountSweepRecords(lots, cand, i + 1, delta, stock, tid, round);
      } else {
        var l := lots[i];
        if l.amount == stock {
          var x := l.(amount := l.amount + delta);
          assert AmountSweep(lots, cand, i, delta, stock, tid, round)
            == Sweep(lots[i := x], [Record(l, tid, l.amount, l.amount + delta)], None);
          assert SumAmount(lots[i := x]) == SumAmount(lots) + delta by { SumAmountUpdate(lots, i, x); }
          assert RecordedChange([Record(l, tid, l.amount, l.amount + delta)]) == delta by {
            RecordedChangeCons(Record(l, tid, l.amount, l.amount + delta), []);
          }
        } else if stock != 0.0 {
          AmountRecordsShareStep(lots, cand, i, delta, stock, tid, round);
        }
      }
    }
  }

  lemma {:induction false} AmountRecordsShareStep(lots: seq<Lot>, cand: seq<bool>, i: nat, delta: real, stock: real,
                                                  tid: TradeId, round: real -> real)
    requires |cand| == |lots| && i < |lots| && cand[i] && lots[i].amount != stock && stock != 0.0
    ensures var r := AmountSweep(lots, cand, i, delta, stock, tid, round);
      RecordedChange(r.records) == SumAmount(r.lots) - SumAmount(lots)
    decreases |lots| - i, 0
  {
    var l := lots[i];
    var value := round(Share(delta, l.amount, stock));
    var after := l.amount + value;
    var lots' := lots[i := l.(amount := after)];
    var rest := AmountSweep(lots', cand, i + 1, delta - value, stock - l.amount, tid, round);
    var rec := Record(l, tid, l.amount, after);
    var r := AmountSweep(lots, cand, i, delta, stock, tid, round);
    assert RecordedChange(rest.records) == SumAmount(rest.lots) - SumAmount(lots') by {
      AmountSweepRecords(lots', cand, i + 1, delta - value, stock - l.amount, tid, round);
    }
    assert r.records == [rec] + rest.records && r.lots == rest.lots by {
      AmountSweepShareStep(lots, cand, i, delta, stock, tid, round);
    }
    RecordsStep(lots, i, l.(amount := after), r, rest, rec);
  }

  /** A step that records lot `i` becoming `x` and then continues with `rest`
      keeps the recorded change equal to the change of the total amount. */
  lemma RecordsStep(lots: seq<Lot>, i: nat, x: Lot, r: Sweep, rest: Sweep, rec: ModRecord)
    requires i < |lots| && rec.amountAfter - rec.amountBefore == x.amount - lots[i].amount
    requires r.records == [rec] + rest.records && r.lots == rest.lots
    requires RecordedChange(rest.records) == SumAmount(rest.lots) - SumAmount(lots[i := x])
    ensures RecordedChange(r.records) == SumAmount(r.lots) - SumAmount(lots)
  {
    RecordedChangeCons(rec, rest.records);
    SumAmountUpdate(lots, i, x);
  }
  /** One proportional step of the amount traversal. */
  lemma AmountSweepShareStep(lots: seq<Lot>, cand: seq<bool>, i: nat, delta: real, stock: real,
                             tid: TradeId, round: real -> real)
    requires |cand| == |lots| && i < |lots| && cand[i] && lots[i].amount != stock && stock != 0.0
    ensures var l := lots[i]; var value := round(Share(delta, l.amount, stock));
      var rest := AmountSweep(lots[i := l.(amount := l.amount + value)], cand, i + 1, delta - value, stock - l.amount, tid, round);
      AmountSweep(lots, cand, i, delta, stock, tid, round)
        == Sweep(rest.lots, [Record(l, tid, l.amount, l.amount + value)] + rest.records, rest.failure)
  {
  }

  /**
   * When the base is the candidates' total amount, an amount traversal always
   * reaches the lot whose amount equals what is left of the base, which takes
   * what is left to spread: the total changes by exactly `delta`.
   */
  lemma {:induction false} AmountSweepConserves(lots: seq<Lot>, cand: seq<bool>, i: nat, delta: real, stock: real,
                                                tid: TradeId, round: real -> real)
    requires |cand| == |lots| && i <= |lots|
    requires stock == MaskedAmount(lots, cand, i) && HasCandidate(cand, i)
    requires AmountSweep(lots, cand, i, delta, stock, tid, round).failure.None?
    ensures SumAmount(AmountSweep(lots, cand, i, delta, stock, tid, round).lots) == SumAmount(lots) + delta
    decreases |lots| - i, 1
  {
    var j :| i <= j < |cand| && cand[j];
    if !cand[i] {
      assert HasCandidate(cand, i + 1) by { assert i + 1 <= j; }
      AmountSweepConserves(lots, cand, i + 1, delta, stock, tid, round);
    } else {
      var l := lots[i];
      if l.amount == stock {
        var x := l.(amount := l.amount + delta);
        assert AmountSweep(lots, cand, i, delta, stock, tid, round).lots == lots[i := x];
        assert SumAmount(lots[i := x]) == SumAmount(lots) + delta by { SumAmountUpdate(lots, i, x); }
      } else {
        AmountConservesShareStep(lots, cand, i, delta, stock, tid, round);
      }
    }
  }

  /** After a proportional step, the traversal goes on from the next lot with
      the base reduced to the remaining candidates' total. */
  lemma AmountSweepNext(lots: seq<Lot>, cand: seq<bool>, i: nat, delta: real, stock: real,
                        tid: TradeId, round: real -> real)
    requires |cand| == |lots| && i < |lots| && cand[i] && lots[i].amount != stock
    requires stock == MaskedAmount(lots, cand, i)
    requires AmountSweep(lots, cand, i, delta, stock, tid, round).failure.None?
    ensures stock != 0.0
    ensures var l := lots[i]; var value := round(Share(delta, l.amount, stock));
      var lots' := lots[i := l.(amount := l.amount + value)];
      && MaskedAmount(lots', cand, i + 1) == stock - l.amount
      && HasCandidate(cand, i + 1)
      && AmountSweep(lots', cand, i + 1, delta - value, stock - l.amount, tid, round).failure.None?
  {
    var l := lots[i];
    assert stock != 0.0;
    var value := round(Share(delta, l.amount, stock));
    var x := l.(amount := l.amount + value);
    AmountSweepShareStep(lots, cand, i, delta, stock, tid, round);
    MaskedFrame(lots, cand, i + 1, i, x);
    if !HasCandidate(cand, i + 1) {
      NoCandidateMaskedZero(lots, cand, i + 1);
    }
  }

  lemma {:induction false} AmountConservesShareStep(lots: seq<Lot>, cand: seq<bool>, i: nat, delta: real, stock: real,
                                                    tid: TradeId, round: real -> real)
    requires |cand| == |lots| && i < |lots| && cand[i] && lots[i].amount != stock
    requires stock == MaskedAmount(lots, cand, i)
    requires AmountSweep(lots, cand, i, delta, stock, tid, round).failure.None?
    ensures SumAmount(AmountSweep(lots, cand, i, delta, stock, tid, round).lots) == SumAmount(lots) + delta
    decreases |lots| - i, 0
  {
    AmountSweepNext(lots, cand, i, delta, stock, tid, round);
    var l := lots[i];
    var value := round(Share(delta, l.amount, stock));
    AmountSweepConserves(lots[i := l.(amount := l.amount + value)], cand, i + 1, delta - value, stock - l.amount, tid, round);
    AmountSweepShareStep(lots, cand, i, delta, stock, tid, round);
    SumAmountUpdate(lots, i, l.(amount := l.amount + value));
  }

  /** With non-negative amounts and the candidates' total as base, an amount
      traversal never meets a zero base. */
  lemma {:induction false} AmountSweepSucceeds(lots: seq<Lot>, cand: seq<bool>, i: nat, delta: real, stock: real,
                                               tid: TradeId, round: real -> real)
    requires |cand| == |lots| && i <= |lots|
    requires stock == MaskedAmount(lots, cand, i) && NonNegativeFrom(lots, i)
    ensures AmountSweep(lots, cand, i, delta, stock, tid, round).failure.None?
    decreases |lots| - i
  {
    if i < |lots| {
      if !cand[i] {
        AmountSweepSucceeds(lots, cand, i + 1, delta, stock, tid, round);
      } else {
        var l := lots[i];
        MaskedAmountNonNegative(lots, cand, i + 1);
        if l.amount != stock {
          assert stock != 0.0;
          var value := round(Share(delta, l.amount, stock));
          var after := l.amount + value;
          var lots' := lots[i := l.(amount := after)];
          MaskedFrame(lots, cand, i + 1, i, l.(amount := after));
          AmountSweepSucceeds(lots', cand, i + 1, delta - value, stock - l.amount, tid, round);
        }
      }
    }
  }

  /* ---------- the clamp and the spreads ---------- */

  /** The clamp moves amount from the lots into the amount left to spread, and
      no more: lots plus what is left to spread stay constant. */
  lemma {:induction false} ClampConserves(lots: seq<Lot>, cand: seq<bool>, i: nat, unit: real, delta: real, base: real,
                                          quantityFirst: bool)
    requires |cand| == |lots| && i <= |lots|
    requires Clamp(lots, cand, i, unit, delta, base, quantityFirst).Success?
    ensures var c := Clamp(lots, cand, i, unit, delta, base, quantityFirst).value;
      SumAmount(c.lots) + c.delta == SumAmount(lots) + delta
    decreases |lots| - i
  {
    if i < |lots| {
      if !cand[i] {
        ClampConserves(lots, cand, i + 1, unit, delta, base, quantityFirst);
      } else {
        var l := lots[i];
        if l.amount + Scale(unit, l.quantity) < 0.0 {
          SumAmountUpdate(lots, i, l.(amount := 0.0));
          ClampConserves(lots[i := l.(amount := 0.0)], cand[i := false], i + 1, unit, delta + l.amount,
                         base - l.quantity, quantityFirst);
        } else {
          ClampConserves(lots, cand, i + 1, unit, delta, base, quantityFirst);
        }
      }
    }
  }

  /** Under QUANTITY_FIRST a clamp that passes changes nothing. */
  lemma {:induction false} ClampQuantityFirstKeeps(lots: seq<Lot>, cand: seq<bool>, i: nat, unit: real, delta: real,
                                                   base: real)
    requires |cand| == |lots| && i <= |lots|
    requires Clamp(lots, cand, i, unit, delta, base, true).Success?
    ensures Clamp(lots, cand, i, unit, delta, base, true).value == Clamped(lots, cand, delta, base)
    decreases |lots| - i
  {
    if i < |lots| {
      ClampQuantityFirstKeeps(lots, cand, i + 1, unit, delta, base);
    }
  }

  /** A spread by quantity that completes changes the total amount by `delta`
      (the clamped lots' amounts are redistributed over the others). */
  lemma {:induction false} ByQuantityConserves(lots: seq<Lot>, cand: seq<bool>, delta: real, tid: TradeId, quantityFirst: bool,
                            round: real -> real)
    requires |cand| == |lots|
    requires ByQuantity(lots, cand, delta, tid, quantityFirst, round).failure.None?
    ensures SumAmount(ByQuantity(lots, cand, delta, tid, quantityFirst, round).lots) == SumAmount(lots) + delta
  {
    var base := MaskedQuantity(lots, cand, 0);
    if delta < 0.0 {
      var c := Clamp(lots, cand, 0, delta / base, delta, base, quantityFirst).value;
      ClampConserves(lots, cand, 0, delta / base, delta, base, quantityFirst);
      QuantitySweepConserves(c.lots, c.cand, 0, c.delta, c.base, tid, round);
    } else {
      QuantitySweepConserves(lots, cand, 0, delta, base, tid, round);
    }
  }

  /** A spread by amount that completes changes the total amount by `delta`. */
  lemma {:induction false} ByAmountConserves(lots: seq<Lot>, cand: seq<bool>, delta: real, tid: TradeId, round: real -> real)
    requires |cand| == |lots|
    requires ByAmount(lots, cand, delta, tid, round).failure.None?
    ensures SumAmount(ByAmount(lots, cand, delta, tid, round).lots) == SumAmount(lots) + delta
  {
    var stock := MaskedAmount(lots, cand, 0);
    assert HasCandidate(cand, 0) && stock + delta >= 0.0;
    assert ByAmount(lots, cand, delta, tid, round) == AmountSweep(lots, cand, 0, delta, stock, tid, round);
    AmountSweepConserves(lots, cand, 0, delta, stock, tid, round);
  }

  /** With non-negative amounts, a spread by amount fails exactly when there is
      no candidate or the reduction exceeds the candidates' total amount. */
  lemma {:induction false} ByAmountFailsOnlyOnPrecheck(lots: seq<Lot>, cand: seq<bool>, delta: real, tid: TradeId, round: real -> real)
    requires |cand| == |lots| && NonNegativeFrom(lots, 0)
    ensures ByAmount(lots, cand, delta, tid, round).failure.None? <==>
      HasCandidate(cand, 0) && MaskedAmount(lots, cand, 0) + delta >= 0.0
  {
    AmountSweepSucceeds(lots, cand, 0, delta, MaskedAmount(lots, cand, 0), tid, round);
  }

  lemma {:induction false} QuantityFirstConserves(lots: seq<Lot>, cand: seq<bool>, delta: real, tid: TradeId, round: real -> real)
    requires |cand| == |lots|
    requires QuantityFirstDecrease(lots, cand, delta, tid, round).failure.None?
    ensures SumAmount(QuantityFirstDecrease(lots, cand, delta, tid, round).lots) == SumAmount(lots) + delta
  {
    var r := QuantityFirstDecrease(lots, cand, delta, tid, round);
    var q := ByQuantity(lots, cand, delta, tid, true, round);
    if q.failure.Some? && q.failure.value.StockAmountReduction? {
      var a := ByAmount(lots, cand, delta, tid, round);
      assert r == a;
      assert SumAmount(a.lots) == SumAmount(lots) + delta by { ByAmountConserves(lots, cand, delta, tid, round); }
    } else {
      assert r == q;
      assert SumAmount(q.lots) == SumAmount(lots) + delta by { ByQuantityConserves(lots, cand, delta, tid, true, round); }
    }
  }

  /** Whatever the mode, a spread that completes changes the total amount by
      exactly the amount spread. */
  lemma {:induction false} SpreadConserves(lots: seq<Lot>, cand: seq<bool>, delta: real, mode: ModificationMode, tid: TradeId,
                        round: real -> real)
    requires |cand| == |lots|
    requires Spread(lots, cand, delta, mode, tid, round).failure.None?
    ensures SumAmount(Spread(lots, cand, delta, mode, tid, round).lots) == SumAmount(lots) + delta
  {
    if delta > 0.0 {
      if mode == Money {
        ByAmountConserves(lots, cand, delta, tid, round);
      } else {
        ByQuantityConserves(lots, cand, delta, tid, false, round);
      }
    } else if delta < 0.0 {
      match mode
      case Mixed => ByAmountConserves(lots, cand, delta, tid, round);
      case Money => ByAmountConserves(lots, cand, delta, tid, round);
      case Quantity => ByQuantityConserves(lots, cand, delta, tid, false, round);
      case QuantityFirst => QuantityFirstConserves(lots, cand, delta, tid, round);
    }
  }

  /** Increases go by quantity unless the mode is MONEY; reductions go by amount
      under MIXED and MONEY, and by quantity under QUANTITY. */
  lemma {:induction false} SpreadDispatch(lots: seq<Lot>, cand: seq<bool>, delta: real, mode: ModificationMode, tid: TradeId,
                       round: real -> real)
    requires |cand| == |lots|
    ensures delta > 0.0 && mode != Money ==>
      Spread(lots, cand, delta, mode, tid, round) == ByQuantity(lots, cand, delta, tid, false, round)
    ensures delta > 0.0 && mode == Money ==>
      Spread(lots, cand, delta, mode, tid, round) == ByAmount(lots, cand, delta, tid, round)
    ensures delta < 0.0 && (mode == Mixed || mode == Money) ==>
      Spread(lots, cand, delta, mode, tid, round) == ByAmount(lots, cand, delta, tid, round)
    ensures delta < 0.0 && mode == Quantity ==>
      Spread(lots, cand, delta, mode, tid, round) == ByQuantity(lots, cand, delta, tid, false, round)
    ensures delta < 0.0 && mode == QuantityFirst ==>
      Spread(lots, cand, delta, mode, tid, round) == QuantityFirstDecrease(lots, cand, delta, tid, round)
  {
  }

  /* ---------- forced shares ---------- */

  /** The shares applied depend only on the lots' identities. */
  lemma {:induction false} ForcedAppliedFrame(lots: seq<Lot>, f: ForcedTable, k: nat, i: nat, x: Lot)
    requires i < |lots| && k <= |lots| && x.ref == lots[i].ref
    ensures ForcedApplied(lots[i := x], f, k) == ForcedApplied(lots, f, k)
    decreases |lots| - k
  {
    if k < |lots| {
      ForcedAppliedFrame(lots, f, k + 1, i, x);
    }
  }

  /** The total amount grows by the shares applied and the amount left to
      spread shrinks by them. */
  lemma {:induction false} ApplyForcedTotals(lots: seq<Lot>, f: ForcedTable, i: nat, delta: real, tid: TradeId)
    requires i <= |lots|
    requires ApplyForced(lots, f, i, delta, tid).Success?
    ensures var p := ApplyForced(lots, f, i, delta, tid).value;
      && SumAmount(p.lots) == SumAmount(lots) + ForcedApplied(lots, f, i)
      && p.delta == delta - ForcedApplied(lots, f, i)
    decreases |lots| - i
  {
    if i < |lots| {
      var l := lots[i];
      match Lookup(f, l.ref)
      case None =>
        ApplyForcedTotals(lots, f, i + 1, delta, tid);
      case Some(v) =>
        var x := l.(amount := l.amount + v);
        ApplyForcedTotals(lots[i := x], f, i + 1, delta - v, tid);
        ForcedAppliedFrame(lots, f, i + 1, i, x);
        SumAmountUpdate(lots, i, x);
    }
  }

  /** Each lot with a share from index `i` on takes exactly that share. */
  lemma {:induction false} ApplyForcedShares(lots: seq<Lot>, f: ForcedTable, i: nat, delta: real, tid: TradeId)
    requires i <= |lots|
    requires ApplyForced(lots, f, i, delta, tid).Success?
    ensures var p := ApplyForced(lots, f, i, delta, tid).value;
      forall j :: i <= j < |lots| && Lookup(f, lots[j].ref).Some? ==>
        p.lots[j].amount == lots[j].amount + Lookup(f, lots[j].ref).value
    decreases |lots| - i
  {
    if i < |lots| {
      var l := lots[i];
      match Lookup(f, l.ref)
      case None =>
        ApplyForcedShares(lots, f, i + 1, delta, tid);
      case Some(v) =>
        var x := l.(amount := l.amount + v);
        var lots' := lots[i := x];
        ApplyForcedShares(lots', f, i + 1, delta - v, tid);
        var p := ApplyForced(lots, f, i, delta, tid).value;
        assert p.lots == ApplyForced(lots', f, i + 1, delta - v, tid).value.lots;
        assert p.lots[i] == x;
    }
  }

  /** The forced pass fails exactly when some lot cannot take its share. */
  lemma {:induction false} ApplyForcedGuard(lots: seq<Lot>, f: ForcedTable, i: nat, delta: real, tid: TradeId)
    requires i <= |lots|
    ensures ApplyForced(lots, f, i, delta, tid).Success? <==> ForcedFit(lots, f, i)
    decreases |lots| - i
  {
    if i < |lots| {
      var l := lots[i];
      match Lookup(f, l.ref)
      case None =>
        ApplyForcedGuard(lots, f, i + 1, delta, tid);
      case Some(v) =>
        var lots' := lots[i := l.(amount := l.amount + v)];
        ApplyForcedGuard(lots', f, i + 1, delta - v, tid);
        assert ForcedFit(lots', f, i + 1) <==> ForcedFit(lots, f, i + 1) by {
          forall j | i + 1 <= j < |lots| ensures lots'[j] == lots[j] { }
        }
    }
  }

  /* ---------- the whole modification ---------- */

  /** Every lot has a forced share (and there is not exactly one lot). */
  predicate AllForced(lots: seq<Lot>, forced: Option<ForcedTable>) {
    |lots| != 1 && forced.Some? && !HasCandidate(Unforced(lots, forced.value), 0)
  }

  /** Before any lot changes: a reduction with no lot, or larger than the total
      amount held, is refused. */
  lemma {:induction false} ModifyPrecheck(lots: seq<Lot>, delta: real, mode: ModificationMode, forced: Option<ForcedTable>,
                       tid: TradeId, round: real -> real)
    ensures delta < 0.0 && |lots| == 0 ==>
      Modify(lots, delta, mode, forced, tid, round) == Failure(EmptyPositionModification)
    ensures delta < 0.0 && |lots| > 0 && SumAmount(lots) + delta < 0.0 ==>
      Modify(lots, delta, mode, forced, tid, round) == Failure(StockAmountReduction(SumAmount(lots), delta))
  {
  }

  /** A single lot takes the whole modification, guarded against a negative
      amount, and registered shares are not consulted. */
  lemma {:induction false} ModifySingleLot(lots: seq<Lot>, delta: real, mode: ModificationMode, forced: Option<ForcedTable>,
                        tid: TradeId, round: real -> real)
    requires |lots| == 1
    ensures Modify(lots, delta, mode, forced, tid, round) == Modify(lots, delta, mode, None, tid, round)
    ensures Modify(lots, delta, mode, forced, tid, round).Success? <==> lots[0].amount + delta >= 0.0
    ensures Modify(lots, delta, mode, forced, tid, round).Success? ==>
      var o := Modify(lots, delta, mode, forced, tid, round).value;
      o.lots == [lots[0].(amount := lots[0].amount + delta)] &&
      o.records == [Record(lots[0], tid, lots[0].amount, lots[0].amount + delta)]
  {
    assert SumAmount(lots) == lots[0].amount;
  }

  /**
   * A modification that succeeds changes the total amount by exactly `delta`,
   * unless every lot has a forced share, in which case it changes by the shares.
   */
  lemma {:induction false} ModifyConserves(lots: seq<Lot>, delta: real, mode: ModificationMode, forced: Option<ForcedTable>,
                        tid: TradeId, round: real -> real)
    requires Modify(lots, delta, mode, forced, tid, round).Success?
    ensures var o := Modify(lots, delta, mode, forced, tid, round).value;
      && (!AllForced(lots, forced) ==> SumAmount(o.lots) == SumAmount(lots) + delta)
      && (AllForced(lots, forced) ==> SumAmount(o.lots) == SumAmount(lots) + ForcedApplied(lots, forced.value, 0))
  {
    if |lots| == 1 {
      ModifySingleLot(lots, delta, mode, forced, tid, round);
      SumAmountUpdate(lots, 0, lots[0].(amount := lots[0].amount + delta));
    } else {
      match forced
      case None =>
        SpreadConserves(lots, seq(|lots|, _ => true), delta, mode, tid, round);
      case Some(f) =>
        var p := ApplyForced(lots, f, 0, delta, tid).value;
        ApplyForcedTotals(lots, f, 0, delta, tid);
        var cand := Unforced(lots, f);
        if HasCandidate(cand, 0) {
          SpreadConserves(p.lots, cand, p.delta, mode, tid, round);
        }
    }
  }

  /** Each lot with a forced share ends with exactly its amount plus the share. */
  lemma {:induction false} ModifyForcedShares(lots: seq<Lot>, delta: real, mode: ModificationMode, f: ForcedTable,
                           tid: TradeId, round: real -> real, j: nat)
    requires |lots| != 1 && j < |lots| && Lookup(f, lots[j].ref).Some?
    requires Modify(lots, delta, mode, Some(f), tid, round).Success?
    ensures Modify(lots, delta, mode, Some(f), tid, round).value.lots[j].amount
      == lots[j].amount + Lookup(f, lots[j].ref).value
  {
    var p := ApplyForced(lots, f, 0, delta, tid).value;
    ApplyForcedShares(lots, f, 0, delta, tid);
    var cand := Unforced(lots, f);
    assert !cand[j];
  }

  /** With shares registered, the forced lots are refused unless every one of
      them can take its share. */
  lemma {:induction false} ModifyForcedGuard(lots: seq<Lot>, delta: real, mode: ModificationMode, f: ForcedTable,
                          tid: TradeId, round: real -> real)
    requires |lots| != 1 && CheckReduction(lots, delta).None? && CheckForcedTotal(delta, f).None?
    requires !ForcedFit(lots, f, 0)
    ensures Modify(lots, delta, mode, Some(f), tid, round).Failure?
  {
    ApplyForcedGuard(lots, f, 0, delta, tid);
  }

  /** Registered shares whose absolute total exceeds the modification's are
      refused before any lot changes. */
  lemma {:induction false} ModifyForcedTotalRefused(lots: seq<Lot>, delta: real, mode: ModificationMode, f: ForcedTable,
                                                    tid: TradeId, round: real -> real)
    requires |lots| != 1 && CheckReduction(lots, delta).None? && AbsTotal(f) > Abs(delta)
    ensures Modify(lots, delta, mode, Some(f), tid, round) == Failure(BadTotalModification(delta, AbsTotal(f)))
  {
  }

  /** The record of a forced lot stores the share where the amount before
      belongs. */
  lemma {:induction false} ForcedRecordHoldsShare(lots: seq<Lot>, delta: real, mode: ModificationMode, f: ForcedTable,
                               tid: TradeId, round: real -> real)
    requires |lots| >= 2 && Lookup(f, lots[0].ref).Some?
    requires Modify(lots, delta, mode, Some(f), tid, round).Success?
    ensures var v := Lookup(f, lots[0].ref).value;
      Modify(lots, delta, mode, Some(f), tid, round).value.records[0] == Record(lots[0], tid, v, lots[0].amount + v)
  {
  }

  /** A zero modification without shares changes nothing and records nothing
      when there is not exactly one lot. */
  lemma {:induction false} ModifyZero(lots: seq<Lot>, mode: ModificationMode, tid: TradeId, round: real -> real)
    requires |lots| != 1
    ensures Modify(lots, 0.0, mode, None, tid, round) == Success(Outcome(lots, []))
  {
  }

  /* ---------- only amounts change ---------- */

  lemma {:induction false} QuantitySweepKeepsShapes(lots: seq<Lot>, cand: seq<bool>, i: nat, delta: real, base: real,
                                                    tid: TradeId, round: real -> real)
    requires |cand| == |lots| && i <= |lots|
    ensures OnlyAmounts(lots, QuantitySweep(lots, cand, i, delta, base, tid, round).lots)
    decreases |lots| - i
  {
    if i < |lots| {
      if !cand[i] {
        QuantitySweepKeepsShapes(lots, cand, i + 1, delta, base, tid, round);
      } else {
        var l := lots[i];
        if l.quantity != base && base != 0.0 {
          var value := round(Share(delta, l.quantity, base));
          var diff := l.amount + value;
          if diff >= 0.0 {
            QuantitySweepKeepsShapes(lots[i := l.(amount := diff)], cand, i + 1, delta - value, base - l.quantity, tid, round);
          }
        }
      }
    }
  }

  lemma {:induction false} AmountSweepKeepsShapes(lots: seq<Lot>, cand: seq<bool>, i: nat, delta: real, stock: real,
                                                  tid: TradeId, round: real -> real)
    requires |cand| == |lots| && i <= |lots|
    ensures OnlyAmounts(lots, AmountSweep(lots, cand, i, delta, stock, tid, round).lots)
    decreases |lots| - i
  {
    if i < |lots| {
      if !cand[i] {
        AmountSweepKeepsShapes(lots, cand, i + 1, delta, stock, tid, round);
      } else {
        var l := lots[i];
        if l.amount != stock && stock != 0.0 {
          var value := round(Share(delta, l.amount, stock));
          AmountSweepKeepsShapes(lots[i := l.(amount := l.amount + value)], cand, i + 1, delta - value,
                                 stock - l.amount, tid, round);
        }
      }
    }
  }

  lemma {:induction false} ClampKeepsShapes(lots: seq<Lot>, cand: seq<bool>, i: nat, unit: real, delta: real, base: real,
                                            quantityFirst: bool)
    requires |cand| == |lots| && i <= |lots|
    requires Clamp(lots, cand, i, unit, delta, base, quantityFirst).Success?
    ensures OnlyAmounts(lots, Clamp(lots, cand, i, unit, delta, base, quantityFirst).value.lots)
    decreases |lots| - i
  {
    if i < |lots| {
      var l := lots[i];
      if cand[i] && l.amount + Scale(unit, l.quantity) < 0.0 {
        ClampKeepsShapes(lots[i := l.(amount := 0.0)], cand[i := false], i + 1, unit, delta + l.amount,
                         base - l.quantity, quantityFirst);
      } else {
        ClampKeepsShapes(lots, cand, i + 1, unit, delta, base, quantityFirst);
      }
    }
  }

  lemma {:induction false} ByQuantityKeepsShapes(lots: seq<Lot>, cand: seq<bool>, delta: real, tid: TradeId,
                                                 quantityFirst: bool, round: real -> real)
    requires |cand| == |lots|
    ensures OnlyAmounts(lots, ByQuantity(lots, cand, delta, tid, quantityFirst, round).lots)
  {
    var base := MaskedQuantity(lots, cand, 0);
    if delta < 0.0 && base != 0.0 {
      var r := Clamp(lots, cand, 0, delta / base, delta, base, quantityFirst);
      if r.Success? {
        ClampKeepsShapes(lots, cand, 0, delta / base, delta, base, quantityFirst);
        QuantitySweepKeepsShapes(r.value.lots, r.value.cand, 0, r.value.delta, r.value.base, tid, round);
      }
    } else if delta >= 0.0 {
      QuantitySweepKeepsShapes(lots, cand, 0, delta, base, tid, round);
    }
  }

  lemma {:induction false} ByAmountKeepsShapes(lots: seq<Lot>, cand: seq<bool>, delta: real, tid: TradeId,
                                               round: real -> real)
    requires |cand| == |lots|
    ensures OnlyAmounts(lots, ByAmount(lots, cand, delta, tid, round).lots)
  {
    AmountSweepKeepsShapes(lots, cand, 0, delta, MaskedAmount(lots, cand, 0), tid, round);
  }

  /** Whatever the mode, a spread changes amounts only. */
  lemma {:induction false} SpreadKeepsShapes(lots: seq<Lot>, cand: seq<bool>, delta: real, mode: ModificationMode,
                                             tid: TradeId, round: real -> real)
    requires |cand| == |lots|
    ensures OnlyAmounts(lots, Spread(lots, cand, delta, mode, tid, round).lots)
  {
    ByQuantityKeepsShapes(lots, cand, delta, tid, false, round);
    ByQuantityKeepsShapes(lots, cand, delta, tid, true, round);
    ByAmountKeepsShapes(lots, cand, delta, tid, round);
  }

  /** A modification that succeeds keeps every lot, in order, with its quantity. */
  lemma {:induction false} ModifyKeepsShapes(lots: seq<Lot>, delta: real, mode: ModificationMode,
                                             forced: Option<ForcedTable>, tid: TradeId, round: real -> real)
    requires Modify(lots, delta, mode, forced, tid, round).Success?
    ensures OnlyAmounts(lots, Modify(lots, delta, mode, forced, tid, round).value.lots)
    ensures SumQuantity(Modify(lots, delta, mode, forced, tid, round).value.lots) == SumQuantity(lots)
  {
    var o := Modify(lots, delta, mode, forced, tid, round).value;
    if |lots| != 1 {
      match forced
      case None =>
        SpreadKeepsShapes(lots, seq(|lots|, _ => true), delta, mode, tid, round);
      case Some(f) =>
        var p := ApplyForced(lots, f, 0, delta, tid).value;
        SpreadKeepsShapes(p.lots, Unforced(lots, f), p.delta, mode, tid, round);
    }
    SameShapesSameQuantity(lots, o.lots);
  }

  lemma {:induction false} SameShapesSameQuantity(a: seq<Lot>, b: seq<Lot>)
    requires OnlyAmounts(a, b)
    ensures SumQuantity(a) == SumQuantity(b)
  {
    if |a| > 0 {
      SameShapesSameQuantity(a[1..], b[1..]);
    }
  }

  /* ---------- QUANTITY_FIRST as written ---------- */

  /** Rounding to whole units, half away from zero. */
  function WholeUnits(x: real): real {
    HalfUp(x, 0)
  }

  lemma {:induction false} WholeUnitsOfExamples()
    ensures WholeUnits(Share(-3.3, 1.0, 3.0)) == -1.0
    ensures WholeUnits(Share(-3.3, 9.0, 11.25)) == -3.0
    ensures WholeUnits(Share(-3.3, 10.0, 12.25)) == -3.0
  {
    assert Unit(0) == 1.0;
    assert Share(-3.3, 1.0, 3.0) == -1.1;
    assert NearestAwayFromZero(-1.1) == -1;
    assert Share(-3.3, 9.0, 11.25) == -2.64;
    assert NearestAwayFromZero(-2.64) == -3;
    assert Share(-3.3, 10.0, 12.25) == -3.3 * 10.0 / 12.25;
    assert -3.0 < -3.3 * 10.0 / 12.25 < -2.5;
    assert NearestAwayFromZero(-3.3 * 10.0 / 12.25) == -3;
  }

  /** The traversal by quantity of the example fails on the second lot. */
  lemma {:induction false} ExampleByQuantity(l0: Lot, l1: Lot)
    requires l0 == Lot(Bought(0), None, 1.0, 10.0) && l1 == Lot(Bought(1), None, 2.0, 2.25)
    ensures ByQuantity([l0, l1], [true, true], -3.3, 7, true, WholeUnits)
      == Sweep([l0.(amount := 9.0), l1], [Record(l0, 7, 10.0, 9.0)], Some(StockAmountReduction(2.25, -2.3)))
  {
    var lots := [l0, l1];
    var cand := [true, true];
    assert MaskedQuantity(lots, cand, 2) == 0.0;
    assert MaskedQuantity(lots, cand, 1) == 2.0;
    assert MaskedQuantity(lots, cand, 0) == 3.0;
    var unit := -3.3 / 3.0;
    assert Clamp(lots, cand, 2, unit, -3.3, 3.0, true) == Success(Clamped(lots, cand, -3.3, 3.0));
    assert l1.amount + Scale(unit, l1.quantity) >= 0.0;
    assert Clamp(lots, cand, 1, unit, -3.3, 3.0, true) == Success(Clamped(lots, cand, -3.3, 3.0));
    assert l0.amount + Scale(unit, l0.quantity) >= 0.0;
    assert Clamp(lots, cand, 0, unit, -3.3, 3.0, true) == Success(Clamped(lots, cand, -3.3, 3.0));
    WholeUnitsOfExamples();
    var l0' := l0.(amount := 9.0);
    assert lots[0 := l0'] == [l0', l1];
    assert QuantitySweep([l0', l1], cand, 1, -2.3, 2.0, 7, WholeUnits)
      == Sweep([l0', l1], [], Some(StockAmountReduction(2.25, -2.3)));
    assert QuantitySweep(lots, cand, 0, -3.3, 3.0, 7, WholeUnits)
      == Sweep([l0', l1], [Record(l0, 7, 10.0, 9.0)], Some(StockAmountReduction(2.25, -2.3)));
  }

  /** The traversal by amount of the example from the given first amount. */
  lemma {:induction false} ExampleByAmount(l0: Lot, l1: Lot, a0: real)
    requires l0 == Lot(Bought(0), None, 1.0, a0) && l1 == Lot(Bought(1), None, 2.0, 2.25)
    requires a0 == 9.0 || a0 == 10.0
    ensures var r := ByAmount([l0, l1], [true, true], -3.3, 7, WholeUnits);
      && r.failure.None?
      && r.lots == [l0.(amount := a0 - 3.0), l1.(amount := 1.95)]
  {
    var lots := [l0, l1];
    var cand := [true, true];
    assert MaskedAmount(lots, cand, 2) == 0.0;
    assert MaskedAmount(lots, cand, 1) == 2.25;
    assert MaskedAmount(lots, cand, 0) == a0 + 2.25;
    assert HasCandidate(cand, 0) by { assert cand[0]; }
    WholeUnitsOfExamples();
    assert WholeUnits(Share(-3.3, a0, a0 + 2.25)) == -3.0;
    var l0w := l0.(amount := a0 - 3.0);
    assert lots[0 := l0w] == [l0w, l1];
    assert [l0w, l1][1 := l1.(amount := 1.95)] == [l0w, l1.(amount := 1.95)];
    assert AmountSweep([l0w, l1], cand, 1, -0.3, 2.25, 7, WholeUnits).lots == [l0w, l1.(amount := 1.95)];
    assert AmountSweep([l0w, l1], cand, 1, -0.3, 2.25, 7, WholeUnits).failure.None?;
    assert AmountSweep(lots, cand, 0, -3.3, a0 + 2.25, 7, WholeUnits).lots == [l0w, l1.(amount := 1.95)];
    assert AmountSweep(lots, cand, 0, -3.3, a0 + 2.25, 7, WholeUnits).failure.None?;
  }

  /**
   * As written, a QUANTITY_FIRST reduction whose traversal by quantity fails
   * on a later lot redoes the reduction by amount on top of the changes already
   * made: two lots (quantity 1, amount 10) and (quantity 2, amount 2.25), a
   * reduction of 3.3 and rounding to whole units lose 4.3 instead of 3.3.
   * The corrected reduction loses exactly 3.3.
   */
  lemma {:induction false} QuantityFirstAsWrittenLosesTooMuch(lots: seq<Lot>, cand: seq<bool>)
    requires lots == [Lot(Bought(0), None, 1.0, 10.0), Lot(Bought(1), None, 2.0, 2.25)] && cand == [true, true]
    ensures var w := QuantityFirstDecreaseAsWritten(lots, cand, -3.3, 7, WholeUnits);
      var c := QuantityFirstDecrease(lots, cand, -3.3, 7, WholeUnits);
      && w.failure.None? && SumAmount(w.lots) == 7.95 && SumAmount(lots) == 12.25
      && SumAmount(w.lots) != SumAmount(lots) - 3.3
      && c.failure.None? && SumAmount(c.lots) == SumAmount(lots) - 3.3
  {
    var l0 := lots[0];
    var l1 := lots[1];
    assert SumAmount(lots) == 12.25 by {
      assert SumAmount([l1]) == 2.25 by { assert [l1][1..] == []; }
      assert lots[1..] == [l1];
    }
    ExampleByQuantity(l0, l1);
    // as written: by amount from the lots the failed traversal left, (9, 2.25)
    var l0' := l0.(amount := 9.0);
    ExampleByAmount(l0', l1, 9.0);
    var w := QuantityFirstDecreaseAsWritten(lots, cand, -3.3, 7, WholeUnits);
    assert w.lots == [l0.(amount := 6.0), l1.(amount := 1.95)];
    assert SumAmount(w.lots) == 7.95 by {
      var l1w := l1.(amount := 1.95);
      assert SumAmount([l1w]) == 1.95 by { assert [l1w][1..] == []; }
      assert w.lots[1..] == [l1w];
    }
    // corrected: by amount from the original lots
    ExampleByAmount(l0, l1, 10.0);
    QuantityFirstConserves(lots, cand, -3.3, 7, WholeUnits);
  }
}
