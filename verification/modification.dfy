/**
 * Price modifications: a signed amount spread over the open lots (the
 * manager's `modification` overloads, `modificationByQuantity`,
 * `modificationByAmount` and both `checkModifications`).
 *
 * The traversals work on the full lot list in iteration order with a
 * candidate mask: lots with a forced share and lots zeroed by the quantity
 * clamp leave the mask, and every result is written back by position.
 */
module Modifications {
  import opened Wrappers
  import opened Trades

  /** The forced per-lot shares registered for one modification, keyed by lot. */
  type ForcedTable = seq<(LotRef, real)>

  /* ---------- forced shares ---------- */

  function Lookup(f: ForcedTable, ref: LotRef): (r: Option<real>)
    ensures r.Some? <==> exists k :: 0 <= k < |f| && f[k].0 == ref
    ensures r.Some? ==> exists k :: 0 <= k < |f| && f[k] == (ref, r.value)
  {
    if |f| == 0 then None
    else if f[0].0 == ref then Some(f[0].1)
    else
      var r := Lookup(f[1..], ref);
      assert r.Some? ==> exists k :: 0 <= k < |f[1..]| && f[1..][k] == (ref, r.value);
      assert forall k :: 0 <= k < |f[1..]| ==> f[1..][k] == f[k + 1];
      r
  }

  /** Registers (or replaces) the share of one lot; the other lots keep theirs. */
  function Put(f: ForcedTable, ref: LotRef, v: real): (r: ForcedTable)
    ensures Lookup(r, ref) == Some(v)
    ensures forall o :: o != ref ==> Lookup(r, o) == Lookup(f, o)
    ensures |r| == |f| || |r| == |f| + 1
  {
    if |f| == 0 then [(ref, v)]
    else if f[0].0 == ref then [(ref, v)] + f[1..]
    else
      var rest := Put(f[1..], ref, v);
      assert ([f[0]] + rest)[1..] == rest;
      [f[0]] + rest
  }

  /** The sum of the absolute values of the registered shares. */
  function AbsTotal(f: ForcedTable): (r: real)
    ensures r >= 0.0
  {
    if |f| == 0 then 0.0 else Abs(f[0].1) + AbsTotal(f[1..])
  }

  /** `checkModifications(amount, shares)`: the shares together may not exceed
      the modification in absolute value. */
  function CheckForcedTotal(delta: real, f: ForcedTable): (r: Option<Error>)
    ensures r.None? <==> AbsTotal(f) <= Abs(delta)
    ensures r.Some? ==> r.value == BadTotalModification(delta, AbsTotal(f))
  {
    if Abs(delta) - AbsTotal(f) < 0.0 then Some(BadTotalModification(delta, AbsTotal(f))) else None
  }

  /** The lots without a forced share: the candidates of the proportional spread. */
  function Unforced(lots: seq<Lot>, f: ForcedTable): (m: seq<bool>)
    ensures |m| == |lots|
    ensures forall j :: 0 <= j < |lots| ==> (m[j] <==> Lookup(f, lots[j].ref).None?)
  {
    seq(|lots|, j requires 0 <= j < |lots| => Lookup(f, lots[j].ref).None?)
  }

  /** Only amounts change: same lots, same order, same quantities. */
  predicate OnlyAmounts(a: seq<Lot>, b: seq<Lot>) {
    |a| == |b| &&
    forall j :: 0 <= j < |a| ==> b[j].ref == a[j].ref && b[j].source == a[j].source && b[j].quantity == a[j].quantity
  }

  /** The record of one lot's change. */
  function Record(l: Lot, tid: TradeId, before: real, after: real): (r: ModRecord)
    ensures r.buy == l.ref && r.modification == tid && r.quantity == l.quantity
    ensures r.amountBefore == before && r.amountAfter == after
  {
    ModRecord(l.ref, tid, l.quantity, before, after)
  }

  /** The state after the forced shares: the lots, the amount left to spread
      and the records written. */
  datatype Forced = Forced(lots: seq<Lot>, delta: real, records: seq<ModRecord>)

  /** The sum of the shares of the lots from index `i` on that have one. */
  function ForcedApplied(lots: seq<Lot>, f: ForcedTable, i: nat): real
    requires i <= |lots|
    decreases |lots| - i
  {
    if i == |lots| then 0.0
    else (match Lookup(f, lots[i].ref) case None => 0.0 case Some(v) => v) + ForcedApplied(lots, f, i + 1)
  }

  /** Every lot from index `i` on with a share can take it without going negative. */
  predicate ForcedFit(lots: seq<Lot>, f: ForcedTable, i: nat)
    requires i <= |lots|
  {
    forall j :: i <= j < |lots| && Lookup(f, lots[j].ref).Some? ==> lots[j].amount + Lookup(f, lots[j].ref).value >= 0.0
  }

  /**
   * Applies the forced shares in iteration order from index `i`: each lot with
   * a share gets exactly that share, under a non-negativity guard, and the share
   * is taken off the amount left to spread. The record of a forced lot stores the
   * share where the amount before belongs, as the manager does.
   */
  function ApplyForced(lots: seq<Lot>, f: ForcedTable, i: nat, delta: real, tid: TradeId): (r: Result<Forced, Error>)
    requires i <= |lots|
    ensures r.Failure? ==> r.error.StockAmountReduction?
    ensures r.Success? ==> OnlyAmounts(lots, r.value.lots)
    ensures r.Success? ==> forall j {:trigger r.value.lots[j]} :: 0 <= j < |lots| && (j < i || Lookup(f, lots[j].ref).None?) ==>
      r.value.lots[j] == lots[j]
    decreases |lots| - i
  {
    if i == |lots| then Success(Forced(lots, delta, []))
    else
      match Lookup(f, lots[i].ref)
      case None => ApplyForced(lots, f, i + 1, delta, tid)
      case Some(v) =>
        var l := lots[i];
        var a := l.amount + v;
        if a < 0.0 then Failure(StockAmountReduction(l.amount, v))
        else
          match ApplyForced(lots[i := l.(amount := a)], f, i + 1, delta - v, tid)
          case Failure(e) => Failure(e)
          case Success(rest) => Success(rest.(records := [Record(l, tid, v, a)] + rest.records))
  }

  /* ---------- masked sums ---------- */

  /** The total quantity of the candidates from index `i` on. */
  function MaskedQuantity(lots: seq<Lot>, cand: seq<bool>, i: nat): real
    requires |cand| == |lots| && i <= |lots|
    decreases |lots| - i
  {
    if i == |lots| then 0.0 else (if cand[i] then lots[i].quantity else 0.0) + MaskedQuantity(lots, cand, i + 1)
  }

  /** The total amount of the candidates from index `i` on. */
  function MaskedAmount(lots: seq<Lot>, cand: seq<bool>, i: nat): real
    requires |cand| == |lots| && i <= |lots|
    decreases |lots| - i
  {
    if i == |lots| then 0.0 else (if cand[i] then lots[i].amount else 0.0) + MaskedAmount(lots, cand, i + 1)
  }

  predicate HasCandidate(cand: seq<bool>, i: nat) {
    exists j :: i <= j < |cand| && cand[j]
  }

  /* ---------- proportional traversals ---------- */

  /** The share of `delta` owed to a part of a whole: delta * part / whole. */
  function Share(delta: real, part: real, whole: real): real
    requires whole != 0.0
  {
    delta * part / whole
  }

  /** What a traversal leaves: the lots as changed so far, the records written so
      far, and the error that stopped it, if any. */
  datatype Sweep = Sweep(lots: seq<Lot>, records: seq<ModRecord>, failure: Option<Error>)

  /**
   * Spread by quantity (the iterator overload with a quantity base). The
   * candidate whose quantity equals the remaining base takes the whole remaining
   * amount; any other candidate takes round(delta * quantity / base) and the
   * amount and base shrink. Each step is guarded against a negative amount. Running
   * out of candidates is an error, and so is a zero base reached before the end.
   */
  function QuantitySweep(lots: seq<Lot>, cand: seq<bool>, i: nat, delta: real, base: real,
                         tid: TradeId, round: real -> real): (r: Sweep)
    requires |cand| == |lots| && i <= |lots|
    ensures |r.lots| == |lots|
    ensures forall j {:trigger r.lots[j]} :: 0 <= j < |lots| && (j < i || !cand[j]) ==> r.lots[j] == lots[j]
    decreases |lots| - i
  {
    if i == |lots| then Sweep(lots, [], Some(EmptyPositionModification))
    else if !cand[i] then QuantitySweep(lots, cand, i + 1, delta, base, tid, round)
    else
      var l := lots[i];
      if l.quantity == base then
        var diff := l.amount + delta;
        if diff < 0.0 then Sweep(lots, [], Some(StockAmountReduction(l.amount, delta)))
        else Sweep(lots[i := l.(amount := diff)], [Record(l, tid, l.amount, diff)], None)
      else if base == 0.0 then Sweep(lots, [], Some(DivisionByZero))
      else
        var value := round(Share(delta, l.quantity, base));
        var diff := l.amount + value;
        if diff < 0.0 then Sweep(lots, [], Some(StockAmountReduction(l.amount, value)))
        else
          var rest := QuantitySweep(lots[i := l.(amount := diff)], cand, i + 1, delta - value, base - l.quantity, tid, round);
          Sweep(rest.lots, [Record(l, tid, l.amount, diff)] + rest.records, rest.failure)
  }

  /**
   * Spread by amount (the iterator overload with an amount base). The candidate
   * whose amount equals the remaining base takes the whole remaining amount with
   * no guard; any other candidate takes round(delta * amount / base). Running out
   * of candidates ends the traversal silently. A zero base with a lot still to
   * share is a division by zero.
   */
  function AmountSweep(lots: seq<Lot>, cand: seq<bool>, i: nat, delta: real, stock: real,
                       tid: TradeId, round: real -> real): (r: Sweep)
    requires |cand| == |lots| && i <= |lots|
    ensures |r.lots| == |lots|
    ensures forall j {:trigger r.lots[j]} :: 0 <= j < |lots| && (j < i || !cand[j]) ==> r.lots[j] == lots[j]
    ensures r.failure.None? || r.failure == Some(DivisionByZero)
    decreases |lots| - i
  {
    if i == |lots| then Sweep(lots, [], None)
    else if !cand[i] then AmountSweep(lots, cand, i + 1, delta, stock, tid, round)
    else
      var l := lots[i];
      if l.amount == stock then
        var after := l.amount + delta;
        Sweep(lots[i := l.(amount := after)], [Record(l, tid, l.amount, after)], None)
      else if stock == 0.0 then Sweep(lots, [], Some(DivisionByZero))
      else
        var value := round(Share(delta, l.amount, stock));
        var after := l.amount + value;
        var rest := AmountSweep(lots[i := l.(amount := after)], cand, i + 1, delta - value, stock - l.amount, tid, round);
        Sweep(rest.lots, [Record(l, tid, l.amount, after)] + rest.records, rest.failure)
  }

  /** A unit share applied to a quantity. */
  function Scale(unit: real, quantity: real): real {
    unit * quantity
  }

  /** The state after the quantity clamp. */
  datatype Clamped = Clamped(lots: seq<Lot>, cand: seq<bool>, delta: real, base: real)

  /**
   * The pre-pass of a reduction by quantity, with the unit share fixed up front:
   * a candidate whose amount would go negative is zeroed without a record, its
   * amount is folded into the amount left to spread, its quantity leaves the base
   * and it leaves the candidates. Under QUANTITY_FIRST the first such lot is an
   * error instead.
   */
  function Clamp(lots: seq<Lot>, cand: seq<bool>, i: nat, unit: real, delta: real, base: real,
                 quantityFirst: bool): (r: Result<Clamped, Error>)
    requires |cand| == |lots| && i <= |lots|
    ensures r.Failure? ==> quantityFirst && r.error.StockAmountReduction?
    ensures r.Success? ==> |r.value.lots| == |lots| && |r.value.cand| == |lots|
    ensures r.Success? ==> forall j {:trigger r.value.lots[j]} {:trigger r.value.cand[j]} :: 0 <= j < |lots| && (j < i || !cand[j]) ==>
      r.value.lots[j] == lots[j] && r.value.cand[j] == cand[j]
    decreases |lots| - i
  {
    if i == |lots| then Success(Clamped(lots, cand, delta, base))
    else if !cand[i] then Clamp(lots, cand, i + 1, unit, delta, base, quantityFirst)
    else
      var l := lots[i];
      if l.amount + Scale(unit, l.quantity) < 0.0 then
        if quantityFirst then Failure(StockAmountReduction(l.amount, delta))
        else Clamp(lots[i := l.(amount := 0.0)], cand[i := false], i + 1, unit, delta + l.amount,
                   base - l.quantity, quantityFirst)
      else Clamp(lots, cand, i + 1, unit, delta, base, quantityFirst)
  }

  /** `modificationByQuantity`: the base is the candidates' total quantity; a
      reduction first runs the clamp. */
  function ByQuantity(lots: seq<Lot>, cand: seq<bool>, delta: real, tid: TradeId, quantityFirst: bool,
                      round: real -> real): (r: Sweep)
    requires |cand| == |lots|
    ensures |r.lots| == |lots|
    ensures forall j {:trigger r.lots[j]} :: 0 <= j < |lots| && !cand[j] ==> r.lots[j] == lots[j]
  {
    var base := MaskedQuantity(lots, cand, 0);
    if delta < 0.0 then
      if base == 0.0 then Sweep(lots, [], Some(DivisionByZero))
      else
        match Clamp(lots, cand, 0, delta / base, delta, base, quantityFirst)
        case Failure(e) => Sweep(lots, [], Some(e))
        case Success(c) =>
          var s := QuantitySweep(c.lots, c.cand, 0, c.delta, c.base, tid, round);
          Sweep(s.lots, s.records, s.failure)
    else QuantitySweep(lots, cand, 0, delta, base, tid, round)
  }

  /** `modificationByAmount`: no candidate is an error, and so is a reduction
      larger than the candidates' total amount. */
  function ByAmount(lots: seq<Lot>, cand: seq<bool>, delta: real, tid: TradeId, round: real -> real): (r: Sweep)
    requires |cand| == |lots|
    ensures |r.lots| == |lots|
    ensures forall j {:trigger r.lots[j]} :: 0 <= j < |lots| && !cand[j] ==> r.lots[j] == lots[j]
    ensures !HasCandidate(cand, 0) ==> r == Sweep(lots, [], Some(EmptyPositionModification))
  {
    if !HasCandidate(cand, 0) then Sweep(lots, [], Some(EmptyPositionModification))
    else
      var stock := MaskedAmount(lots, cand, 0);
      if stock + delta < 0.0 then Sweep(lots, [], Some(StockAmountReduction(stock, delta)))
      else AmountSweep(lots, cand, 0, delta, stock, tid, round)
  }

  /** The QUANTITY_FIRST reduction: by quantity; if that meets a lot it cannot
      reduce, the whole reduction is redone by amount from the lots as they were. */
  function QuantityFirstDecrease(lots: seq<Lot>, cand: seq<bool>, delta: real, tid: TradeId,
                                 round: real -> real): (r: Sweep)
    requires |cand| == |lots|
    ensures |r.lots| == |lots|
    ensures forall j {:trigger r.lots[j]} :: 0 <= j < |lots| && !cand[j] ==> r.lots[j] == lots[j]
  {
    var q := ByQuantity(lots, cand, delta, tid, true, round);
    if q.failure.Some? && q.failure.value.StockAmountReduction? then ByAmount(lots, cand, delta, tid, round)
    else q
  }

  /** The same reduction as the manager writes it: the fallback by amount starts
      from the lots the failed traversal already changed, and its records follow
      the ones that traversal wrote. */
  function QuantityFirstDecreaseAsWritten(lots: seq<Lot>, cand: seq<bool>, delta: real, tid: TradeId,
                                          round: real -> real): (r: Sweep)
    requires |cand| == |lots|
    ensures |r.lots| == |lots|
  {
    var q := ByQuantity(lots, cand, delta, tid, true, round);
    if q.failure.Some? && q.failure.value.StockAmountReduction? then
      var a := ByAmount(q.lots, cand, delta, tid, round);
      Sweep(a.lots, q.records + a.records, a.failure)
    else q
  }

  /** The mode of a modification: its own when set, else the manager's. */
  function ModeOf(own: Option<ModificationMode>, managerMode: ModificationMode): (m: ModificationMode)
    ensures own.Some? ==> m == own.value
    ensures own.None? ==> m == managerMode
  {
    own.GetOr(managerMode)
  }

  /**
   * The dispatch on the sign of the amount left to spread: an increase goes by
   * quantity unless the mode is MONEY; a reduction goes by amount under MIXED and
   * MONEY, by quantity with the clamp under QUANTITY, and by quantity with the
   * fallback under QUANTITY_FIRST; zero changes nothing. The QUANTITY_FIRST
   * fallback is the rolled-back one, `QuantityFirstDecrease`, which starts again
   * from the lots as they were; the source's own fallback is
   * `QuantityFirstDecreaseAsWritten`.
   */
  function Spread(lots: seq<Lot>, cand: seq<bool>, delta: real, mode: ModificationMode, tid: TradeId,
                  round: real -> real): (r: Sweep)
    requires |cand| == |lots|
    ensures |r.lots| == |lots|
    ensures forall j {:trigger r.lots[j]} :: 0 <= j < |lots| && !cand[j] ==> r.lots[j] == lots[j]
    ensures delta == 0.0 ==> r == Sweep(lots, [], None)
  {
    if delta > 0.0 then
      if mode == Money then ByAmount(lots, cand, delta, tid, round)
      else ByQuantity(lots, cand, delta, tid, false, round)
    else if delta < 0.0 then
      match mode
      case Mixed => ByAmount(lots, cand, delta, tid, round)
      case Money => ByAmount(lots, cand, delta, tid, round)
      case Quantity => ByQuantity(lots, cand, delta, tid, false, round)
      case QuantityFirst => QuantityFirstDecrease(lots, cand, delta, tid, round)
    else Sweep(lots, [], None)
  }

  /** The outcome of a modification: the lots in iteration order and the records
      it wrote, in order. */
  datatype Outcome = Outcome(lots: seq<Lot>, records: seq<ModRecord>)

  /** `checkModifications(amount)`: a reduction needs lots, and may not exceed
      their total amount. */
  function CheckReduction(lots: seq<Lot>, delta: real): (r: Option<Error>)
    ensures r.None? <==> delta >= 0.0 || (|lots| > 0 && SumAmount(lots) + delta >= 0.0)
    ensures r.Some? && |lots| == 0 ==> r.value == EmptyPositionModification
    ensures r.Some? && |lots| > 0 ==> r.value == StockAmountReduction(SumAmount(lots), delta)
  {
    if delta >= 0.0 then None
    else if |lots| == 0 then Some(EmptyPositionModification)
    else if SumAmount(lots) + delta < 0.0 then Some(StockAmountReduction(SumAmount(lots), delta))
    else None
  }

  /**
   * A price modification of `delta` on the open lots (the manager's
   * `modification`). A single lot takes the whole amount under a non-negativity
   * guard, whatever shares are registered. Otherwise the registered shares go
   * first, and what is left is spread over the other lots according to the mode.
   */
  function Modify(lots: seq<Lot>, delta: real, mode: ModificationMode, forced: Option<ForcedTable>,
                  tid: TradeId, round: real -> real): (r: Result<Outcome, Error>)
    ensures r.Success? ==> |r.value.lots| == |lots|
  {
    match CheckReduction(lots, delta)
    case Some(e) => Failure(e)
    case None =>
      if |lots| == 1 then
        var l := lots[0];
        var diff := l.amount + delta;
        if diff < 0.0 then Failure(StockAmountReduction(l.amount, delta))
        else Success(Outcome([l.(amount := diff)], [Record(l, tid, l.amount, diff)]))
      else
        match forced
        case None =>
          var s := Spread(lots, seq(|lots|, _ => true), delta, mode, tid, round);
          if s.failure.Some? then Failure(s.failure.value) else Success(Outcome(s.lots, s.records))
        case Some(f) =>
          match CheckForcedTotal(delta, f)
          case Some(e) => Failure(e)
          case None =>
            match ApplyForced(lots, f, 0, delta, tid)
            case Failure(e) => Failure(e)
            case Success(p) =>
              var cand := Unforced(lots, f);
              if !HasCandidate(cand, 0) then Success(Outcome(p.lots, p.records))
              else
                var s := Spread(p.lots, cand, p.delta, mode, tid, round);
                if s.failure.Some? then Failure(s.failure.value) else Success(Outcome(s.lots, p.records + s.records))
  }
}
