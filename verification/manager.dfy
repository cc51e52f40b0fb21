/**
 * The stock manager: it owns one strategy, routes each trade by kind, records
 * closed positions (with lookups by sale and by purchase), keeps orphan sales
 * and modification records, and holds the forced allocations registered for
 * partial closes and for price modifications.
 *
 * The manager's rounding operator is the `round` parameter of the operations
 * that round money.
 */
module Managers {
  import opened Wrappers
  import opened Trades
  import opened Strategies
  import opened Matching
  import opened Splits
  import opened Modifications
  import opened ModificationLaws

  /** The lot-ordering policy chosen at construction. */
  datatype Mode = Fifo | Lifo | Prmp

  datatype Manager = Manager(
    strategy: Strategy,
    modificationMode: ModificationMode,
    closed: seq<Position>,
    bySell: map<Source, seq<Position>>,
    byBuy: map<Option<Source>, seq<Position>>,
    orphans: seq<Trade>,
    modifications: seq<ModRecord>,
    buySell: BuySellTable,
    forced: map<TradeId, ForcedTable>)

  /** The outcome of one trade: the manager after it and the trade as the
      manager left it (a sale's remaining quantity, amount and consumed lots). */
  datatype Applied = Applied(manager: Manager, trade: Trade)

  /* ---------- construction ---------- */

  /** A manager with an empty strategy of the given policy and nothing recorded. */
  function New(mode: Mode, modificationMode: ModificationMode): (m: Manager)
    ensures IsEmpty(m.strategy) && Lots(m.strategy) == []
    ensures (m.strategy.FIFO? <==> mode == Fifo) && (m.strategy.LIFO? <==> mode == Lifo)
    ensures m.strategy.PRMP? <==> mode == Prmp
    ensures m.modificationMode == modificationMode
    ensures m.closed == [] && m.orphans == [] && m.modifications == []
    ensures m.buySell == map[] && m.forced == map[]
    ensures Indexed(m)
  {
    var s := match mode
      case Fifo => FIFO([])
      case Lifo => LIFO([])
      case Prmp => PRMP(None);
    Manager(s, modificationMode, [], map[], map[], [], [], map[], map[])
  }

  /** Without a modification mode the manager spreads modifications MIXED;
      without a policy it is FIFO. */
  function NewDefault(mode: Option<Mode>): (m: Manager)
    ensures m.modificationMode == Mixed
    ensures mode.None? ==> m.strategy == FIFO([])
    ensures mode.Some? ==> m == New(mode.value, Mixed)
  {
    New(mode.GetOr(Fifo), DefaultModificationMode)
  }

  /* ---------- closed positions and their indexes ---------- */

  /** The closed positions of sale handle `s`, in closing order. */
  function WithSell(ps: seq<Position>, s: Source): (r: seq<Position>)
    ensures forall p :: p in r ==> p in ps && p.sell == Some(s)
  {
    if |ps| == 0 then []
    else (if ps[0].sell == Some(s) then [ps[0]] else []) + WithSell(ps[1..], s)
  }

  /** The indexed closed positions of purchase handle `b` (those with a sale
      handle), in closing order. */
  function WithBuy(ps: seq<Position>, b: Option<Source>): (r: seq<Position>)
    ensures forall p :: p in r ==> p in ps && p.sell.Some? && p.buy == b
  {
    if |ps| == 0 then []
    else (if ps[0].sell.Some? && ps[0].buy == b then [ps[0]] else []) + WithBuy(ps[1..], b)
  }

  /** `getClosedPositionsBySell`: empty when nothing is indexed. */
  function ClosedBySell(m: Manager, s: Source): seq<Position> {
    if s in m.bySell then m.bySell[s] else []
  }

  /** `getClosedPositionsByBuy`: empty when nothing is indexed. */
  function ClosedByBuy(m: Manager, b: Option<Source>): seq<Position> {
    if b in m.byBuy then m.byBuy[b] else []
  }

  /** Both indexes list exactly the closed positions with that handle, in order. */
  ghost predicate Indexed(m: Manager) {
    && (forall s :: ClosedBySell(m, s) == WithSell(m.closed, s))
    && (forall b :: ClosedByBuy(m, b) == WithBuy(m.closed, b))
  }

  /** `addClosedPosition`: every position is recorded; only one with a sale
      handle is indexed, under its sale and under its purchase. */
  function AddClosedPosition(m: Manager, p: Position): (r: Manager)
    ensures r.closed == m.closed + [p]
    ensures r == m.(closed := r.closed, bySell := r.bySell, byBuy := r.byBuy)
    ensures p.sell.None? ==> r.bySell == m.bySell && r.byBuy == m.byBuy
    ensures p.sell.Some? ==> ClosedBySell(r, p.sell.value) == ClosedBySell(m, p.sell.value) + [p]
    ensures p.sell.Some? ==> ClosedByBuy(r, p.buy) == ClosedByBuy(m, p.buy) + [p]
    ensures forall s: Source :: Some(s) != p.sell ==> ClosedBySell(r, s) == ClosedBySell(m, s)
    ensures forall b :: b != p.buy ==> ClosedByBuy(r, b) == ClosedByBuy(m, b)
  {
    var r := m.(closed := m.closed + [p]);
    if p.sell.None? then r
    else
      r.(bySell := m.bySell[p.sell.value := ClosedBySell(m, p.sell.value) + [p]],
         byBuy := m.byBuy[p.buy := ClosedByBuy(m, p.buy) + [p]])
  }

  /** Records the positions one after the other. */
  function AddClosedPositions(m: Manager, ps: seq<Position>): (r: Manager)
    ensures r.closed == m.closed + ps
    ensures r == m.(closed := r.closed, bySell := r.bySell, byBuy := r.byBuy)
    decreases |ps|
  {
    if |ps| == 0 then m
    else
      var r := AddClosedPositions(AddClosedPosition(m, ps[0]), ps[1..]);
      assert m.closed + [ps[0]] + ps[1..] == m.closed + ps;
      r
  }

  lemma {:induction false} WithSellSnoc(ps: seq<Position>, p: Position, s: Source)
    ensures WithSell(ps + [p], s) == WithSell(ps, s) + (if p.sell == Some(s) then [p] else [])
  {
    if |ps| > 0 {
      assert (ps + [p])[1..] == ps[1..] + [p];
      WithSellSnoc(ps[1..], p, s);
    } else {
      assert (ps + [p])[1..] == [];
    }
  }

  lemma {:induction false} WithBuySnoc(ps: seq<Position>, p: Position, b: Option<Source>)
    ensures WithBuy(ps + [p], b) == WithBuy(ps, b) + (if p.sell.Some? && p.buy == b then [p] else [])
  {
    if |ps| > 0 {
      assert (ps + [p])[1..] == ps[1..] + [p];
      WithBuySnoc(ps[1..], p, b);
    } else {
      assert (ps + [p])[1..] == [];
    }
  }

  /** Recording a closed position keeps both indexes in step with the list. */
  lemma {:induction false} AddClosedPositionKeepsIndex(m: Manager, p: Position)
    requires Indexed(m)
    ensures Indexed(AddClosedPosition(m, p))
  {
    var r := AddClosedPosition(m, p);
    forall s ensures ClosedBySell(r, s) == WithSell(r.closed, s) {
      WithSellSnoc(m.closed, p, s);
    }
    forall b ensures ClosedByBuy(r, b) == WithBuy(r.closed, b) {
      WithBuySnoc(m.closed, p, b);
    }
  }

  lemma {:induction false} AddClosedPositionsKeepsIndex(m: Manager, ps: seq<Position>)
    requires Indexed(m)
    ensures Indexed(AddClosedPositions(m, ps))
    decreases |ps|
  {
    if |ps| > 0 {
      AddClosedPositionKeepsIndex(m, ps[0]);
      AddClosedPositionsKeepsIndex(AddClosedPosition(m, ps[0]), ps[1..]);
    }
  }

  /* ---------- open positions ---------- */

  /** `getOpenedPositions`: one open position per held lot, in iteration order. */
  function GetOpenedPositions(s: Strategy): (r: seq<Position>)
    ensures |r| == |Lots(s)|
    ensures forall i :: 0 <= i < |r| ==>
      r[i] == OpenPosition(Lots(s)[i].source, Lots(s)[i].quantity, Lots(s)[i].amount)
  {
    var ls := Lots(s);
    seq(|ls|, i requires 0 <= i < |ls| => OpenPosition(ls[i].source, ls[i].quantity, ls[i].amount))
  }

  lemma {:induction false} OpenedTotals(ls: seq<Lot>, ps: seq<Position>)
    requires |ps| == |ls|
    requires forall i :: 0 <= i < |ps| ==> ps[i] == OpenPosition(ls[i].source, ls[i].quantity, ls[i].amount)
    ensures PositionsQuantity(ps) == SumQuantity(ls) && PositionsAmount(ps) == SumAmount(ls)
  {
    if |ls| > 0 {
      OpenedTotals(ls[1..], ps[1..]);
    }
  }

  /** The open positions are all open and add up to what the strategy holds. */
  lemma {:induction false} OpenedPositionsAddUp(s: Strategy)
    ensures var ps := GetOpenedPositions(s);
      && (forall i :: 0 <= i < |ps| ==> IsOpened(ps[i]))
      && PositionsQuantity(ps) == GetQuantity(s)
      && PositionsAmount(ps) == SumAmount(Lots(s))
  {
    OpenedTotals(Lots(s), GetOpenedPositions(s));
  }

  /* ---------- forced allocations ---------- */

  /** Whether `addBuySellMoney` registers: every argument given and a positive amount. */
  predicate RegistersAllocation(buy: Option<TradeId>, sale: Option<TradeId>, amount: Option<real>) {
    buy.Some? && sale.Some? && amount.Some? && amount.value > 0.0
  }

  /** `addBuySellMoney`: the amount a partial close of purchase `buy` by sale
      `sale` must take. Missing arguments and non-positive amounts are ignored. */
  function AddBuySellMoney(m: Manager, buy: Option<TradeId>, sale: Option<TradeId>, amount: Option<real>): (r: Manager)
    ensures RegistersAllocation(buy, sale, amount) ==>
      r == m.(buySell := m.buySell[(sale.value, Bought(buy.value)) := amount.value])
    ensures !RegistersAllocation(buy, sale, amount) ==> r == m
  {
    if RegistersAllocation(buy, sale, amount) then
      m.(buySell := m.buySell[(sale.value, Bought(buy.value)) := amount.value])
    else m
  }

  /** A registered allocation is the amount the next partial close of that
      purchase by that sale takes; one that was not registered changes nothing. */
  lemma {:induction false} RegisteredAllocationIsUsed(m: Manager, buy: Option<TradeId>, sale: Option<TradeId>,
                                                      amount: Option<real>, lot: Lot, demand: real, round: real -> real)
    requires lot.quantity != 0.0
    ensures RegistersAllocation(buy, sale, amount) && lot.ref == Bought(buy.value) ==>
      Allocation(sale.value, lot, demand, AddBuySellMoney(m, buy, sale, amount).buySell, round) == amount.value
    ensures forall id :: !RegistersAllocation(buy, sale, amount) ==>
      Allocation(id, lot, demand, AddBuySellMoney(m, buy, sale, amount).buySell, round)
        == Allocation(id, lot, demand, m.buySell, round)
  {
  }

  /** The shares registered for modification `id`, if any (`mapModification.get`). */
  function ForcedOf(m: Manager, id: TradeId): Option<ForcedTable> {
    if id in m.forced then Some(m.forced[id]) else None
  }

  /** Whether `addBuyModificationMoney` registers: every argument given and the
      share of the same sign as the modification. */
  predicate RegistersShare(buy: Option<TradeId>, modification: Option<Trade>, amount: Option<real>)
    requires modification.Some? ==> modification.value.Modification?
  {
    buy.Some? && modification.Some? && amount.Some? && amount.value * modification.value.delta > 0.0
  }

  /** `addBuyModificationMoney`: the share of modification `modification` that
      purchase `buy` must take. A share of the other sign (or zero) is ignored. */
  function AddBuyModificationMoney(m: Manager, buy: Option<TradeId>, modification: Option<Trade>,
                                   amount: Option<real>): (r: Manager)
    requires modification.Some? ==> modification.value.Modification?
    ensures RegistersShare(buy, modification, amount) ==>
      && ForcedOf(r, modification.value.id).Some?
      && Lookup(ForcedOf(r, modification.value.id).value, Bought(buy.value)) == Some(amount.value)
      && (forall o :: o != Bought(buy.value) && ForcedOf(m, modification.value.id).Some? ==>
            Lookup(ForcedOf(r, modification.value.id).value, o) == Lookup(ForcedOf(m, modification.value.id).value, o))
      && (forall id :: id != modification.value.id ==> ForcedOf(r, id) == ForcedOf(m, id))
      && r == m.(forced := r.forced)
    ensures !RegistersShare(buy, modification, amount) ==> r == m
  {
    if RegistersShare(buy, modification, amount) then
      var id := modification.value.id;
      m.(forced := m.forced[id := Put(ForcedOf(m, id).GetOr([]), Bought(buy.value), amount.value)])
    else m
  }

  /* ---------- sales ---------- */

  /** Records a match: the strategy it leaves, the positions it closed, and the
      sale as an orphan when demand was left over. */
  function Settle(m: Manager, c: Match): (r: Manager)
    ensures r.closed == m.closed + c.closed && r.strategy == c.strategy
    ensures r.orphans == m.orphans + (if c.orphaned then [c.trade] else [])
    ensures r == m.(strategy := r.strategy, closed := r.closed, bySell := r.bySell, byBuy := r.byBuy,
                    orphans := r.orphans)
  {
    var m1 := AddClosedPositions(m.(strategy := c.strategy), c.closed);
    if c.orphaned then m1.(orphans := m1.orphans + [c.trade]) else m1
  }

  lemma {:induction false} SettleKeepsIndex(m: Manager, c: Match)
    requires Indexed(m)
    ensures Indexed(Settle(m, c))
  {
    AddClosedPositionsKeepsIndex(m.(strategy := c.strategy), c.closed);
    var m1 := AddClosedPositions(m.(strategy := c.strategy), c.closed);
    assert Settle(m, c).closed == m1.closed && Settle(m, c).bySell == m1.bySell && Settle(m, c).byBuy == m1.byBuy;
  }

  /** `sell`: matches the sale against the head lots, records the positions it
      closes and keeps it as an orphan when demand is left over. */
  function Sell(m: Manager, t: Trade, round: real -> real): (r: Result<Applied, Error>)
    requires t.Sale? && t.demand.Some?
    ensures r.Failure? ==> r.error == NegativeBuyAmount
    ensures r.Success? ==> SameSale(r.value.trade, t) && r.value.trade.demand.Some?
    ensures r.Success? ==> SamePolicy(r.value.manager.strategy, m.strategy)
  {
    match Consume(m.strategy, t, m.buySell, round)
    case Failure(e) => Failure(e)
    case Success(c) => Success(Applied(Settle(m, c), c.trade))
  }

  /** A sale moves quantity and amount from the strategy to the closed positions
      it appends, without loss, and the closed quantity is what it covered. */
  lemma {:induction false} SellMovesHoldings(m: Manager, t: Trade, round: real -> real)
    requires t.Sale? && t.demand.Some?
    requires Sell(m, t, round).Success?
    ensures var a := Sell(m, t, round).value; var m' := a.manager;
      && |m.closed| <= |m'.closed| && m'.closed[..|m.closed|] == m.closed
      && var ps := m'.closed[|m.closed|..];
      && GetQuantity(m'.strategy) + PositionsQuantity(ps) == GetQuantity(m.strategy)
      && SumAmount(Lots(m'.strategy)) + PositionsAmount(ps) == SumAmount(Lots(m.strategy))
      && PositionsQuantity(ps) + a.trade.demand.value == t.demand.value
      && m'.modifications == m.modifications && m'.buySell == m.buySell && m'.forced == m.forced
  {
    var c := Consume(m.strategy, t, m.buySell, round).value;
    var m' := Settle(m, c);
    assert Sell(m, t, round).value == Applied(m', c.trade);
    ConsumeConservesQuantity(m.strategy, t, m.buySell, round);
    ConsumeConservesAmount(m.strategy, t, m.buySell, round);
    assert m'.closed[..|m.closed|] == m.closed;
    assert m'.closed[|m.closed|..] == c.closed;
  }

  /** A sale is kept as an orphan exactly when demand is left, and then the
      inventory is empty; the indexes stay in step with the closed positions. */
  lemma {:induction false} SellOrphans(m: Manager, t: Trade, round: real -> real)
    requires t.Sale? && t.demand.Some?
    requires Sell(m, t, round).Success?
    ensures var a := Sell(m, t, round).value; var m' := a.manager;
      && (a.trade.demand.value > 0.0 ==> m'.orphans == m.orphans + [a.trade] && IsEmpty(m'.strategy))
      && (a.trade.demand.value <= 0.0 ==> m'.orphans == m.orphans)
      && (Indexed(m) ==> Indexed(m'))
  {
    var c := Consume(m.strategy, t, m.buySell, round).value;
    assert Sell(m, t, round).value == Applied(Settle(m, c), c.trade);
    ConsumeOrphans(m.strategy, t, m.buySell, round);
    if Indexed(m) {
      SettleKeepsIndex(m, c);
    }
  }

  /** `reimbursement`: without a quantity, the whole quantity held is reimbursed. */
  function Reimbursement(m: Manager, t: Trade, round: real -> real): (r: Result<Applied, Error>)
    requires t.Sale? && t.cause == Rbt
    ensures r.Success? ==> r.value.trade.Sale? && r.value.trade.cause == Rbt
  {
    var q := if t.demand.Some? then t.demand.value else GetQuantity(m.strategy);
    Sell(m, t.(demand := Some(q)), round)
  }

  /** A reimbursement without a quantity liquidates everything when every lot
      holds a positive quantity: one closed position per lot, nothing left, no orphan. */
  lemma {:induction false} FullReimbursementLiquidates(m: Manager, t: Trade, round: real -> real)
    requires t.Sale? && t.cause == Rbt && t.demand.None?
    requires forall i :: 0 <= i < |Lots(m.strategy)| ==> Lots(m.strategy)[i].quantity > 0.0
    ensures Reimbursement(m, t, round).Success?
    ensures var m' := Reimbursement(m, t, round).value.manager;
      && IsEmpty(m'.strategy) && |m'.closed| == |m.closed| + |Lots(m.strategy)| && m'.orphans == m.orphans
  {
    var t' := t.(demand := Some(GetQuantity(m.strategy)));
    FullLiquidationEmpties(m.strategy, t', m.buySell, round);
  }

  /* ---------- price and quantity modifications ---------- */

  /** Writing lots back with unchanged quantities restores exactly those lots. */
  lemma {:induction false} WriteBackSameShapes(s: Strategy, ls: seq<Lot>)
    requires OnlyAmounts(Lots(s), ls)
    ensures Lots(WithLots(s, ls)) == ls
  {
    if s.PRMP? && |ls| == 1 {
      assert ls[0].quantity == Lots(s)[0].quantity;
    }
  }

  /** `modification`: the modification's own mode or the manager's, and the
      shares registered for it. */
  function ApplyModification(m: Manager, t: Trade, round: real -> real): (r: Result<Manager, Error>)
    requires t.Modification?
    ensures r.Success? ==> SamePolicy(r.value.strategy, m.strategy)
    ensures r.Success? ==> r.value == m.(strategy := r.value.strategy, modifications := r.value.modifications)
  {
    var lots := Lots(m.strategy);
    match Modify(lots, t.delta, ModeOf(t.mode, m.modificationMode), ForcedOf(m, t.id), t.id, round)
    case Failure(e) => Failure(e)
    case Success(o) =>
      Success(m.(strategy := WithLots(m.strategy, o.lots), modifications := m.modifications + o.records))
  }

  /**
   * A price modification keeps every lot and its quantity; the amount held
   * changes by exactly the modification, unless every lot had a registered
   * share, in which case it changes by the shares.
   */
  lemma {:induction false} ModificationPreserves(m: Manager, t: Trade, round: real -> real)
    requires t.Modification?
    requires ApplyModification(m, t, round).Success?
    ensures var m' := ApplyModification(m, t, round).value; var ls := Lots(m.strategy);
      && OnlyAmounts(ls, Lots(m'.strategy))
      && GetQuantity(m'.strategy) == GetQuantity(m.strategy)
      && |m.modifications| <= |m'.modifications| && m'.modifications[..|m.modifications|] == m.modifications
      && (!AllForced(ls, ForcedOf(m, t.id)) ==> SumAmount(Lots(m'.strategy)) == SumAmount(ls) + t.delta)
      && (AllForced(ls, ForcedOf(m, t.id)) ==>
            SumAmount(Lots(m'.strategy)) == SumAmount(ls) + ForcedApplied(ls, ForcedOf(m, t.id).value, 0))
  {
    var ls := Lots(m.strategy);
    var mode := ModeOf(t.mode, m.modificationMode);
    var o := Modify(ls, t.delta, mode, ForcedOf(m, t.id), t.id, round).value;
    ModifyKeepsShapes(ls, t.delta, mode, ForcedOf(m, t.id), t.id, round);
    ModifyConserves(ls, t.delta, mode, ForcedOf(m, t.id), t.id, round);
    WriteBackSameShapes(m.strategy, o.lots);
  }

  /** A share registered for a modification is what that purchase's lot takes
      when the modification is applied to two or more lots. */
  lemma {:induction false} RegisteredShareIsApplied(m: Manager, buy: TradeId, t: Trade, v: real, round: real -> real,
                                                    j: nat)
    requires t.Modification? && v * t.delta > 0.0
    requires var m1 := AddBuyModificationMoney(m, Some(buy), Some(t), Some(v));
      && |Lots(m1.strategy)| != 1 && j < |Lots(m1.strategy)| && Lots(m1.strategy)[j].ref == Bought(buy)
      && ApplyModification(m1, t, round).Success?
    ensures var m1 := AddBuyModificationMoney(m, Some(buy), Some(t), Some(v));
      Lots(ApplyModification(m1, t, round).value.strategy)[j].amount == Lots(m1.strategy)[j].amount + v
  {
    var m1 := AddBuyModificationMoney(m, Some(buy), Some(t), Some(v));
    assert RegistersShare(Some(buy), Some(t), Some(v));
    var ls := Lots(m1.strategy);
    var mode := ModeOf(t.mode, m1.modificationMode);
    var f := ForcedOf(m1, t.id).value;
    var o := Modify(ls, t.delta, mode, Some(f), t.id, round).value;
    ModifyForcedShares(ls, t.delta, mode, f, t.id, round, j);
    ModifyKeepsShapes(ls, t.delta, mode, Some(f), t.id, round);
    WriteBackSameShapes(m1.strategy, o.lots);
  }

  /** `modificationQuantity`: a split of every held quantity by after / before. */
  function ModificationQuantity(m: Manager, t: Trade): (r: Result<Manager, Error>)
    requires t.QuantityChange?
    ensures r.Failure? <==> |Lots(m.strategy)| > 0 && t.quantityBefore == 0.0
    ensures r.Success? ==> r.value == m.(strategy := r.value.strategy) && SamePolicy(r.value.strategy, m.strategy)
  {
    match Rescale(Lots(m.strategy), t.quantityBefore, t.quantityAfter, t.scale)
    case Failure(e) => Failure(e)
    case Success(ls) => Success(m.(strategy := WithLots(m.strategy, ls)))
  }

  /**
   * A quantity split keeps every lot's identity and amount. Unless the ratio's
   * denominator is one, a queue then holds exactly the rounded rescaled total.
   */
  lemma {:induction false} ModificationQuantityLaws(m: Manager, t: Trade)
    requires t.QuantityChange? && !m.strategy.PRMP?
    requires ModificationQuantity(m, t).Success?
    ensures var ls := Lots(m.strategy); var ls' := Lots(ModificationQuantity(m, t).value.strategy);
      && |ls'| == |ls|
      && (forall i :: 0 <= i < |ls| ==> ls'[i].ref == ls[i].ref && ls'[i].amount == ls[i].amount)
      && SumAmount(ls') == SumAmount(ls)
      && (|ls| > 0 && t.quantityBefore != 1.0 ==>
            GetQuantity(ModificationQuantity(m, t).value.strategy)
              == Rescaled(GetQuantity(m.strategy), t.quantityBefore, t.quantityAfter, t.scale))
  {
    var ls := Lots(m.strategy);
    RescaleKeepsLots(ls, t.quantityBefore, t.quantityAfter, t.scale);
    if |ls| > 0 && t.quantityBefore != 1.0 {
      RescaleAbsorbsResidue(ls, t.quantityBefore, t.quantityAfter, t.scale);
    }
  }

  /* ---------- dispatch ---------- */

  /** `add`: a purchase enters the strategy; the other kinds go to their handler. */
  function Add(m: Manager, t: Trade, round: real -> real): (r: Result<Applied, Error>)
    requires WellFormed(t)
    ensures t.Buy? ==> r == Success(Applied(m.(strategy := Strategies.Add(m.strategy, LotOf(t))), t))
    ensures r.Success? && !t.Sale? ==> r.value.trade == t
    ensures r.Success? ==> SamePolicy(r.value.manager.strategy, m.strategy)
    ensures r.Success? ==> r.value.manager.modificationMode == m.modificationMode
  {
    match t
    case Buy(_, _, _, _) => Success(Applied(m.(strategy := Strategies.Add(m.strategy, LotOf(t))), t))
    case Sale(_, _, cause, _, _, _) => if cause == CloseCause.Sell then Sell(m, t, round) else Reimbursement(m, t, round)
    case Modification(_, _, _, _) =>
      (match ApplyModification(m, t, round)
       case Failure(e) => Failure(e)
       case Success(m') => Success(Applied(m', t)))
    case QuantityChange(_, _, _, _, _) =>
      (match ModificationQuantity(m, t)
       case Failure(e) => Failure(e)
       case Success(m') => Success(Applied(m', t)))
  }

  /** `process`: the trades in order; the first error stops the stream. */
  function Process(m: Manager, ts: seq<Trade>, round: real -> real): (r: Result<Manager, Error>)
    requires forall i :: 0 <= i < |ts| ==> WellFormed(ts[i])
    ensures r.Success? ==> SamePolicy(r.value.strategy, m.strategy)
    decreases |ts|
  {
    if |ts| == 0 then Success(m)
    else
      match Add(m, ts[0], round)
      case Failure(e) => Failure(e)
      case Success(a) => Process(a.manager, ts[1..], round)
  }

  /** Processing a stream in two parts is processing it whole. */
  lemma {:induction false} ProcessConcat(m: Manager, a: seq<Trade>, b: seq<Trade>, round: real -> real)
    requires forall i :: 0 <= i < |a| ==> WellFormed(a[i])
    requires forall i :: 0 <= i < |b| ==> WellFormed(b[i])
    ensures forall i :: 0 <= i < |a + b| ==> WellFormed((a + b)[i])
    ensures Process(m, a + b, round) ==
      match Process(m, a, round)
      case Failure(e) => Failure(e)
      case Success(m') => Process(m', b, round)
    decreases |a|
  {
    assert forall i :: 0 <= i < |a + b| ==> WellFormed((a + b)[i]) by {
      forall i | 0 <= i < |a + b| ensures WellFormed((a + b)[i]) {
        if i < |a| { assert (a + b)[i] == a[i]; } else { assert (a + b)[i] == b[i - |a|]; }
      }
    }
    if |a| > 0 {
      assert (a + b)[0] == a[0];
      assert (a + b)[1..] == a[1..] + b;
      match Add(m, a[0], round)
      case Failure(e) =>
      case Success(x) => ProcessConcat(x.manager, a[1..], b, round);
    } else {
      assert a + b == b;
    }
  }

  /** Every trade kind keeps the closed-position indexes in step. */
  lemma {:induction false} AddKeepsIndex(m: Manager, t: Trade, round: real -> real)
    requires WellFormed(t) && Indexed(m)
    requires Add(m, t, round).Success?
    ensures Indexed(Add(m, t, round).value.manager)
  {
    match t
    case Buy(_, _, _, _) =>
    case Sale(_, _, cause, demand, _, _) =>
      if cause == CloseCause.Sell {
        SellOrphans(m, t, round);
      } else {
        var q := if demand.Some? then demand.value else GetQuantity(m.strategy);
        SellOrphans(m, t.(demand := Some(q)), round);
      }
    case Modification(_, _, _, _) =>
    case QuantityChange(_, _, _, _, _) =>
  }

  /** Along a whole stream the indexes list exactly the closed positions of
      each handle, in closing order. */
  lemma {:induction false} ProcessKeepsIndex(m: Manager, ts: seq<Trade>, round: real -> real)
    requires forall i :: 0 <= i < |ts| ==> WellFormed(ts[i])
    requires Indexed(m) && Process(m, ts, round).Success?
    ensures Indexed(Process(m, ts, round).value)
    decreases |ts|
  {
    if |ts| > 0 {
      var a := Add(m, ts[0], round).value;
      AddKeepsIndex(m, ts[0], round);
      ProcessKeepsIndex(a.manager, ts[1..], round);
    }
  }

  /* ---------- the quantity ledger of a trading stream ---------- */

  /** Purchases and sales only. */
  predicate Trading(ts: seq<Trade>) {
    forall i :: 0 <= i < |ts| ==> WellFormed(ts[i]) && (ts[i].Buy? || ts[i].Sale?)
  }

  /** The total quantity bought by a stream. */
  function BoughtQuantity(ts: seq<Trade>): real {
    if |ts| == 0 then 0.0
    else (if ts[0].Buy? then ts[0].quantity else 0.0) + BoughtQuantity(ts[1..])
  }

  /** One purchase or sale: what is held plus what was closed grows by exactly
      the quantity bought, and no quantity becomes negative. */
  lemma {:induction false} TradeKeepsLedger(m: Manager, t: Trade, round: real -> real)
    requires WellFormed(t) && (t.Buy? || t.Sale?) && QuantitiesNonNegative(Lots(m.strategy))
    requires Add(m, t, round).Success?
    ensures var m' := Add(m, t, round).value.manager;
      && GetQuantity(m'.strategy) + PositionsQuantity(m'.closed)
           == GetQuantity(m.strategy) + PositionsQuantity(m.closed) + (if t.Buy? then t.quantity else 0.0)
      && QuantitiesNonNegative(Lots(m'.strategy))
  {
    if t.Buy? {
      AddAccumulates(m.strategy, LotOf(t));
    } else {
      var t' := if t.cause == CloseCause.Sell then t
                else t.(demand := Some(if t.demand.Some? then t.demand.value else GetQuantity(m.strategy)));
      assert Add(m, t, round) == Sell(m, t', round);
      SellMovesHoldings(m, t', round);
      var m' := Add(m, t, round).value.manager;
      assert m.closed + m'.closed[|m.closed|..] == m'.closed;
      PositionsOfConcat(m.closed, m'.closed[|m.closed|..]);
      var c := Consume(m.strategy, t', m.buySell, round).value;
      assert m'.strategy == c.strategy;
      ConsumeKeepsQuantitiesNonNegative(m.strategy, t', m.buySell, round);
    }
  }

  /**
   * Along a stream of purchases and sales, no quantity is created or lost: what
   * is held plus what was closed grows by exactly the quantity bought.
   */
  lemma {:induction false} ProcessKeepsLedger(m: Manager, ts: seq<Trade>, round: real -> real)
    requires Trading(ts) && QuantitiesNonNegative(Lots(m.strategy))
    requires Process(m, ts, round).Success?
    ensures var m' := Process(m, ts, round).value;
      && GetQuantity(m'.strategy) + PositionsQuantity(m'.closed)
           == GetQuantity(m.strategy) + PositionsQuantity(m.closed) + BoughtQuantity(ts)
      && QuantitiesNonNegative(Lots(m'.strategy))
    decreases |ts|
  {
    if |ts| > 0 {
      var a := Add(m, ts[0], round).value;
      TradeKeepsLedger(m, ts[0], round);
      assert Trading(ts[1..]) by {
        forall i | 0 <= i < |ts[1..]| ensures WellFormed(ts[1..][i]) && (ts[1..][i].Buy? || ts[1..][i].Sale?) {
          assert ts[1..][i] == ts[i + 1];
        }
      }
      ProcessKeepsLedger(a.manager, ts[1..], round);
    }
  }
}
