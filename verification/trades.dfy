/**
 * Trade events, open lots and the output records of the stock manager:
 * the manager's nested `TradeWrapper` class, `Position`, `Modification`,
 * `ModificationMode`, the close cause and the engine's exceptions.
 */
module Trades {
  import opened Wrappers

  /** Identity of a trade event (Java object identity of a `TradeWrapper`). */
  type TradeId = nat

  /** The caller's source handle; the engine never looks inside it, only passes it through. */
  type Source = nat

  /** Identity of an open lot: the buy event it came from, or the aggregate cell
      that the weighted-average strategy rebuilds on every purchase. */
  datatype LotRef = Bought(id: TradeId) | Merged

  /** How a price modification is spread over several open lots. */
  datatype ModificationMode = Quantity | Money | Mixed | QuantityFirst

  /** The manager's default modification mode. */
  const DefaultModificationMode: ModificationMode := Mixed

  /** Why a closed position was closed. */
  datatype CloseCause = Sell | Rbt

  /** An open buy lot held by a strategy. */
  datatype Lot = Lot(ref: LotRef, source: Option<Source>, quantity: real, amount: real)

  /**
   * A trade event. The variant plays the part of the trade type:
   * a `Sale` is a SELL or an RBT (reimbursement) according to its cause.
   * A sale's `demand` is the trade's quantity: absent only for a full
   * reimbursement, it shrinks as lots are consumed. Its `cost` is the trade's
   * amount: absent at construction, it accumulates the amount of the lots it
   * consumes. `consumed` lists the lots it consumed (the trade's buy values).
   */
  datatype Trade =
    | Buy(id: TradeId, source: Option<Source>, quantity: real, amount: real)
    | Sale(id: TradeId, source: Option<Source>, cause: CloseCause,
           demand: Option<real>, cost: Option<real>, consumed: seq<LotRef>)
    | Modification(id: TradeId, source: Option<Source>, delta: real, mode: Option<ModificationMode>)
    | QuantityChange(id: TradeId, source: Option<Source>, quantityBefore: real, quantityAfter: real, scale: int)

  /** A realized (closed) or unrealized (open) position. */
  datatype Position = Position(buy: Option<Source>, sell: Option<Source>, quantity: real, amount: real,
                               closeCause: Option<CloseCause>)

  /** One lot's change under one price modification. */
  datatype ModRecord = ModRecord(buy: LotRef, modification: TradeId, quantity: real,
                                 amountBefore: real, amountAfter: real)

  /** The exceptions the engine can raise. */
  datatype Error =
    | EmptyPositionModification
    | StockAmountReduction(stockAmount: real, modificationAmount: real)
    | NegativeBuyAmount
    | BadTotalModification(modificationAmount: real, forcedTotal: real)
    | DivisionByZero

  function Abs(x: real): (r: real)
    ensures r >= 0.0 && (r == x || r == -x)
  {
    if x < 0.0 then -x else x
  }

  /* ---------- smart constructors (kind-dependent normalisation) ---------- */

  /** A purchase: the quantity is made non-negative. */
  function BuyOf(id: TradeId, quantity: real, amount: real, source: Option<Source>): (t: Trade)
    ensures t.Buy? && t.id == id && t.source == source && t.amount == amount
    ensures t.quantity >= 0.0 && (t.quantity == quantity || t.quantity == -quantity)
    ensures WellFormed(t)
  {
    Buy(id, source, Abs(quantity), amount)
  }

  /** A sale: the quantity is made non-negative and the amount is cleared. */
  function SellOf(id: TradeId, quantity: real, source: Option<Source>): (t: Trade)
    ensures t.Sale? && t.cause == Sell && t.id == id && t.source == source
    ensures t.demand.Some? && t.demand.value >= 0.0 && Abs(quantity) == t.demand.value
    ensures t.cost.None? && t.consumed == []
    ensures WellFormed(t)
  {
    Sale(id, source, Sell, Some(Abs(quantity)), None, [])
  }

  /** A reimbursement: an absent quantity stays absent (liquidate everything),
      a present one is made non-negative; the amount is cleared. */
  function ReimbursementOf(id: TradeId, quantity: Option<real>, source: Option<Source>): (t: Trade)
    ensures t.Sale? && t.cause == Rbt && t.id == id && t.source == source
    ensures quantity.None? <==> t.demand.None?
    ensures quantity.Some? ==> t.demand.value == Abs(quantity.value)
    ensures t.cost.None? && t.consumed == []
    ensures WellFormed(t)
  {
    var q := match quantity
      case None => None
      case Some(x) => Some(Abs(x));
    Sale(id, source, Rbt, q, None, [])
  }

  /** A price modification keeps its signed delta. */
  function ModificationOf(id: TradeId, delta: real, mode: Option<ModificationMode>, source: Option<Source>): (t: Trade)
    ensures t.Modification? && t.delta == delta && t.mode == mode && t.id == id && t.source == source
    ensures WellFormed(t)
  {
    Modification(id, source, delta, mode)
  }

  /** A quantity split from `before` units to `after` units, rounded at `scale`. */
  function ModifyQuantityOf(id: TradeId, before: real, after: real, scale: int, source: Option<Source>): (t: Trade)
    ensures t.QuantityChange? && t.quantityBefore == before && t.quantityAfter == after
    ensures t.scale == scale && t.id == id && t.source == source
    ensures WellFormed(t)
  {
    QuantityChange(id, source, before, after, scale)
  }

  /** What the smart constructors guarantee: buy quantities are non-negative and
      only a reimbursement may leave its quantity unspecified. */
  predicate WellFormed(t: Trade) {
    match t
    case Buy(_, _, q, _) => q >= 0.0
    case Sale(_, _, cause, q, _, _) => (cause == Sell ==> q.Some?) && (q.Some? ==> q.value >= 0.0)
    case _ => true
  }

  /** The lot a purchase opens. */
  function LotOf(t: Trade): (l: Lot)
    requires t.Buy?
    ensures l.ref == Bought(t.id) && l.source == t.source
    ensures l.quantity == t.quantity && l.amount == t.amount
  {
    Lot(Bought(t.id), t.source, t.quantity, t.amount)
  }

  /* ---------- positions ---------- */

  /** The snapshot of a still-open lot: no sell handle and no close cause. */
  function OpenPosition(buy: Option<Source>, quantity: real, amount: real): (p: Position)
    ensures p.sell.None? && p.closeCause.None?
    ensures p.buy == buy && p.quantity == quantity && p.amount == amount
    ensures IsOpened(p) && !IsClosed(p)
  {
    Position(buy, None, quantity, amount, None)
  }

  /** A realized position; it reads as open when the sale had no source handle. */
  function ClosedPosition(buy: Option<Source>, sell: Option<Source>, quantity: real, amount: real,
                          cause: CloseCause): (p: Position)
    ensures p.buy == buy && p.sell == sell && p.quantity == quantity && p.amount == amount
    ensures p.closeCause == Some(cause)
    ensures IsOpened(p) <==> sell.None?
  {
    Position(buy, sell, quantity, amount, Some(cause))
  }

  predicate IsOpened(p: Position) {
    p.sell.None?
  }

  predicate IsClosed(p: Position) {
    !IsOpened(p)
  }

  /* ---------- sums ---------- */

  function SumQuantity(ls: seq<Lot>): real {
    if |ls| == 0 then 0.0 else ls[0].quantity + SumQuantity(ls[1..])
  }

  function SumAmount(ls: seq<Lot>): real {
    if |ls| == 0 then 0.0 else ls[0].amount + SumAmount(ls[1..])
  }

  function PositionsQuantity(ps: seq<Position>): real {
    if |ps| == 0 then 0.0 else ps[0].quantity + PositionsQuantity(ps[1..])
  }

  function PositionsAmount(ps: seq<Position>): real {
    if |ps| == 0 then 0.0 else ps[0].amount + PositionsAmount(ps[1..])
  }

  /** Total change recorded by a list of modification records. */
  function RecordedChange(rs: seq<ModRecord>): real {
    if |rs| == 0 then 0.0 else (rs[0].amountAfter - rs[0].amountBefore) + RecordedChange(rs[1..])
  }

  lemma {:induction false} SumsOfConcat(a: seq<Lot>, b: seq<Lot>)
    ensures SumQuantity(a + b) == SumQuantity(a) + SumQuantity(b)
    ensures SumAmount(a + b) == SumAmount(a) + SumAmount(b)
  {
    if |a| > 0 {
      assert (a + b)[1..] == a[1..] + b;
      SumsOfConcat(a[1..], b);
    } else {
      assert a + b == b;
    }
  }

  lemma {:induction false} RecordedChangeOfConcat(a: seq<ModRecord>, b: seq<ModRecord>)
    ensures RecordedChange(a + b) == RecordedChange(a) + RecordedChange(b)
  {
    if |a| > 0 {
      assert (a + b)[1..] == a[1..] + b;
      RecordedChangeOfConcat(a[1..], b);
    } else {
      assert a + b == b;
    }
  }

  lemma {:induction false} PositionsOfConcat(a: seq<Position>, b: seq<Position>)
    ensures PositionsQuantity(a + b) == PositionsQuantity(a) + PositionsQuantity(b)
    ensures PositionsAmount(a + b) == PositionsAmount(a) + PositionsAmount(b)
  {
    if |a| > 0 {
      assert (a + b)[1..] == a[1..] + b;
      PositionsOfConcat(a[1..], b);
    } else {
      assert a + b == b;
    }
  }

  /** Every lot's quantity is non-negative. */
  predicate QuantitiesNonNegative(ls: seq<Lot>) {
    forall i :: 0 <= i < |ls| ==> ls[i].quantity >= 0.0
  }

  /** Every lot's amount is non-negative. */
  predicate AmountsNonNegative(ls: seq<Lot>) {
    forall i :: 0 <= i < |ls| ==> ls[i].amount >= 0.0
  }
}
