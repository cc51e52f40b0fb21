/**
 * The lot-ordering policies: FIFO (a queue), LIFO (a stack) and PRMP
 * (weighted-average cost, every lot merged into one aggregate cell).
 * The head of a FIFO or LIFO strategy is index 0 of its sequence, and the
 * sequence order is the iteration order.
 */
module Strategies {
  import opened Wrappers
  import opened Trades

  datatype Strategy = FIFO(lots: seq<Lot>) | LIFO(lots: seq<Lot>) | PRMP(cell: Option<Lot>)

  /** The aggregate returned by `getStock`: no amount (null) when nothing is held. */
  datatype Stock = Stock(quantity: real, amount: Option<real>)

  /** The result of `remove`: the remaining strategy and the evicted head
      (the weighted-average strategy returns its empty placeholder, shown as None). */
  datatype Removal = Removal(rest: Strategy, evicted: Option<Lot>)

  predicate SamePolicy(a: Strategy, b: Strategy) {
    a.FIFO? == b.FIFO? && a.LIFO? == b.LIFO? && a.PRMP? == b.PRMP?
  }

  /** An empty strategy of the same policy. */
  function Clear(s: Strategy): (r: Strategy)
    ensures SamePolicy(r, s) && IsEmpty(r) && Lots(r) == []
  {
    match s
    case FIFO(_) => FIFO([])
    case LIFO(_) => LIFO([])
    case PRMP(_) => PRMP(None)
  }

  /** A queue is empty when it holds no lot; the aggregate cell when it is
      absent or holds a zero quantity. */
  predicate IsEmpty(s: Strategy) {
    match s
    case FIFO(ls) => |ls| == 0
    case LIFO(ls) => |ls| == 0
    case PRMP(c) => c.None? || c.value.quantity == 0.0
  }

  /** The lots in iteration order: the queue from head to tail, or the aggregate
      cell unless the strategy is empty. */
  function Lots(s: Strategy): (r: seq<Lot>)
    ensures |r| == 0 <==> IsEmpty(s)
    ensures s.PRMP? ==> |r| <= 1 && (|r| == 1 ==> s.cell == Some(r[0]))
  {
    match s
    case FIFO(ls) => ls
    case LIFO(ls) => ls
    case PRMP(c) => if IsEmpty(s) then [] else [c.value]
  }

  /** The number of lots; at most one for the aggregate cell. */
  function Size(s: Strategy): (n: nat)
    ensures n == |Lots(s)|
    ensures s.PRMP? ==> n <= 1
    ensures n == 0 <==> IsEmpty(s)
  {
    match s
    case FIFO(ls) => |ls|
    case LIFO(ls) => |ls|
    case PRMP(_) => if IsEmpty(s) then 0 else 1
  }

  /** `add`: FIFO appends at the tail, LIFO pushes at the head, PRMP merges the
      lot into a fresh aggregate cell with no source handle. */
  function Add(s: Strategy, l: Lot): (r: Strategy)
    ensures SamePolicy(r, s)
    ensures s.FIFO? ==> Lots(r) == Lots(s) + [l]
    ensures s.LIFO? ==> Lots(r) == [l] + Lots(s)
    ensures s.PRMP? ==>
      var held := if s.cell.Some? then s.cell.value else Lot(Merged, None, 0.0, 0.0);
      r.cell == Some(Lot(Merged, None, Abs(held.quantity + l.quantity), held.amount + l.amount))
  {
    match s
    case FIFO(ls) => FIFO(ls + [l])
    case LIFO(ls) => LIFO([l] + ls)
    case PRMP(c) =>
      match c
      case None => PRMP(Some(Lot(Merged, None, Abs(l.quantity), l.amount)))
      case Some(held) => PRMP(Some(Lot(Merged, None, Abs(held.quantity + l.quantity), held.amount + l.amount)))
  }

  /** `peek`: the head, without changing the strategy. A queue returns null when
      empty; the aggregate strategy returns its cell, or its placeholder (None here). */
  function Peek(s: Strategy): (r: Option<Lot>)
    ensures !IsEmpty(s) ==> r == Some(Lots(s)[0])
    ensures !s.PRMP? && IsEmpty(s) ==> r.None?
    ensures s.PRMP? ==> r == s.cell
  {
    match s
    case FIFO(ls) => if |ls| == 0 then None else Some(ls[0])
    case LIFO(ls) => if |ls| == 0 then None else Some(ls[0])
    case PRMP(c) => c
  }

  /** `remove`: evicts exactly the head; the other lots keep their order.
      The aggregate strategy resets to empty. A queue cannot remove from an
      empty collection (it raises NoSuchElementException). */
  function Remove(s: Strategy): (r: Removal)
    requires s.PRMP? || !IsEmpty(s)
    ensures SamePolicy(r.rest, s)
    ensures !IsEmpty(s) ==> Lots(r.rest) == Lots(s)[1..]
    ensures !s.PRMP? ==> r.evicted == Some(Lots(s)[0])
    ensures s.PRMP? ==> r.rest == PRMP(None) && r.evicted.None?
  {
    match s
    case FIFO(ls) => Removal(FIFO(ls[1..]), Some(ls[0]))
    case LIFO(ls) => Removal(LIFO(ls[1..]), Some(ls[0]))
    case PRMP(_) => Removal(PRMP(None), None)
  }

  /** `getQuantity`: the total quantity held. */
  function GetQuantity(s: Strategy): (r: real)
    ensures r == SumQuantity(Lots(s))
  {
    match s
    case FIFO(ls) => SumQuantity(ls)
    case LIFO(ls) => SumQuantity(ls)
    case PRMP(c) => if c.None? then 0.0 else c.value.quantity
  }

  /** `getStock`: total quantity and amount, with an absent amount when there is
      nothing to aggregate. */
  function GetStock(s: Strategy): (r: Stock)
    ensures r.quantity == GetQuantity(s)
    ensures !IsEmpty(s) ==> r.amount == Some(SumAmount(Lots(s)))
    ensures !s.PRMP? && IsEmpty(s) ==> r.amount.None?
    ensures s.PRMP? && s.cell.None? ==> r == Stock(0.0, None)
  {
    match s
    case FIFO(ls) => if |ls| == 0 then Stock(0.0, None) else Stock(SumQuantity(ls), Some(SumAmount(ls)))
    case LIFO(ls) => if |ls| == 0 then Stock(0.0, None) else Stock(SumQuantity(ls), Some(SumAmount(ls)))
    case PRMP(c) => if c.None? then Stock(0.0, None) else Stock(c.value.quantity, Some(c.value.amount))
  }

  /** Writes back lots updated in place, in iteration order. An aggregate cell
      whose quantity became zero stays held but no longer iterates. */
  function WithLots(s: Strategy, ls: seq<Lot>): (r: Strategy)
    requires |ls| == |Lots(s)|
    ensures SamePolicy(r, s)
    ensures Lots(r) == ls || (s.PRMP? && |ls| == 1 && ls[0].quantity == 0.0 && Lots(r) == [])
    ensures s.PRMP? && |ls| == 1 ==> r.cell == Some(ls[0])
    ensures |ls| == 0 ==> r == s
  {
    match s
    case FIFO(_) => FIFO(ls)
    case LIFO(_) => LIFO(ls)
    case PRMP(_) => if |ls| == 0 then s else PRMP(Some(ls[0]))
  }

  /* ---------- order of eviction and accumulation ---------- */

  /** The lots evicted by removing the head until the strategy is empty. */
  function Drain(s: Strategy): seq<Lot>
    decreases |Lots(s)|
  {
    if IsEmpty(s) then [] else [Peek(s).value] + Drain(Remove(s).rest)
  }

  /** Successive removals evict the lots in iteration order. */
  lemma {:induction false} DrainFollowsIteration(s: Strategy)
    ensures Drain(s) == Lots(s)
    decreases |Lots(s)|
  {
    if !IsEmpty(s) {
      DrainFollowsIteration(Remove(s).rest);
    }
  }

  /** Adds the lots one after the other. */
  function AddAll(s: Strategy, xs: seq<Lot>): (r: Strategy)
    ensures SamePolicy(r, s)
    decreases |xs|
  {
    if |xs| == 0 then s else AddAll(Add(s, xs[0]), xs[1..])
  }

  function Reverse<T>(xs: seq<T>): (r: seq<T>)
    ensures |r| == |xs|
    ensures forall i :: 0 <= i < |xs| ==> r[i] == xs[|xs| - 1 - i]
  {
    if |xs| == 0 then [] else Reverse(xs[1..]) + [xs[0]]
  }

  /** A purchase of non-negative quantity adds exactly its quantity to what is
      held, under every policy, and keeps every quantity non-negative. */
  lemma {:induction false} AddAccumulates(s: Strategy, l: Lot)
    requires QuantitiesNonNegative(Lots(s)) && l.quantity >= 0.0
    ensures GetQuantity(Add(s, l)) == GetQuantity(s) + l.quantity
    ensures QuantitiesNonNegative(Lots(Add(s, l)))
  {
    match s
    case FIFO(ls) =>
      SumsOfConcat(ls, [l]);
      assert forall i :: 0 <= i < |ls + [l]| ==> (ls + [l])[i] == (if i < |ls| then ls[i] else l);
    case LIFO(ls) =>
      SumsOfConcat([l], ls);
      assert forall i :: 0 <= i < |[l] + ls| ==> ([l] + ls)[i] == (if i == 0 then l else ls[i - 1]);
    case PRMP(c) =>
      if c.Some? && c.value.quantity != 0.0 {
        assert Lots(s)[0] == c.value;
      }
  }

  /** FIFO keeps insertion order: the head stays the oldest lot. */
  lemma {:induction false} FifoKeepsInsertionOrder(ls: seq<Lot>, xs: seq<Lot>)
    ensures Lots(AddAll(FIFO(ls), xs)) == ls + xs
    decreases |xs|
  {
    if |xs| > 0 {
      FifoKeepsInsertionOrder(ls + [xs[0]], xs[1..]);
      assert ls + [xs[0]] + xs[1..] == ls + xs by {
        assert xs == [xs[0]] + xs[1..];
      }
    }
  }

  /** LIFO reverses insertion order: the head is the most recent lot. */
  lemma {:induction false} LifoReversesInsertionOrder(ls: seq<Lot>, xs: seq<Lot>)
    ensures Lots(AddAll(LIFO(ls), xs)) == Reverse(xs) + ls
    decreases |xs|
  {
    if |xs| > 0 {
      assert AddAll(LIFO(ls), xs) == AddAll(LIFO([xs[0]] + ls), xs[1..]);
      LifoReversesInsertionOrder([xs[0]] + ls, xs[1..]);
      calc {
        Reverse(xs[1..]) + ([xs[0]] + ls);
        (Reverse(xs[1..]) + [xs[0]]) + ls;
        Reverse(xs) + ls;
      }
    }
  }

  /** Draining a FIFO built from `xs` evicts `xs` in insertion order; a LIFO
      evicts them newest first. */
  lemma EvictionOrder(xs: seq<Lot>)
    ensures Drain(AddAll(FIFO([]), xs)) == xs
    ensures Drain(AddAll(LIFO([]), xs)) == Reverse(xs)
  {
    FifoKeepsInsertionOrder([], xs);
    LifoReversesInsertionOrder([], xs);
    DrainFollowsIteration(AddAll(FIFO([]), xs));
    DrainFollowsIteration(AddAll(LIFO([]), xs));
    assert [] + xs == xs;
    assert Reverse(xs) + [] == Reverse(xs);
  }

  lemma TailNonNegative(xs: seq<Lot>)
    requires |xs| > 0 && QuantitiesNonNegative(xs)
    ensures QuantitiesNonNegative(xs[1..])
  {
    forall i | 0 <= i < |xs[1..]| ensures xs[1..][i].quantity >= 0.0 {
      assert xs[1..][i] == xs[i + 1];
    }
  }

  /** Merging into a held aggregate cell sums quantities and amounts. */
  lemma {:induction false} PrmpMergeFrom(c: Lot, xs: seq<Lot>)
    requires c.quantity >= 0.0 && c.ref == Merged && c.source.None?
    requires QuantitiesNonNegative(xs)
    ensures AddAll(PRMP(Some(c)), xs).cell ==
      Some(Lot(Merged, None, c.quantity + SumQuantity(xs), c.amount + SumAmount(xs)))
    decreases |xs|
  {
    if |xs| > 0 {
      var c' := Lot(Merged, None, c.quantity + xs[0].quantity, c.amount + xs[0].amount);
      assert Add(PRMP(Some(c)), xs[0]) == PRMP(Some(c'));
      TailNonNegative(xs);
      PrmpMergeFrom(c', xs[1..]);
    }
  }

  /** The weighted-average strategy's stock after a series of purchases is the
      sum of their quantities and amounts, in a single cell. */
  lemma {:induction false} PrmpAggregatesPurchases(xs: seq<Lot>)
    requires |xs| > 0 && QuantitiesNonNegative(xs)
    ensures GetStock(AddAll(PRMP(None), xs)) == Stock(SumQuantity(xs), Some(SumAmount(xs)))
    ensures Size(AddAll(PRMP(None), xs)) == (if SumQuantity(xs) == 0.0 then 0 else 1)
  {
    var c := Lot(Merged, None, xs[0].quantity, xs[0].amount);
    assert Add(PRMP(None), xs[0]) == PRMP(Some(c));
    TailNonNegative(xs);
    PrmpMergeFrom(c, xs[1..]);
  }
}
