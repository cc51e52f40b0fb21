/**
 * Sale and reimbursement matching (the manager's `sell`): a sale eats head
 * lots of the strategy. A lot whose quantity does not exceed the remaining
 * demand is closed whole and evicted; a larger lot is closed partially with a
 * proportional (rounded) or forced amount. Demand left when the inventory runs
 * out makes the sale an orphan.
 */
module Matching {
  import opened Wrappers
  import opened Trades
  import opened Strategies

  /** Forced allocations registered per (sale, lot) pair. */
  type BuySellTable = map<(TradeId, LotRef), real>

  /** The outcome of matching one sale: the new strategy, the positions it
      closed (in order), the updated sale, and whether it is an orphan. */
  datatype Match = Match(strategy: Strategy, closed: seq<Position>, trade: Trade, orphaned: bool)

  function Refs(ls: seq<Lot>): (r: seq<LotRef>)
    ensures |r| == |ls|
    ensures forall i {:trigger r[i]} :: 0 <= i < |ls| ==> r[i] == ls[i].ref
  {
    if |ls| == 0 then [] else [ls[0].ref] + Refs(ls[1..])
  }

  /** The amount a partial close takes from a lot: the forced amount registered
      for this (sale, lot) pair, else the rounded proportional share. */
  function Allocation(saleId: TradeId, buy: Lot, demand: real, table: BuySellTable, round: real -> real): real
    requires buy.quantity != 0.0
  {
    if (saleId, buy.ref) in table then table[(saleId, buy.ref)]
    else round(buy.amount * demand / buy.quantity)
  }

  /** The sale with the same identity, source and cause. */
  predicate SameSale(a: Trade, b: Trade) {
    a.Sale? && b.Sale? && a.id == b.id && a.source == b.source && a.cause == b.cause
  }

  /**
   * Matches sale `t` against the head lots of `s` (the manager's `sell`).
   * The only failure is a partial close whose allocation exceeds the lot's
   * amount. The properties of a successful match are the lemmas below.
   */
  function Consume(s: Strategy, t: Trade, table: BuySellTable, round: real -> real): (r: Result<Match, Error>)
    requires t.Sale? && t.demand.Some?
    ensures r.Failure? ==> r.error == NegativeBuyAmount
    ensures r.Success? ==> SamePolicy(r.value.strategy, s) && SameSale(r.value.trade, t) && r.value.trade.demand.Some?
    decreases |Lots(s)|
  {
    var q := t.demand.value;
    if IsEmpty(s) then Success(Match(s, [], t, q > 0.0))
    else if q <= 0.0 then Success(Match(s, [], t, false))
    else
      var buy := Lots(s)[0];
      if buy.quantity <= q then
        // the whole lot is sold: close it with its full quantity and amount
        var rest := Remove(s).rest;
        if buy.quantity < q then
          match Consume(rest, AfterWhole(t, buy), table, round)
          case Failure(e) => Failure(e)
          case Success(m) => Success(Extend(m, WholeClose(t, buy), buy.ref))
        else
          Success(Match(rest, [WholeClose(t, buy)], Consumed(AfterWhole(t, buy), buy.ref), false))
      else
        // part of the lot is sold
        var a := Allocation(t.id, buy, q, table, round);
        if buy.amount - a < 0.0 then Failure(NegativeBuyAmount)
        else Success(PartialClose(s, t, a))
  }

  /** The position closing lot `buy` whole for sale `t`. */
  function WholeClose(t: Trade, buy: Lot): (p: Position)
    requires t.Sale?
    ensures p.quantity == buy.quantity && p.amount == buy.amount
  {
    ClosedPosition(buy.source, t.source, buy.quantity, buy.amount, t.cause)
  }

  /** The sale after closing lot `buy` whole: its amount grows by the lot's and
      its demand shrinks by the lot's quantity. */
  function AfterWhole(t: Trade, buy: Lot): (r: Trade)
    requires t.Sale? && t.demand.Some?
    ensures r.Sale? && r.demand.Some? && SameSale(r, t) && r.consumed == t.consumed
  {
    t.(cost := Some(t.cost.GetOr(0.0) + buy.amount), demand := Some(t.demand.value - buy.quantity))
  }

  /** The sale with lot `ref` appended to its consumed list. */
  function Consumed(t: Trade, ref: LotRef): (r: Trade)
    requires t.Sale?
    ensures r.Sale? && SameSale(r, t) && r.demand == t.demand && r.cost == t.cost
  {
    t.(consumed := t.consumed + [ref])
  }

  /** A match of the later lots, preceded by the whole close of the head. */
  function Extend(m: Match, p: Position, ref: LotRef): Match
    requires m.trade.Sale?
  {
    Match(m.strategy, [p] + m.closed, Consumed(m.trade, ref), m.orphaned)
  }

  /** The partial close of the head lot by sale `t`, which takes allocation `a`. */
  function PartialClose(s: Strategy, t: Trade, a: real): (m: Match)
    requires t.Sale? && t.demand.Some? && !IsEmpty(s) && 0.0 < t.demand.value < Lots(s)[0].quantity
    ensures SamePolicy(m.strategy, s) && SameSale(m.trade, t) && m.trade.demand == Some(0.0)
  {
    var buy := Lots(s)[0];
    var q := t.demand.value;
    var head := buy.(quantity := buy.quantity - q, amount := buy.amount - a);
    Match(WithLots(s, [head] + Lots(s)[1..]), [ClosedPosition(buy.source, t.source, q, a, t.cause)],
          Consumed(t.(cost := Some(t.cost.GetOr(0.0) + a), demand := Some(0.0)), buy.ref), false)
  }

  /* ---------- one step of the match ---------- */

  lemma {:induction false} WholeStep(s: Strategy, t: Trade, table: BuySellTable, round: real -> real)
    requires t.Sale? && t.demand.Some? && !IsEmpty(s) && 0.0 < t.demand.value && Lots(s)[0].quantity < t.demand.value
    ensures Lots(Remove(s).rest) == Lots(s)[1..] && |Lots(Remove(s).rest)| < |Lots(s)|
    ensures Consume(s, t, table, round).Success? <==> Consume(Remove(s).rest, AfterWhole(t, Lots(s)[0]), table, round).Success?
    ensures Consume(s, t, table, round).Success? ==>
      Consume(s, t, table, round).value
        == Extend(Consume(Remove(s).rest, AfterWhole(t, Lots(s)[0]), table, round).value, WholeClose(t, Lots(s)[0]), Lots(s)[0].ref)
  {
  }

  lemma {:induction false} LastStep(s: Strategy, t: Trade, table: BuySellTable, round: real -> real)
    requires t.Sale? && t.demand.Some? && !IsEmpty(s) && 0.0 < t.demand.value && Lots(s)[0].quantity == t.demand.value
    ensures Lots(Remove(s).rest) == Lots(s)[1..]
    ensures Consume(s, t, table, round)
      == Success(Match(Remove(s).rest, [WholeClose(t, Lots(s)[0])], Consumed(AfterWhole(t, Lots(s)[0]), Lots(s)[0].ref), false))
  {
  }

  lemma {:induction false} PartialStep(s: Strategy, t: Trade, table: BuySellTable, round: real -> real)
    requires t.Sale? && t.demand.Some? && !IsEmpty(s) && 0.0 < t.demand.value < Lots(s)[0].quantity
    requires Consume(s, t, table, round).Success?
    ensures var a := Allocation(t.id, Lots(s)[0], t.demand.value, table, round);
      && Lots(s)[0].amount - a >= 0.0
      && Consume(s, t, table, round).value == PartialClose(s, t, a)
      && Lots(PartialClose(s, t, a).strategy) == [Lots(s)[0].(quantity := Lots(s)[0].quantity - t.demand.value,
                                                              amount := Lots(s)[0].amount - a)] + Lots(s)[1..]
  {
  }

  /** Quantity moves from the strategy to the closed positions without loss, and the
      unmatched demand is what the closed positions did not cover. */
  lemma {:induction false} ConsumeConservesQuantity(s: Strategy, t: Trade, table: BuySellTable, round: real -> real)
    requires t.Sale? && t.demand.Some?
    requires Consume(s, t, table, round).Success?
    ensures var m := Consume(s, t, table, round).value;
      && PositionsQuantity(m.closed) + m.trade.demand.value == t.demand.value
      && SumQuantity(Lots(m.strategy)) + PositionsQuantity(m.closed) == SumQuantity(Lots(s))
    decreases |Lots(s)|
  {
    var q := t.demand.value;
    if !IsEmpty(s) && q > 0.0 {
      var buy := Lots(s)[0];
      if buy.quantity < q {
        var rest := Remove(s).rest;
        WholeStep(s, t, table, round);
        ConsumeConservesQuantity(rest, AfterWhole(t, buy), table, round);
        ExtendAddsUp(Consume(rest, AfterWhole(t, buy), table, round).value, WholeClose(t, buy), buy.ref);
      } else if buy.quantity == q {
        LastStep(s, t, table, round);
        PositionsOfConcat([WholeClose(t, buy)], []);
      } else {
        PartialStep(s, t, table, round);
        var a := Allocation(t.id, buy, q, table, round);
        SumsOfConcat([buy.(quantity := buy.quantity - q, amount := buy.amount - a)], Lots(s)[1..]);
      }
    }
  }

  /** Amount moves from the strategy to the closed positions without loss. */
  lemma {:induction false} ConsumeConservesAmount(s: Strategy, t: Trade, table: BuySellTable, round: real -> real)
    requires t.Sale? && t.demand.Some?
    requires Consume(s, t, table, round).Success?
    ensures var m := Consume(s, t, table, round).value;
      SumAmount(Lots(m.strategy)) + PositionsAmount(m.closed) == SumAmount(Lots(s))
    decreases |Lots(s)|
  {
    var q := t.demand.value;
    if !IsEmpty(s) && q > 0.0 {
      var buy := Lots(s)[0];
      if buy.quantity < q {
        var rest := Remove(s).rest;
        WholeStep(s, t, table, round);
        ConsumeConservesAmount(rest, AfterWhole(t, buy), table, round);
        ExtendAddsUp(Consume(rest, AfterWhole(t, buy), table, round).value, WholeClose(t, buy), buy.ref);
      } else if buy.quantity == q {
        LastStep(s, t, table, round);
        PositionsOfConcat([WholeClose(t, buy)], []);
      } else {
        PartialStep(s, t, table, round);
        var a := Allocation(t.id, buy, q, table, round);
        SumsOfConcat([buy.(quantity := buy.quantity - q, amount := buy.amount - a)], Lots(s)[1..]);
      }
    }
  }

  /** The sale's cost accumulates exactly the closed amounts; a sale that closes
      nothing leaves the strategy and the sale as they were. */
  lemma {:induction false} ConsumeAccumulatesCost(s: Strategy, t: Trade, table: BuySellTable, round: real -> real)
    requires t.Sale? && t.demand.Some?
    requires Consume(s, t, table, round).Success?
    ensures var m := Consume(s, t, table, round).value;
      && (|m.closed| == 0 ==> m.strategy == s && m.trade == t)
      && (|m.closed| > 0 ==> m.trade.cost == Some(t.cost.GetOr(0.0) + PositionsAmount(m.closed)))
    decreases |Lots(s)|
  {
    var q := t.demand.value;
    if !IsEmpty(s) && q > 0.0 {
      var buy := Lots(s)[0];
      if buy.quantity < q {
        var rest := Remove(s).rest;
        WholeStep(s, t, table, round);
        ConsumeAccumulatesCost(rest, AfterWhole(t, buy), table, round);
        CostExtend(t, buy, Consume(rest, AfterWhole(t, buy), table, round).value);
      } else if buy.quantity == q {
        LastStep(s, t, table, round);
        PositionsOfConcat([WholeClose(t, buy)], []);
      } else {
        PartialStep(s, t, table, round);
      }
    }
  }

  /** Closing lot `buy` whole in front of a match of the later lots adds its
      amount to the sale's accumulated cost. */
  lemma CostExtend(t: Trade, buy: Lot, m: Match)
    requires t.Sale? && t.demand.Some? && m.trade.Sale?
    requires |m.closed| == 0 ==> m.trade == AfterWhole(t, buy)
    requires |m.closed| > 0 ==> m.trade.cost == Some(AfterWhole(t, buy).cost.GetOr(0.0) + PositionsAmount(m.closed))
    ensures var e := Extend(m, WholeClose(t, buy), buy.ref);
      e.trade.cost == Some(t.cost.GetOr(0.0) + PositionsAmount(e.closed))
  {
    ExtendAddsUp(m, WholeClose(t, buy), buy.ref);
  }

  /** Prefixing a whole close adds its quantity and amount to the closed totals. */
  lemma ExtendAddsUp(m: Match, p: Position, ref: LotRef)
    requires m.trade.Sale?
    ensures PositionsQuantity(Extend(m, p, ref).closed) == p.quantity + PositionsQuantity(m.closed)
    ensures PositionsAmount(Extend(m, p, ref).closed) == p.amount + PositionsAmount(m.closed)
  {
    PositionsOfConcat([p], m.closed);
  }

  /** A sale is an orphan exactly when demand remains, and then the inventory is empty. */
  lemma {:induction false} ConsumeOrphans(s: Strategy, t: Trade, table: BuySellTable, round: real -> real)
    requires t.Sale? && t.demand.Some?
    requires Consume(s, t, table, round).Success?
    ensures var m := Consume(s, t, table, round).value;
      && (m.orphaned <==> m.trade.demand.value > 0.0)
      && (m.orphaned ==> IsEmpty(m.strategy))
    decreases |Lots(s)|
  {
    var q := t.demand.value;
    if !IsEmpty(s) && q > 0.0 {
      var buy := Lots(s)[0];
      if buy.quantity < q {
        WholeStep(s, t, table, round);
        ConsumeOrphans(Remove(s).rest, AfterWhole(t, buy), table, round);
      } else if buy.quantity == q {
        LastStep(s, t, table, round);
      } else {
        PartialStep(s, t, table, round);
      }
    }
  }

  /** The sale consumes the strategy's lots in iteration order: the k-th closed
      position comes from the k-th lot, and the sale's consumed list gains each
      touched lot once, most recently consumed first (each lot is appended when
      the matching of the lots after it has returned). */
  lemma {:induction false} ConsumeFollowsIteration(s: Strategy, t: Trade, table: BuySellTable, round: real -> real)
    requires t.Sale? && t.demand.Some?
    requires Consume(s, t, table, round).Success?
    ensures var m := Consume(s, t, table, round).value; var ls := Lots(s); var n := |m.closed|;
      && n <= |ls|
      && m.trade.consumed == t.consumed + Reverse(Refs(ls[..n]))
      && (forall k :: 0 <= k < n ==>
            m.closed[k].buy == ls[k].source && m.closed[k].sell == t.source && m.closed[k].closeCause == Some(t.cause))
      && (forall k :: 0 <= k < n - 1 ==>
            m.closed[k].quantity == ls[k].quantity && m.closed[k].amount == ls[k].amount)
    decreases |Lots(s)|
  {
    var q := t.demand.value;
    if !IsEmpty(s) && q > 0.0 {
      var buy := Lots(s)[0];
      if buy.quantity < q {
        WholeStep(s, t, table, round);
        ConsumeFollowsIteration(Remove(s).rest, AfterWhole(t, buy), table, round);
        FollowsWholeStep(s, t, table, round);
      } else if buy.quantity == q {
        LastStep(s, t, table, round);
        assert Lots(s)[..1] == [buy];
      } else {
        PartialStep(s, t, table, round);
        assert Lots(s)[..1] == [buy];
      }
    }
  }

  /** Match `m` of sale `t` took lots `ls` in order (the property above). */
  ghost predicate Follows(ls: seq<Lot>, t: Trade, m: Match)
    requires t.Sale? && m.trade.Sale?
  {
    var n := |m.closed|;
    && n <= |ls|
    && m.trade.consumed == t.consumed + Reverse(Refs(ls[..n]))
    && (forall k :: 0 <= k < n ==>
          m.closed[k].buy == ls[k].source && m.closed[k].sell == t.source && m.closed[k].closeCause == Some(t.cause))
    && (forall k :: 0 <= k < n - 1 ==>
          m.closed[k].quantity == ls[k].quantity && m.closed[k].amount == ls[k].amount)
  }

  lemma FollowsWholeStep(s: Strategy, t: Trade, table: BuySellTable, round: real -> real)
    requires t.Sale? && t.demand.Some? && !IsEmpty(s) && 0.0 < t.demand.value && Lots(s)[0].quantity < t.demand.value
    requires Consume(s, t, table, round).Success?
    requires Consume(Remove(s).rest, AfterWhole(t, Lots(s)[0]), table, round).Success?
    requires Follows(Lots(s)[1..], AfterWhole(t, Lots(s)[0]), Consume(Remove(s).rest, AfterWhole(t, Lots(s)[0]), table, round).value)
    ensures Follows(Lots(s), t, Consume(s, t, table, round).value)
  {
    WholeStep(s, t, table, round);
    FollowsExtend(Lots(s), t, Consume(Remove(s).rest, AfterWhole(t, Lots(s)[0]), table, round).value);
  }

  /** Closing the head lot whole in front of a match of the later lots keeps
      the match in iteration order. */
  lemma FollowsExtend(ls: seq<Lot>, t: Trade, m: Match)
    requires t.Sale? && t.demand.Some? && |ls| > 0 && m.trade.Sale?
    requires Follows(ls[1..], AfterWhole(t, ls[0]), m)
    ensures Follows(ls, t, Extend(m, WholeClose(t, ls[0]), ls[0].ref))
  {
    var n := |m.closed| + 1;
    assert ls[1..][..n - 1] == ls[1..n];
    assert Refs(ls[..n])[1..] == Refs(ls[1..n]);
    assert Reverse(Refs(ls[..n])) == Reverse(Refs(ls[1..n])) + [ls[0].ref];
  }

  /** After the sale, the lots it did not reach are untouched. The last lot it
      reached was either closed whole (and evicted) or keeps its quantity and
      amount minus the partial close, whose amount is the forced or rounded
      proportional allocation and never exceeds the lot's amount. */
  lemma {:induction false} ConsumeLeavesTail(s: Strategy, t: Trade, table: BuySellTable, round: real -> real)
    requires t.Sale? && t.demand.Some?
    requires Consume(s, t, table, round).Success?
    ensures var m := Consume(s, t, table, round).value; var n := |m.closed|;
      && n <= |Lots(s)|
      && (n == 0 ==> Lots(m.strategy) == Lots(s))
      && (n > 0 ==> TailAfter(Lots(s), n, m.closed[n - 1], Lots(m.strategy), t.id, table, round))
    decreases |Lots(s)|
  {
    var q := t.demand.value;
    if !IsEmpty(s) && q > 0.0 {
      var buy := Lots(s)[0];
      if buy.quantity < q {
        WholeStep(s, t, table, round);
        ConsumeLeavesTail(Remove(s).rest, AfterWhole(t, buy), table, round);
        LeavesTailFullStep(s, t, table, round);
      } else if buy.quantity == q {
        LeavesTailLastStep(s, t, table, round);
      } else {
        LeavesTailPartialStep(s, t, table, round);
      }
    }
  }

  /** The property above, for match `m` of lots `ls` by sale `saleId`. */
  ghost predicate LeftTail(ls: seq<Lot>, m: Match, saleId: TradeId, table: BuySellTable, round: real -> real) {
    var n := |m.closed|;
    && n <= |ls|
    && (n == 0 ==> Lots(m.strategy) == ls)
    && (n > 0 ==> TailAfter(ls, n, m.closed[n - 1], Lots(m.strategy), saleId, table, round))
  }

  lemma LeavesTailFullStep(s: Strategy, t: Trade, table: BuySellTable, round: real -> real)
    requires t.Sale? && t.demand.Some? && !IsEmpty(s) && 0.0 < t.demand.value && Lots(s)[0].quantity < t.demand.value
    requires Consume(s, t, table, round).Success?
    requires Consume(Remove(s).rest, AfterWhole(t, Lots(s)[0]), table, round).Success?
    requires LeftTail(Lots(s)[1..], Consume(Remove(s).rest, AfterWhole(t, Lots(s)[0]), table, round).value,
                      t.id, table, round)
    ensures LeftTail(Lots(s), Consume(s, t, table, round).value, t.id, table, round)
  {
    var ls := Lots(s);
    var m := Consume(Remove(s).rest, AfterWhole(t, ls[0]), table, round).value;
    WholeStep(s, t, table, round);
    var n := |m.closed| + 1;
    if n > 1 {
      TailShift(ls, n, m.closed[n - 2], Lots(m.strategy), t.id, table, round);
    } else {
      assert ls[1..] == ls[n..];
    }
  }

  lemma LeavesTailLastStep(s: Strategy, t: Trade, table: BuySellTable, round: real -> real)
    requires t.Sale? && t.demand.Some? && !IsEmpty(s) && 0.0 < t.demand.value && Lots(s)[0].quantity == t.demand.value
    ensures LeftTail(Lots(s), Consume(s, t, table, round).value, t.id, table, round)
  {
    LastStep(s, t, table, round);
  }

  lemma LeavesTailPartialStep(s: Strategy, t: Trade, table: BuySellTable, round: real -> real)
    requires t.Sale? && t.demand.Some? && !IsEmpty(s) && 0.0 < t.demand.value < Lots(s)[0].quantity
    requires Consume(s, t, table, round).Success?
    ensures LeftTail(Lots(s), Consume(s, t, table, round).value, t.id, table, round)
  {
    PartialStep(s, t, table, round);
  }

  /** How the strategy looks after the n-th lot `ls[n-1]` was the last one a sale
      reached with closed position `p`: either it was closed whole and evicted, or
      it was closed partially and stays at the head, reduced by `p`. */
  ghost predicate TailAfter(ls: seq<Lot>, n: nat, p: Position, after: seq<Lot>,
                            saleId: TradeId, table: BuySellTable, round: real -> real)
    requires 0 < n <= |ls|
  {
    var last := ls[n - 1];
    || (after == ls[n..] && p.quantity == last.quantity && p.amount == last.amount)
    || (&& 0.0 < p.quantity < last.quantity
        && p.amount == Allocation(saleId, last, p.quantity, table, round)
        && after == [last.(quantity := last.quantity - p.quantity, amount := last.amount - p.amount)] + ls[n..]
        && last.amount - p.amount >= 0.0)
  }

  lemma TailShift(ls: seq<Lot>, n: nat, p: Position, after: seq<Lot>,
                  saleId: TradeId, table: BuySellTable, round: real -> real)
    requires 1 < n <= |ls|
    requires TailAfter(ls[1..], n - 1, p, after, saleId, table, round)
    ensures TailAfter(ls, n, p, after, saleId, table, round)
  {
    assert ls[1..][n - 2] == ls[n - 1];
    assert ls[1..][n - 1..] == ls[n..];
  }

  /** A successful sale never leaves a lot with a negative amount when none had one. */
  lemma ConsumeKeepsAmountsNonNegative(s: Strategy, t: Trade, table: BuySellTable, round: real -> real)
    requires t.Sale? && t.demand.Some?
    requires Consume(s, t, table, round).Success?
    requires AmountsNonNegative(Lots(s))
    ensures AmountsNonNegative(Lots(Consume(s, t, table, round).value.strategy))
  {
    var m := Consume(s, t, table, round).value;
    ConsumeLeavesTail(s, t, table, round);
    if |m.closed| > 0 {
      TailKeepsNonNegative(Lots(s), |m.closed|, m.closed[|m.closed| - 1], Lots(m.strategy), t.id, table, round);
    }
  }

  /** A successful sale never leaves a lot with a negative quantity when none had one. */
  lemma ConsumeKeepsQuantitiesNonNegative(s: Strategy, t: Trade, table: BuySellTable, round: real -> real)
    requires t.Sale? && t.demand.Some?
    requires Consume(s, t, table, round).Success?
    requires QuantitiesNonNegative(Lots(s))
    ensures QuantitiesNonNegative(Lots(Consume(s, t, table, round).value.strategy))
  {
    var m := Consume(s, t, table, round).value;
    ConsumeLeavesTail(s, t, table, round);
    if |m.closed| > 0 {
      TailKeepsNonNegative(Lots(s), |m.closed|, m.closed[|m.closed| - 1], Lots(m.strategy), t.id, table, round);
    }
  }

  lemma TailKeepsNonNegative(ls: seq<Lot>, n: nat, p: Position, after: seq<Lot>,
                             saleId: TradeId, table: BuySellTable, round: real -> real)
    requires 0 < n <= |ls| && TailAfter(ls, n, p, after, saleId, table, round)
    ensures AmountsNonNegative(ls) ==> AmountsNonNegative(after)
    ensures QuantitiesNonNegative(ls) ==> QuantitiesNonNegative(after)
  {
    forall i | 0 <= i < |after|
      ensures (after == ls[n..] && after[i] == ls[n + i]) || i == 0 || after[i] == ls[n + i - 1]
    {
      if after != ls[n..] && i > 0 {
        assert after[i] == ls[n..][i - 1];
      }
    }
  }

  /** A partial close whose allocation exceeds the head lot's amount raises the
      "buy amount negative" error. */
  lemma OverAllocationFails(s: Strategy, t: Trade, table: BuySellTable, round: real -> real)
    requires t.Sale? && t.demand.Some?
    requires !IsEmpty(s) && 0.0 < t.demand.value < Lots(s)[0].quantity
    requires Allocation(t.id, Lots(s)[0], t.demand.value, table, round) > Lots(s)[0].amount
    ensures Consume(s, t, table, round) == Failure(NegativeBuyAmount)
  {
  }

  lemma {:induction false} PositiveLotsSumPositive(ls: seq<Lot>)
    requires forall i :: 0 <= i < |ls| ==> ls[i].quantity > 0.0
    ensures |ls| > 0 ==> SumQuantity(ls) > 0.0
    ensures SumQuantity(ls) >= 0.0
  {
    if |ls| > 0 {
      PositiveLotsSumPositive(ls[1..]);
    }
  }

  /** Demanding the strategy's whole quantity (a reimbursement with no quantity)
      closes every lot whole when all quantities are positive: the inventory ends
      empty, one position per lot, and the sale is not an orphan. */
  lemma {:induction false} FullLiquidationEmpties(s: Strategy, t: Trade, table: BuySellTable, round: real -> real)
    requires t.Sale? && t.demand == Some(SumQuantity(Lots(s)))
    requires forall i :: 0 <= i < |Lots(s)| ==> Lots(s)[i].quantity > 0.0
    ensures Consume(s, t, table, round).Success?
    ensures var m := Consume(s, t, table, round).value;
      && IsEmpty(m.strategy) && |m.closed| == |Lots(s)| && !m.orphaned && m.trade.demand == Some(0.0)
    decreases |Lots(s)|
  {
    var ls := Lots(s);
    if !IsEmpty(s) {
      var buy := ls[0];
      PositiveLotsSumPositive(ls[1..]);
      if |ls| > 1 {
        WholeStep(s, t, table, round);
        FullLiquidationEmpties(Remove(s).rest, AfterWhole(t, buy), table, round);
      } else {
        LastStep(s, t, table, round);
      }
    }
  }
}
