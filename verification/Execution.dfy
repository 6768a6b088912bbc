/** The paper execution provider and the service around it: orders walk the book and
    write a trade and a position; closes settle a position against whichever open
    trade the approximate match finds. Each method is proved to be one ledger step. */
module Execution {
  import opened Model
  import opened OrderBook
  import opened OrderBookTheorems
  import opened Ledger
  import opened Store

  /** The levels an order trades on: the side's book or, when that is empty, one level
      at the limit price (else the best ask) deep enough for the order. A zero price
      gives a level every walk skips, where the program's float division overflows. */
  function LevelsFor(m: Market, order: OrderRequest): seq<Level> {
    var levels := if order.side == "sell" then m.bids else m.asks;
    if levels != [] then levels
    else
      var price := if order.limitPrice == 0.0 then m.bestAsk else order.limitPrice;
      [Level(price, if price == 0.0 then 0.0 else order.sizeUSD / price)]
  }

  function FillFor(m: Market, order: OrderRequest): Fill {
    FillOf(order.sizeUSD, order.limitPrice, order.side, LevelsFor(m, order))
  }

  /** An order on an empty side fills completely at its limit, or without one at the best
      ask, whatever its side: size over price shares, and no slippage. */
  lemma EmptySideFillsAtLimit(m: Market, order: OrderRequest)
    requires (if order.side == "sell" then m.bids else m.asks) == [] && order.sizeUSD > 0.0
    requires order.limitPrice >= 0.0 && (order.limitPrice == 0.0 ==> m.bestAsk > 0.0)
    ensures var c := if order.limitPrice == 0.0 then m.bestAsk else order.limitPrice;
            FillFor(m, order) == Fill(c, order.sizeUSD / c, order.sizeUSD, 0.0, 0.0)
  {
    var c := if order.limitPrice == 0.0 then m.bestAsk else order.limitPrice;
    var size := order.sizeUSD;
    AllAtOnePrice(size, c);
    var o := Level(c, size / c);
    assert LevelsFor(m, order) == [o];
    assert [o][1..] == [] && Offers([o], order.limitPrice, order.side) == [o];
    CapIs(o);
    hide Cap, Spend, Paid, Bought, Shares, Report;
    SpendsOnFirstOnly(o, [], size);
    assert [o] + [] == [o];
    SharesAre(size, c);
  }

  lemma CapIs(o: Offer)
    ensures Cap(o) == o.price * o.size
  {}

  lemma SharesAre(usd: real, price: real)
    requires price > 0.0
    ensures Shares(usd, price) == usd / price
  {}

  lemma AllAtOnePrice(size: real, price: real)
    requires size > 0.0 && price > 0.0
    ensures size / price > 0.0 && price * (size / price) == size
    ensures Report(size, size / price, price) == Fill(price, size / price, size, 0.0, 0.0)
  {
    var q := size / price;
    assert q > 0.0 && q * price == size;
    assert size / q == price;
  }

  /** A sale trades on the bids and any other order on the asks, when there are some. */
  lemma EachSideTakesItsBook(m: Market, order: OrderRequest)
    ensures order.side == "sell" && m.bids != [] ==>
              FillFor(m, order) == FillOf(order.sizeUSD, order.limitPrice, "sell", m.bids)
    ensures order.side != "sell" && m.asks != [] ==>
              FillFor(m, order) == FillOf(order.sizeUSD, order.limitPrice, order.side, m.asks)
  {}

  /** Whatever the order, price times quantity of a fill is its dollars. */
  lemma FillAverages(m: Market, order: OrderRequest)
    ensures var f := FillFor(m, order); f.quantity != 0.0 ==> f.averagePrice * f.quantity == f.filledUSD
  {
    hide Offers, Spend, Paid, Bought;
    var b := Offers(LevelsFor(m, order), order.limitPrice, order.side);
    var expected := if order.limitPrice == 0.0 && b != [] then b[0].price else order.limitPrice;
    ReportAverages(Paid(Spend(b, order.sizeUSD)), Bought(b, Spend(b, order.sizeUSD)), expected);
  }

  lemma ReportAverages(filled: real, quantity: real, expected: real)
    ensures var f := Report(filled, quantity, expected); f.quantity != 0.0 ==> f.averagePrice * f.quantity == f.filledUSD
  {}

  /** An order for an unknown market fails; one that fills nothing is rejected without
      an identifier; any other writes one new open trade and one new open position. */
  method PlaceOrder(store: MemoryStore, newId: set<string> -> string, order: OrderRequest)
    returns (r: Result<OrderResult>, ghost positionId: string)
    requires FreshIds(newId)
    modifies store`trades, store`positions
    ensures r.Err? <==> order.marketId !in store.markets
    ensures r.Err? ==> store.Books() == old(store.Books())
    ensures r.Ok? ==> var fill := FillFor(store.markets[order.marketId], order);
              if fill.quantity == 0.0 then r.value.tradeId == "" && store.Books() == old(store.Books())
              else
                && r.value == OrderResult(r.value.tradeId, fill.averagePrice, fill.quantity, fill.filledUSD)
                && r.value.tradeId != "" && r.value.tradeId !in old(store.trades)
                && positionId != "" && positionId !in old(store.positions)
                && store.trades == old(store.trades)[r.value.tradeId := NewTrade(r.value.tradeId, order, fill)]
                && store.positions == old(store.positions)[positionId := NewPosition(positionId, order, fill)]
    ensures r.Ok? && r.value.tradeId != "" ==>
              var t, p := store.trades[r.value.tradeId], store.positions[positionId];
              && t.status.Open? && t.side == order.side && t.entryPrice * t.quantity == t.sizeUSD == r.value.filledSizeUSD
              && p.status.Open? && p.avgEntryPrice * p.quantity == p.exposureUSD == t.sizeUSD
              && t.marketId == p.marketId == order.marketId && t.outcome == p.outcome == order.outcome
              && t.quantity == p.quantity == r.value.quantity
  {
    hide FillOf;
    positionId := "";
    if order.marketId !in store.markets {
      return Err("no rows in result set"), positionId;
    }
    var market := store.markets[order.marketId];
    var levels := LevelsFor(market, order);
    var fill := SimulateFill(order.sizeUSD, order.limitPrice, order.side, levels);
    FillAverages(market, order);
    if fill.quantity == 0.0 {
      return Ok(OrderResult("", 0.0, 0.0, 0.0)), positionId;
    }
    var tradeId := newId(store.trades.Keys);
    var id := newId(store.positions.Keys);
    positionId := id;
    store.SaveTrade(NewTrade(tradeId, order, fill));
    store.SavePosition(NewPosition(id, order, fill));
    return Ok(OrderResult(tradeId, fill.averagePrice, fill.quantity, fill.filledUSD)), positionId;
  }

  function OrderFor(risk: RiskDecision, prob: ProbabilityDecision): OrderRequest {
    OrderRequest(risk.marketId, prob.outcome, prob.side, prob.executablePrice, risk.positionSizeUSD)
  }

  ghost predicate Executable(store: MemoryStore, riskId: string)
    reads store
  {
    && riskId in store.risks && store.risks[riskId].approved
    && store.risks[riskId].probabilityDecisionId in store.probs && store.risks[riskId].marketId in store.markets
  }

  /** An approved decision becomes an order; when it fills, whatever its sign, one trade
      and one position are written, and for a positive size that is one opening step. */
  method CreateFromRiskDecision(store: MemoryStore, newId: set<string> -> string, riskId: string)
    returns (r: Result<OrderResult>, ghost steps: seq<Step>)
    requires FreshIds(newId)
    modifies store`trades, store`positions
    ensures r.Err? ==> store.Books() == old(store.Books()) && steps == []
    ensures r.Ok? <==> Executable(store, riskId)
    ensures r.Ok? ==>
              var risk := store.risks[riskId];
              var prob := store.probs[risk.probabilityDecisionId];
              var order := OrderFor(risk, prob);
              var fill := FillFor(store.markets[risk.marketId], order);
              && (fill.quantity == 0.0 <==> r.value.tradeId == "")
              && (fill.quantity == 0.0 ==> store.Books() == old(store.Books()) && steps == [])
              && (fill.quantity != 0.0 ==>
                    && |steps| == 1 && steps[0].Opening?
                    && steps[0] == Opening(r.value.tradeId, steps[0].positionId, order, fill, prob)
                    && r.value.tradeId !in old(store.trades)
                    && steps[0].positionId != "" && steps[0].positionId !in old(store.positions)
                    && store.trades == old(store.trades)[r.value.tradeId := NewTrade(r.value.tradeId, order, fill)]
                    && store.positions == old(store.positions)[steps[0].positionId :=
                                            NewPosition(steps[0].positionId, order, fill)]
                    && (risk.positionSizeUSD > 0.0 ==> Enabled(old(store.Books()), steps[0])
                                                       && store.Books() == Apply(old(store.Books()), steps[0])))
  {
    hide FillFor, Consistent;
    steps := [];
    if riskId !in store.risks {
      return Err("no rows in result set"), steps;
    }
    var risk := store.risks[riskId];
    if !risk.approved {
      return Err("risk decision is not approved: " + risk.rejectReason), steps;
    }
    if risk.probabilityDecisionId !in store.probs {
      return Err("no rows in result set"), steps;
    }
    var prob := store.probs[risk.probabilityDecisionId];
    var order := OrderFor(risk, prob);
    ghost var positionId;
    r, positionId := PlaceOrder(store, newId, order);
    if r.Ok? && r.value.tradeId != "" {
      ghost var fill := FillFor(store.markets[risk.marketId], order);
      steps := [Opening(r.value.tradeId, positionId, order, fill, prob)];
      if risk.positionSizeUSD > 0.0 {
        FillForIsConsistent(store.markets[risk.marketId], order);
      }
    }
  }

  lemma FillForIsConsistent(m: Market, order: OrderRequest)
    requires order.sizeUSD > 0.0
    ensures var f := FillFor(m, order);
            Consistent(f) && 0.0 <= f.filledUSD <= order.sizeUSD && f.quantity >= 0.0
  {
    hide FillOf;
    FillConserves(order.sizeUSD, order.limitPrice, order.side, LevelsFor(m, order));
    SpendIsAllocation(Offers(LevelsFor(m, order), order.limitPrice, order.side), order.sizeUSD);
  }

  /** A scan of one listing: the first open trade of the same market and outcome whose
      quantity or size is approximately the position's. */
  method MatchingOpenTrade(store: MemoryStore, position: Position) returns (r: Option<Trade>)
    requires forall id :: id in store.trades ==> store.trades[id].id == id
    ensures r.Some? ==> r.value.id in store.trades && store.trades[r.value.id] == r.value
    ensures MatchOutcome(store.Books(), position, if r.Some? then Some(r.value.id) else None)
  {
    var trades, keys := Listing(store.trades, LIST_LIMIT);
    ghost var listed := set k | k in keys;
    DistinctCount(keys, listed);
    for i := 0 to |trades|
      invariant forall j :: 0 <= j < i ==> !Matches(trades[j], position)
    {
      if Matches(trades[i], position) {
        assert keys[i] in listed;
        assert Scan(store.Books(), position, listed, Some(trades[i].id));
        return Some(trades[i]);
      }
    }
    assert Scan(store.Books(), position, listed, None);
    return None;
  }

  function ExitPrice(m: Market, position: Position): real {
    if m.bestBid == 0.0 then position.currentPrice else m.bestBid
  }

  /** The provider settles the position it is handed, whatever its status. */
  method SettlePosition(store: MemoryStore, newId: set<string> -> string, position: Position)
    returns (r: Result<OrderResult>, ghost matched: Option<string>, ghost freshId: string)
    requires FreshIds(newId)
    requires forall id :: id in store.trades ==> store.trades[id].id == id
    modifies store`trades, store`positions
    ensures r.Err? <==> position.marketId !in store.markets
    ensures r.Err? ==> store.Books() == old(store.Books())
    ensures r.Ok? ==>
              && freshId != "" && freshId !in old(store.trades)
              && (matched.Some? ==> matched.value in old(store.trades))
              && MatchOutcome(old(store.Books()), position, matched)
              && r.value.tradeId == (if matched.Some? then matched.value else freshId)
              && r.value.averagePrice == ExitPrice(store.markets[position.marketId], position)
              && r.value.quantity == position.quantity
              && r.value.filledSizeUSD == r.value.averagePrice * r.value.quantity
              && store.Books() == Settle(old(store.Books()), position,
                                         ExitPrice(store.markets[position.marketId], position), matched, freshId)
    ensures r.Ok? ==>
              var t, exit := store.trades[r.value.tradeId], r.value.averagePrice;
              && store.positions[position.id] == position.(status := Closed, currentPrice := exit, unrealizedPnLUSD := 0.0)
              && t.status.Closed? && t.exitPrice == exit
              && t.realizedPnLUSD == (exit - position.avgEntryPrice) * position.quantity
              && (matched.None? ==>
                    && t.marketId == position.marketId && t.outcome == position.outcome && t.side == "sell"
                    && t.entryPrice == position.avgEntryPrice && t.quantity == position.quantity
                    && t.sizeUSD == position.exposureUSD)
              && (matched.Some? ==>
                    t == old(store.trades)[matched.value].(status := Closed, exitPrice := exit,
                                                           realizedPnLUSD := t.realizedPnLUSD))
  {
    hide MatchOutcome;
    matched, freshId := None, "";
    if position.marketId !in store.markets {
      return Err("no rows in result set"), matched, freshId;
    }
    var exitPrice := ExitPrice(store.markets[position.marketId], position);
    var fresh' := newId(store.trades.Keys);
    freshId := fresh';
    var found := MatchingOpenTrade(store, position);
    store.SavePosition(ClosedPosition(position, exitPrice));
    var trade;
    match found {
      case Some(t) =>
        trade := ClosedTrade(t, position, exitPrice);
        matched := Some(t.id);
      case None =>
        trade := SyntheticTrade(fresh', position, exitPrice);
    }
    store.SaveTrade(trade);
    return Ok(OrderResult(trade.id, exitPrice, position.quantity, exitPrice * position.quantity)), matched, freshId;
  }

  const EXIT_REASONS := ["edge_gone", "take_profit", "stop_loss", "risk_exceeded", "expiry_close", "manual_close"]

  ghost predicate CanExit(store: MemoryStore, decision: ExitDecision)
    reads store
  {
    && decision.shouldExit && decision.positionId != "" && decision.reason in EXIT_REASONS
    && decision.positionId in store.positions && store.positions[decision.positionId].marketId in store.markets
  }

  /** l' is what closing p as s says leaves, also when p was closed before: its profit
      goes to a trade the match may find, or to a new one. */
  ghost predicate SettledBy(l: Ledger, p: Position, s: Step, l': Ledger)
    requires s.Closing?
  {
    && s.freshId != "" && s.freshId !in l.trades
    && (s.matched.Some? ==> s.matched.value in l.trades)
    && MatchOutcome(l, p, s.matched) && l' == Settle(l, p, s.exitPrice, s.matched, s.freshId)
  }

  /** The exit engine: only a well-formed exit decision for a known position in a known
      market is executed, whatever the position's status; of an open one, that is one
      closing step. */
  method ExecuteExit(store: MemoryStore, newId: set<string> -> string, decision: ExitDecision)
    returns (r: Result<OrderResult>, ghost steps: seq<Step>)
    requires FreshIds(newId) && Sound(store.Books())
    modifies store`trades, store`positions
    ensures r.Ok? <==> old(CanExit(store, decision))
    ensures r.Err? ==> store.Books() == old(store.Books()) && steps == []
    ensures r.Ok? ==>
              var p := old(store.positions)[decision.positionId];
              && |steps| == 1 && steps[0].Closing? && steps[0].positionId == decision.positionId
              && steps[0].exitPrice == ExitPrice(store.markets[p.marketId], p)
              && SettledBy(old(store.Books()), p, steps[0], store.Books())
              && (p.status.Open? ==> Enabled(old(store.Books()), steps[0])
                                     && store.Books() == Apply(old(store.Books()), steps[0]))
  {
    hide Settle, MatchOutcome;
    steps := [];
    if !decision.shouldExit {
      return Err("exit decision is not an exit candidate"), steps;
    }
    if decision.positionId == "" {
      return Err("position_id is required"), steps;
    }
    if decision.reason !in EXIT_REASONS {
      return Err("invalid exit reason"), steps;
    }
    if decision.positionId !in store.positions {
      return Err("no rows in result set"), steps;
    }
    var position := store.positions[decision.positionId];
    ghost var matched, freshId;
    r, matched, freshId := SettlePosition(store, newId, position);
    if r.Ok? {
      steps := [Closing(decision.positionId, ExitPrice(store.markets[position.marketId], position), matched, freshId)];
    }
  }
}
