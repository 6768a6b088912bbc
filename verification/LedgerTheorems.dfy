/** What every run of opening, marking and closing steps keeps. */
module LedgerTheorems {
  import opened Model
  import opened Sums
  import opened OrderBook
  import opened Ledger

  // ---------- Runs ----------

  lemma {:induction false} RunAppend(l: Ledger, first: seq<Step>, second: seq<Step>)
    requires Run(l, first) && Run(After(l, first), second)
    ensures Run(l, first + second) && After(l, first + second) == After(After(l, first), second)
    ensures Openings(first + second) == Openings(first) + Openings(second)
    ensures Closings(first + second) == Closings(first) + Closings(second)
    decreases |first|
  {
    hide Enabled, Apply;
    if first == [] {
      assert first + second == second;
    } else {
      assert (first + second)[1..] == first[1..] + second;
      RunAppend(Apply(l, first[0]), first[1..], second);
    }
  }

  lemma {:induction false} RunPrefix(l: Ledger, steps: seq<Step>, n: nat)
    requires Run(l, steps) && n <= |steps|
    ensures Run(l, steps[..n]) && Run(After(l, steps[..n]), steps[n..])
    ensures After(After(l, steps[..n]), steps[n..]) == After(l, steps)
    decreases n
  {
    if n == 0 {
      assert steps[..0] == [] && steps[0..] == steps;
    } else {
      RunPrefix(Apply(l, steps[0]), steps[1..], n - 1);
      assert steps[..n][1..] == steps[1..][..n - 1] && steps[1..][n - 1..] == steps[n..];
    }
  }

  lemma RunOne(l: Ledger, s: Step)
    requires Enabled(l, s)
    ensures Run(l, [s]) && After(l, [s]) == Apply(l, s)
  {}

  lemma CountOne(s: Step)
    ensures Openings([s]) == (if s.Opening? then 1 else 0) && Closings([s]) == if s.Closing? then 1 else 0
  {}

  // ---------- Soundness of every record ----------

  /** Every open trade carries zero realised profit and every open position keeps
      price times quantity equal to exposure and an up-to-date unrealised profit. */
  lemma SoundStep(l: Ledger, s: Step)
    requires Sound(l) && Enabled(l, s)
    ensures Sound(Apply(l, s))
  {
    match s
    case Opening(t, p, order, fill, _) =>
      ConsistentPosition(p, order, fill);
      hide Consistent, PositionOk;
      SoundPut(l, t, NewTrade(t, order, fill), p, NewPosition(p, order, fill));
    case Marking(p, price) =>
    case Closing(p, exitPrice, matched, freshId) =>
      hide MatchOutcome;
  }

  lemma SoundPut(l: Ledger, t: string, trade: Trade, p: string, position: Position)
    requires Sound(l) && TradeOk(t, trade) && PositionOk(p, position)
    ensures Sound(Ledger(l.trades[t := trade], l.positions[p := position]))
  {
    hide TradeOk, PositionOk;
  }

  lemma ConsistentPosition(id: string, order: OrderRequest, fill: Fill)
    requires id != "" && Consistent(fill) && fill.quantity > 0.0
    ensures PositionOk(id, NewPosition(id, order, fill)) && fill.feesUSD == 0.0
    ensures fill.averagePrice * fill.quantity == fill.filledUSD && fill.filledUSD > 0.0
  {}

  lemma {:induction false} SoundRun(l: Ledger, steps: seq<Step>)
    requires Sound(l) && Run(l, steps)
    ensures Sound(After(l, steps))
    decreases |steps|
  {
    if steps != [] {
      SoundStep(l, steps[0]);
      SoundRun(Apply(l, steps[0]), steps[1..]);
    }
  }

  /** Every trade, open, closed or synthetic, has its size at its own entry price. */
  ghost predicate Priced(l: Ledger) {
    forall t :: t in l.trades ==> l.trades[t].entryPrice * l.trades[t].quantity == l.trades[t].sizeUSD
  }

  lemma {:induction false} PricedRun(l: Ledger, steps: seq<Step>)
    requires Sound(l) && Priced(l) && Run(l, steps)
    ensures Priced(After(l, steps))
    decreases |steps|
  {
    if steps != [] {
      SoundStep(l, steps[0]);
      PricedStep(l, steps[0]);
      hide Sound, Priced, Enabled, Apply;
      PricedRun(Apply(l, steps[0]), steps[1..]);
    }
  }

  lemma PricedStep(l: Ledger, s: Step)
    requires Sound(l) && Priced(l) && Enabled(l, s)
    ensures Priced(Apply(l, s))
  {
    hide MatchOutcome;
    match s
    case Opening(t, p, order, fill, _) =>
      ConsistentPosition(p, order, fill);
    case Marking(p, price) =>
    case Closing(p, exitPrice, matched, freshId) =>
      assert PositionOk(p, l.positions[p]);
  }

  // ---------- What one step does to the sums ----------

  lemma OpeningSums(l: Ledger, s: Step)
    requires s.Opening? && Enabled(l, s)
    ensures var l' := Apply(l, s);
            && Committed(l') == Committed(l) + s.fill.filledUSD
            && Exposure(l') == Exposure(l) + s.fill.filledUSD
            && OpenPnL(l') == OpenPnL(l) && Realized(l') == Realized(l)
  {
    hide Sum;
    var trade, position := NewTrade(s.tradeId, s.order, s.fill), NewPosition(s.positionId, s.order, s.fill);
    SumPut(l.trades, s.tradeId, trade, OpenCost);
    SumPut(l.trades, s.tradeId, trade, RealizedOf);
    SumPut(l.positions, s.positionId, position, OpenExposure);
    SumPut(l.positions, s.positionId, position, OpenPnLOf);
  }

  lemma MarkingSums(l: Ledger, s: Step)
    requires s.Marking? && Enabled(l, s)
    ensures var l' := Apply(l, s);
            Committed(l') == Committed(l) && Exposure(l') == Exposure(l) && Realized(l') == Realized(l)
  {
    hide Sum;
    SumPut(l.positions, s.positionId, Marked(l.positions[s.positionId], s.price), OpenExposure);
  }

  /** Closing a position of any status adds its profit to the realised sum exactly
      once more, whichever trade was matched. */
  lemma SettleSums(l: Ledger, p: Position, exitPrice: real, matched: Option<string>, freshId: string)
    requires Sound(l) && p.id in l.positions && l.positions[p.id] == p
    requires match matched
             case Some(t) => t in l.trades && l.trades[t].status.Open?
             case None => freshId !in l.trades
    ensures var l' := Settle(l, p, exitPrice, matched, freshId);
            && Realized(l') == Realized(l) + Profit(p, exitPrice)
            && Exposure(l') == Exposure(l) - OpenExposure(p)
            && OpenPnL(l') == OpenPnL(l) - OpenPnLOf(p)
            && Committed(l') == Committed(l) - (if matched.Some? then l.trades[matched.value].sizeUSD else 0.0)
  {
    hide Sum, Profit;
    var closed := ClosedPosition(p, exitPrice);
    SumPut(l.positions, p.id, closed, OpenExposure);
    SumPut(l.positions, p.id, closed, OpenPnLOf);
    match matched
    case Some(t) =>
      SumPut(l.trades, t, ClosedTrade(l.trades[t], p, exitPrice), OpenCost);
      SumPut(l.trades, t, ClosedTrade(l.trades[t], p, exitPrice), RealizedOf);
    case None =>
      SumPut(l.trades, freshId, SyntheticTrade(freshId, p, exitPrice), OpenCost);
      SumPut(l.trades, freshId, SyntheticTrade(freshId, p, exitPrice), RealizedOf);
  }

  // ---------- Realised profit over whole runs ----------

  /** The profit of every close in a run, at the position's own entry price and quantity. */
  ghost function ClosedProfits(l: Ledger, steps: seq<Step>): real
    requires Run(l, steps)
    decreases |steps|
  {
    if steps == [] then 0.0
    else (match steps[0]
          case Closing(p, exitPrice, _, _) => Profit(l.positions[p], exitPrice)
          case _ => 0.0)
         + ClosedProfits(Apply(l, steps[0]), steps[1..])
  }

  /** Realised profit grows by exactly the closes of the run, even when a close
      matched some other position's trade or none at all. */
  lemma {:induction false} RealizedOverRun(l: Ledger, steps: seq<Step>)
    requires Sound(l) && Run(l, steps)
    ensures Realized(After(l, steps)) == Realized(l) + ClosedProfits(l, steps)
    decreases |steps|
  {
    hide Realized, Profit, Settle;
    if steps != [] {
      SoundStep(l, steps[0]);
      match steps[0] {
        case Opening(_, _, _, _, _) => OpeningSums(l, steps[0]);
        case Marking(_, _) => MarkingSums(l, steps[0]);
        case Closing(p, exitPrice, matched, freshId) =>
          SettleSums(l, l.positions[p], exitPrice, matched, freshId);
      }
      RealizedOverRun(Apply(l, steps[0]), steps[1..]);
    }
  }

  /** Closing a position that is already closed books its profit a second time and,
      since nothing was open, leaves the exposure alone. */
  lemma RecloseBooksTwice(l: Ledger, p: Position, exitPrice: real, matched: Option<string>, freshId: string)
    requires Sound(l) && p.id in l.positions && l.positions[p.id] == p && p.status.Closed?
    requires match matched
             case Some(t) => t in l.trades && Matches(l.trades[t], p)
             case None => freshId !in l.trades
    ensures var l' := Settle(l, p, exitPrice, matched, freshId);
            && Realized(l') == Realized(l) + Profit(p, exitPrice) && Exposure(l') == Exposure(l)
            && (Committed(l') == Committed(l) <==> matched.None? || l.trades[matched.value].sizeUSD == 0.0)
  {
    hide Sum, Profit, Settle, ApproxEqual;
    SettleSums(l, p, exitPrice, matched, freshId);
  }

  /** The profit booked by a close is what the shares fetch less what they cost. */
  lemma ProfitIsProceedsLessCost(id: string, p: Position, exitPrice: real)
    requires PositionOk(id, p)
    ensures Profit(p, exitPrice) == exitPrice * p.quantity - p.exposureUSD
  {}

  /** Closing turns open profit into realised profit: the daily figure moves only by the
      gap between the exit price and the last mark. */
  lemma ClosingMovesProfit(l: Ledger, s: Step, startingCash: real)
    requires Sound(l) && s.Closing? && Enabled(l, s)
    ensures var p := l.positions[s.positionId];
            PortfolioOf(Apply(l, s), startingCash).dailyPnLUSD
            == PortfolioOf(l, startingCash).dailyPnLUSD + (s.exitPrice - p.currentPrice) * p.quantity
  {
    hide Realized, OpenPnL, Exposure, Committed, OpenCount;
    var p := l.positions[s.positionId];
    assert PositionOk(s.positionId, p);
    SettleSums(l, p, s.exitPrice, s.matched, s.freshId);
    assert (s.exitPrice - p.avgEntryPrice) * p.quantity
        == (s.exitPrice - p.currentPrice) * p.quantity + (p.currentPrice - p.avgEntryPrice) * p.quantity;
  }

  /** Realised profit never reaches cash. While the cost of open trades equals the
      exposure of open positions, the portfolio is worth the starting cash plus the
      daily profit if and only if nothing has been realised, net. */
  lemma ValueIncludesProfitIff(l: Ledger, startingCash: real)
    requires Committed(l) == Exposure(l)
    ensures PortfolioOf(l, startingCash).portfolioValueUSD == startingCash + PortfolioOf(l, startingCash).dailyPnLUSD
       <==> Realized(l) == 0.0
  {}

  // ---------- Position lifecycle ----------

  /** A position keeps its identity and entry for ever, and once closed never reopens. */
  ghost predicate Continues(before: Position, after: Position) {
    && after.id == before.id && after.marketId == before.marketId && after.outcome == before.outcome
    && after.quantity == before.quantity && after.avgEntryPrice == before.avgEntryPrice
    && after.exposureUSD == before.exposureUSD
    && (before.status.Closed? ==> after == before)
  }

  lemma {:induction false} PositionsContinue(l: Ledger, steps: seq<Step>)
    requires Sound(l) && Run(l, steps)
    ensures forall p :: p in l.positions ==>
              p in After(l, steps).positions && Continues(l.positions[p], After(l, steps).positions[p])
    decreases |steps|
  {
    if steps != [] {
      var l' := Apply(l, steps[0]);
      SoundStep(l, steps[0]);
      PositionsContinue(l', steps[1..]);
      forall p | p in l.positions
        ensures p in l'.positions && Continues(l.positions[p], l'.positions[p])
      {
        hide MatchOutcome, Consistent;
      }
    }
  }

  /** No position is closed twice in a run. */
  lemma {:induction false} ClosesAtMostOnce(l: Ledger, steps: seq<Step>, i: nat, j: nat)
    requires Sound(l) && Run(l, steps) && i < j < |steps|
    requires steps[i].Closing? && steps[j].Closing?
    ensures steps[i].positionId != steps[j].positionId
  {
    var id := steps[i].positionId;
    RunPrefix(l, steps, i);
    var a := After(l, steps[..i]);
    SoundRun(l, steps[..i]);
    SoundStep(a, steps[i]);
    assert steps[i..][1..] == steps[i + 1..];
    var b := Apply(a, steps[i]);
    assert id in b.positions && b.positions[id].status.Closed?;
    RunPrefix(b, steps[i + 1..], j - i - 1);
    PositionsContinue(b, steps[i + 1..][..j - i - 1]);
    assert steps[i + 1..][j - i - 1..][0] == steps[j];
  }

  lemma OpenCountStep(l: Ledger, s: Step)
    requires Sound(l) && Enabled(l, s)
    ensures OpenCount(Apply(l, s))
         == OpenCount(l) + (if s.Opening? then 1 else 0) - (if s.Closing? then 1 else 0)
  {
    hide MatchOutcome, Consistent, Profit, ClosedTrade, SyntheticTrade, NewTrade, TradeOk;
    match s
    case Opening(_, p, order, fill, _) => OpenIdsPut(l.positions, p, NewPosition(p, order, fill));
    case Marking(p, price) => OpenIdsPut(l.positions, p, Marked(l.positions[p], price));
    case Closing(p, exitPrice, _, _) => OpenIdsPut(l.positions, p, ClosedPosition(l.positions[p], exitPrice));
  }

  lemma OpenIdsPut(m: map<string, Position>, k: string, p: Position)
    ensures |OpenIds(m[k := p])|
         == |OpenIds(m)| - (if k in OpenIds(m) then 1 else 0) + (if p.status.Open? then 1 else 0)
  {
    if p.status.Open? {
      assert OpenIds(m[k := p]) == OpenIds(m) + {k};
    } else {
      assert OpenIds(m[k := p]) == OpenIds(m) - {k};
    }
  }

  /** The number of open positions changes by exactly openings minus closings. */
  lemma {:induction false} OpenCountOverRun(l: Ledger, steps: seq<Step>)
    requires Sound(l) && Run(l, steps)
    ensures OpenCount(After(l, steps)) == OpenCount(l) + Openings(steps) - Closings(steps)
    decreases |steps|
  {
    hide OpenCount;
    if steps != [] {
      OpenCountStep(l, steps[0]);
      SoundStep(l, steps[0]);
      OpenCountOverRun(Apply(l, steps[0]), steps[1..]);
    }
  }

  // ---------- Valuation ----------

  /** Exposure plus open profit is the market value of what is open. */
  lemma ExposurePlusPnLIsMarketValue(l: Ledger)
    requires Sound(l)
    ensures Exposure(l) + OpenPnL(l) == MarketValue(l)
  {
    forall k | k in l.positions
      ensures OpenValue(l.positions[k]) == OpenExposure(l.positions[k]) + OpenPnLOf(l.positions[k])
    {
      var p := l.positions[k];
      assert PositionOk(k, p);
      assert (p.currentPrice - p.avgEntryPrice) * p.quantity
          == p.currentPrice * p.quantity - p.avgEntryPrice * p.quantity;
    }
    SumSplit(l.positions, OpenValue, OpenExposure, OpenPnLOf);
  }

  /** A new open trade takes its size and its fees from cash, whatever the fees are. */
  lemma OpenTradeCosts(l: Ledger, t: Trade, startingCash: real)
    requires t.id !in l.trades && t.status.Open?
    ensures PortfolioOf(l.(trades := l.trades[t.id := t]), startingCash).cashUSD
         == PortfolioOf(l, startingCash).cashUSD - t.sizeUSD - t.feesUSD
  {
    hide Sum, OpenIds;
    SumPut(l.trades, t.id, t, OpenCost);
  }

  lemma EmptyLedger()
    ensures Sound(EMPTY) && OpenCount(EMPTY) == 0 && Realized(EMPTY) == 0.0
  {
    assert OpenIds(EMPTY.positions) == {};
  }

  /** Over any run from an empty ledger the report's other figures are the profits of
      the run's closes, the market value of what is open, and openings minus closings. */
  lemma PortfolioReportOverRun(steps: seq<Step>, startingCash: real)
    requires Run(EMPTY, steps)
    ensures var l := After(EMPTY, steps);
            var report := PortfolioOf(l, startingCash);
            && report.realizedPnLUSD == ClosedProfits(EMPTY, steps)
            && report.exposureUSD + report.openPnLUSD == MarketValue(l)
            && report.openPositions == Openings(steps) - Closings(steps)
            && report.dailyPnLUSD == report.realizedPnLUSD + report.openPnLUSD
            && report.portfolioValueUSD == report.cashUSD + report.exposureUSD + report.openPnLUSD
            && report.dailyPnLPct == if startingCash > 0.0 then report.dailyPnLUSD / startingCash else 0.0
  {
    hide Realized, OpenPnL, Exposure, Committed, MarketValue, ClosedProfits, Run, After, Sound, OpenCount,
      Openings, Closings, EMPTY;
    EmptyLedger();
    SoundRun(EMPTY, steps);
    ExposurePlusPnLIsMarketValue(After(EMPTY, steps));
    RealizedOverRun(EMPTY, steps);
    OpenCountOverRun(EMPTY, steps);
  }

  /** Portfolio value over a run from an empty ledger, in terms of what the positions
      are worth and what the open trades cost; realised profit is not part of it. */
  lemma PortfolioValueOverRun(steps: seq<Step>, startingCash: real)
    requires Run(EMPTY, steps)
    ensures var l := After(EMPTY, steps);
            && PortfolioOf(l, startingCash).portfolioValueUSD == startingCash - Committed(l) + MarketValue(l)
            && PortfolioOf(l, startingCash).dailyPnLUSD == ClosedProfits(EMPTY, steps) + OpenPnL(l)
  {
    SoundRun(EMPTY, steps);
    ExposurePlusPnLIsMarketValue(After(EMPTY, steps));
    RealizedOverRun(EMPTY, steps);
  }
}
