/** The position monitor: marks every open position to market and decides its exit. */
module Monitor {
  import opened Model
  import opened Sets
  import opened Ledger
  import opened LedgerTheorems
  import opened Store
  import opened Execution

  function ExitFor(cfg: Config, p: Position, edge: real, dailyLossExceeded: bool, endTime: Option<real>, now: real): ExitDecision {
    var pnlPct := if p.exposureUSD > 0.0 then p.unrealizedPnLUSD / p.exposureUSD else 0.0;
    if Abs(edge) < cfg.edgeThreshold * 0.5 then ExitDecision(true, p.id, "edge_gone", pnlPct, edge)
    else if pnlPct >= cfg.takeProfitPct then ExitDecision(true, p.id, "take_profit", pnlPct, edge)
    else if pnlPct <= -cfg.stopLossPct then ExitDecision(true, p.id, "stop_loss", pnlPct, edge)
    else if dailyLossExceeded then ExitDecision(true, p.id, "risk_exceeded", pnlPct, edge)
    else if endTime.Some? && endTime.value - now < cfg.exitBeforeExpiryHours then
      ExitDecision(true, p.id, "expiry_close", pnlPct, edge)
    else ExitDecision(false, p.id, "hold", pnlPct, edge)
  }

  /** Every exit the monitor asks for carries a reason the exit engine accepts. Of a
      sound open position it asks for one exactly when the edge is gone, the price has
      moved past a profit or loss bound of the exposure, the daily loss is exceeded, or
      the market is about to end. */
  lemma ExitsExactlyWhen(cfg: Config, p: Position, edge: real, loss: bool, endTime: Option<real>, now: real)
    requires PositionOk(p.id, p) && p.status.Open?
    ensures var d := ExitFor(cfg, p, edge, loss, endTime, now);
            && d.positionId == p.id && (d.shouldExit <==> d.reason in EXIT_REASONS)
            && (d.shouldExit <==>
                  || Abs(edge) < cfg.edgeThreshold * 0.5
                  || p.unrealizedPnLUSD >= cfg.takeProfitPct * p.exposureUSD
                  || p.unrealizedPnLUSD <= -cfg.stopLossPct * p.exposureUSD
                  || loss
                  || (endTime.Some? && endTime.value - now < cfg.exitBeforeExpiryHours))
  {}

  /** The reason given is true, the first that is, and the report carries the profit as a
      share of the exposure and the edge it was judged by. */
  lemma ExitReasonIsTrue(cfg: Config, p: Position, edge: real, loss: bool, endTime: Option<real>, now: real)
    requires PositionOk(p.id, p) && p.status.Open?
    ensures var d := ExitFor(cfg, p, edge, loss, endTime, now);
            var gone, pnl := Abs(edge) < cfg.edgeThreshold * 0.5, p.unrealizedPnLUSD;
            var profit, stop := pnl >= cfg.takeProfitPct * p.exposureUSD, pnl <= -cfg.stopLossPct * p.exposureUSD;
            var ending := endTime.Some? && endTime.value - now < cfg.exitBeforeExpiryHours;
            && d.edge == edge && d.pnlPct * p.exposureUSD == pnl
            && (d.reason == "edge_gone" <==> gone)
            && (d.reason == "take_profit" <==> !gone && profit)
            && (d.reason == "stop_loss" <==> !gone && !profit && stop)
            && (d.reason == "risk_exceeded" <==> !gone && !profit && !stop && loss)
            && (d.reason == "expiry_close" <==> !gone && !profit && !stop && !loss && ending)
            && (d.reason == "hold" <==> !gone && !profit && !stop && !loss && !ending)
  {
    ShareOf(p.unrealizedPnLUSD, p.exposureUSD, cfg.takeProfitPct, cfg.stopLossPct);
  }

  lemma ShareOf(pnl: real, exposure: real, profit: real, stop: real)
    requires exposure > 0.0
    ensures (pnl / exposure) * exposure == pnl
    ensures pnl / exposure >= profit <==> pnl >= profit * exposure
    ensures pnl / exposure <= -stop <==> pnl <= -stop * exposure
  {
    Cancel(pnl / exposure, profit, exposure);
    Cancel(-stop, pnl / exposure, exposure);
    assert (pnl / exposure) * exposure == pnl;
  }

  function MarkPrice(m: Market): real { if m.bestBid == 0.0 then m.yesPrice else m.bestBid }

  /** A position is marked at the streamed bid where one is streamed, else at the stored
      bid, and in a market without any bid at the yes price: the streamed mid price, else
      the last streamed price, else the stored yes price. */
  lemma MarkIs(venue: Venue, marketId: string)
    requires marketId in venue.markets
    ensures var m := venue.markets[marketId];
            var mark := MarkPrice(LiveMarketOf(venue, marketId));
            if m.id !in venue.liveStates || venue.liveStates[m.id].marketId == "" then
              mark == if m.bestBid != 0.0 then m.bestBid else m.yesPrice
            else
              var st := venue.liveStates[m.id];
              mark == if st.bestBid > 0.0 then st.bestBid else if m.bestBid != 0.0 then m.bestBid
                      else if st.midPrice > 0.0 then st.midPrice else if st.lastPrice > 0.0 then st.lastPrice
                      else m.yesPrice
  {
    hide ApplyLiveState;
  }

  /** The gain a mark shows is what the exit books exactly when the stored bid the exit
      takes, if there is one, is the live price of the mark; and a take-profit exit books
      the configured share of the exposure exactly when that bid has risen by it. */
  lemma ExitBooksTheMarkIff(cfg: Config, p: Position, stored: Market, live: Market)
    requires PositionOk(p.id, p) && p.status.Open? && p.currentPrice == MarkPrice(live)
    ensures Profit(p, ExitPrice(stored, p)) == p.unrealizedPnLUSD <==>
              stored.bestBid == 0.0 || stored.bestBid == MarkPrice(live)
    ensures Profit(p, ExitPrice(stored, p)) >= cfg.takeProfitPct * p.exposureUSD <==>
              ExitPrice(stored, p) >= p.avgEntryPrice * (1.0 + cfg.takeProfitPct)
  {
    var exit := ExitPrice(stored, p);
    Cancel(exit - p.avgEntryPrice, p.currentPrice - p.avgEntryPrice, p.quantity);
    assert cfg.takeProfitPct * p.exposureUSD == (p.avgEntryPrice * cfg.takeProfitPct) * p.quantity;
    Cancel(exit - p.avgEntryPrice, p.avgEntryPrice * cfg.takeProfitPct, p.quantity);
  }

  /** Ten shares bought at 0.5 and marked at a streamed bid of 0.6 show a gain of one
      dollar; the exit that takes that profit is priced at the stored bid of 0.4 and books
      a loss of one. */
  lemma TakeProfitBooksALoss(cfg: Config, edge: real, now: real)
    requires Abs(edge) >= cfg.edgeThreshold * 0.5 && cfg.takeProfitPct <= 0.2
    ensures var stored := Market("m", "", "", None, 0.0, 0.4, 0.0, 0.4, 0.5, 0.0, [], []);
            var live := ApplyLiveState(stored, LiveMarketState("m", 0.6, 0.0, 0.0, 0.0, 0.0, [], []));
            var p := Marked(Position("p", "m", "yes", 10.0, 0.5, 0.5, 5.0, 0.0, Open), MarkPrice(live));
            && PositionOk(p.id, p) && p.currentPrice == 0.6 && p.unrealizedPnLUSD == 1.0
            && ExitFor(cfg, p, edge, false, None, now).reason == "take_profit"
            && Profit(p, ExitPrice(stored, p)) == -1.0
  {
    var stored := Market("m", "", "", None, 0.0, 0.4, 0.0, 0.4, 0.5, 0.0, [], []);
    StreamedBidWins(stored);
    hide *;
    TenShares(0.6, stored);
    TakesProfit(cfg, Position("p", "m", "yes", 10.0, 0.5, 0.6, 5.0, 1.0, Open), edge, now);
  }

  lemma StreamedBidWins(stored: Market)
    ensures MarkPrice(ApplyLiveState(stored, LiveMarketState("m", 0.6, 0.0, 0.0, 0.0, 0.0, [], []))) == 0.6
  {}

  lemma TenShares(price: real, stored: Market)
    requires stored.bestBid == 0.4
    ensures var p := Marked(Position("p", "m", "yes", 10.0, 0.5, 0.5, 5.0, 0.0, Open), price);
            && PositionOk(p.id, p) && p == Position("p", "m", "yes", 10.0, 0.5, price, 5.0, (price - 0.5) * 10.0, Open)
            && Profit(p, ExitPrice(stored, p)) == -1.0
  {}

  lemma TakesProfit(cfg: Config, p: Position, edge: real, now: real)
    requires Abs(edge) >= cfg.edgeThreshold * 0.5
    requires p.exposureUSD == 5.0 && p.unrealizedPnLUSD == 1.0 && cfg.takeProfitPct <= 0.2
    ensures ExitFor(cfg, p, edge, false, None, now).reason == "take_profit"
  {}

  lemma Cancel(x: real, y: real, q: real)
    requires q > 0.0
    ensures (x * q == y * q <==> x == y) && (x * q >= y * q <==> x >= y)
  {
    if x < y {
      assert (y - x) * q > 0.0;
    } else if x > y {
      assert (x - y) * q > 0.0;
    }
  }

  ghost predicate NewestOn(probs: map<string, ProbabilityDecision>, listed: set<string>, marketId: string, k: string)
    requires listed <= probs.Keys
  {
    && k in listed && probs[k].marketId == marketId
    && forall j :: j in listed && probs[j].marketId == marketId ==> probs[j].createdAt <= probs[k].createdAt
  }

  /** edge is what a scan of this listing returns: the edge of a newest listed decision
      on the market, or 1 when none is listed. */
  ghost predicate EdgeAmong(probs: map<string, ProbabilityDecision>, listed: set<string>, marketId: string, edge: real) {
    && listed <= probs.Keys && |listed| == Capped(|probs|, 100)
    && ((exists k :: NewestOn(probs, listed, marketId, k) && probs[k].edge == edge)
        || (edge == 1.0 && forall k :: k in listed ==> probs[k].marketId != marketId))
  }

  /** What the monitor may take for a market's latest edge, over all listings of at most
      100 decisions. */
  ghost predicate PossibleEdge(probs: map<string, ProbabilityDecision>, marketId: string, edge: real) {
    exists listed :: EdgeAmong(probs, listed, marketId, edge)
  }

  /** With at most 100 decisions stored it is the edge of a newest decision on the market. */
  lemma EdgeIsNewestWithinLimit(probs: map<string, ProbabilityDecision>, marketId: string, edge: real)
    requires |probs| <= 100 && PossibleEdge(probs, marketId, edge)
    ensures (exists k :: NewestOn(probs, probs.Keys, marketId, k) && probs[k].edge == edge)
            || (edge == 1.0 && forall k :: k in probs ==> probs[k].marketId != marketId)
  {
    var listed :| EdgeAmong(probs, listed, marketId, edge);
    FullSubset(listed, probs.Keys);
  }

  method LatestEdge(store: MemoryStore, marketId: string) returns (edge: real)
    ensures PossibleEdge(store.probs, marketId, edge)
  {
    var decisions, keys := Listing(store.probs, 100);
    ghost var listed := set k | k in keys;
    DistinctCount(keys, listed);
    var found, latestAt := false, 0.0;
    edge := 1.0;
    ghost var best := "";
    for i := 0 to |decisions|
      invariant !found ==> edge == 1.0 && forall j :: 0 <= j < i ==> decisions[j].marketId != marketId
      invariant found ==> best in listed && store.probs[best].marketId == marketId
                          && store.probs[best].edge == edge && store.probs[best].createdAt == latestAt
                          && forall j :: 0 <= j < i && decisions[j].marketId == marketId ==> decisions[j].createdAt <= latestAt
    {
      var d := decisions[i];
      if d.marketId == marketId && (!found || d.createdAt > latestAt) {
        found, latestAt, edge := true, d.createdAt, d.edge;
        best := keys[i];
      }
    }
    assert found ==> NewestOn(store.probs, listed, marketId, best);
    assert EdgeAmong(store.probs, listed, marketId, edge);
  }

  ghost predicate AllMarks(steps: seq<Step>) {
    forall i :: 0 <= i < |steps| ==> steps[i].Marking?
  }

  /** Everything the monitor looks at besides positions. */
  datatype Watch = Watch(cfg: Config, now: real, venue: Venue, probs: map<string, ProbabilityDecision>, lossExceeded: bool)

  ghost predicate DecidedBy(w: Watch, p: Position, d: ExitDecision)
    requires p.marketId in w.venue.markets
  {
    exists edge :: PossibleEdge(w.probs, p.marketId, edge)
      && d == ExitFor(w.cfg, p, edge, w.lossExceeded, LiveMarketOf(w.venue, p.marketId).endTime, w.now)
  }

  /** One position judged: it is open, in a known market, marked at the live price, and
      the decision follows from its marked state and a possible latest edge. */
  ghost predicate JudgedOne(w: Watch, positions: map<string, Position>, mark: Step, d: ExitDecision) {
    && d.positionId != "" && d.positionId in positions && positions[d.positionId].status.Open?
    && var p := positions[d.positionId];
    && p.marketId in w.venue.markets
    && mark == Marking(d.positionId, MarkPrice(LiveMarketOf(w.venue, p.marketId)))
    && p.currentPrice == mark.price
    && DecidedBy(w, p, d) && (d.shouldExit ==> d.reason in EXIT_REASONS)
  }

  function Ids(decisions: seq<ExitDecision>): set<string> {
    set i | 0 <= i < |decisions| :: decisions[i].positionId
  }

  lemma IdsMore(decisions: seq<ExitDecision>, d: ExitDecision)
    ensures Ids(decisions + [d]) == Ids(decisions) + {d.positionId}
  {
    var longer := decisions + [d];
    assert forall i :: 0 <= i < |decisions| ==> longer[i] == decisions[i];
    assert longer[|decisions|] == d;
    assert forall k :: k in Ids(decisions) ==> exists i :: 0 <= i < |decisions| && longer[i].positionId == k;
  }

  /** Decisions on distinct positions, one marking step for each. */
  ghost predicate Judged(w: Watch, positions: map<string, Position>, marks: seq<Step>, decisions: seq<ExitDecision>) {
    && |marks| == |decisions| && AllMarks(marks)
    && (forall i, j :: 0 <= i < j < |decisions| ==> decisions[i].positionId != decisions[j].positionId)
    && (forall i :: 0 <= i < |decisions| ==> JudgedOne(w, positions, marks[i], decisions[i]))
  }

  lemma JudgedMore(w: Watch, positions: map<string, Position>, marks: seq<Step>, decisions: seq<ExitDecision>,
                   p: Position, mark: Step, d: ExitDecision)
    requires Judged(w, positions, marks, decisions)
    requires d.positionId == p.id && p.id !in Ids(decisions)
    requires JudgedOne(w, positions[p.id := p], mark, d) && mark.Marking?
    ensures Judged(w, positions[p.id := p], marks + [mark], decisions + [d])
  {}

  method MarkPosition(store: MemoryStore, cfg: Config, p: Position, lossExceeded: bool, now: real, ghost w: Watch)
    returns (d: ExitDecision, ghost mark: Step)
    requires Sound(store.Books()) && p.id in OpenIds(store.positions) && store.positions[p.id] == p
    requires p.marketId in store.markets && w == Watch(cfg, now, store.AllMarkets(), store.probs, lossExceeded)
    modifies store`positions
    ensures mark == Marking(p.id, MarkPrice(LiveMarketOf(store.AllMarkets(), p.marketId)))
    ensures Enabled(old(store.Books()), mark) && store.Books() == Apply(old(store.Books()), mark)
    ensures store.positions == old(store.positions)[p.id := Marked(p, mark.price)]
    ensures d.positionId == p.id && JudgedOne(w, store.positions, mark, d)
  {
    var market := store.LiveMarket(store.markets[p.marketId]);
    var price := MarkPrice(market);
    mark := Marking(p.id, price);
    var marked := Marked(p, price);
    store.SavePosition(marked);
    var edge := LatestEdge(store, p.marketId);
    d := ExitFor(cfg, marked, edge, lossExceeded, market.endTime, now);
    assert PositionOk(p.id, p);
    ExitsExactlyWhen(cfg, marked, edge, lossExceeded, market.endTime, now);
    assert DecidedBy(w, marked, d);
  }

  /** Marks every open position in a known market exactly once, at its live price. */
  method UpdateOpenPositions(store: MemoryStore, cfg: Config, now: real)
    returns (decisions: seq<ExitDecision>, ghost marks: seq<Step>)
    requires Sound(store.Books())
    modifies store`positions
    ensures Run(old(store.Books()), marks) && store.Books() == After(old(store.Books()), marks)
    ensures var loss := PortfolioOf(old(store.Books()), cfg.startingBalanceUSD).dailyPnLPct <= -cfg.maxDailyLossPct;
            Judged(Watch(cfg, now, store.AllMarkets(), store.probs, loss), store.positions, marks, decisions)
    ensures forall k :: k in Ids(decisions) <==>
              k in OpenIds(store.positions) && store.positions[k].marketId in store.markets
  {
    hide Apply, Judged, JudgedOne, Run, After, Ids, Enabled, Sound, PortfolioOf, OpenCount, LiveMarketOf, MarkPrice,
      Reports, ApplyLiveState;
    decisions, marks := [], [];
    var open, keys := store.ListOpenPositions();
    var portfolio := store.Portfolio(cfg.startingBalanceUSD);
    var lossExceeded := portfolio.dailyPnLPct <= -cfg.maxDailyLossPct;
    ghost var w := Watch(cfg, now, store.AllMarkets(), store.probs, lossExceeded);
    NothingYet(store.Books(), store.positions, w);
    for i := 0 to |open|
      invariant Run(old(store.Books()), marks) && store.Books() == After(old(store.Books()), marks)
      invariant Sound(store.Books()) && Judged(w, store.positions, marks, decisions)
      invariant OpenIds(store.positions) == old(OpenIds(store.positions))
      invariant forall j :: i <= j < |open| ==> store.positions[keys[j]] == open[j]
      invariant forall j :: i <= j < |open| ==> keys[j] !in Ids(decisions)
      invariant forall j :: 0 <= j < i && store.positions[keys[j]].marketId in store.markets ==> keys[j] in Ids(decisions)
      invariant forall k :: k in Ids(decisions) ==>
                  k in OpenIds(store.positions) && store.positions[k].marketId in store.markets
    {
      var p := open[i];
      KeyedPosition(store.Books(), keys[i]);
      if p.marketId !in store.markets { continue; }
      ghost var before, positions := store.Books(), store.positions;
      var d;
      ghost var mark;
      d, mark := MarkPosition(store, cfg, p, lossExceeded, now, w);
      SoundStep(before, mark);
      RunOne(before, mark);
      RunAppend(old(store.Books()), marks, [mark]);
      JudgedMore(w, positions, marks, decisions, Marked(p, mark.price), mark, d);
      StillOpen(positions, p, mark.price);
      IdsMore(decisions, d);
      decisions, marks := decisions + [d], marks + [mark];
    }
  }

  lemma KeyedPosition(l: Ledger, id: string)
    requires Sound(l) && id in l.positions
    ensures l.positions[id].id == id
  {}

  lemma StillOpen(positions: map<string, Position>, p: Position, price: real)
    requires p.id in OpenIds(positions) && positions[p.id] == p
    ensures OpenIds(positions[p.id := Marked(p, price)]) == OpenIds(positions)
  {}

  lemma NothingYet(l: Ledger, positions: map<string, Position>, w: Watch)
    ensures Run(l, []) && After(l, []) == l && Judged(w, positions, [], []) && Ids([]) == {}
  {}
}
