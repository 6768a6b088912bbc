/** The paper-trading ledger as a value: trades and positions, kept in two maps that
    no key links, and the three kinds of step the services take on it.

    A step carries everything the outside decided (identifiers, prices, which trade
    the approximate match returned), so that applying it is a function. */
module Ledger {
  import opened Model
  import opened Sums
  import opened OrderBook

  datatype Ledger = Ledger(trades: map<string, Trade>, positions: map<string, Position>)

  const EMPTY := Ledger(map[], map[])

  // ---------- Portfolio ----------

  function OpenCost(t: Trade): real { if t.status.Open? then t.sizeUSD + t.feesUSD else 0.0 }
  function RealizedOf(t: Trade): real { t.realizedPnLUSD }
  function OpenExposure(p: Position): real { if p.status.Open? then p.exposureUSD else 0.0 }
  function OpenPnLOf(p: Position): real { if p.status.Open? then p.unrealizedPnLUSD else 0.0 }
  function OpenValue(p: Position): real { if p.status.Open? then p.currentPrice * p.quantity else 0.0 }

  ghost function Committed(l: Ledger): real { Sum(l.trades, OpenCost) }
  ghost function Realized(l: Ledger): real { Sum(l.trades, RealizedOf) }
  ghost function Exposure(l: Ledger): real { Sum(l.positions, OpenExposure) }
  ghost function OpenPnL(l: Ledger): real { Sum(l.positions, OpenPnLOf) }
  ghost function MarketValue(l: Ledger): real { Sum(l.positions, OpenValue) }

  function OpenIds(positions: map<string, Position>): set<string> {
    set k | k in positions && positions[k].status.Open?
  }

  function OpenCount(l: Ledger): nat { |OpenIds(l.positions)| }

  ghost function PortfolioOf(l: Ledger, startingCash: real): PortfolioState {
    var cash := startingCash - Committed(l);
    var daily := Realized(l) + OpenPnL(l);
    PortfolioState(cash, cash + Exposure(l) + OpenPnL(l), Exposure(l), OpenPnL(l), Realized(l), daily,
                   if startingCash > 0.0 then daily / startingCash else 0.0, OpenCount(l))
  }

  // ---------- The approximate match ----------

  const TOLERANCE := 0.000001
  const LIST_LIMIT := 10000

  predicate ApproxEqual(x: real, y: real) { Abs(x - y) < TOLERANCE }

  /** What matchingOpenTrade accepts for a position. */
  predicate Matches(t: Trade, p: Position) {
    && t.status.Open? && t.marketId == p.marketId && t.outcome == p.outcome
    && (ApproxEqual(t.quantity, p.quantity) || ApproxEqual(t.sizeUSD, p.exposureUSD))
  }

  function Listed(n: nat): nat { if n <= LIST_LIMIT then n else LIST_LIMIT }

  /** r is what a scan of this listing returns: a match in it, or none. */
  ghost predicate Scan(l: Ledger, p: Position, listed: set<string>, r: Option<string>) {
    && listed <= l.trades.Keys && |listed| == Listed(|l.trades|)
    && (r.Some? ==> r.value in listed && Matches(l.trades[r.value], p))
    && (r.None? ==> forall t :: t in listed ==> !Matches(l.trades[t], p))
  }

  /** r is a possible result of the match: the store hands out its trades in arbitrary
      order, cut off at the limit, and the first match wins. */
  ghost predicate MatchOutcome(l: Ledger, p: Position, r: Option<string>) {
    exists listed :: Scan(l, p, listed, r)
  }

  // ---------- Steps ----------

  datatype Step =
    | Opening(tradeId: string, positionId: string, order: OrderRequest, fill: Fill, basis: ProbabilityDecision)
    | Marking(positionId: string, price: real)
    | Closing(positionId: string, exitPrice: real, matched: Option<string>, freshId: string)

  function NewTrade(id: string, order: OrderRequest, fill: Fill): Trade {
    Trade(id, order.marketId, order.outcome, order.side, Open, fill.averagePrice, 0.0,
          fill.filledUSD, fill.quantity, fill.feesUSD, fill.slippageUSD, 0.0)
  }

  function NewPosition(id: string, order: OrderRequest, fill: Fill): Position {
    Position(id, order.marketId, order.outcome, fill.quantity, fill.averagePrice, fill.averagePrice,
             fill.filledUSD, 0.0, Open)
  }

  function Marked(p: Position, price: real): Position {
    p.(currentPrice := price, unrealizedPnLUSD := (price - p.avgEntryPrice) * p.quantity)
  }

  function ClosedPosition(p: Position, exitPrice: real): Position {
    p.(status := Closed, currentPrice := exitPrice, unrealizedPnLUSD := 0.0)
  }

  function Profit(p: Position, exitPrice: real): real {
    (exitPrice - p.avgEntryPrice) * p.quantity
  }

  function ClosedTrade(t: Trade, p: Position, exitPrice: real): Trade {
    t.(status := Closed, exitPrice := exitPrice, realizedPnLUSD := Profit(p, exitPrice))
  }

  /** The trade written when no open trade matches. */
  function SyntheticTrade(id: string, p: Position, exitPrice: real): Trade {
    Trade(id, p.marketId, p.outcome, "sell", Closed, p.avgEntryPrice, exitPrice,
          p.exposureUSD, p.quantity, 0.0, 0.0, Profit(p, exitPrice))
  }

  /** Closing position p of whatever status, as the provider does it. */
  function Settle(l: Ledger, p: Position, exitPrice: real, matched: Option<string>, freshId: string): Ledger
    requires matched.Some? ==> matched.value in l.trades
  {
    var trade := match matched
      case Some(t) => ClosedTrade(l.trades[t], p, exitPrice)
      case None => SyntheticTrade(freshId, p, exitPrice);
    Ledger(l.trades[(if matched.Some? then matched.value else freshId) := trade],
           l.positions[p.id := ClosedPosition(p, exitPrice)])
  }

  ghost predicate Enabled(l: Ledger, s: Step) {
    match s
    case Opening(t, p, _, fill, _) =>
      && t != "" && t !in l.trades && p != "" && p !in l.positions
      && Consistent(fill) && fill.quantity > 0.0
    case Marking(p, _) =>
      p in l.positions && l.positions[p].status.Open?
    case Closing(p, _, matched, freshId) =>
      && p in l.positions && l.positions[p].status.Open?
      && freshId != "" && freshId !in l.trades
      && (matched.Some? ==> matched.value in l.trades)
      && MatchOutcome(l, l.positions[p], matched)
  }

  ghost function Apply(l: Ledger, s: Step): Ledger
    requires Enabled(l, s)
  {
    match s
    case Opening(t, p, order, fill, _) =>
      Ledger(l.trades[t := NewTrade(t, order, fill)], l.positions[p := NewPosition(p, order, fill)])
    case Marking(p, price) =>
      l.(positions := l.positions[p := Marked(l.positions[p], price)])
    case Closing(p, exitPrice, matched, freshId) =>
      Settle(l, l.positions[p], exitPrice, matched, freshId)
  }

  // ---------- Runs ----------

  ghost predicate Run(l: Ledger, steps: seq<Step>)
    decreases |steps|
  {
    steps == [] || (Enabled(l, steps[0]) && Run(Apply(l, steps[0]), steps[1..]))
  }

  ghost function After(l: Ledger, steps: seq<Step>): Ledger
    requires Run(l, steps)
    decreases |steps|
  {
    if steps == [] then l else After(Apply(l, steps[0]), steps[1..])
  }

  function Openings(steps: seq<Step>): nat {
    if steps == [] then 0 else (if steps[0].Opening? then 1 else 0) + Openings(steps[1..])
  }

  function Closings(steps: seq<Step>): nat {
    if steps == [] then 0 else (if steps[0].Closing? then 1 else 0) + Closings(steps[1..])
  }

  // ---------- Invariant ----------

  ghost predicate TradeOk(id: string, t: Trade) {
    t.id == id && id != "" && (t.status.Open? ==> t.realizedPnLUSD == 0.0 && t.feesUSD == 0.0)
  }

  ghost predicate PositionOk(id: string, p: Position) {
    && p.id == id && id != ""
    && p.quantity > 0.0 && p.exposureUSD > 0.0 && p.avgEntryPrice * p.quantity == p.exposureUSD
    && (p.status.Open? ==> p.unrealizedPnLUSD == (p.currentPrice - p.avgEntryPrice) * p.quantity)
  }

  ghost predicate Sound(l: Ledger) {
    && (forall id :: id in l.trades ==> TradeOk(id, l.trades[id]))
    && (forall id :: id in l.positions ==> PositionOk(id, l.positions[id]))
  }
}
