/** Cash. No check of the risk engine looks at it: what keeps it from going below zero,
    and what does not. */
module Cash {
  import opened Model
  import opened Sums
  import opened OrderBook
  import opened OrderBookTheorems
  import opened Ledger
  import opened LedgerTheorems
  import opened Store
  import opened Risk
  import opened Execution
  import opened Cycle

  ghost function CashOf(cfg: Config, l: Ledger): real {
    PortfolioOf(l, cfg.startingBalanceUSD).cashUSD
  }

  ghost function ValueOf(cfg: Config, l: Ledger): real {
    PortfolioOf(l, cfg.startingBalanceUSD).portfolioValueUSD
  }

  /** There is cash for as many positions at the cap of a market as may still be opened. */
  ghost predicate CashCovers(cfg: Config, l: Ledger) {
    && CashOf(cfg, l) >= 0.0
    && CashOf(cfg, l) >= (cfg.maxTotalOpenPositions - OpenCount(l)) as real * (cfg.maxPositionPerMarketPct * ValueOf(cfg, l))
  }

  /** Where cash covers the positions that may still be opened, a cycle trades without
      ever overdrawing it, in every state it opens through. */
  lemma {:induction false} TradingKeepsCash(cfg: Config, venue: Venue, now: real, l: Ledger, steps: seq<Step>, i: nat)
    requires Sound(l) && PositiveConfig(cfg) && KeyedMarkets(venue) && CashCovers(cfg, l)
    requires Run(l, steps) && VettedRun(cfg, venue, now, l, steps)
    requires i <= |steps| && forall j :: 0 <= j < |steps| ==> steps[j].Opening?
    ensures Run(l, steps[..i]) && CashCovers(cfg, After(l, steps[..i]))
    decreases i
  {
    hide Sound, CashCovers, Enabled, Apply, Vetted;
    if i == 0 {
      assert steps[..0] == [];
    } else {
      SoundStep(l, steps[0]);
      OpeningKeepsCash(cfg, venue, now, l, steps[0]);
      TradingKeepsCash(cfg, venue, now, Apply(l, steps[0]), steps[1..], i - 1);
      assert steps[..i][1..] == steps[1..][..i - 1];
    }
  }

  /** A configuration that makes sure of it for a portfolio of cash alone: no more
      positions than their caps add up to the whole. */
  lemma CautiousConfigKeepsCash(cfg: Config, venue: Venue, now: real, steps: seq<Step>, i: nat)
    requires PositiveConfig(cfg) && KeyedMarkets(venue) && cfg.startingBalanceUSD >= 0.0
    requires cfg.maxTotalOpenPositions as real * cfg.maxPositionPerMarketPct <= 1.0
    requires Run(EMPTY, steps) && VettedRun(cfg, venue, now, EMPTY, steps)
    requires i <= |steps| && forall j :: 0 <= j < |steps| ==> steps[j].Opening?
    ensures Run(EMPTY, steps[..i]) && CashOf(cfg, After(EMPTY, steps[..i])) >= 0.0
  {
    hide *;
    StartCovers(cfg);
    EmptyLedger();
    TradingKeepsCash(cfg, venue, now, EMPTY, steps, i);
    CoveredIsThere(cfg, After(EMPTY, steps[..i]));
  }

  lemma CoveredIsThere(cfg: Config, l: Ledger)
    requires CashCovers(cfg, l)
    ensures CashOf(cfg, l) >= 0.0
  {}

  lemma StartCovers(cfg: Config)
    requires cfg.startingBalanceUSD >= 0.0
    requires cfg.maxTotalOpenPositions as real * cfg.maxPositionPerMarketPct <= 1.0
    ensures CashCovers(cfg, EMPTY)
  {
    hide PortfolioOf, OpenCount, Sound, EMPTY;
    CashAlone(cfg.startingBalanceUSD);
    EmptyLedger();
    NoMoreThanTheWhole(cfg.maxTotalOpenPositions as real, cfg.maxPositionPerMarketPct, cfg.startingBalanceUSD);
  }

  lemma NoMoreThanTheWhole(n: real, pct: real, start: real)
    requires n * pct <= 1.0 && start >= 0.0
    ensures n * (pct * start) <= start
  {
    MulMonotone(n * pct, 1.0, start);
    assert (n * pct) * start == n * (pct * start);
  }

  lemma OpeningKeepsCash(cfg: Config, venue: Venue, now: real, l: Ledger, s: Step)
    requires Sound(l) && PositiveConfig(cfg) && KeyedMarkets(venue) && CashCovers(cfg, l)
    requires s.Opening? && Enabled(l, s) && Vetted(cfg, venue, now, l, s)
    ensures CashCovers(cfg, Apply(l, s))
  {
    hide Vetted, Enabled, Apply, Sound, CashOf, ValueOf, OpenCount;
    OpeningFillsWithinCap(cfg, venue, now, l, s);
    OneFewer(cfg.maxTotalOpenPositions - OpenCount(l), cfg.maxPositionPerMarketPct * ValueOf(cfg, l));
  }

  lemma OpeningFillsWithinCap(cfg: Config, venue: Venue, now: real, l: Ledger, s: Step)
    requires Sound(l) && PositiveConfig(cfg) && KeyedMarkets(venue)
    requires s.Opening? && Enabled(l, s) && Vetted(cfg, venue, now, l, s)
    ensures var l' := Apply(l, s);
            && CashOf(cfg, l') == CashOf(cfg, l) - s.fill.filledUSD && ValueOf(cfg, l') == ValueOf(cfg, l)
            && OpenCount(l') == OpenCount(l) + 1 <= cfg.maxTotalOpenPositions
            && 0.0 <= s.fill.filledUSD <= MarketCap(cfg, ValueOf(cfg, l))
  {
    CashLeft(cfg, l, s);
    hide PortfolioOf, VerdictFor, Enabled, Apply, FillFor, MarketExposure, CategoryExposure, MarketCap, CategoryCap,
      CashOf, Sum, OpenCount, Sound, WithinCaps;
    VettedTradeQuality(cfg, venue, now, l, s);
    var id := s.order.marketId;
    var market := LiveMarketOf(venue, id);
    WithinCapsIff(cfg, venue.markets, Apply(l, s), id, market.category);
    CapsSurviveExecution(cfg, venue.markets, l, s.basis, market, 0.0, now, s);
    OpeningExposures(cfg, venue.markets, l, s, id, market.category);
    ExposuresNonNegative(l, venue.markets, id, market.category);
    OpenCountStep(l, s);
  }

  lemma CashLeft(cfg: Config, l: Ledger, s: Step)
    requires s.Opening? && Enabled(l, s)
    ensures CashOf(cfg, Apply(l, s)) == CashOf(cfg, l) - s.fill.filledUSD
  {
    OpeningSums(l, s);
  }

  lemma OneFewer(room: int, cap: real)
    ensures (room - 1) as real * cap == room as real * cap - cap
    ensures room >= 1 && cap >= 0.0 ==> (room - 1) as real * cap >= 0.0
  {
    if room >= 1 && cap >= 0.0 { MulMonotone(0.0, (room - 1) as real, cap); }
  }

  // ---------- Two purchases ----------

  /** A hundred dollars, two positions, and the caps in question. */
  function HundredDollars(marketPct: real, categoryPct: real): Config {
    Config(0.05, 0.0, marketPct, categoryPct, 0.5, 2, 1.0, 1.0, 1.0, 0.0, 0.0, 100.0, 0.5, 0.5, 0.0)
  }

  function EvenMarket(id: string, category: string): Market {
    Market(id, "", category, None, 0.0, 0.5, 0.5, 0.5, 0.5, 0.0, [], [Level(0.5, 1000.0)])
  }

  /** Two markets at even odds, the first of category "x". */
  function TwoMarkets(category: string): Venue {
    Venue(map["a" := EvenMarket("a", "x"), "b" := EvenMarket("b", category)], map[])
  }

  /** A purchase with a strong edge, filled completely at one half. */
  function BuyAtHalf(tradeId: string, positionId: string, marketId: string, usd: real): Step {
    Opening(tradeId, positionId, OrderRequest(marketId, "yes", "buy", 0.5, usd), Fill(0.5, 2.0 * usd, usd, 0.0, 0.0),
            ProbabilityDecision("d", marketId, "n", 0.5, 0.5, 0.99, 0.49, 1.0, true, "buy", "yes", 0.0))
  }

  function BuyBoth(usd: real): seq<Step> {
    [BuyAtHalf("t1", "p1", "a", usd), BuyAtHalf("t2", "p2", "b", usd)]
  }

  /** Both purchases, each of the whole cap of its market, are vetted when the cap of a
      category they share has room for both. */
  lemma BothAreVetted(marketPct: real, categoryPct: real, category: string)
    requires 0.0 < marketPct <= 0.98 && (if category == "x" then 2.0 * marketPct else marketPct) <= categoryPct
    ensures var cfg, venue := HundredDollars(marketPct, categoryPct), TwoMarkets(category);
            var steps := BuyBoth(100.0 * marketPct);
            && PositiveConfig(cfg) && KeyedMarkets(venue)
            && Run(EMPTY, steps) && VettedRun(cfg, venue, 0.0, EMPTY, steps)
            && CashOf(cfg, After(EMPTY, steps)) == 100.0 - 200.0 * marketPct
  {
    hide *;
    var usd := 100.0 * marketPct;
    var cfg, venue := HundredDollars(marketPct, categoryPct), TwoMarkets(category);
    var s1, s2 := BuyAtHalf("t1", "p1", "a", usd), BuyAtHalf("t2", "p2", "b", usd);
    BothAre(usd);
    TwoOpenings(s1, s2, usd);
    BothMarkets(category);
    ConfigSays(marketPct, categoryPct);
    FirstIsVetted(marketPct, categoryPct, category, s1);
    FirstLeaves(marketPct, categoryPct, category, s1);
    var l1 := Apply(EMPTY, s1);
    Purchase(marketPct, categoryPct, category, l1, s2, "b", category);
    CashLeft(cfg, l1, s2);
    VettedTwo(cfg, venue, EMPTY, s1, s2);
  }

  lemma BothAre(usd: real)
    ensures BuyBoth(usd) == [BuyAtHalf("t1", "p1", "a", usd), BuyAtHalf("t2", "p2", "b", usd)]
    ensures var s := BuyAtHalf("t2", "p2", "b", usd);
            s.Opening? && s == BuyAtHalf(s.tradeId, s.positionId, "b", usd) && s.fill.filledUSD == usd
  {}

  lemma FirstIsVetted(marketPct: real, categoryPct: real, category: string, s: Step)
    requires s == BuyAtHalf("t1", "p1", "a", 100.0 * marketPct) && Enabled(EMPTY, s)
    requires 0.0 < marketPct <= 0.98 && marketPct <= categoryPct
    ensures Vetted(HundredDollars(marketPct, categoryPct), TwoMarkets(category), 0.0, EMPTY, s)
  {
    hide *;
    PurchaseIs("t1", "p1", "a", 100.0 * marketPct);
    BothMarkets(category);
    EmptyLedger();
    NothingHeld(TwoMarkets(category).markets, "a", "x");
    CashAlone(100.0);
    Purchase(marketPct, categoryPct, category, EMPTY, s, "a", "x");
  }

  /** With caps of 90 percent the second approval overdraws the cash the first has left. */
  lemma SecondApprovalOverdraws()
    ensures var cfg, venue, steps := HundredDollars(0.9, 0.9), TwoMarkets("y"), BuyBoth(90.0);
            && PositiveConfig(cfg) && KeyedMarkets(venue)
            && Run(EMPTY, steps) && VettedRun(cfg, venue, 0.0, EMPTY, steps)
            && CashOf(cfg, After(EMPTY, steps)) == -80.0
  {
    assert "y"[0] != "x"[0];
    hide *;
    BothAreVetted(0.9, 0.9, "y");
  }

  /** With 5 percent for a market and 20 for a category, a second position of a category
      is approved: 5 dollars in another market of it leave room for 5 more. */
  lemma SecondOfCategoryIsApproved()
    ensures var cfg, venue, steps := HundredDollars(0.05, 0.20), TwoMarkets("x"), BuyBoth(5.0);
            && PositiveConfig(cfg) && KeyedMarkets(venue)
            && Run(EMPTY, steps) && VettedRun(cfg, venue, 0.0, EMPTY, steps)
            && CashOf(cfg, After(EMPTY, steps)) == 90.0
  {
    hide *;
    BothAreVetted(0.05, 0.20, "x");
  }

  lemma FirstLeaves(marketPct: real, categoryPct: real, category: string, s: Step)
    requires s == BuyAtHalf("t1", "p1", "a", 100.0 * marketPct) && Enabled(EMPTY, s)
    ensures var cfg, venue, l := HundredDollars(marketPct, categoryPct), TwoMarkets(category), Apply(EMPTY, s);
            && PortfolioOf(l, 100.0).portfolioValueUSD == 100.0 && PortfolioOf(l, 100.0).dailyPnLUSD == 0.0
            && CashOf(cfg, l) == 100.0 - 100.0 * marketPct
            && MarketExposure(l, "b") == 0.0
            && CategoryExposure(l, venue.markets, category) == if category == "x" then 100.0 * marketPct else 0.0
  {
    hide *;
    var cfg, venue := HundredDollars(marketPct, categoryPct), TwoMarkets(category);
    BothMarkets(category);
    ConfigSays(marketPct, categoryPct);
    PurchaseIs("t1", "p1", "a", 100.0 * marketPct);
    CashLeft(cfg, EMPTY, s);
    CashAlone(100.0);
    CashIs(cfg, EMPTY);
    NothingHeld(venue.markets, "b", category);
    OpeningExposures(cfg, venue.markets, EMPTY, s, "b", category);
  }

  lemma CashIs(cfg: Config, l: Ledger)
    ensures CashOf(cfg, l) == PortfolioOf(l, cfg.startingBalanceUSD).cashUSD
  {}

  lemma ConfigSays(marketPct: real, categoryPct: real)
    ensures var cfg := HundredDollars(marketPct, categoryPct);
            cfg.startingBalanceUSD == 100.0 && cfg.maxTotalOpenPositions == 2 && (marketPct > 0.0 ==> PositiveConfig(cfg))
  {}

  lemma PurchaseIs(tradeId: string, positionId: string, marketId: string, usd: real)
    ensures var s := BuyAtHalf(tradeId, positionId, marketId, usd);
            && s.Opening? && s.tradeId == tradeId && s.positionId == positionId
            && s == BuyAtHalf(s.tradeId, s.positionId, marketId, usd)
            && s.fill.filledUSD == usd && s.order.marketId == marketId
  {}

  lemma BothMarkets(category: string)
    ensures var venue := TwoMarkets(category);
            && KeyedMarkets(venue)
            && "a" in venue.markets && venue.markets["a"].category == "x"
            && "b" in venue.markets && venue.markets["b"].category == category
    ensures "a" != "b"
  {
    assert "a"[0] != "b"[0];
  }

  lemma TwoOpenings(s1: Step, s2: Step, usd: real)
    requires s1 == BuyAtHalf("t1", "p1", "a", usd) && s2 == BuyAtHalf("t2", "p2", "b", usd) && usd > 0.0
    ensures Enabled(EMPTY, s1) && Enabled(Apply(EMPTY, s1), s2)
    ensures Sound(Apply(EMPTY, s1)) && OpenCount(Apply(EMPTY, s1)) == 1
  {
    HalfIsConsistent(usd);
    EmptyLedger();
    assert s1.tradeId[1] != s2.tradeId[1] && s1.positionId[1] != s2.positionId[1];
    hide BuyAtHalf, Sound, Consistent, OpenCount;
    NewIds(EMPTY, s1);
    assert forall id :: id !in EMPTY.trades && id !in EMPTY.positions;
    hide EMPTY, Enabled, Apply;
    SoundStep(EMPTY, s1);
    OpenCountStep(EMPTY, s1);
    NewIdsAfter(EMPTY, s1, s2);
  }

  lemma NewIds(l: Ledger, s: Step)
    requires s.Opening? && s.tradeId != "" && s.positionId != "" && s.tradeId !in l.trades && s.positionId !in l.positions
    requires Consistent(s.fill) && s.fill.quantity > 0.0
    ensures Enabled(l, s)
  {}

  lemma NewIdsAfter(l: Ledger, s1: Step, s2: Step)
    requires s1.Opening? && Enabled(l, s1) && s2.Opening? && s2.tradeId != "" && s2.positionId != ""
    requires s2.tradeId !in l.trades && s2.tradeId != s1.tradeId
    requires s2.positionId !in l.positions && s2.positionId != s1.positionId
    requires Consistent(s2.fill) && s2.fill.quantity > 0.0
    ensures Enabled(Apply(l, s1), s2)
  {
    hide Consistent;
  }

  lemma HalfIsConsistent(usd: real)
    requires usd > 0.0
    ensures Consistent(Fill(0.5, 2.0 * usd, usd, 0.0, 0.0))
  {}

  lemma VettedTwo(cfg: Config, venue: Venue, l: Ledger, s1: Step, s2: Step)
    requires Enabled(l, s1) && Vetted(cfg, venue, 0.0, l, s1)
    requires Enabled(Apply(l, s1), s2) && Vetted(cfg, venue, 0.0, Apply(l, s1), s2)
    ensures Run(l, [s1, s2]) && After(l, [s1, s2]) == Apply(Apply(l, s1), s2)
    ensures VettedRun(cfg, venue, 0.0, l, [s1, s2])
  {
    hide Enabled, Apply, Vetted;
    assert [s1, s2][1..] == [s2] && [s2][1..] == [];
    RunOne(Apply(l, s1), s2);
    assert VettedRun(cfg, venue, 0.0, Apply(Apply(l, s1), s2), []);
    assert VettedRun(cfg, venue, 0.0, Apply(l, s1), [s2]);
  }

  lemma NothingHeld(markets: map<string, Market>, id: string, category: string)
    ensures MarketExposure(EMPTY, id) == 0.0 && CategoryExposure(EMPTY, markets, category) == 0.0
  {
    hide Sum;
    EmptySum(InMarket(id));
    EmptySum(InCategory(markets, category));
  }

  lemma CashAlone(startingCash: real)
    ensures PortfolioOf(EMPTY, startingCash) == PortfolioState(startingCash, startingCash, 0.0, 0.0, 0.0, 0.0, 0.0, 0)
  {
    hide Sum, OpenIds;
    NothingOpen();
  }

  /** The whole cap of a market at even odds: the size the checks arrive at. */
  lemma Purchase(marketPct: real, categoryPct: real, category: string, l: Ledger, s: Step, id: string, its: string)
    requires 0.0 < marketPct <= 0.98
    requires var venue := TwoMarkets(category);
             Sound(l) && Enabled(l, s) && id in venue.markets && its == venue.markets[id].category
             && MarketExposure(l, id) == 0.0
             && CategoryExposure(l, venue.markets, its) + 100.0 * marketPct <= categoryPct * 100.0
    requires s.Opening? && s == BuyAtHalf(s.tradeId, s.positionId, id, 100.0 * marketPct)
    requires PortfolioOf(l, 100.0).portfolioValueUSD == 100.0 && PortfolioOf(l, 100.0).dailyPnLUSD == 0.0
    requires OpenCount(l) < 2
    ensures Vetted(HundredDollars(marketPct, categoryPct), TwoMarkets(category), 0.0, l, s)
  {
    hide Sum, PortfolioOf, MarketExposure, CategoryExposure, OpenCount, Apply, Enabled, Sound, VerdictFor,
      KellyFraction, FillFor, ImpactOf, WithinCaps;
    var cfg, markets := HundredDollars(marketPct, categoryPct), TwoMarkets(category).markets;
    PurchaseFills(marketPct, categoryPct, category, id, s.order);
    OpenCountStep(l, s);
    PurchaseIsTheSize(marketPct, categoryPct);
    PurchaseWithinCaps(marketPct, categoryPct, markets, l, s, id, its);
    ApprovedIff(cfg, markets, l, s.basis, markets[id], 0.0, 0.0, s);
    VerdictIsTarget(cfg, markets, l, s.basis, markets[id], 0.0, 0.0);
  }

  lemma PurchaseWithinCaps(marketPct: real, categoryPct: real, markets: map<string, Market>, l: Ledger, s: Step,
                           id: string, category: string)
    requires Enabled(l, s) && s.Opening? && s == BuyAtHalf(s.tradeId, s.positionId, id, 100.0 * marketPct)
    requires id in markets && category == markets[id].category
    requires PortfolioOf(l, 100.0).portfolioValueUSD == 100.0 && PortfolioOf(l, 100.0).dailyPnLUSD == 0.0
    requires MarketExposure(l, id) == 0.0
    requires CategoryExposure(l, markets, category) + 100.0 * marketPct <= categoryPct * 100.0
    ensures WithinCaps(HundredDollars(marketPct, categoryPct), markets, Apply(l, s), id, category)
    ensures PortfolioOf(Apply(l, s), 100.0).dailyPnLPct == 0.0
  {
    hide PortfolioOf, MarketExposure, CategoryExposure, Apply, Enabled;
    DailyPctOf(Apply(l, s), 100.0);
    OpeningExposures(HundredDollars(marketPct, categoryPct), markets, l, s, id, category);
  }

  lemma PurchaseIsTheSize(marketPct: real, categoryPct: real)
    requires 0.0 < marketPct <= 0.98
    ensures TargetSize(HundredDollars(marketPct, categoryPct), 100.0, KellyFraction(0.99, 0.5), 0.0) == 100.0 * marketPct
  {
    KellyIdentity(0.99, 0.5);
    hide KellyFraction;
  }

  lemma PurchaseFills(marketPct: real, categoryPct: real, category: string, id: string, order: OrderRequest)
    requires 0.0 < marketPct <= 0.98 && id in TwoMarkets(category).markets
    requires order == OrderRequest(id, "yes", "buy", 0.5, 100.0 * marketPct)
    ensures var usd, m := 100.0 * marketPct, TwoMarkets(category).markets[id];
            && FillFor(m, order) == Fill(0.5, 2.0 * usd, usd, 0.0, 0.0) && ImpactOf(usd, 0.5, m.asks) == 0.0
            && Tradable(HundredDollars(marketPct, categoryPct), m, 0.0)
            && LiveMarketOf(TwoMarkets(category), id) == m && m.id == id
  {
    SharesAtHalf(order.sizeUSD);
    OneLevel(Level(0.5, 1000.0), 0.5, order.sizeUSD);
    OneLevel(Level(0.5, 1000.0), 0.0, order.sizeUSD);
  }

  lemma SharesAtHalf(usd: real)
    requires usd > 0.0
    ensures usd / 0.5 == 2.0 * usd && usd / (2.0 * usd) == 0.5 && usd / (usd / 0.5) == 0.5
  {
    var q := 2.0 * usd;
    assert q * 0.5 == usd;
  }
}
