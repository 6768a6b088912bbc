/** What a cycle of the live service is, as a run of ledger steps: every opening was
    vetted by the probability and risk engines in the state it was taken in, and the
    reported counters are the steps taken. */
module Cycle {
  import opened Model
  import opened OrderBook
  import opened OrderBookTheorems
  import opened Ledger
  import opened LedgerTheorems
  import opened Store
  import opened Risk
  import opened Execution

  datatype LiveResult = LiveResult(
    marketsLoaded: nat, articlesLoaded: nat, matchesCreated: nat, aiCalls: nat, probabilityCandidates: nat,
    riskApproved: nat, riskRejected: nat, paperTradesOpened: nat, positionsClosed: nat)

  const NOTHING_DONE := LiveResult(0, 0, 0, 0, 0, 0, 0, 0, 0)

  /** The evidence behind an opening step: a candidate decision to buy "yes", approved
      by the risk engine for exactly the ordered size in the state the order was placed
      in, and a fill taken from the stored book of that market. */
  ghost predicate Vetted(cfg: Config, venue: Venue, now: real, l: Ledger, s: Step) {
    s.Opening? ==>
      var d := s.basis;
      && s.order.marketId in venue.markets
      && d.candidate && d.edge == d.ourProbability - d.executablePrice
      && Abs(d.edge) >= cfg.edgeThreshold && d.confidence >= cfg.minSignalConfidence
      && s.order == OrderRequest(s.order.marketId, "yes", "buy", d.executablePrice, s.order.sizeUSD)
      && VerdictFor(cfg, venue.markets, l, d, LiveMarketOf(venue, s.order.marketId), 0.0, now) == Approved(s.order.sizeUSD)
      && s.fill == FillFor(venue.markets[s.order.marketId], s.order)
  }

  ghost predicate VettedRun(cfg: Config, venue: Venue, now: real, l: Ledger, steps: seq<Step>)
    requires Run(l, steps)
    decreases |steps|
  {
    steps == [] || (Vetted(cfg, venue, now, l, steps[0])
                    && VettedRun(cfg, venue, now, Apply(l, steps[0]), steps[1..]))
  }

  /** The counters of a result advance with the steps. Every candidate is either
      approved or rejected, and only approved ones open trades. */
  ghost predicate Tallied(before: LiveResult, after: LiveResult, steps: seq<Step>) {
    && after.paperTradesOpened == before.paperTradesOpened + Openings(steps)
    && after.positionsClosed == before.positionsClosed + Closings(steps)
    && after.probabilityCandidates - before.probabilityCandidates
       == (after.riskApproved - before.riskApproved) + (after.riskRejected - before.riskRejected)
    && after.paperTradesOpened - before.paperTradesOpened <= after.riskApproved - before.riskApproved
    && after.probabilityCandidates - before.probabilityCandidates <= after.matchesCreated - before.matchesCreated
  }

  ghost predicate KeyedMarkets(venue: Venue) {
    forall id :: id in venue.markets ==> venue.markets[id].id == id
  }

  /** One stretch of a cycle: from ledger l and counters r, these steps lead to l' and r'. */
  ghost predicate Stretch(cfg: Config, venue: Venue, now: real, l: Ledger, r: LiveResult, steps: seq<Step>,
                          l': Ledger, r': LiveResult)
  {
    && Sound(l') && Run(l, steps) && After(l, steps) == l'
    && VettedRun(cfg, venue, now, l, steps) && Tallied(r, r', steps)
  }

  lemma {:induction false} VettedAppend(cfg: Config, venue: Venue, now: real, l: Ledger, first: seq<Step>, second: seq<Step>)
    requires Run(l, first) && Run(After(l, first), second)
    requires VettedRun(cfg, venue, now, l, first) && VettedRun(cfg, venue, now, After(l, first), second)
    ensures Run(l, first + second) && VettedRun(cfg, venue, now, l, first + second)
    decreases |first|
  {
    hide Vetted, Enabled, Apply;
    RunAppend(l, first, second);
    if first == [] {
      assert first + second == second;
    } else {
      assert (first + second)[1..] == first[1..] + second;
      VettedAppend(cfg, venue, now, Apply(l, first[0]), first[1..], second);
    }
  }

  lemma Chain(cfg: Config, venue: Venue, now: real, l: Ledger, r: LiveResult, first: seq<Step>,
              m: Ledger, s: LiveResult, second: seq<Step>, l': Ledger, r': LiveResult)
    requires Stretch(cfg, venue, now, l, r, first, m, s) && Stretch(cfg, venue, now, m, s, second, l', r')
    ensures Stretch(cfg, venue, now, l, r, first + second, l', r')
  {
    hide VettedRun, Run, After, Sound, Openings, Closings;
    RunAppend(l, first, second);
    VettedAppend(cfg, venue, now, l, first, second);
  }

  lemma OneStep(cfg: Config, venue: Venue, now: real, l: Ledger, r: LiveResult, s: Step, r': LiveResult)
    requires Sound(l) && Enabled(l, s) && Vetted(cfg, venue, now, l, s) && Tallied(r, r', [s])
    ensures Stretch(cfg, venue, now, l, r, [s], Apply(l, s), r')
  {
    hide Vetted, Enabled, Apply, Sound, Tallied;
    SoundStep(l, s);
    RunOne(l, s);
    assert [s][1..] == [];
    assert Run(Apply(l, s), []) && VettedRun(cfg, venue, now, Apply(l, s), []);
  }

  // ---------- What vetting guarantees ----------

  /** Every trade the cycle opens had a positive edge of at least the threshold
      (although the candidate test looks at its absolute value), enough confidence, a
      limit strictly between 0 and 1, and a positive size of at most the Kelly share of
      the portfolio; it fills no more than its size at no more than its limit. */
  lemma VettedTradeQuality(cfg: Config, venue: Venue, now: real, l: Ledger, s: Step)
    requires Sound(l) && PositiveConfig(cfg) && s.Opening? && Enabled(l, s) && Vetted(cfg, venue, now, l, s)
    ensures var value := PortfolioOf(l, cfg.startingBalanceUSD).portfolioValueUSD;
            var p, c := s.basis.ourProbability, s.basis.executablePrice;
            && s.basis.edge >= cfg.edgeThreshold && s.basis.edge > 0.0
            && s.basis.confidence >= cfg.minSignalConfidence
            && s.order.limitPrice == c && 0.0 < c < 1.0
            && 0.0 < s.order.sizeUSD <= value * ((p - c) / (1.0 - c)) * cfg.kellyFraction
            && 0.0 < s.fill.filledUSD <= s.order.sizeUSD && s.fill.averagePrice <= c && s.fill.slippageUSD == 0.0
  {
    hide PortfolioOf, FillOf, VerdictFor, Consistent;
    var market := LiveMarketOf(venue, s.order.marketId);
    ApprovedBounds(cfg, venue.markets, l, s.basis, market, 0.0, now);
    var m := venue.markets[s.order.marketId];
    FillForIsConsistent(m, s.order);
    FilledIsPositive(s.fill);
    FillWithinLimit(m, s.order);
  }

  lemma FilledIsPositive(f: Fill)
    requires Consistent(f) && f.quantity > 0.0
    ensures f.filledUSD > 0.0
  {}

  lemma FillWithinLimit(m: Market, order: OrderRequest)
    requires order.sizeUSD > 0.0 && order.limitPrice > 0.0 && order.side == "buy"
    requires FillFor(m, order).quantity > 0.0
    ensures FillFor(m, order).averagePrice <= order.limitPrice && FillFor(m, order).slippageUSD == 0.0
  {
    hide FillOf;
    var levels := LevelsFor(m, order);
    var b := Offers(levels, order.limitPrice, "buy");
    FillConserves(order.sizeUSD, order.limitPrice, "buy", levels);
    OffersAreEligible(levels, order.limitPrice, "buy");
    var lo := LowestPrice(b);
    FillPriceBounds(order.sizeUSD, order.limitPrice, "buy", levels, lo, order.limitPrice);
  }

  /** How many dollars of a buy the provider fills completely: what the limit leaves of
      the stored asks or, without any, as much as is ordered, of which a walk over the
      live book can spend no more than that book holds. */
  function FillableUSD(m: Market, live: Market, limitPrice: real): real {
    if m.asks != [] then Depth(Offers(m.asks, limitPrice, "buy")) else Depth(Offers(live.asks, 0.0, "buy"))
  }

  /** The price impact is estimated on the live book and the order filled on the stored
      one. The check lets every order pass that its limit lets fill completely if and
      only if walking the live book stays within the bound up to what can be filled. */
  lemma CheckPassesFillsIff(m: Market, live: Market, order: OrderRequest, bound: real)
    requires order.side == "buy" && order.limitPrice > 0.0 && bound >= 0.0
    ensures (forall size :: size > 0.0 && FillFor(m, order.(sizeUSD := size)).filledUSD == size
               ==> ImpactOf(size, order.limitPrice, live.asks) <= bound)
       <==> if m.asks == [] && Offers(live.asks, 0.0, "buy") == [] then live.asks == [] || bound >= 1.0
            else ImpactStaysWithin(live.asks, order.limitPrice, bound, FillableUSD(m, live, order.limitPrice))
  {
    var c := order.limitPrice;
    if m.asks != [] {
      hide ImpactOf, FillOf, ImpactStaysWithin, Depth, Offers;
      CheckCoversFillIff(m.asks, live.asks, c, bound);
      forall size
        ensures FillFor(m, order.(sizeUSD := size)) == FillOf(size, c, "buy", m.asks)
      {}
    } else {
      forall size | size > 0.0
        ensures FillFor(m, order.(sizeUSD := size)).filledUSD == size
      {
        EmptyBookFills(m, order, size);
      }
      if Offers(live.asks, 0.0, "buy") == [] {
        NothingOffered(c, live.asks);
        assert ImpactOf(1.0, c, live.asks) == if live.asks == [] then 0.0 else 1.0;
        hide FillFor, ImpactOf;
        assert FillFor(m, order.(sizeUSD := 1.0)).filledUSD == 1.0;
      } else {
        hide FillFor, ImpactOf, ImpactStaysWithin, Depth, Offers;
        var budget := Depth(Offers(live.asks, 0.0, "buy"));
        ImpactStaysWithinIff(live.asks, c, bound, budget);
        SomeDepth(Offers(live.asks, 0.0, "buy"));
        forall size | size > budget
          ensures ImpactOf(size, c, live.asks) == ImpactOf(budget, c, live.asks)
        {
          BeyondTheBook(size, c, live.asks);
        }
        assert FillFor(m, order.(sizeUSD := budget)).filledUSD == budget;
        forall size | 0.0 < size <= budget
          ensures FillFor(m, order.(sizeUSD := size)).filledUSD == size
        {}
      }
    }
  }

  lemma EmptyBookFills(m: Market, order: OrderRequest, size: real)
    requires m.asks == [] && order.side == "buy" && order.limitPrice > 0.0 && size > 0.0
    ensures FillFor(m, order.(sizeUSD := size)).filledUSD == size
  {
    var p := order.limitPrice;
    var o := Level(p, size / p);
    assert size / p > 0.0 && p * (size / p) == size;
    OneLevel(o, p, size);
    assert size / p != 0.0;
    hide FillOf;
    assert LevelsFor(m, order.(sizeUSD := size)) == [o];
    FillConserves(size, p, "buy", [o]);
    DepthOfOne(o);
  }

  lemma DepthOfOne(o: Offer)
    ensures Depth([o]) == o.price * o.size
  {}

  lemma SomeDepth(b: seq<Offer>)
    requires b != []
    ensures Depth(b) > 0.0
  {
    SpendIsAllocation(b[1..], 0.0);
  }

  /** An order larger than the book spends what the book holds. */
  lemma BeyondTheBook(size: real, expected: real, levels: seq<Level>)
    requires var b := Offers(levels, 0.0, "buy"); b != [] && size >= Depth(b) > 0.0
    ensures ImpactOf(size, expected, levels) == ImpactOf(Depth(Offers(levels, 0.0, "buy")), expected, levels)
  {
    var b := Offers(levels, 0.0, "buy");
    WholeBook(b, size);
    WholeBook(b, Depth(b));
  }

  lemma {:induction false} WholeBook(b: seq<Offer>, size: real)
    requires size >= Depth(b)
    ensures Paid(Spend(b, size)) == Paid(Spend(b, Depth(b))) && Bought(b, Spend(b, size)) == Bought(b, Spend(b, Depth(b)))
  {
    hide Cap, Shares;
    if b != [] {
      assert b == [b[0]] + b[1..];
      SpendIsAllocation(b[1..], 0.0);
      WholeBook(b[1..], size - Cap(b[0]));
      SpendOnFirst(b[0], b[1..], size);
      SpendOnFirst(b[0], b[1..], Depth(b));
    }
  }

  /** So an order whose impact exceeds the bound could not have been filled completely,
      wherever walking the live book stays within the bound; sorted books that agree do
      so at every bound. */
  lemma ImpactMeansPartialFill(m: Market, live: Market, order: OrderRequest, bound: real)
    requires order.side == "buy" && order.sizeUSD > 0.0 && order.limitPrice > 0.0 && bound >= 0.0
    requires m.asks != []
    requires ImpactStaysWithin(live.asks, order.limitPrice, bound, FillableUSD(m, live, order.limitPrice))
             || (live.asks == m.asks && Ascending(Offers(m.asks, 0.0, "buy")))
    requires ImpactOf(order.sizeUSD, order.limitPrice, live.asks) > bound
    ensures FillFor(m, order).filledUSD < order.sizeUSD
  {
    hide ImpactOf, FillOf, Offers, Ascending, ImpactStaysWithin, FillableUSD;
    FillForIsConsistent(m, order);
    CheckPassesFillsIff(m, live, order, bound);
    assert order.(sizeUSD := order.sizeUSD) == order;
    if FillFor(m, order).filledUSD == order.sizeUSD && live.asks == m.asks && Ascending(Offers(m.asks, 0.0, "buy")) {
      FullLimitedFillHasNoImpact(order.sizeUSD, order.limitPrice, m.asks);
    }
  }

  /** Where they differ the estimate says nothing about the fill: streamed asks at 0.9
      give an impact of 80%, and the stored ask at the limit of 0.5 fills the order. */
  lemma StoredBookFillsAnyway()
    ensures var m := Market("m", "", "", None, 0.0, 0.5, 0.0, 0.5, 0.5, 0.0, [], [Level(0.5, 100.0)]);
            var live := ApplyLiveState(m, LiveMarketState("m", 0.0, 0.0, 0.0, 0.0, 0.0, [], [Level(0.9, 100.0)]));
            var order := OrderRequest("m", "yes", "buy", 0.5, 9.0);
            && ImpactOf(9.0, 0.5, live.asks) == 0.8 && FillFor(m, order).filledUSD == 9.0
  {
    var dear, fair := Level(0.9, 100.0), Level(0.5, 100.0);
    OneLevel(dear, 0.0, 9.0);
    OneLevel(fair, 0.5, 9.0);
  }

  lemma OneLevel(o: Level, limitPrice: real, size: real)
    requires o.price > 0.0 && o.size > 0.0 && 0.0 < size <= o.price * o.size
    requires limitPrice > 0.0 ==> o.price <= limitPrice
    ensures var b := Offers([o], limitPrice, "buy");
            b == [o] && Paid(Spend(b, size)) == size && Bought(b, Spend(b, size)) == size / o.price
  {
    assert [o][1..] == [];
    SpendsOnFirstOnly(o, [], size);
    assert [o] + [] == [o];
  }

  lemma {:induction false} LowestPrice(b: seq<Offer>) returns (lo: real)
    requires b != []
    ensures lo > 0.0 && (forall o :: o in b ==> lo <= o.price) && exists o :: o in b && o.price == lo
  {
    lo := b[0].price;
    if |b| > 1 {
      var rest := LowestPrice(b[1..]);
      lo := Min(lo, rest);
      assert forall o :: o in b ==> o == b[0] || o in b[1..];
    }
  }

  /** After every opening of a cycle, the market and category it traded in are within
      their caps of a freshly computed portfolio value, and the number of open positions
      is within its limit. */
  lemma CapsHoldAfterEveryOpening(cfg: Config, venue: Venue, now: real, l: Ledger, steps: seq<Step>, i: nat)
    requires Sound(l) && PositiveConfig(cfg) && KeyedMarkets(venue) && Run(l, steps)
    requires VettedRun(cfg, venue, now, l, steps) && i < |steps| && steps[i].Opening?
    ensures Run(l, steps[..i + 1]) && steps[i].order.marketId in venue.markets
    ensures var after, id := After(l, steps[..i + 1]), steps[i].order.marketId;
            WithinCaps(cfg, venue.markets, after, id, venue.markets[id].category)
            && OpenCount(after) <= cfg.maxTotalOpenPositions
  {
    hide Sound, WithinCaps, VerdictFor;
    VettedAt(cfg, venue, now, l, steps, i);
    var before, s := After(l, steps[..i]), steps[i];
    SoundRun(l, steps[..i]);
    VettedTradeQuality(cfg, venue, now, before, s);
    var market := LiveMarketOf(venue, s.order.marketId);
    CapsSurviveExecution(cfg, venue.markets, before, s.basis, market, 0.0, now, s);
    RunPrefix(l, steps, i + 1);
    RunOne(before, s);
    RunAppend(l, steps[..i], [s]);
    assert steps[..i + 1] == steps[..i] + [s];
  }

  /** While a cycle only opens, no market and no category that was within its cap ever
      leaves it, and one that was beyond it before grows no further. */
  lemma {:induction false} CapsHoldWhileOpening(cfg: Config, venue: Venue, now: real, l: Ledger, steps: seq<Step>, i: nat)
    requires Sound(l) && PositiveConfig(cfg) && KeyedMarkets(venue) && Run(l, steps)
    requires VettedRun(cfg, venue, now, l, steps) && forall j :: 0 <= j < |steps| ==> steps[j].Opening?
    requires i <= |steps|
    ensures Run(l, steps[..i]) && NoneBeyondCap(cfg, venue.markets, l, After(l, steps[..i]))
    decreases i
  {
    hide Sound, VerdictFor, NoneBeyondCap, Enabled, Apply, Vetted;
    if i == 0 {
      assert steps[..0] == [];
      NothingBeyond(cfg, venue.markets, l);
    } else {
      var l' := Apply(l, steps[0]);
      SoundStep(l, steps[0]);
      VettedOpeningIsWithinCaps(cfg, venue, now, l, steps[0]);
      CapsHoldWhileOpening(cfg, venue, now, l', steps[1..], i - 1);
      assert steps[..i][1..] == steps[1..][..i - 1];
      NoneBeyondChain(cfg, venue.markets, l, l', After(l', steps[1..][..i - 1]));
    }
  }

  lemma VettedOpeningIsWithinCaps(cfg: Config, venue: Venue, now: real, l: Ledger, s: Step)
    requires Sound(l) && PositiveConfig(cfg) && KeyedMarkets(venue)
    requires s.Opening? && Enabled(l, s) && Vetted(cfg, venue, now, l, s)
    ensures NoneBeyondCap(cfg, venue.markets, l, Apply(l, s))
  {
    hide Sound, VerdictFor, NoneBeyondCap, Enabled, Apply, FillFor;
    VettedTradeQuality(cfg, venue, now, l, s);
    var market := LiveMarketOf(venue, s.order.marketId);
    ApprovedOpeningIsWithinCaps(cfg, venue.markets, l, s.basis, market, 0.0, now, s);
  }

  lemma NothingBeyond(cfg: Config, markets: map<string, Market>, l: Ledger)
    ensures NoneBeyondCap(cfg, markets, l, l)
  {
    hide PortfolioOf, MarketExposure, CategoryExposure, MarketCap, CategoryCap;
  }

  lemma NoneBeyondChain(cfg: Config, markets: map<string, Market>, l: Ledger, m: Ledger, l': Ledger)
    requires NoneBeyondCap(cfg, markets, l, m) && NoneBeyondCap(cfg, markets, m, l')
    ensures NoneBeyondCap(cfg, markets, l, l')
  {
    hide PortfolioOf, MarketExposure, CategoryExposure, MarketCap, CategoryCap;
  }

  lemma {:induction false} VettedAt(cfg: Config, venue: Venue, now: real, l: Ledger, steps: seq<Step>, i: nat)
    requires Run(l, steps) && VettedRun(cfg, venue, now, l, steps) && i < |steps|
    ensures Run(l, steps[..i])
    ensures Enabled(After(l, steps[..i]), steps[i]) && Vetted(cfg, venue, now, After(l, steps[..i]), steps[i])
    decreases i
  {
    hide Vetted, Enabled, Apply;
    RunPrefix(l, steps, i);
    if i == 0 {
      assert steps[..0] == [];
    } else {
      VettedAt(cfg, venue, now, Apply(l, steps[0]), steps[1..], i - 1);
      assert steps[..i][1..] == steps[1..][..i - 1];
    }
  }

  /** A cycle that starts within the limit on open positions never exceeds it. */
  lemma {:induction false} OpenPositionsStayWithinLimit(cfg: Config, venue: Venue, now: real, l: Ledger, steps: seq<Step>)
    requires Sound(l) && Run(l, steps) && VettedRun(cfg, venue, now, l, steps)
    requires OpenCount(l) <= cfg.maxTotalOpenPositions
    ensures OpenCount(After(l, steps)) <= cfg.maxTotalOpenPositions
    decreases |steps|
  {
    hide OpenCount, Sound, Enabled, Apply;
    if steps != [] {
      SoundStep(l, steps[0]);
      OpenCountStep(l, steps[0]);
      OpenPositionsStayWithinLimit(cfg, venue, now, Apply(l, steps[0]), steps[1..]);
    }
  }

  // ---------- Sequences of cycles ----------

  /** One cycle: the markets as they stood, the clock, and the steps it took. */
  datatype CycleRecord = CycleRecord(venue: Venue, now: real, steps: seq<Step>)

  /** Cycles run one after another; markets may change in between. */
  ghost predicate History(cfg: Config, l: Ledger, cycles: seq<CycleRecord>)
    decreases |cycles|
  {
    cycles == [] ||
    var c := cycles[0];
    && Run(l, c.steps) && VettedRun(cfg, c.venue, c.now, l, c.steps)
    && History(cfg, After(l, c.steps), cycles[1..])
  }

  function AllSteps(cycles: seq<CycleRecord>): seq<Step> {
    if cycles == [] then [] else cycles[0].steps + AllSteps(cycles[1..])
  }

  lemma NoHistory(cfg: Config, l: Ledger)
    ensures History(cfg, l, []) && AllSteps([]) == [] && Run(l, []) && After(l, []) == l
  {}

  /** One more cycle, run on the books the earlier ones left, continues a history. */
  lemma HistoryMore(cfg: Config, l: Ledger, cycles: seq<CycleRecord>, c: CycleRecord)
    requires History(cfg, l, cycles) && Run(l, AllSteps(cycles)) && Run(After(l, AllSteps(cycles)), c.steps)
    requires VettedRun(cfg, c.venue, c.now, After(l, AllSteps(cycles)), c.steps)
    ensures History(cfg, l, cycles + [c]) && AllSteps(cycles + [c]) == AllSteps(cycles) + c.steps
    ensures Run(l, AllSteps(cycles + [c]))
    ensures After(l, AllSteps(cycles + [c])) == After(After(l, AllSteps(cycles)), c.steps)
  {
    hide Run, After, VettedRun, History, AllSteps;
    AllStepsMore(cycles, c);
    RunAppend(l, AllSteps(cycles), c.steps);
    HistorySnoc(cfg, l, cycles, c);
  }

  lemma {:induction false} HistorySnoc(cfg: Config, l: Ledger, cycles: seq<CycleRecord>, c: CycleRecord)
    requires History(cfg, l, cycles) && Run(l, AllSteps(cycles)) && Run(After(l, AllSteps(cycles)), c.steps)
    requires VettedRun(cfg, c.venue, c.now, After(l, AllSteps(cycles)), c.steps)
    ensures History(cfg, l, cycles + [c])
    decreases |cycles|
  {
    hide Run, After, VettedRun;
    if cycles == [] {
      assert cycles + [c] == [c] && [c][1..] == [];
      NoHistory(cfg, l);
    } else {
      hide History;
      var first, rest := cycles[0], cycles[1..];
      RunPrefix(l, AllSteps(cycles), |first.steps|);
      assert AllSteps(cycles)[..|first.steps|] == first.steps && AllSteps(cycles)[|first.steps|..] == AllSteps(rest);
      HistoryFirst(cfg, l, cycles);
      HistorySnoc(cfg, After(l, first.steps), rest, c);
      assert (cycles + [c])[1..] == rest + [c];
      HistoryFirst(cfg, l, cycles + [c]);
    }
  }

  lemma HistoryFirst(cfg: Config, l: Ledger, cycles: seq<CycleRecord>)
    requires cycles != []
    ensures History(cfg, l, cycles) <==>
              && Run(l, cycles[0].steps) && VettedRun(cfg, cycles[0].venue, cycles[0].now, l, cycles[0].steps)
              && History(cfg, After(l, cycles[0].steps), cycles[1..])
  {
    hide Run, After, VettedRun;
  }

  lemma {:induction false} AllStepsMore(cycles: seq<CycleRecord>, c: CycleRecord)
    ensures AllSteps(cycles + [c]) == AllSteps(cycles) + c.steps
  {
    if cycles == [] {
      assert cycles + [c] == [c] && [c][1..] == [];
    } else {
      assert (cycles + [c])[1..] == cycles[1..] + [c];
      AllStepsMore(cycles[1..], c);
    }
  }

  /** Over any sequence of cycles: it is one run of ledger steps; open positions stay
      within the limit they start within; their number changes by exactly the openings
      minus the closings; no position is closed twice; and the realised profit grows by
      exactly the profits of the closes. */
  lemma {:induction false} AnyNumberOfCycles(cfg: Config, l: Ledger, cycles: seq<CycleRecord>)
    requires Sound(l) && History(cfg, l, cycles) && OpenCount(l) <= cfg.maxTotalOpenPositions
    ensures var steps := AllSteps(cycles);
            && Run(l, steps) && Sound(After(l, steps))
            && OpenCount(After(l, steps)) <= cfg.maxTotalOpenPositions
            && OpenCount(After(l, steps)) == OpenCount(l) + Openings(steps) - Closings(steps)
            && (forall i, j :: 0 <= i < j < |steps| && steps[i].Closing? && steps[j].Closing? ==>
                  steps[i].positionId != steps[j].positionId)
            && Realized(After(l, steps)) == Realized(l) + ClosedProfits(l, steps)
    decreases |cycles|
  {
    hide OpenCount, Sound, Enabled, Apply, VettedRun, Realized, ClosedProfits;
    var steps := AllSteps(cycles);
    if cycles != [] {
      var c := cycles[0];
      SoundRun(l, c.steps);
      OpenPositionsStayWithinLimit(cfg, c.venue, c.now, l, c.steps);
      AnyNumberOfCycles(cfg, After(l, c.steps), cycles[1..]);
      RunAppend(l, c.steps, AllSteps(cycles[1..]));
    }
    assert Run(l, steps);
    OpenCountOverRun(l, steps);
    RealizedOverRun(l, steps);
    forall i, j | 0 <= i < j < |steps| && steps[i].Closing? && steps[j].Closing?
      ensures steps[i].positionId != steps[j].positionId
    {
      ClosesAtMostOnce(l, steps, i, j);
    }
  }
}
