/** Trades and positions are linked only by approximate equality of quantity or size.
    When that finds a position's own trade, and exactly when closing keeps the cash
    side and the exposure side of the portfolio equal. */
module Pairing {
  import opened Model
  import opened Sets
  import opened OrderBook
  import opened Ledger
  import opened LedgerTheorems

  /** The history the store does not keep: which trade each position was opened with. */
  datatype Pairing = Pairing(own: map<string, string>, holder: map<string, string>)

  function Advance(pr: Pairing, s: Step): Pairing {
    match s
    case Opening(t, p, _, _, _) => Pairing(pr.own[p := t], pr.holder[t := p])
    case _ => pr
  }

  ghost predicate Mirrors(t: Trade, p: Position) {
    && t.status.Open? && t.marketId == p.marketId && t.outcome == p.outcome
    && t.quantity == p.quantity && t.sizeUSD == p.exposureUSD
  }

  ghost predicate IsOpen(l: Ledger, p: string) {
    p in l.positions && l.positions[p].status.Open?
  }

  /** Open trades and open positions are in bijection, with equal market, outcome,
      quantity and size. */
  ghost predicate Paired(l: Ledger, pr: Pairing) {
    && (forall p :: IsOpen(l, p) ==>
          && p in pr.own && pr.own[p] in l.trades && Mirrors(l.trades[pr.own[p]], l.positions[p])
          && pr.own[p] in pr.holder && pr.holder[pr.own[p]] == p)
    && (forall t :: t in l.trades && l.trades[t].status.Open? ==>
          && t in pr.holder && IsOpen(l, pr.holder[t])
          && pr.holder[t] in pr.own && pr.own[pr.holder[t]] == t)
  }

  ghost predicate SameMarket(p: Position, q: Position) {
    p.marketId == q.marketId && p.outcome == q.outcome
  }

  /** Open fills of one market and outcome differ by at least 0.000001, both in
      quantity and in size. */
  ghost predicate Separated(l: Ledger) {
    forall p, q ::
      IsOpen(l, p) && IsOpen(l, q) && p != q && SameMarket(l.positions[p], l.positions[q]) ==>
        && Abs(l.positions[p].quantity - l.positions[q].quantity) >= 0.000001
        && Abs(l.positions[p].exposureUSD - l.positions[q].exposureUSD) >= 0.000001
  }

  ghost predicate Balanced(l: Ledger) { Committed(l) == Exposure(l) }

  // ---------- The match finds the position's own trade ----------

  lemma MatchIsOwn(l: Ledger, pr: Pairing, p: string, r: Option<string>)
    requires Paired(l, pr) && Separated(l) && |l.trades| <= 10000
    requires IsOpen(l, p) && MatchOutcome(l, l.positions[p], r)
    ensures r == Some(pr.own[p])
  {
    var listed :| Scan(l, l.positions[p], listed, r);
    FullSubset(listed, l.trades.Keys);
    assert Matches(l.trades[pr.own[p]], l.positions[p]);
    var t := r.value;
    assert l.trades[t].status.Open?;
    assert IsOpen(l, pr.holder[t]);
    assert Mirrors(l.trades[pr.own[pr.holder[t]]], l.positions[pr.holder[t]]);
  }

  /** What the match looks at, in numbers: an open trade of the same market and outcome
      whose quantity or whose size is less than 0.000001 away. */
  lemma MatchesIff(t: Trade, p: Position)
    ensures Matches(t, p) <==>
              && t.status.Open? && t.marketId == p.marketId && t.outcome == p.outcome
              && (-0.000001 < t.quantity - p.quantity < 0.000001 || -0.000001 < t.sizeUSD - p.exposureUSD < 0.000001)
  {}

  /** Either is enough: ten shares at 0.40 and eight at 0.50 cost the same four dollars,
      so closing the first may settle the trade of the second. */
  lemma EqualSizesMatch(order: OrderRequest)
    ensures var t := NewTrade("t2", order, Fill(0.5, 8.0, 4.0, 0.0, 0.0));
            var p := NewPosition("p1", order, Fill(0.4, 10.0, 4.0, 0.0, 0.0));
            Matches(t, p) && !ApproxEqual(t.quantity, p.quantity)
  {}

  lemma PairedOpening(l: Ledger, pr: Pairing, s: Step)
    requires Paired(l, pr) && s.Opening? && Enabled(l, s)
    ensures Paired(Apply(l, s), Advance(pr, s))
  {}

  lemma PairedMarking(l: Ledger, pr: Pairing, s: Step)
    requires Paired(l, pr) && s.Marking? && Enabled(l, s)
    ensures Paired(Apply(l, s), pr)
  {}

  lemma PairedClosing(l: Ledger, pr: Pairing, p: Position, exitPrice: real, freshId: string)
    requires Paired(l, pr) && IsOpen(l, p.id) && l.positions[p.id] == p
    ensures Paired(Settle(l, p, exitPrice, Some(pr.own[p.id]), freshId), pr)
  {}

  lemma PairedStep(l: Ledger, pr: Pairing, s: Step)
    requires Sound(l) && Paired(l, pr) && Enabled(l, s) && Balanced(l)
    requires Separated(l) && |l.trades| <= LIST_LIMIT
    ensures Paired(Apply(l, s), Advance(pr, s)) && Balanced(Apply(l, s))
  {
    match s
    case Opening(_, _, _, _, _) =>
      hide Paired, Separated, Committed, Exposure, Consistent, Sound;
      PairedOpening(l, pr, s);
      OpeningSums(l, s);
    case Marking(_, _) =>
      hide Paired, Separated, Committed, Exposure, Sound;
      PairedMarking(l, pr, s);
      MarkingSums(l, s);
    case Closing(p, exitPrice, matched, freshId) =>
      hide Separated, Committed, Exposure, Settle, MatchOutcome;
      MatchIsOwn(l, pr, p, matched);
      assert Mirrors(l.trades[pr.own[p]], l.positions[p]);
      SettleSums(l, l.positions[p], exitPrice, matched, freshId);
      PairedClosing(l, pr, l.positions[p], exitPrice, freshId);
  }

  /** The separation hypothesis along a run. */
  ghost predicate SeparatedRun(l: Ledger, steps: seq<Step>)
    requires Run(l, steps)
    decreases |steps|
  {
    && Separated(l) && |l.trades| <= 10000
    && (steps != [] ==> SeparatedRun(Apply(l, steps[0]), steps[1..]))
  }

  function AdvanceAll(pr: Pairing, steps: seq<Step>): Pairing
    decreases |steps|
  {
    if steps == [] then pr else AdvanceAll(Advance(pr, steps[0]), steps[1..])
  }

  lemma {:induction false} PairedRun(l: Ledger, pr: Pairing, steps: seq<Step>)
    requires Sound(l) && Paired(l, pr) && Balanced(l) && Run(l, steps) && SeparatedRun(l, steps)
    ensures Paired(After(l, steps), AdvanceAll(pr, steps)) && Balanced(After(l, steps))
    decreases |steps|
  {
    hide Paired, Balanced, Separated;
    if steps != [] {
      PairedStep(l, pr, steps[0]);
      SoundStep(l, steps[0]);
      PairedRun(Apply(l, steps[0]), Advance(pr, steps[0]), steps[1..]);
    }
  }

  /** From an empty ledger, while open fills stay separated: every match is the
      position's own trade, trades and positions stay in bijection, and the portfolio
      is worth the starting cash plus the open profit. */
  lemma SeparatedRunsKeepTheBooks(steps: seq<Step>, startingCash: real)
    requires Run(EMPTY, steps) && SeparatedRun(EMPTY, steps)
    ensures var l, pr := After(EMPTY, steps), AdvanceAll(Pairing(map[], map[]), steps);
            && Paired(l, pr)
            && PortfolioOf(l, startingCash).portfolioValueUSD == startingCash + OpenPnL(l)
            && forall p, r :: IsOpen(l, p) && MatchOutcome(l, l.positions[p], r) ==> r == Some(pr.own[p])
  {
    var pr0 := Pairing(map[], map[]);
    PairedRun(EMPTY, pr0, steps);
    SeparatedAtEnd(EMPTY, steps);
    var l, pr := After(EMPTY, steps), AdvanceAll(pr0, steps);
    forall p, r | IsOpen(l, p) && MatchOutcome(l, l.positions[p], r)
      ensures r == Some(pr.own[p])
    {
      MatchIsOwn(l, pr, p, r);
    }
  }

  lemma {:induction false} SeparatedAtEnd(l: Ledger, steps: seq<Step>)
    requires Run(l, steps) && SeparatedRun(l, steps)
    ensures Separated(After(l, steps)) && |After(l, steps).trades| <= LIST_LIMIT
    decreases |steps|
  {
    hide Separated, Enabled, Apply;
    if steps != [] {
      SeparatedAtEnd(Apply(l, steps[0]), steps[1..]);
    }
  }

  /** Realised profit never reaches cash: over any such run the portfolio is worth the
      starting cash plus the daily profit if and only if the profits of the run's closes
      add up to nothing. */
  lemma ValueIncludesProfitOverRunIff(steps: seq<Step>, startingCash: real)
    requires Run(EMPTY, steps) && SeparatedRun(EMPTY, steps)
    ensures var portfolio := PortfolioOf(After(EMPTY, steps), startingCash);
            portfolio.portfolioValueUSD == startingCash + portfolio.dailyPnLUSD <==> ClosedProfits(EMPTY, steps) == 0.0
  {
    hide PortfolioOf, SeparatedRun;
    PairedRun(EMPTY, Pairing(map[], map[]), steps);
    RealizedOverRun(EMPTY, steps);
    ValueIncludesProfitIff(After(EMPTY, steps), startingCash);
  }

  // ---------- Exactly when a close keeps the books balanced ----------

  function NonMatching(l: Ledger, p: Position): set<string> {
    set t | t in l.trades && !Matches(l.trades[t], p)
  }

  /** What a caller can check before closing p: every trade the match could return has
      exactly p's size, and too few trades fail to match for a listing to miss. */
  ghost predicate SafeToClose(l: Ledger, p: Position) {
    && |NonMatching(l, p)| < Listed(|l.trades|)
    && forall t :: t in l.trades && Matches(l.trades[t], p) ==> l.trades[t].sizeUSD == p.exposureUSD
  }

  lemma SettleBalancedIff(l: Ledger, p: Position, exitPrice: real, r: Option<string>, freshId: string)
    requires Sound(l) && Balanced(l) && p.id in l.positions && l.positions[p.id] == p && p.status.Open?
    requires freshId !in l.trades && (r.Some? ==> r.value in l.trades && Matches(l.trades[r.value], p))
    ensures Balanced(Settle(l, p, exitPrice, r, freshId))
       <==> r.Some? && l.trades[r.value].sizeUSD == p.exposureUSD
  {
    hide Settle, Committed, Exposure, Profit, ApproxEqual;
    SettleSums(l, p, exitPrice, r, freshId);
  }

  lemma MissPossible(l: Ledger, p: Position)
    requires |NonMatching(l, p)| >= Listed(|l.trades|)
    ensures MatchOutcome(l, p, None)
  {
    var listed := SubsetOfSize(NonMatching(l, p), Listed(|l.trades|));
    assert forall t :: t in listed ==> t in NonMatching(l, p);
    assert Scan(l, p, listed, None);
  }

  lemma HitPossible(l: Ledger, p: Position, t: string)
    requires t in l.trades && Matches(l.trades[t], p)
    ensures MatchOutcome(l, p, Some(t))
  {
    var n := Listed(|l.trades|);
    assert |l.trades.Keys - {t}| == |l.trades| - 1;
    var rest := SubsetOfSize(l.trades.Keys - {t}, n - 1);
    var listed := rest + {t};
    assert Scan(l, p, listed, Some(t));
  }

  lemma OutcomeIsMatch(l: Ledger, p: Position, r: Option<string>)
    requires MatchOutcome(l, p, r)
    ensures r.Some? ==> r.value in l.trades && Matches(l.trades[r.value], p)
    ensures r.None? ==> |NonMatching(l, p)| >= Listed(|l.trades|)
  {
    if r.None? {
      var listed :| Scan(l, p, listed, r);
      SubsetCardinality(listed, NonMatching(l, p));
    }
  }

  /** A match may be missed exactly when as many trades fail to match as one listing
      holds: all of them, or 10000. */
  lemma MissedIff(l: Ledger, p: Position)
    ensures MatchOutcome(l, p, None) <==> |NonMatching(l, p)| == |l.trades| || |NonMatching(l, p)| >= 10000
  {
    hide MatchOutcome, Matches;
    SubsetCardinality(NonMatching(l, p), l.trades.Keys);
    if |NonMatching(l, p)| >= Listed(|l.trades|) {
      MissPossible(l, p);
    }
    if MatchOutcome(l, p, None) {
      OutcomeIsMatch(l, p, None);
    }
  }

  /** Whatever order the store lists its trades in, closing p keeps the books balanced
      if and only if p is safe to close. */
  lemma CloseBalancedIffSafe(l: Ledger, p: Position, exitPrice: real, freshId: string)
    requires Sound(l) && Balanced(l) && p.id in l.positions && l.positions[p.id] == p && p.status.Open?
    requires freshId !in l.trades
    ensures (forall r: Option<string> :: MatchOutcome(l, p, r) ==>
               && (r.Some? ==> r.value in l.trades)
               && Balanced(Settle(l, p, exitPrice, r, freshId)))
       <==> SafeToClose(l, p)
  {
    hide MatchOutcome, Matches, Settle, Balanced, Sound;
    forall r: Option<string> | MatchOutcome(l, p, r)
      ensures r.Some? ==> r.value in l.trades && Matches(l.trades[r.value], p)
      ensures r.None? ==> |NonMatching(l, p)| >= Listed(|l.trades|)
      ensures Balanced(Settle(l, p, exitPrice, r, freshId))
         <==> r.Some? && l.trades[r.value].sizeUSD == p.exposureUSD
    {
      OutcomeIsMatch(l, p, r);
      SettleBalancedIff(l, p, exitPrice, r, freshId);
    }
    if |NonMatching(l, p)| >= Listed(|l.trades|) {
      MissPossible(l, p);
    }
    forall t | t in l.trades && Matches(l.trades[t], p)
      ensures MatchOutcome(l, p, Some(t))
    {
      HitPossible(l, p, t);
    }
    if SafeToClose(l, p) {
    } else if t :| t in l.trades && Matches(l.trades[t], p) && l.trades[t].sizeUSD != p.exposureUSD {
      assert MatchOutcome(l, p, Some(t));
    }
  }

  // ---------- Closing twice ----------

  lemma SomeOutcome(l: Ledger, p: Position) returns (r: Option<string>)
    ensures MatchOutcome(l, p, r)
  {
    hide MatchOutcome, Matches;
    if t :| t in l.trades && Matches(l.trades[t], p) {
      HitPossible(l, p, t);
      r := Some(t);
    } else {
      assert NonMatching(l, p) == l.trades.Keys;
      MissPossible(l, p);
      r := None;
    }
  }

  /** The provider does not look at the status. Settling a position that is already
      closed books its profit once more under every listing order, so realised profit
      stays the same exactly when the exit price is the entry price; and cash stays the
      same under every order exactly when every open trade the match could take for the
      position's has no size. */
  lemma RecloseIff(l: Ledger, p: Position, exitPrice: real, freshId: string)
    requires Sound(l) && p.id in l.positions && l.positions[p.id] == p && p.status.Closed? && freshId !in l.trades
    ensures forall r: Option<string> :: MatchOutcome(l, p, r) ==>
              && (r.Some? ==> r.value in l.trades)
              && Realized(Settle(l, p, exitPrice, r, freshId)) == Realized(l) + Profit(p, exitPrice)
    ensures (forall r: Option<string> :: MatchOutcome(l, p, r) ==>
               (r.Some? ==> r.value in l.trades) && Realized(Settle(l, p, exitPrice, r, freshId)) == Realized(l))
       <==> exitPrice == p.avgEntryPrice
    ensures (forall r: Option<string> :: MatchOutcome(l, p, r) ==>
               (r.Some? ==> r.value in l.trades) && Committed(Settle(l, p, exitPrice, r, freshId)) == Committed(l))
       <==> forall t :: t in l.trades && Matches(l.trades[t], p) ==> l.trades[t].sizeUSD == 0.0
  {
    assert PositionOk(p.id, p);
    ProfitIsNothingIff(p, exitPrice);
    hide MatchOutcome, Matches, Settle, Realized, Committed, Exposure, Profit, Sound;
    forall r: Option<string> | MatchOutcome(l, p, r)
      ensures r.Some? ==> r.value in l.trades && Matches(l.trades[r.value], p)
      ensures Realized(Settle(l, p, exitPrice, r, freshId)) == Realized(l) + Profit(p, exitPrice)
      ensures Committed(Settle(l, p, exitPrice, r, freshId)) == Committed(l) <==> r.None? || l.trades[r.value].sizeUSD == 0.0
    {
      OutcomeIsMatch(l, p, r);
      RecloseBooksTwice(l, p, exitPrice, r, freshId);
    }
    var r := SomeOutcome(l, p);
    if t :| t in l.trades && Matches(l.trades[t], p) && l.trades[t].sizeUSD != 0.0 {
      HitPossible(l, p, t);
      assert MatchOutcome(l, p, Some(t));
    }
  }

  lemma ProfitIsNothingIff(p: Position, exitPrice: real)
    ensures PositionOk(p.id, p) ==> (Profit(p, exitPrice) == 0.0 <==> exitPrice == p.avgEntryPrice)
  {}

  /** Ten shares bought at 0.40 and closed at 0.60. */
  function BoughtAndSold(order: OrderRequest, basis: ProbabilityDecision): seq<Step> {
    [Opening("t1", "p1", order, Fill(0.4, 10.0, 4.0, 0.0, 0.0), basis), Closing("p1", 0.6, Some("t1"), "t2")]
  }

  lemma BoughtAndSoldRuns(order: OrderRequest, basis: ProbabilityDecision)
    ensures var steps := BoughtAndSold(order, basis);
            && Enabled(EMPTY, steps[0]) && Enabled(Apply(EMPTY, steps[0]), steps[1])
            && Run(EMPTY, steps) && After(EMPTY, steps) == Apply(Apply(EMPTY, steps[0]), steps[1])
            && var l := After(EMPTY, steps); Sound(l) && Realized(l) == 2.0 && OpenPnL(l) == 0.0
  {
    var steps := BoughtAndSold(order, basis);
    var s1, s2 := steps[0], steps[1];
    var l1 := Apply(EMPTY, s1);
    OpeningSums(EMPTY, s1);
    SoundStep(EMPTY, s1);
    assert Matches(l1.trades["t1"], l1.positions["p1"]);
    HitPossible(l1, l1.positions["p1"], "t1");
    SettleSums(l1, l1.positions["p1"], 0.6, Some("t1"), "t2");
    SoundStep(l1, s2);
    assert steps[1..] == [s2];
    RunOne(l1, s2);
  }

  /** Closing that position once more makes the two dollars it earned four. */
  lemma ClosedTwice(order: OrderRequest, basis: ProbabilityDecision)
    ensures var steps := BoughtAndSold(order, basis);
            && Run(EMPTY, steps)
            && var l := After(EMPTY, steps);
            && "p1" in l.positions && l.positions["p1"].status.Closed? && MatchOutcome(l, l.positions["p1"], None)
            && Realized(l) == 2.0 && Realized(Settle(l, l.positions["p1"], 0.6, None, "t2")) == 4.0
  {
    hide Realized, OpenPnL, Run;
    BoughtAndSoldRuns(order, basis);
    var l := After(EMPTY, BoughtAndSold(order, basis));
    var r := SomeOutcome(l, l.positions["p1"]);
    OutcomeIsMatch(l, l.positions["p1"], r);
    SettleSums(l, l.positions["p1"], 0.6, None, "t2");
  }

  /** And closed once, it leaves the portfolio worth what it was before. */
  lemma ProfitIsMissing(order: OrderRequest, basis: ProbabilityDecision, startingCash: real)
    ensures var steps := BoughtAndSold(order, basis);
            && Run(EMPTY, steps) && SeparatedRun(EMPTY, steps)
            && var portfolio := PortfolioOf(After(EMPTY, steps), startingCash);
            && portfolio.dailyPnLUSD == 2.0 && portfolio.portfolioValueUSD == startingCash
  {
    var steps := BoughtAndSold(order, basis);
    BoughtAndSoldRuns(order, basis);
    var l1 := Apply(EMPTY, steps[0]);
    var l2 := Apply(l1, steps[1]);
    OneOpenFill(l1);
    OneOpenFill(l2);
    assert steps[1..][1..] == [];
    hide Realized, OpenPnL, Separated, Apply, Enabled;
    assert SeparatedRun(l2, steps[1..][1..]);
    assert SeparatedRun(l1, steps[1..]);
    SeparatedRunsKeepTheBooks(steps, startingCash);
  }

  lemma OneOpenFill(l: Ledger)
    requires l.positions.Keys == {"p1"} && l.trades.Keys == {"t1"}
    ensures Separated(l) && |l.trades| <= LIST_LIMIT
  {}

  /** The separation hypothesis is needed: two fills of ten shares each, at 0.40 and
      0.50, and the store listing the second trade first when the first closes. The
      portfolio is then worth a dollar more than starting cash plus open profit. */
  lemma EqualQuantitiesMismatch(order: OrderRequest, basis: ProbabilityDecision, startingCash: real)
    ensures var steps := [Opening("t1", "p1", order, Fill(0.4, 10.0, 4.0, 0.0, 0.0), basis),
                          Opening("t2", "p2", order, Fill(0.5, 10.0, 5.0, 0.0, 0.0), basis),
                          Closing("p1", 0.4, Some("t2"), "t3")];
            && Run(EMPTY, steps)
            && var l := After(EMPTY, steps);
               PortfolioOf(l, startingCash).portfolioValueUSD == startingCash + OpenPnL(l) + 1.0
  {
    var s1 := Opening("t1", "p1", order, Fill(0.4, 10.0, 4.0, 0.0, 0.0), basis);
    var s2 := Opening("t2", "p2", order, Fill(0.5, 10.0, 5.0, 0.0, 0.0), basis);
    var s3 := Closing("p1", 0.4, Some("t2"), "t3");
    var l1 := Apply(EMPTY, s1);
    OpeningSums(EMPTY, s1);
    SoundStep(EMPTY, s1);
    var l2 := Apply(l1, s2);
    OpeningSums(l1, s2);
    SoundStep(l1, s2);
    assert Matches(l2.trades["t2"], l2.positions["p1"]);
    HitPossible(l2, l2.positions["p1"], "t2");
    SettleSums(l2, l2.positions["p1"], 0.4, Some("t2"), "t3");
    var steps := [s1, s2, s3];
    assert steps[1..] == [s2, s3] && steps[1..][1..] == [s3];
    RunOne(l2, s3);
    assert Run(l1, [s2, s3]) && After(l1, [s2, s3]) == After(l2, [s3]);
  }
}
