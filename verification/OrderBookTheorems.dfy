/** What the two walks of module OrderBook achieve, for every book and every size. */
module OrderBookTheorems {
  import opened Model
  import opened OrderBook

  // ---------- Arithmetic of shares ----------

  function Average(paid: real, quantity: real): real
    requires quantity > 0.0
  {
    paid / quantity
  }

  lemma SharesAdd(x: real, y: real, p: real)
    requires p > 0.0
    ensures Shares(x + y, p) == Shares(x, p) + Shares(y, p)
  {}

  lemma SharesMonotone(x: real, y: real, p: real)
    requires p > 0.0 && x <= y
    ensures Shares(x, p) <= Shares(y, p) && Shares(0.0, p) == 0.0
  {}

  lemma SharesAntitone(x: real, p: real, q: real)
    requires x >= 0.0 && 0.0 < p <= q
    ensures Shares(x, q) <= Shares(x, p)
  {}

  lemma SharesStrict(x: real, p: real, q: real)
    requires x > 0.0 && 0.0 < p < q
    ensures Shares(x, q) < Shares(x, p)
  {}

  lemma SharesPositive(x: real, p: real)
    requires p > 0.0 && x >= 0.0
    ensures Shares(x, p) >= 0.0 && (x > 0.0 ==> Shares(x, p) > 0.0)
  {}

  lemma Rebase(a: real, d': real, g: real, d: real, p: real)
    requires p > 0.0 && a + d' == g + d
    ensures Shares(a, p) + Shares(d', p) == Shares(g, p) + Shares(d, p)
  {}

  lemma MulMonotone(x: real, y: real, k: real)
    requires k >= 0.0 && x <= y
    ensures x * k <= y * k && k * x <= k * y
  {}

  // ---------- Conservation of money ----------

  lemma {:induction false} SpendIsAllocation(b: seq<Offer>, size: real)
    requires size >= 0.0
    ensures Allocation(b, Spend(b, size))
    ensures Paid(Spend(b, size)) == Min(size, Depth(b)) && Depth(b) >= 0.0
  {
    if b != [] {
      var s := Min(size, Cap(b[0]));
      SpendIsAllocation(b[1..], size - s);
      SpendOnFirst(b[0], b[1..], size);
      assert b == [b[0]] + b[1..];
    }
  }

  lemma {:induction false} BoughtAtLeast(b: seq<Offer>, a: seq<real>, hi: real)
    requires Allocation(b, a)
    requires hi > 0.0 && forall o :: o in b ==> o.price <= hi
    ensures Shares(Paid(a), hi) <= Bought(b, a)
  {
    hide Cap, Shares;
    SharesMonotone(0.0, 0.0, hi);
    if b != [] {
      BoughtAtLeast(b[1..], a[1..], hi);
      SharesAntitone(a[0], b[0].price, hi);
      SharesAdd(a[0], Paid(a[1..]), hi);
    }
  }

  lemma {:induction false} BoughtAtMost(b: seq<Offer>, a: seq<real>, lo: real)
    requires Allocation(b, a)
    requires lo > 0.0 && forall o :: o in b ==> lo <= o.price
    ensures Bought(b, a) <= Shares(Paid(a), lo)
  {
    hide Cap, Shares;
    SharesMonotone(0.0, 0.0, lo);
    if b != [] {
      BoughtAtMost(b[1..], a[1..], lo);
      SharesAntitone(a[0], lo, b[0].price);
      SharesAdd(a[0], Paid(a[1..]), lo);
    }
  }

  lemma {:induction false} BoughtPositive(b: seq<Offer>, a: seq<real>)
    requires Allocation(b, a)
    ensures Bought(b, a) >= 0.0 && Paid(a) >= 0.0
    ensures Paid(a) > 0.0 ==> Bought(b, a) > 0.0
  {
    hide Cap, Shares;
    if b != [] {
      BoughtPositive(b[1..], a[1..]);
      SharesPositive(a[0], b[0].price);
    }
  }

  /** A positive order spends exactly the smaller of its size and the eligible
      depth, pays no fee, and reports a consistent average price; it comes back
      empty exactly when no level is eligible. */
  lemma FillConserves(size: real, limitPrice: real, side: string, levels: seq<Level>)
    requires size > 0.0
    ensures var f := FillOf(size, limitPrice, side, levels);
            var b := Offers(levels, limitPrice, side);
            Consistent(f) && f.filledUSD == Min(size, Depth(b)) && (f.quantity == 0.0 <==> b == [])
  {
    hide Cap, Shares, Report;
    var b := Offers(levels, limitPrice, side);
    PaidPositive(b, size);
    ReportIsConsistent(Paid(Spend(b, size)), Bought(b, Spend(b, size)),
                       if limitPrice == 0.0 && b != [] then b[0].price else limitPrice);
  }

  lemma PaidPositive(b: seq<Offer>, size: real)
    requires size > 0.0
    ensures Paid(Spend(b, size)) == Min(size, Depth(b))
    ensures if b == [] then Bought(b, Spend(b, size)) == Paid(Spend(b, size)) == 0.0
            else Bought(b, Spend(b, size)) > 0.0 && Paid(Spend(b, size)) > 0.0
  {
    SpendIsAllocation(b, size);
    BoughtPositive(b, Spend(b, size));
    if b != [] {
      SpendIsAllocation(b[1..], size);
    }
  }

  function Overpaid(f: Fill, expected: real): real {
    Max(0.0, f.filledUSD - expected * f.quantity)
  }

  /** Slippage is the dollars of a fill beyond its shares at the expected price: the
      limit or, for an order without one, the first eligible level's price. */
  lemma SlippageIsOverpayment(size: real, limitPrice: real, side: string, levels: seq<Level>)
    requires size > 0.0 && limitPrice >= 0.0 && Offers(levels, limitPrice, side) != []
    ensures var f, b := FillOf(size, limitPrice, side, levels), Offers(levels, limitPrice, side);
            f.slippageUSD == Overpaid(f, if limitPrice == 0.0 then b[0].price else limitPrice)
  {}

  /** For a limited sale that is money received beyond the limit, a better price reported
      as slippage: it is positive exactly when the sale averages above its limit. */
  lemma LimitedSaleSlippageIff(size: real, limitPrice: real, levels: seq<Level>)
    requires size > 0.0 && limitPrice > 0.0 && Offers(levels, limitPrice, "sell") != []
    ensures var f := FillOf(size, limitPrice, "sell", levels);
            && f.slippageUSD == f.filledUSD - limitPrice * f.quantity
            && (f.slippageUSD > 0.0 <==> f.averagePrice > limitPrice)
  {
    hide Cap, Spend, Paid, Bought;
    var b := Offers(levels, limitPrice, "sell");
    PaidPositive(b, size);
    SpendIsAllocation(b, size);
    OffersAreEligible(levels, limitPrice, "sell");
    BoughtAtMost(b, Spend(b, size), limitPrice);
    AboveExpected(Paid(Spend(b, size)), Bought(b, Spend(b, size)), limitPrice);
  }

  lemma AboveExpected(filled: real, quantity: real, expected: real)
    requires quantity > 0.0 && expected > 0.0 && quantity <= Shares(filled, expected)
    ensures var f := Report(filled, quantity, expected);
            && f.slippageUSD == f.filledUSD - expected * f.quantity && f.quantity == quantity
            && (f.slippageUSD > 0.0 <==> f.averagePrice > expected)
  {
    var avg := filled / quantity;
    assert avg * quantity == filled && Shares(filled, expected) * expected == filled;
    MulMonotone(quantity, Shares(filled, expected), expected);
    assert (avg - expected) * quantity == filled - expected * quantity;
    if avg > expected {
      assert (avg - expected) * quantity > 0.0;
    } else {
      MulMonotone(avg - expected, 0.0, quantity);
    }
  }

  /** Such a sale: three dollars' worth sold at 0.6 under a limit of 0.5. */
  lemma BetterSaleReportsSlippage()
    ensures FillOf(3.0, 0.5, "sell", [Level(0.6, 10.0)]) == Fill(0.6, 5.0, 3.0, 0.0, 0.5)
  {}

  /** The paper provider does not check the size: an order fills exactly when some level
      is eligible and its size is not zero, and a negative size then fills a negative
      quantity, so a positive size is exactly what keeps a written trade consistent. */
  lemma FillSign(size: real, limitPrice: real, side: string, levels: seq<Level>)
    ensures var f, b := FillOf(size, limitPrice, side, levels), Offers(levels, limitPrice, side);
            && (f.quantity > 0.0 <==> b != [] && size > 0.0)
            && (f.quantity < 0.0 <==> b != [] && size < 0.0)
            && (f.quantity != 0.0 ==> (Consistent(f) <==> size > 0.0))
  {
    hide Cap, Shares;
    var b := Offers(levels, limitPrice, side);
    if b == [] {
      EmptyWalk(size);
    } else if size > 0.0 {
      hide FillOf;
      FillConserves(size, limitPrice, side, levels);
    } else {
      assert b == [b[0]] + b[1..];
      SpendsOnFirstOnly(b[0], b[1..], size);
      SharesNegative(size, b[0].price);
    }
  }

  lemma SharesNegative(x: real, p: real)
    requires p > 0.0 && x <= 0.0
    ensures Shares(x, p) <= 0.0 && (x < 0.0 ==> Shares(x, p) < 0.0) && (x == 0.0 ==> Shares(x, p) == 0.0)
  {}

  lemma ReportIsConsistent(filled: real, quantity: real, expected: real)
    requires if quantity == 0.0 then filled == 0.0 else filled > 0.0 && quantity > 0.0
    ensures var f := Report(filled, quantity, expected);
            && Consistent(f) && f.filledUSD == filled && f.quantity == quantity
            && (quantity > 0.0 ==> f.averagePrice == filled / quantity)
            && (f.averagePrice <= expected ==> f.slippageUSD == 0.0)
  {
    if quantity > 0.0 {
      var avg := filled / quantity;
      assert avg * quantity == filled;
      if avg <= expected { MulMonotone(avg - expected, 0.0, quantity); }
    }
  }

  lemma {:induction false} OffersAreEligible(levels: seq<Level>, limitPrice: real, side: string)
    ensures forall o :: o in Offers(levels, limitPrice, side) ==>
      && (side == "buy" && limitPrice > 0.0 ==> o.price <= limitPrice)
      && (side == "sell" && limitPrice > 0.0 ==> o.price >= limitPrice)
  {
    if levels != [] {
      OffersAreEligible(levels[1..], limitPrice, side);
    }
  }

  /** The average price lies between any bounds on the eligible prices, so a buy
      never pays above a positive limit and a sell never takes less than it. A
      limited buy therefore never reports slippage. */
  lemma FillPriceBounds(size: real, limitPrice: real, side: string, levels: seq<Level>, lo: real, hi: real)
    requires size > 0.0 && Offers(levels, limitPrice, side) != []
    requires 0.0 < lo <= hi && forall o :: o in Offers(levels, limitPrice, side) ==> lo <= o.price <= hi
    ensures var f := FillOf(size, limitPrice, side, levels);
            && lo <= f.averagePrice <= hi
            && (limitPrice > 0.0 && side == "buy" ==> f.averagePrice <= limitPrice && f.slippageUSD == 0.0)
            && (limitPrice > 0.0 && side == "sell" ==> f.averagePrice >= limitPrice)
  {
    var b := Offers(levels, limitPrice, side);
    PaidPositive(b, size);
    ReportIsConsistent(Paid(Spend(b, size)), Bought(b, Spend(b, size)),
                       if limitPrice == 0.0 then b[0].price else limitPrice);
    AverageBounds(b, size, lo, hi);
    OffersAreEligible(levels, limitPrice, side);
    if limitPrice > 0.0 && side == "buy" {
      AverageBounds(b, size, lo, limitPrice);
    }
    if limitPrice > 0.0 && side == "sell" {
      AverageBounds(b, size, limitPrice, hi);
    }
  }

  lemma AverageBounds(b: seq<Offer>, size: real, lo: real, hi: real)
    requires size > 0.0 && b != []
    requires 0.0 < lo <= hi && forall o :: o in b ==> lo <= o.price <= hi
    ensures Bought(b, Spend(b, size)) > 0.0
    ensures lo <= Average(Paid(Spend(b, size)), Bought(b, Spend(b, size))) <= hi
  {
    hide Cap, Shares;
    PaidPositive(b, size);
    SpendIsAllocation(b, size);
    BoughtAtLeast(b, Spend(b, size), hi);
    BoughtAtMost(b, Spend(b, size), lo);
    AverageWithin(Paid(Spend(b, size)), Bought(b, Spend(b, size)), lo, hi);
  }

  lemma AverageWithin(paid: real, quantity: real, lo: real, hi: real)
    requires quantity > 0.0 && 0.0 < lo <= hi && Shares(paid, hi) <= quantity <= Shares(paid, lo)
    ensures lo <= paid / quantity <= hi
  {
    assert (paid / hi) * hi == paid && (paid / lo) * lo == paid && (paid / quantity) * quantity == paid;
    MulMonotone(paid / hi, quantity, hi);
    MulMonotone(quantity, paid / lo, lo);
    SharesMonotone(lo * quantity, paid, quantity);
    SharesMonotone(paid, hi * quantity, quantity);
  }

  /** A limit is a filter: the limited walk is the unlimited walk over the levels
      the limit admits. Only slippage, measured from the limit, may differ. */
  lemma LimitIsFilter(size: real, limitPrice: real, side: string, levels: seq<Level>)
    ensures var admitted := Offers(levels, limitPrice, side);
            FillOf(size, limitPrice, side, levels).(slippageUSD := 0.0)
            == FillOf(size, 0.0, side, admitted).(slippageUSD := 0.0)
  {
    hide Cap, Shares;
    OffersTwice(levels, limitPrice, side);
  }

  lemma {:induction false} OffersTwice(levels: seq<Level>, limitPrice: real, side: string)
    ensures Offers(Offers(levels, limitPrice, side), 0.0, side) == Offers(levels, limitPrice, side)
  {
    if levels != [] {
      OffersTwice(levels[1..], limitPrice, side);
      var r := Offers(levels[1..], limitPrice, side);
      assert ([levels[0]] + r)[1..] == r;
    }
  }

  // ---------- Optimality ----------

  lemma AscendingTail(b: seq<Offer>)
    requires b != [] && Ascending(b)
    ensures Ascending(b[1..]) && forall o :: o in b ==> b[0].price <= o.price
  {}

  lemma DescendingTail(b: seq<Offer>)
    requires b != [] && Descending(b)
    ensures Descending(b[1..]) && forall o :: o in b ==> o.price <= b[0].price
  {}

  /** Spending d more than the greedy walk on an ascending book buys at most d/p
      more, for any price p below the whole book. */
  lemma {:induction false} GreedyBuysMost(b: seq<Offer>, size: real, a: seq<real>, p: real)
    requires size >= 0.0 && Ascending(b) && Allocation(b, a)
    requires p > 0.0 && forall o :: o in b ==> p <= o.price
    requires Paid(a) >= Paid(Spend(b, size))
    ensures Bought(b, a) <= Bought(b, Spend(b, size)) + Shares(Paid(a) - Paid(Spend(b, size)), p)
  {
    hide Cap, Shares, Ascending, Spend;
    var d := Paid(a) - Paid(Spend(b, size));
    SharesMonotone(0.0, d, p);
    EmptyWalk(size);
    if b != [] {
      var p0, g0, a0 := b[0].price, Min(size, Cap(b[0])), a[0];
      AscendingTail(b);
      assert b == [b[0]] + b[1..];
      SpendOnFirst(b[0], b[1..], size);
      BoughtPositive(b[1..], a[1..]);
      if a0 > g0 { SpendNothing(b[1..]); }
      GreedyBuysMost(b[1..], size - g0, a[1..], p0);
      var d' := Paid(a[1..]) - Paid(Spend(b[1..], size - g0));
      assert d' == d + g0 - a0;
      Rebase(a0, d', g0, d, p0);
      SharesAntitone(d, p, p0);
    }
  }

  /** The mirror image: on a descending book no allocation of at least as many
      dollars gives away fewer shares, beyond what the extra dollars account for. */
  lemma {:induction false} GreedySellsFewest(b: seq<Offer>, size: real, a: seq<real>, p: real)
    requires size >= 0.0 && Descending(b) && Allocation(b, a)
    requires p > 0.0 && forall o :: o in b ==> o.price <= p
    requires Paid(a) >= Paid(Spend(b, size))
    ensures Bought(b, a) >= Bought(b, Spend(b, size)) + Shares(Paid(a) - Paid(Spend(b, size)), p)
  {
    hide Cap, Shares, Descending, Spend;
    var d := Paid(a) - Paid(Spend(b, size));
    SharesMonotone(0.0, d, p);
    EmptyWalk(size);
    if b != [] {
      var p0, g0, a0 := b[0].price, Min(size, Cap(b[0])), a[0];
      DescendingTail(b);
      assert b == [b[0]] + b[1..];
      SpendOnFirst(b[0], b[1..], size);
      BoughtPositive(b[1..], a[1..]);
      if a0 > g0 { SpendNothing(b[1..]); }
      GreedySellsFewest(b[1..], size - g0, a[1..], p0);
      var d' := Paid(a[1..]) - Paid(Spend(b[1..], size - g0));
      assert d' == d + g0 - a0;
      Rebase(a0, d', g0, d, p0);
      SharesAntitone(d, p0, p);
    }
  }

  ghost predicate BuysMost(b: seq<Offer>, size: real) {
    forall a :: Allocation(b, a) && Paid(a) == Paid(Spend(b, size)) ==> Bought(b, a) <= Bought(b, Spend(b, size))
  }

  ghost predicate SellsFewest(b: seq<Offer>, size: real) {
    forall a :: Allocation(b, a) && Paid(a) == Paid(Spend(b, size)) ==> Bought(b, a) >= Bought(b, Spend(b, size))
  }

  /** The greedy walk gets the most shares for its money at every order size
      exactly when the eligible levels come cheapest first. */
  lemma GreedyBuyOptimalIff(b: seq<Offer>)
    ensures (forall size :: size >= 0.0 ==> BuysMost(b, size)) <==> Ascending(b)
  {
    if Ascending(b) {
      forall size, a | size >= 0.0 && Allocation(b, a) && Paid(a) == Paid(Spend(b, size))
        ensures Bought(b, a) <= Bought(b, Spend(b, size))
      {
        if b != [] { GreedyBuysMost(b, size, a, b[0].price); }
      }
    } else {
      var size, a := BetterThanGreedy(b, true);
      assert !BuysMost(b, size);
    }
  }

  /** A sell walk gives up the fewest shares for its money at every size exactly
      when the eligible bids come highest first. */
  lemma GreedySellOptimalIff(b: seq<Offer>)
    ensures (forall size :: size >= 0.0 ==> SellsFewest(b, size)) <==> Descending(b)
  {
    if Descending(b) {
      forall size, a | size >= 0.0 && Allocation(b, a) && Paid(a) == Paid(Spend(b, size))
        ensures Bought(b, a) >= Bought(b, Spend(b, size))
      {
        if b != [] { GreedySellsFewest(b, size, a, b[0].price); }
      }
    } else {
      var size, a := BetterThanGreedy(b, false);
      assert !SellsFewest(b, size);
    }
  }

  /** On a book that is out of order, an order that reaches the first inversion
      does better by skipping to the level behind it. */
  lemma {:induction false} BetterThanGreedy(b: seq<Offer>, buying: bool) returns (size: real, a: seq<real>)
    requires if buying then !Ascending(b) else !Descending(b)
    ensures size >= 0.0 && Allocation(b, a) && Paid(a) == Paid(Spend(b, size))
    ensures if buying then Bought(b, a) > Bought(b, Spend(b, size)) else Bought(b, a) < Bought(b, Spend(b, size))
  {
    hide Cap, Shares;
    var t := b[1..];
    assert b == [b[0]] + t;
    if if buying then Ascending(t) else Descending(t) {
      assert forall i :: 1 <= i < |b| ==> t[i - 1] == b[i];
      size, a := SkipFirst(b[0], t, buying);
    } else {
      var size', a' := BetterThanGreedy(t, buying);
      size := Cap(b[0]) + size';
      a := [Cap(b[0])] + a';
      assert a[1..] == a';
      SpendOnFirst(b[0], t, size);
    }
  }

  lemma SkipFirst(o: Offer, t: seq<Offer>, buying: bool) returns (size: real, a: seq<real>)
    requires t != [] && if buying then t[0].price < o.price else o.price < t[0].price
    ensures size >= 0.0 && Allocation([o] + t, a) && Paid(a) == Paid(Spend([o] + t, size))
    ensures if buying then Bought([o] + t, a) > Bought([o] + t, Spend([o] + t, size))
            else Bought([o] + t, a) < Bought([o] + t, Spend([o] + t, size))
  {
    hide Cap, Shares;
    SharesMonotone(0.0, 0.0, o.price);
    size := Min(Cap(o), Cap(t[0]));
    a := [0.0] + Spend(t, size);
    assert a[1..] == Spend(t, size) && ([o] + t)[1..] == t && t == [t[0]] + t[1..];
    SpendIsAllocation(t, size);
    SpendsOnFirstOnly(o, t, size);
    SpendsOnFirstOnly(t[0], t[1..], size);
    if buying { SharesStrict(size, t[0].price, o.price); } else { SharesStrict(size, o.price, t[0].price); }
  }

  lemma SpendsOnFirstOnly(o: Offer, b: seq<Offer>, size: real)
    requires size <= Cap(o)
    ensures Paid(Spend([o] + b, size)) == size && Bought([o] + b, Spend([o] + b, size)) == Shares(size, o.price)
  {
    hide Cap, Shares;
    SpendOnFirst(o, b, size);
    SpendNothing(b);
  }

  // ---------- Price impact ----------

  /** Buying q2 for f2 is no better a rate than buying q1 for f1, cross-multiplied
      so that empty walks need no case. */
  ghost predicate NoBetterRate(q1: real, f1: real, q2: real, f2: real) {
    q2 * f1 <= q1 * f2
  }

  /** Shares per dollar never rise with size on an ascending book. */
  lemma {:induction false} SharesPerDollarFall(b: seq<Offer>, s1: real, s2: real)
    requires Ascending(b) && 0.0 <= s1 <= s2
    ensures NoBetterRate(Bought(b, Spend(b, s1)), Paid(Spend(b, s1)), Bought(b, Spend(b, s2)), Paid(Spend(b, s2)))
  {
    hide Cap, Shares, Ascending, NoBetterRate, Spend, Paid, Bought;
    if b == [] {
      EmptyWalk(s1);
      EmptyWalk(s2);
      ZeroRate();
    } else {
      var p0, c0, t := b[0].price, Cap(b[0]), b[1..];
      AscendingTail(b);
      assert b == [b[0]] + t;
      if s1 <= c0 {
        RateWithinFirstLevel(b, s1, s2);
      } else {
        SpendOnFirst(b[0], t, s1);
        SpendOnFirst(b[0], t, s2);
        SharesPerDollarFall(t, s1 - c0, s2 - c0);
        SpendIsAllocation(t, s1 - c0);
        SpendIsAllocation(t, s2 - c0);
        GreedyBuysMost(t, s1 - c0, Spend(t, s2 - c0), p0);
        RatioStep(c0, p0, Bought(t, Spend(t, s1 - c0)), Paid(Spend(t, s1 - c0)),
                  Bought(t, Spend(t, s2 - c0)), Paid(Spend(t, s2 - c0)));
      }
    }
  }

  lemma RateWithinFirstLevel(b: seq<Offer>, s1: real, s2: real)
    requires b != [] && Ascending(b) && 0.0 <= s1 <= Cap(b[0]) && s1 <= s2
    ensures NoBetterRate(Bought(b, Spend(b, s1)), Paid(Spend(b, s1)), Bought(b, Spend(b, s2)), Paid(Spend(b, s2)))
  {
    hide Cap, Shares, Ascending, NoBetterRate, Spend, Paid, Bought;
    AscendingTail(b);
    assert b == [b[0]] + b[1..];
    SpendIsAllocation(b, s2);
    SpendsOnFirstOnly(b[0], b[1..], s1);
    SpendNothing(b);
    GreedyBuysMost(b, 0.0, Spend(b, s2), b[0].price);
    FirstLevelRatio(Bought(b, Spend(b, s2)), Paid(Spend(b, s2)), s1, b[0].price);
  }

  lemma ZeroRate()
    ensures NoBetterRate(0.0, 0.0, 0.0, 0.0)
  {}

  lemma FirstLevelRatio(q: real, f: real, s: real, p: real)
    requires p > 0.0 && s >= 0.0 && q <= Shares(f, p)
    ensures NoBetterRate(Shares(s, p), s, q, f)
  {}

  lemma RatioStep(c: real, p: real, q1: real, f1: real, q2: real, f2: real)
    requires p > 0.0 && c >= 0.0
    requires NoBetterRate(q1, f1, q2, f2) && q2 <= q1 + Shares(f2 - f1, p)
    ensures NoBetterRate(Shares(c, p) + q1, c + f1, Shares(c, p) + q2, c + f2)
  {}

  lemma AveragesOrdered(q1: real, f1: real, q2: real, f2: real)
    requires q1 > 0.0 && q2 > 0.0 && NoBetterRate(q1, f1, q2, f2)
    ensures Average(f1, q1) <= Average(f2, q2)
  {}

  /** The shape of the impact: 0 up to the expected price, then proportional. */
  function Overpay(avg: real, expected: real): real
    requires expected > 0.0
  {
    if avg <= expected then 0.0 else (avg - expected) / expected
  }

  lemma OverpayMonotone(a1: real, a2: real, expected: real)
    requires expected > 0.0 && a1 <= a2
    ensures 0.0 <= Overpay(a1, expected) <= Overpay(a2, expected)
  {}

  lemma ImpactIsOverpay(size: real, expected: real, levels: seq<Level>)
    requires size > 0.0 && expected > 0.0 && Offers(levels, 0.0, "buy") != []
    ensures var b := Offers(levels, 0.0, "buy");
            Bought(b, Spend(b, size)) > 0.0
            && ImpactOf(size, expected, levels)
               == Overpay(Average(Paid(Spend(b, size)), Bought(b, Spend(b, size))), expected)
  {
    hide Cap, Shares;
    PaidPositive(Offers(levels, 0.0, "buy"), size);
  }

  /** Larger orders never have smaller impact on a book sorted best-first. */
  lemma ImpactMonotone(s1: real, s2: real, expected: real, levels: seq<Level>)
    requires Ascending(Offers(levels, 0.0, "buy")) && s1 <= s2
    ensures 0.0 <= ImpactOf(s1, expected, levels) <= ImpactOf(s2, expected, levels)
  {
    hide Cap, Shares, Overpay, Average, NoBetterRate;
    var b := Offers(levels, 0.0, "buy");
    if s2 > 0.0 && expected > 0.0 && b != [] {
      ImpactIsOverpay(s2, expected, levels);
      var q2, f2 := Bought(b, Spend(b, s2)), Paid(Spend(b, s2));
      OverpayMonotone(Average(f2, q2), Average(f2, q2), expected);
      if s1 > 0.0 {
        ImpactIsOverpay(s1, expected, levels);
        var q1, f1 := Bought(b, Spend(b, s1)), Paid(Spend(b, s1));
        SharesPerDollarFall(b, s1, s2);
        AveragesOrdered(q1, f1, q2, f2);
        OverpayMonotone(Average(f1, q1), Average(f2, q2), expected);
      }
    }
  }

  // ---------- The two walks agree ----------

  /** On an ascending book the levels a limit admits are a prefix. */
  lemma {:induction false} AdmittedPrefix(levels: seq<Level>, limitPrice: real)
    requires limitPrice > 0.0 && Ascending(Offers(levels, 0.0, "buy"))
    ensures Offers(levels, limitPrice, "buy") <= Offers(levels, 0.0, "buy")
  {
    if levels != [] {
      var all, rest := Offers(levels, 0.0, "buy"), Offers(levels[1..], 0.0, "buy");
      if Eligible(levels[0], 0.0, "buy") {
        assert rest == all[1..];
        if levels[0].price > limitPrice {
          assert forall i :: 0 <= i < |rest| ==> rest[i] == all[i + 1] && all[0].price <= all[i + 1].price;
          NoneAdmitted(levels[1..], limitPrice);
        } else {
          AdmittedPrefix(levels[1..], limitPrice);
        }
      } else {
        AdmittedPrefix(levels[1..], limitPrice);
      }
    }
  }

  lemma {:induction false} NoneAdmitted(levels: seq<Level>, limitPrice: real)
    requires forall o :: o in Offers(levels, 0.0, "buy") ==> o.price > limitPrice
    requires limitPrice > 0.0
    ensures Offers(levels, limitPrice, "buy") == []
  {
    if levels != [] {
      var rest := Offers(levels[1..], 0.0, "buy");
      assert forall o :: o in rest ==> o in Offers(levels, 0.0, "buy");
      assert Eligible(levels[0], 0.0, "buy") ==> levels[0] in Offers(levels, 0.0, "buy");
      NoneAdmitted(levels[1..], limitPrice);
    }
  }

  /** A walk that finishes inside a prefix of the book never sees the rest. */
  lemma {:induction false} SpendWithinPrefix(b: seq<Offer>, rest: seq<Offer>, size: real)
    requires 0.0 <= size <= Depth(b)
    ensures Paid(Spend(b + rest, size)) == Paid(Spend(b, size))
    ensures Bought(b + rest, Spend(b + rest, size)) == Bought(b, Spend(b, size))
  {
    hide Cap, Shares, Spend, Paid, Bought;
    if b == [] {
      assert b + rest == rest;
      SpendNothing(rest);
      EmptyWalk(size);
    } else {
      assert b + rest == [b[0]] + (b[1..] + rest) && b == [b[0]] + b[1..];
      var s := Min(size, Cap(b[0]));
      SpendIsAllocation(b[1..], 0.0);
      SpendWithinPrefix(b[1..], rest, size - s);
      SpendOnFirst(b[0], b[1..] + rest, size);
      SpendOnFirst(b[0], b[1..], size);
    }
  }

  lemma SameWalk(size: real, expected: real, levels: seq<Level>)
    requires size > 0.0 && expected > 0.0 && Ascending(Offers(levels, 0.0, "buy"))
    requires size <= Depth(Offers(levels, expected, "buy"))
    ensures var all, limited := Offers(levels, 0.0, "buy"), Offers(levels, expected, "buy");
            && limited != [] && all != [] && Ascending(limited)
            && Paid(Spend(all, size)) == Paid(Spend(limited, size))
            && Bought(all, Spend(all, size)) == Bought(limited, Spend(limited, size))
  {
    hide Cap, Shares, Eligible;
    var all, limited := Offers(levels, 0.0, "buy"), Offers(levels, expected, "buy");
    AdmittedPrefix(levels, expected);
    assert all == limited + all[|limited|..];
    SpendWithinPrefix(limited, all[|limited|..], size);
  }

  /** When a buy limited to the expected price fills completely, the risk engine's
      own walk bought exactly the same shares, so it reports no impact. */
  lemma FullLimitedFillHasNoImpact(size: real, expected: real, levels: seq<Level>)
    requires size > 0.0 && expected > 0.0 && Ascending(Offers(levels, 0.0, "buy"))
    requires FillOf(size, expected, "buy", levels).filledUSD == size
    ensures ImpactOf(size, expected, levels) == 0.0
    ensures var b := Offers(levels, 0.0, "buy");
            FillOf(size, expected, "buy", levels).quantity == Bought(b, Spend(b, size))
  {
    hide Cap, Shares, Overpay, Average, Eligible, Offers, Spend, Ascending, ImpactOf;
    var all, limited := Offers(levels, 0.0, "buy"), Offers(levels, expected, "buy");
    FillConserves(size, expected, "buy", levels);
    SameWalk(size, expected, levels);
    PaidPositive(limited, size);
    AscendingTail(limited);
    OffersAreEligible(levels, expected, "buy");
    AverageBounds(limited, size, limited[0].price, expected);
    ImpactIsOverpay(size, expected, levels);
    WithinIsFree(Average(Paid(Spend(all, size)), Bought(all, Spend(all, size))), expected);
  }

  lemma WithinIsFree(avg: real, expected: real)
    requires 0.0 < expected && avg <= expected
    ensures Overpay(avg, expected) == 0.0
  {}

  /** The limited fill of a buy and the unlimited walk of the impact estimate buy the
      same shares. */
  ghost predicate WalksAgree(levels: seq<Level>, size: real, limitPrice: real) {
    var all, limited := Offers(levels, 0.0, "buy"), Offers(levels, limitPrice, "buy");
    Bought(limited, Spend(limited, size)) == Bought(all, Spend(all, size))
  }

  /** The walk that checks an order and the walk that fills it buy the same shares, at
      every size the limit leaves depth for and every limit, exactly when the levels
      come cheapest first. */
  lemma WalksAgreeIff(levels: seq<Level>)
    ensures (forall size, limitPrice ::
               size > 0.0 && limitPrice > 0.0 && size <= Depth(Offers(levels, limitPrice, "buy"))
               ==> WalksAgree(levels, size, limitPrice))
            <==> Ascending(Offers(levels, 0.0, "buy"))
  {
    hide Spend, Bought, Depth, Ascending;
    if Ascending(Offers(levels, 0.0, "buy")) {
      forall size, limitPrice |
        size > 0.0 && limitPrice > 0.0 && size <= Depth(Offers(levels, limitPrice, "buy"))
        ensures WalksAgree(levels, size, limitPrice)
      {
        SameWalk(size, limitPrice, levels);
      }
    } else {
      var size, limitPrice := WalksDiffer(levels);
      assert !WalksAgree(levels, size, limitPrice);
    }
  }

  lemma {:induction false} AdmittedIff(levels: seq<Level>, limitPrice: real, o: Offer)
    requires limitPrice > 0.0
    ensures o in Offers(levels, limitPrice, "buy") <==> o in Offers(levels, 0.0, "buy") && o.price <= limitPrice
  {
    if levels != [] {
      AdmittedIff(levels[1..], limitPrice, o);
    }
  }

  /** On a book out of order some limited buy gets other shares than the estimate: one
      limited to a price that shuts out a dearer level in front of it. */
  lemma {:induction false} WalksDiffer(levels: seq<Level>) returns (size: real, limitPrice: real)
    requires !Ascending(Offers(levels, 0.0, "buy"))
    ensures size > 0.0 && limitPrice > 0.0 && size <= Depth(Offers(levels, limitPrice, "buy"))
    ensures !WalksAgree(levels, size, limitPrice)
  {
    hide Cap, Shares, Spend, Bought;
    var tail := levels[1..];
    if !Eligible(levels[0], 0.0, "buy") {
      size, limitPrice := WalksDiffer(tail);
    } else {
      var o: Offer, rest := levels[0], Offers(tail, 0.0, "buy");
      if x :| x in rest && x.price < o.price {
        limitPrice := x.price;
        AdmittedIff(tail, limitPrice, x);
        size := DearFirstLevel(o, rest, Offers(tail, limitPrice, "buy"), levels, limitPrice);
      } else {
        TailOutOfOrder(o, rest);
        var s;
        s, limitPrice := WalksDiffer(tail);
        var limited := Offers(tail, limitPrice, "buy");
        AdmittedIff(tail, limitPrice, limited[0]);
        size := Cap(o) + s;
        SpendOnFirst(o, rest, size);
        SpendOnFirst(o, limited, size);
        assert Offers(levels, limitPrice, "buy") == [o] + limited;
      }
    }
  }

  lemma TailOutOfOrder(o: Offer, rest: seq<Offer>)
    requires !Ascending([o] + rest) && forall x :: x in rest ==> o.price <= x.price
    ensures !Ascending(rest)
  {
    var b := [o] + rest;
    assert forall i :: 1 <= i < |b| ==> b[i] == rest[i - 1];
  }

  lemma DearFirstLevel(o: Offer, rest: seq<Offer>, limited: seq<Offer>, levels: seq<Level>, limitPrice: real)
    returns (size: real)
    requires 0.0 < limitPrice < o.price && limited != []
    requires Offers(levels, 0.0, "buy") == [o] + rest && Offers(levels, limitPrice, "buy") == limited
    ensures 0.0 < size <= Depth(limited) && !WalksAgree(levels, size, limitPrice)
  {
    hide Cap, Shares, Spend, Bought, Offers;
    SpendIsAllocation(limited[1..], 0.0);
    size := Min(Cap(o), Depth(limited));
    SpendsOnFirstOnly(o, rest, size);
    SpendIsAllocation(limited, size);
    OffersAreEligible(levels, limitPrice, "buy");
    BoughtAtLeast(limited, Spend(limited, size), limitPrice);
    SharesStrict(size, limitPrice, o.price);
  }

  // ---------- When the impact of a complete fill is nothing ----------

  /** What the shares bought for size dollars are worth at a price, less those dollars. */
  function Gain(b: seq<Offer>, price: real, size: real): real {
    price * Bought(b, Spend(b, size)) - Paid(Spend(b, size))
  }

  function GainWithin(o: Offer, price: real, size: real): real {
    price * Shares(size, o.price) - size
  }

  /** The gain, from what was gained before, is not negative where the walk leaves a
      level and where the budget ends: a check of one sum per level. */
  predicate NeverBehind(b: seq<Offer>, price: real, gained: real, budget: real) {
    if b == [] then gained >= 0.0
    else if budget <= Cap(b[0]) then gained + GainWithin(b[0], price, budget) >= 0.0
    else
      var next := gained + GainWithin(b[0], price, Cap(b[0]));
      next >= 0.0 && NeverBehind(b[1..], price, next, budget - Cap(b[0]))
  }

  lemma GainOnFirst(o: Offer, t: seq<Offer>, price: real, size: real)
    ensures size <= Cap(o) ==> Gain([o] + t, price, size) == GainWithin(o, price, size)
    ensures size >= Cap(o) ==> Gain([o] + t, price, size) == GainWithin(o, price, Cap(o)) + Gain(t, price, size - Cap(o))
  {
    hide Cap, Shares, Spend, Paid, Bought;
    if size <= Cap(o) { SpendsOnFirstOnly(o, t, size); }
    if size >= Cap(o) {
      SpendOnFirst(o, t, size);
      Distribute(price, Shares(Cap(o), o.price), Bought(t, Spend(t, size - Cap(o))));
    }
  }

  lemma Distribute(x: real, y: real, z: real)
    ensures x * (y + z) == x * y + x * z
  {}

  /** Within a level the gain is linear, so it is lowest at an end. */
  lemma GainIsLinear(o: Offer, price: real, size: real, most: real)
    requires 0.0 <= size <= most
    ensures GainWithin(o, price, size) >= Min(0.0, GainWithin(o, price, most))
  {
    var k := price / o.price - 1.0;
    assert GainWithin(o, price, size) == size * k && GainWithin(o, price, most) == most * k;
    if k >= 0.0 { MulMonotone(0.0, size, k); } else { MulMonotone(size, most, -k); }
  }

  lemma {:induction false} NeverBehindIff(b: seq<Offer>, price: real, gained: real, budget: real)
    requires gained >= 0.0 && budget >= 0.0
    ensures NeverBehind(b, price, gained, budget)
       <==> forall size :: 0.0 <= size <= budget ==> gained + Gain(b, price, size) >= 0.0
    decreases |b|
  {
    hide Cap, Shares, Spend, Paid, Bought, Gain, GainWithin;
    if b == [] {
      forall size ensures Gain(b, price, size) == 0.0 { EmptyGain(price, size); }
      assert gained + Gain(b, price, 0.0) == gained;
    } else {
      var o, t := b[0], b[1..];
      assert b == [o] + t;
      if budget <= Cap(o) {
        GainOnFirst(o, t, price, budget);
        forall size | 0.0 <= size <= budget
          ensures Gain(b, price, size) >= Min(0.0, Gain(b, price, budget))
        {
          GainOnFirst(o, t, price, size);
          GainIsLinear(o, price, size, budget);
        }
      } else {
        var next := gained + GainWithin(o, price, Cap(o));
        GainOnFirst(o, t, price, Cap(o));
        EmptyGainOf(t, price);
        if next >= 0.0 {
          NeverBehindIff(t, price, next, budget - Cap(o));
          forall size | 0.0 <= size <= Cap(o)
            ensures gained + Gain(b, price, size) >= 0.0
          {
            GainOnFirst(o, t, price, size);
            GainIsLinear(o, price, size, Cap(o));
          }
          forall size | Cap(o) <= size <= budget
            ensures gained + Gain(b, price, size) == next + Gain(t, price, size - Cap(o))
          {
            GainOnFirst(o, t, price, size);
          }
          forall size | 0.0 <= size <= budget - Cap(o)
            ensures next + Gain(t, price, size) == gained + Gain(b, price, size + Cap(o))
          {
            GainOnFirst(o, t, price, size + Cap(o));
          }
        } else {
          assert gained + Gain(b, price, Cap(o)) < 0.0;
        }
      }
    }
  }

  lemma EmptyGain(price: real, size: real)
    ensures Gain([], price, size) == 0.0
  {
    EmptyWalk(size);
  }

  lemma EmptyGainOf(b: seq<Offer>, price: real)
    ensures Gain(b, price, 0.0) == 0.0
  {
    SpendNothing(b);
  }

  /** An impact within a bound is an average price within as much above the expected. */
  lemma ImpactWithinIff(size: real, expected: real, levels: seq<Level>, bound: real)
    requires size > 0.0 && expected > 0.0 && bound >= 0.0 && Offers(levels, 0.0, "buy") != []
    ensures ImpactOf(size, expected, levels) <= bound
       <==> Gain(Offers(levels, 0.0, "buy"), expected * (1.0 + bound), size) >= 0.0
  {
    hide Cap, Shares, Spend, Paid, Bought, ImpactOf, Overpay, Average;
    var b := Offers(levels, 0.0, "buy");
    ImpactIsOverpay(size, expected, levels);
    OverpayWithinIff(Paid(Spend(b, size)), Bought(b, Spend(b, size)), expected, bound);
  }

  lemma OverpayWithinIff(paid: real, quantity: real, expected: real, bound: real)
    requires quantity > 0.0 && expected > 0.0 && bound >= 0.0
    ensures Overpay(Average(paid, quantity), expected) <= bound <==> (expected * (1.0 + bound)) * quantity - paid >= 0.0
  {
    var avg, most := Average(paid, quantity), expected * (1.0 + bound);
    assert avg * quantity == paid;
    OverpayBelowIff(avg, expected, bound);
    if avg <= most {
      MulMonotone(avg, most, quantity);
    } else {
      assert (avg - most) * quantity > 0.0;
    }
  }

  lemma OverpayBelowIff(avg: real, expected: real, bound: real)
    requires expected > 0.0 && bound >= 0.0
    ensures Overpay(avg, expected) <= bound <==> avg <= expected * (1.0 + bound)
  {
    assert expected * bound >= 0.0 && expected * (1.0 + bound) == expected + expected * bound;
    if avg > expected {
      var over := (avg - expected) / expected;
      assert over * expected == avg - expected;
      if over <= bound {
        MulMonotone(over, bound, expected);
      } else {
        assert (over - bound) * expected > 0.0;
      }
    }
  }

  /** Whether every purchase of up to budget dollars on a book has an impact within a
      bound, from one sum per level. On a book with nothing to offer the impact is 0 when
      the book is empty and 1 otherwise. */
  predicate ImpactStaysWithin(levels: seq<Level>, expected: real, bound: real, budget: real) {
    var b := Offers(levels, 0.0, "buy");
    if b == [] then levels == [] || bound >= 1.0 || budget <= 0.0
    else NeverBehind(b, expected * (1.0 + bound), 0.0, Max(0.0, budget))
  }

  lemma ImpactStaysWithinIff(levels: seq<Level>, expected: real, bound: real, budget: real)
    requires expected > 0.0 && bound >= 0.0
    ensures ImpactStaysWithin(levels, expected, bound, budget)
       <==> forall size :: 0.0 < size <= budget ==> ImpactOf(size, expected, levels) <= bound
  {
    var b, price := Offers(levels, 0.0, "buy"), expected * (1.0 + bound);
    if b == [] {
      NothingOffered(expected, levels);
      if budget > 0.0 {
        assert ImpactOf(budget, expected, levels) <= bound <==> levels == [] || bound >= 1.0;
      }
    } else {
      hide Cap, Shares, Spend, Paid, Bought, ImpactOf, Gain, NeverBehind;
      NeverBehindIff(b, price, 0.0, Max(0.0, budget));
      EmptyGainOf(b, price);
      forall size | 0.0 < size <= budget
        ensures ImpactOf(size, expected, levels) <= bound <==> Gain(b, price, size) >= 0.0
      {
        ImpactWithinIff(size, expected, levels, bound);
      }
    }
  }

  lemma NothingOffered(expected: real, levels: seq<Level>)
    requires expected > 0.0 && Offers(levels, 0.0, "buy") == []
    ensures forall size :: size > 0.0 ==> ImpactOf(size, expected, levels) == if levels == [] then 0.0 else 1.0
  {}

  /** The check on one book and the fill on another, as when streamed levels lie over the
      stored ones: every buy that its limit lets fill completely on the one has an impact
      within the bound on the other, if and only if the unlimited walk on that other book,
      up to the depth the limit leaves on the one, stays within the bound where it leaves
      a level. */
  lemma CheckCoversFillIff(stored: seq<Level>, live: seq<Level>, limitPrice: real, bound: real)
    requires limitPrice > 0.0 && bound >= 0.0
    ensures (forall size :: size > 0.0 && FillOf(size, limitPrice, "buy", stored).filledUSD == size
               ==> ImpactOf(size, limitPrice, live) <= bound)
       <==> ImpactStaysWithin(live, limitPrice, bound, Depth(Offers(stored, limitPrice, "buy")))
  {
    hide ImpactOf, FillOf, ImpactStaysWithin, Depth;
    var budget := Depth(Offers(stored, limitPrice, "buy"));
    ImpactStaysWithinIff(live, limitPrice, bound, budget);
    forall size | size > 0.0
      ensures FillOf(size, limitPrice, "buy", stored).filledUSD == size <==> size <= budget
    {
      FillConserves(size, limitPrice, "buy", stored);
    }
  }

  /** The same book with no tolerance: every buy that its limit lets fill completely has
      no impact at that price, if and only if the unlimited walk, up to the depth the
      limit leaves, never has paid more than its shares are worth at the limit where it
      leaves a level. */
  lemma NoImpactIff(levels: seq<Level>, limitPrice: real)
    requires limitPrice > 0.0
    ensures (forall size :: size > 0.0 && FillOf(size, limitPrice, "buy", levels).filledUSD == size
               ==> ImpactOf(size, limitPrice, levels) == 0.0)
       <==> NeverBehind(Offers(levels, 0.0, "buy"), limitPrice, 0.0, Depth(Offers(levels, limitPrice, "buy")))
  {
    hide ImpactOf, FillOf, NeverBehind, Depth;
    var b, budget := Offers(levels, 0.0, "buy"), Depth(Offers(levels, limitPrice, "buy"));
    CheckCoversFillIff(levels, levels, limitPrice, 0.0);
    DepthWithin(levels, limitPrice);
    forall size
      ensures ImpactOf(size, limitPrice, levels) >= 0.0
    {
      ImpactNonNegative(size, limitPrice, levels);
    }
    NothingIsNotBehind(limitPrice);
    assert limitPrice * (1.0 + 0.0) == limitPrice;
  }

  lemma ImpactNonNegative(size: real, expected: real, levels: seq<Level>)
    ensures ImpactOf(size, expected, levels) >= 0.0
  {
    hide Offers, Spend, Paid, Bought;
    if size > 0.0 && expected > 0.0 && levels != [] {
      var b := Offers(levels, 0.0, "buy");
      if Bought(b, Spend(b, size)) != 0.0 {
        var avg := Paid(Spend(b, size)) / Bought(b, Spend(b, size));
        OverpayMonotone(avg, avg, expected);
      }
    }
  }

  lemma NothingIsNotBehind(price: real)
    ensures NeverBehind([], price, 0.0, 0.0)
  {}

  lemma {:induction false} DepthWithin(levels: seq<Level>, limitPrice: real)
    requires limitPrice > 0.0
    ensures Depth(Offers(levels, limitPrice, "buy")) >= 0.0
    ensures Offers(levels, 0.0, "buy") == [] ==> Depth(Offers(levels, limitPrice, "buy")) == 0.0
  {
    hide Cap;
    if levels != [] {
      DepthWithin(levels[1..], limitPrice);
    }
  }

  lemma SortedIsNeverBehind(levels: seq<Level>, limitPrice: real)
    requires limitPrice > 0.0 && Ascending(Offers(levels, 0.0, "buy"))
    ensures NeverBehind(Offers(levels, 0.0, "buy"), limitPrice, 0.0, Depth(Offers(levels, limitPrice, "buy")))
  {
    hide ImpactOf, FillOf, Offers, NeverBehind, Depth, Ascending;
    NoImpactIff(levels, limitPrice);
    forall size | size > 0.0 && FillOf(size, limitPrice, "buy", levels).filledUSD == size
      ensures ImpactOf(size, limitPrice, levels) == 0.0
    {
      FullLimitedFillHasNoImpact(size, limitPrice, levels);
    }
  }

  /** Such a book: the limited buy fills completely at its limit while the estimate,
      which takes the dear level first, reports an impact of 100%. */
  lemma UnsortedBookDisagrees()
    ensures var levels := [Level(1.0, 10.0), Level(0.5, 100.0)];
            && FillOf(5.0, 0.5, "buy", levels).filledUSD == 5.0
            && ImpactOf(5.0, 0.5, levels) == 1.0
            && !WalksAgree(levels, 5.0, 0.5)
  {}
}
