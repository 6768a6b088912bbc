/** The two order-book walks: the simulated fill of a paper order and the price
    impact the risk engine computes before it. Both are specified by one greedy
    allocation of dollars to offers, about which the results are proved. */
module OrderBook {
  import opened Model

  /** A level with something to trade: the walks skip every other level. */
  type Offer = l: Level | l.price > 0.0 && l.size > 0.0 witness Level(1.0, 1.0)

  datatype Fill = Fill(averagePrice: real, quantity: real, filledUSD: real, feesUSD: real, slippageUSD: real)

  predicate Eligible(l: Level, limitPrice: real, side: string) {
    && l.price > 0.0 && l.size > 0.0
    && !(side == "buy" && limitPrice > 0.0 && l.price > limitPrice)
    && !(side == "sell" && limitPrice > 0.0 && l.price < limitPrice)
  }

  /** The levels a walk may trade on, in book order. */
  function Offers(levels: seq<Level>, limitPrice: real, side: string): seq<Offer> {
    if levels == [] then []
    else if Eligible(levels[0], limitPrice, side) then [levels[0]] + Offers(levels[1..], limitPrice, side)
    else Offers(levels[1..], limitPrice, side)
  }

  /** The most that can be spent on one offer. */
  function Cap(o: Offer): (c: real)
    ensures c > 0.0
  {
    PositiveProduct(o.price, o.size);
    o.price * o.size
  }

  function Depth(b: seq<Offer>): real {
    if b == [] then 0.0 else Cap(b[0]) + Depth(b[1..])
  }

  /** Dollars spent per offer by a walk that fills offers in book order. */
  function Spend(b: seq<Offer>, size: real): (a: seq<real>)
    ensures |a| == |b|
  {
    if b == [] then []
    else
      var s := Min(size, Cap(b[0]));
      [s] + Spend(b[1..], size - s)
  }

  function Paid(a: seq<real>): real {
    if a == [] then 0.0 else a[0] + Paid(a[1..])
  }

  function Shares(usd: real, price: real): real
    requires price > 0.0
  {
    usd / price
  }

  function Bought(b: seq<Offer>, a: seq<real>): real
    requires |a| == |b|
  {
    if b == [] then 0.0 else Shares(a[0], b[0].price) + Bought(b[1..], a[1..])
  }

  /** Any way of spending within the depth of every offer. */
  ghost predicate Allocation(b: seq<Offer>, a: seq<real>) {
    |a| == |b| && (b == [] || (0.0 <= a[0] <= Cap(b[0]) && Allocation(b[1..], a[1..])))
  }

  ghost predicate Ascending(b: seq<Offer>) {
    forall i, j :: 0 <= i < j < |b| ==> b[i].price <= b[j].price
  }

  ghost predicate Descending(b: seq<Offer>) {
    forall i, j :: 0 <= i < j < |b| ==> b[i].price >= b[j].price
  }

  /** The report on a finished walk; slippage counts only above the expected price. */
  function Report(filledUSD: real, quantity: real, expected: real): Fill {
    if quantity == 0.0 then Fill(0.0, 0.0, 0.0, 0.0, 0.0)
    else
      var avg := filledUSD / quantity;
      var slippage := (avg - expected) * quantity;
      Fill(avg, quantity, filledUSD, 0.0, if expected > 0.0 && slippage >= 0.0 then slippage else 0.0)
  }

  /** A report is consistent when price, quantity and dollars agree and it is
      either empty or a real purchase. */
  ghost predicate Consistent(f: Fill) {
    && f.averagePrice * f.quantity == f.filledUSD && f.feesUSD == 0.0 && f.slippageUSD >= 0.0
    && (f.quantity == 0.0 ==> f.filledUSD == 0.0)
    && (f.quantity != 0.0 ==> f.quantity > 0.0 && f.filledUSD > 0.0 && f.averagePrice > 0.0)
  }

  /** What simulateFill reports, in terms of the greedy allocation. */
  function FillOf(sizeUSD: real, limitPrice: real, side: string, levels: seq<Level>): Fill {
    var b := Offers(levels, limitPrice, side);
    var expected := if limitPrice == 0.0 && b != [] then b[0].price else limitPrice;
    Report(Paid(Spend(b, sizeUSD)), Bought(b, Spend(b, sizeUSD)), expected)
  }

  method SimulateFill(sizeUSD: real, limitPrice: real, side: string, levels: seq<Level>) returns (r: Fill)
    ensures r == FillOf(sizeUSD, limitPrice, side, levels)
  {
    hide Cap, Shares, Report, Spend, Paid, Bought;
    var remaining, quantity, filledUSD, expected := sizeUSD, 0.0, 0.0, limitPrice;
    ghost var b := Offers(levels, limitPrice, side);
    ghost var rest := b;
    var i := 0;
    assert levels[0..] == levels;
    while i < |levels|
      invariant 0 <= i <= |levels|
      invariant rest == Offers(levels[i..], limitPrice, side)
      invariant filledUSD + Paid(Spend(rest, remaining)) == Paid(Spend(b, sizeUSD))
      invariant quantity + Bought(rest, Spend(rest, remaining)) == Bought(b, Spend(b, sizeUSD))
      invariant if limitPrice == 0.0 && expected != 0.0 then b != [] && expected == b[0].price
                else expected == limitPrice && (limitPrice == 0.0 ==> rest == b)
    {
      var level := levels[i];
      assert levels[i..][1..] == levels[i + 1..];
      ghost var next := Offers(levels[i + 1..], limitPrice, side);
      i := i + 1;
      if level.price <= 0.0 || level.size <= 0.0 { continue; }
      if side == "buy" && limitPrice > 0.0 && level.price > limitPrice { continue; }
      if side == "sell" && limitPrice > 0.0 && level.price < limitPrice { continue; }
      if expected == 0.0 { expected := level.price; }
      var spend := Min(remaining, Cap(level));
      var shares := Shares(spend, level.price);
      quantity := quantity + shares;
      filledUSD := filledUSD + spend;
      SpendOnFirst(level, next, remaining);
      remaining := remaining - spend;
      rest := next;
      if remaining <= 0.0 { SpendNothing(rest); break; }
    }
    EmptyWalk(remaining);
    assert limitPrice == 0.0 && b != [] ==> quantity == 0.0 || expected == b[0].price;
    r := Report(filledUSD, quantity, expected);
  }

  /** The risk engine's estimate: how far the average price of the unlimited walk
      lies above the expected price, as a fraction of it. */
  function ImpactOf(sizeUSD: real, expectedPrice: real, levels: seq<Level>): real {
    if sizeUSD <= 0.0 || expectedPrice <= 0.0 || levels == [] then 0.0
    else
      var b := Offers(levels, 0.0, "buy");
      var quantity := Bought(b, Spend(b, sizeUSD));
      if quantity == 0.0 then 1.0
      else
        var avg := Paid(Spend(b, sizeUSD)) / quantity;
        if avg <= expectedPrice then 0.0 else (avg - expectedPrice) / expectedPrice
  }

  method PriceImpact(sizeUSD: real, expectedPrice: real, levels: seq<Level>) returns (r: real)
    ensures r == ImpactOf(sizeUSD, expectedPrice, levels)
  {
    hide Cap, Shares, Spend, Paid, Bought;
    if sizeUSD <= 0.0 || expectedPrice <= 0.0 || |levels| == 0 { return 0.0; }
    var remaining, filledUSD, quantity := sizeUSD, 0.0, 0.0;
    ghost var b := Offers(levels, 0.0, "buy");
    ghost var rest := b;
    var i := 0;
    assert levels[0..] == levels;
    while i < |levels|
      invariant 0 <= i <= |levels|
      invariant rest == Offers(levels[i..], 0.0, "buy")
      invariant filledUSD + Paid(Spend(rest, remaining)) == Paid(Spend(b, sizeUSD))
      invariant quantity + Bought(rest, Spend(rest, remaining)) == Bought(b, Spend(b, sizeUSD))
    {
      var level := levels[i];
      assert levels[i..][1..] == levels[i + 1..];
      ghost var next := Offers(levels[i + 1..], 0.0, "buy");
      i := i + 1;
      if level.price <= 0.0 || level.size <= 0.0 { continue; }
      var maxSpend := Cap(level);
      var spend := Min(remaining, maxSpend);
      var shares := Shares(spend, level.price);
      quantity := quantity + shares;
      filledUSD := filledUSD + spend;
      SpendOnFirst(level, next, remaining);
      remaining := remaining - spend;
      rest := next;
      if remaining <= 0.0 { SpendNothing(rest); break; }
    }
    EmptyWalk(remaining);
    if quantity == 0.0 { return 1.0; }
    var avg := filledUSD / quantity;
    if avg <= expectedPrice { return 0.0; }
    return (avg - expectedPrice) / expectedPrice;
  }

  // ---------- Arithmetic ----------

  lemma PositiveProduct(x: real, y: real)
    requires x > 0.0 && y > 0.0
    ensures x * y > 0.0
  {}

  // ---------- The greedy allocation ----------

  lemma SpendOnFirst(o: Offer, b: seq<Offer>, size: real)
    ensures var s := Min(size, Cap(o));
            && Paid(Spend([o] + b, size)) == s + Paid(Spend(b, size - s))
            && Bought([o] + b, Spend([o] + b, size)) == Shares(s, o.price) + Bought(b, Spend(b, size - s))
  {}

  lemma EmptyWalk(size: real)
    ensures Paid(Spend([], size)) == 0.0 && Bought([], Spend([], size)) == 0.0
  {}

  lemma {:induction false} SpendNothing(b: seq<Offer>)
    ensures Paid(Spend(b, 0.0)) == 0.0 && Bought(b, Spend(b, 0.0)) == 0.0
  {
    hide Cap;
    if b != [] {
      SpendNothing(b[1..]);
    }
  }
}
