/** The FIFO set of processed article identifiers. */
module SeenTracker {

  class SeenTracker {
    const max: int
    var order: seq<string>
    var items: set<string>
    /** Every identifier ever added, oldest first, including later re-additions. */
    ghost var history: seq<string>

    ghost predicate Valid()
      reads this
    {
      && Holds(items, order)
      && order == Recent(history, max) && "" !in history && Additions(history, max)
    }

    constructor (max: int)
      ensures Valid() && this.max == max && order == [] && history == []
    {
      this.max := max;
      order, items, history := [], {}, [];
    }

    predicate Has(id: string)
      reads this
    {
      id in items
    }

    /** Adding a new identifier appends it and evicts the oldest beyond the bound. */
    method Add(id: string)
      requires Valid()
      modifies this
      ensures Valid()
      ensures order == Noted(old(order), id, max)
      ensures history == old(history) + (if id == "" || id in old(order) then [] else [id])
    {
      if id == "" || id in items {
        return;
      }
      hide Holds, Recent, Additions;
      ghost var full := order + [id];
      HoldsMore(items, order, id);
      RecentSnoc(history, id, max);
      AdditionsSnoc(history, id, max);
      items := items + {id};
      order := order + [id];
      history := history + [id];
      while max > 0 && |order| > max
        invariant Holds(items, order) && history == old(history) + [id]
        invariant Recent(order, max) == Recent(full, max)
      {
        HoldsLess(items, order);
        RecentDrop(order, max);
        items := items - {order[0]};
        order := order[1..];
      }
      RecentShort(order, max);
    }
  }

  /** The queue after noting an identifier. */
  ghost function Noted(order: seq<string>, id: string, max: int): seq<string> {
    if id == "" || id in order then order else Recent(order + [id], max)
  }

  /** The set and the queue hold the same identifiers, each once. */
  ghost predicate Holds(items: set<string>, order: seq<string>) {
    NoRepeats(order) && forall id :: id in items <==> id in order
  }

  lemma HoldsMore(items: set<string>, order: seq<string>, id: string)
    requires Holds(items, order) && id !in items
    ensures Holds(items + {id}, order + [id]) && id !in order
  {}

  lemma HoldsLess(items: set<string>, order: seq<string>)
    requires Holds(items, order) && order != []
    ensures Holds(items - {order[0]}, order[1..])
  {}

  lemma RecentDrop(s: seq<string>, max: int)
    requires 0 < max < |s|
    ensures Recent(s[1..], max) == Recent(s, max)
  {}

  lemma RecentShort(s: seq<string>, max: int)
    requires max <= 0 || |s| <= max
    ensures Recent(s, max) == s
  {}

  ghost predicate NoRepeats(s: seq<string>) {
    forall i, j :: 0 <= i < j < |s| ==> s[i] != s[j]
  }

  /** The last max entries, or all of them when max is not positive. */
  ghost function Recent(s: seq<string>, max: int): seq<string> {
    if max > 0 && |s| > max then s[|s| - max..] else s
  }

  lemma RecentSnoc(s: seq<string>, x: string, max: int)
    ensures Recent(s + [x], max) == Recent(Recent(s, max) + [x], max)
  {}

  /** The additions a tracker makes over a run: each identifier, when added, was not
      among the most recent ones. */
  ghost predicate Additions(history: seq<string>, max: int) {
    forall j :: 0 <= j < |history| ==> history[j] !in Recent(history[..j], max)
  }

  /** An article is processed again only after at least max other articles: between two
      additions of one identifier lie max pairwise different others. */
  lemma ReprocessingIsFarApart(history: seq<string>, max: int, i: nat, j: nat)
    requires Additions(history, max) && i < j < |history| && history[i] == history[j]
    ensures 0 < max < j - i
    ensures var between := history[j - max..j];
            |between| == max && NoRepeats(between) && history[j] !in between
  {
    var past := history[..j];
    assert past[i] == history[i];
    if max <= 0 || i >= j - max {
      InRecent(past, max, i);
      assert false;
    }
    assert Recent(past, max) == history[j - max..j];
    forall a, b | j - max <= a < b < j
      ensures history[a] != history[b]
    {
      InRecent(history[..b], max, a);
    }
  }

  lemma InRecent(s: seq<string>, max: int, i: nat)
    requires i < |s| && (max <= 0 || i >= |s| - max)
    ensures s[i] in Recent(s, max)
  {}

  lemma AdditionsSnoc(history: seq<string>, id: string, max: int)
    requires Additions(history, max) && id !in Recent(history, max)
    ensures Additions(history + [id], max)
  {
    var longer := history + [id];
    forall j | 0 <= j < |longer|
      ensures longer[j] !in Recent(longer[..j], max)
    {
      assert longer[..j] == history[..j];
      assert history[..|history|] == history;
    }
  }
}
