/** The news fetcher: a dedupe loop over the cache that admits a content hash at most once
    in any 24 hours, and news.arrived, published for the admitted articles once the whole
    batch has been gone through and saved. */
module Fetcher {
  import opened Model
  import opened Cache
  import opened Store
  import opened TextMatch
  import Matcher

  const DAY := 24 * 3600 * 1_000_000_000

  function DedupeKey(hash: string): string { "dedupe:news:" + hash }

  datatype Admission = Admission(hash: string, at: int)

  /** One news.arrived: what was admitted when, and when it was sent. */
  datatype Publication = Publication(hash: string, admittedAt: int, sentAt: int)

  function Delay(p: Publication): int { p.sentAt - p.admittedAt }

  /** Every admission is published once, in order, and not before it was admitted. */
  ghost predicate SentAll(admissions: seq<Admission>, published: seq<Publication>) {
    && |published| == |admissions|
    && forall i :: 0 <= i < |published| ==>
         && published[i].hash == admissions[i].hash && published[i].admittedAt == admissions[i].at
         && Delay(published[i]) >= 0
  }

  ghost predicate Spaced(admissions: seq<Admission>) {
    forall i, j :: 0 <= i < j < |admissions| && admissions[i].hash == admissions[j].hash ==>
      admissions[j].at >= admissions[i].at + DAY
  }

  /** The rule the cache is there to enforce: a hash is due when a day has passed since
      every earlier admission of it. */
  ghost predicate Due(admissions: seq<Admission>, hash: string, now: int) {
    forall i :: 0 <= i < |admissions| && admissions[i].hash == hash ==> now >= admissions[i].at + DAY
  }

  /** The admissions after a batch, by that rule alone, with the articles admitted. */
  ghost function Admit(admissions: seq<Admission>, batch: seq<NewsArticle>, times: seq<int>)
    : (seq<Admission>, seq<NewsArticle>)
    requires |batch| == |times|
  {
    if batch == [] then (admissions, [])
    else
      var n := |batch| - 1;
      var (before, admitted) := Admit(admissions, batch[..n], times[..n]);
      if Due(before, batch[n].hash, times[n]) then
        (before + [Admission(batch[n].hash, times[n])], admitted + [batch[n]])
      else (before, admitted)
  }

  /** Each admission's entry lasts at least its day. */
  ghost predicate Blocking(admissions: seq<Admission>, writes: map<string, Item>) {
    forall i :: 0 <= i < |admissions| ==>
      var k := DedupeKey(admissions[i].hash);
      k in writes && writes[k].expiresAt.Some? && writes[k].expiresAt.value >= admissions[i].at + DAY
  }

  ghost predicate BackedAt(admissions: seq<Admission>, writes: map<string, Item>, h: string, i: int) {
    0 <= i < |admissions| && admissions[i].hash == h && DedupeKey(h) in writes
    && writes[DedupeKey(h)].expiresAt == Some(admissions[i].at + DAY)
  }

  /** Every dedupe entry expires a day after some admission of its hash. */
  ghost predicate Backed(admissions: seq<Admission>, writes: map<string, Item>) {
    forall h :: DedupeKey(h) in writes ==> exists i :: BackedAt(admissions, writes, h, i)
  }

  /** The cache knows the admissions, and nothing else under their keys. */
  ghost predicate Tied(admissions: seq<Admission>, writes: map<string, Item>) {
    Blocking(admissions, writes) && Backed(admissions, writes)
  }

  lemma DedupeKeyInjective(g: string, h: string)
    requires DedupeKey(g) == DedupeKey(h)
    ensures g == h
  {
    assert DedupeKey(g)[|"dedupe:news:"|..] == g && DedupeKey(h)[|"dedupe:news:"|..] == h;
  }

  /** The cache's answer is the rule's. */
  lemma FreshIsDue(admissions: seq<Admission>, writes: map<string, Item>, hash: string, now: int)
    requires Tied(admissions, writes)
    ensures ReadBack(writes, DedupeKey(hash), now).None? <==> Due(admissions, hash, now)
  {}

  lemma StillBlocking(admissions: seq<Admission>, writes: map<string, Item>, hash: string, now: int)
    requires Blocking(admissions, writes) && Due(admissions, hash, now)
    ensures Blocking(admissions + [Admission(hash, now)], writes[DedupeKey(hash) := Item("1", Some(now + DAY))])
  {
    hide DedupeKey;
    forall i | 0 <= i < |admissions|
      ensures DedupeKey(admissions[i].hash) == DedupeKey(hash) ==> admissions[i].hash == hash
    {
      if DedupeKey(admissions[i].hash) == DedupeKey(hash) { DedupeKeyInjective(admissions[i].hash, hash); }
    }
  }

  lemma StillBacked(admissions: seq<Admission>, writes: map<string, Item>, hash: string, now: int)
    requires Backed(admissions, writes)
    ensures Backed(admissions + [Admission(hash, now)], writes[DedupeKey(hash) := Item("1", Some(now + DAY))])
  {
    hide DedupeKey;
    var longer, after := admissions + [Admission(hash, now)], writes[DedupeKey(hash) := Item("1", Some(now + DAY))];
    forall h | DedupeKey(h) in after
      ensures exists i :: BackedAt(longer, after, h, i)
    {
      if DedupeKey(h) == DedupeKey(hash) {
        DedupeKeyInjective(h, hash);
        assert BackedAt(longer, after, h, |admissions|);
      } else {
        var i :| BackedAt(admissions, writes, h, i);
        assert BackedAt(longer, after, h, i);
      }
    }
  }

  lemma Accepted(admissions: seq<Admission>, writes: map<string, Item>, hash: string, now: int)
    requires Spaced(admissions) && Tied(admissions, writes) && Due(admissions, hash, now)
    ensures Spaced(admissions + [Admission(hash, now)])
    ensures Tied(admissions + [Admission(hash, now)], writes[DedupeKey(hash) := Item("1", ExpiresAt(now, DAY))])
  {
    StillBlocking(admissions, writes, hash, now);
    StillBacked(admissions, writes, hash, now);
    hide Blocking, Backed, DedupeKey;
  }

  class FetcherService {
    const cache: MemoryCache
    const store: MemoryStore
    const newId: set<string> -> string
    const lower: char -> char
    ghost var admissions: seq<Admission>
    ghost var published: seq<Publication>

    ghost predicate Valid()
      reads this, cache
    {
      && cache.Valid() && FreshIds(newId)
      && Spaced(admissions) && Tied(admissions, cache.writes) && SentAll(admissions, published)
    }

    constructor (newId: set<string> -> string, lower: char -> char)
      requires FreshIds(newId)
      ensures Valid() && admissions == [] && published == [] && cache.clock == 0
    {
      this.newId, this.lower := newId, lower;
      cache := new MemoryCache();
      store := new MemoryStore();
      admissions, published := [], [];
    }

    /** Fills in what a fetched article lacks and extracts its words. */
    method Prepare(a: NewsArticle, used: set<string>) returns (b: NewsArticle)
      requires FreshIds(newId)
      ensures Prepared(lower, a, b) && (a.id == "" ==> b.id !in used)
    {
      hide KeywordsOf, EntitiesOf;
      b := a;
      if b.id == "" { b := b.(id := newId(used)); }
      if b.hash == "" { b := b.(hash := b.id); }
      var keywords := Keywords(lower, b.title + " " + b.content);
      var entities := Entities(lower, b.title + " " + b.content);
      b := b.(keywords := keywords, entities := entities);
    }

    /** One fetch over a batch, with the clock as it stood at each article and at each
        publication. It admits exactly the articles whose hash is due, so that over any
        sequence of fetches two admissions of one hash are at least a day apart and none
        is held back longer; then it saves them and publishes each. */
    method FetchNow(batch: seq<NewsArticle>, times: seq<int>, sendTime: nat -> int)
      returns (unique: seq<NewsArticle>, ghost prepared: seq<NewsArticle>)
      requires Valid() && |times| == |batch|
      requires forall i, j :: 0 <= i < j < |times| ==> times[i] <= times[j]
      requires |times| > 0 ==> times[0] >= cache.clock
      requires forall i, k :: 0 <= i < |times| ==> sendTime(k) >= times[i]
      modifies this, cache, store`articles
      ensures Valid()
      ensures |prepared| == |batch| && forall i :: 0 <= i < |batch| ==> Prepared(lower, batch[i], prepared[i])
      ensures (admissions, unique) == Admit(old(admissions), prepared, times)
      ensures store.articles == AddArticles(old(store.articles), unique)
      ensures old(published) <= published && |published| == |old(published)| + |unique|
      ensures forall k :: 0 <= k < |unique| ==>
                var p := published[|old(published)| + k];
                p.hash == unique[k].hash && p.sentAt == sendTime(k)
    {
      hide KeywordsOf, EntitiesOf, AddArticles, Tied, MemoryCache.Valid, DedupeKey, ReadBack, Due, Prepared,
        Spaced, SentAll, AdmittedFor, Admit;
      unique, prepared := Dedupe(batch, times);
      store.SaveNewsArticles(unique);
      PublishAll(unique, times, sendTime, old(admissions));
    }

    /** news.arrived for every unique article, in order. */
    method PublishAll(unique: seq<NewsArticle>, ghost times: seq<int>, sendTime: nat -> int, ghost before: seq<Admission>)
      requires SentAll(before, published) && AdmittedFor(before, admissions, unique, times)
      requires forall i, k :: 0 <= i < |times| ==> sendTime(k) >= times[i]
      modifies this`published
      ensures SentAll(admissions, published)
      ensures old(published) <= published && |published| == |old(published)| + |unique|
      ensures forall k :: 0 <= k < |unique| ==>
                var p := published[|old(published)| + k];
                p.hash == unique[k].hash && p.sentAt == sendTime(k)
    {
      ghost var n := |published|;
      assert admissions[..n] == before;
      for k := 0 to |unique|
        invariant |published| == n + k && old(published) <= published
        invariant SentAll(admissions[..n + k], published)
        invariant forall j :: 0 <= j < k ==>
                    published[n + j].hash == unique[j].hash && published[n + j].sentAt == sendTime(j)
      {
        published := published + [Publication(unique[k].hash, admissions[n + k].at, sendTime(k))];
      }
      assert admissions[..|admissions|] == admissions;
    }

    /** The loop over the cache. */
    method Dedupe(batch: seq<NewsArticle>, times: seq<int>)
      returns (unique: seq<NewsArticle>, ghost prepared: seq<NewsArticle>)
      requires Valid() && |times| == |batch|
      requires forall i, j :: 0 <= i < j < |times| ==> times[i] <= times[j]
      requires |times| > 0 ==> times[0] >= cache.clock
      modifies this`admissions, cache
      ensures cache.Valid() && Spaced(admissions) && Tied(admissions, cache.writes)
      ensures |prepared| == |batch| && forall i :: 0 <= i < |batch| ==> Prepared(lower, batch[i], prepared[i])
      ensures (admissions, unique) == Admit(old(admissions), prepared, times)
      ensures AdmittedFor(old(admissions), admissions, unique, times)
    {
      hide KeywordsOf, EntitiesOf, Spaced, Tied, MemoryCache.Valid, DedupeKey, ReadBack, Due, Prepared,
        SentAll, AdmittedFor;
      unique, prepared := [], [];
      AdmittedNone(admissions, times);
      var used := store.articles.Keys;
      for n := 0 to |batch|
        invariant cache.Valid() && Spaced(admissions) && Tied(admissions, cache.writes)
        invariant n < |times| ==> times[n] >= cache.clock
        invariant |prepared| == n && forall i :: 0 <= i < n ==> Prepared(lower, batch[i], prepared[i])
        invariant (admissions, unique) == Admit(old(admissions), prepared, times[..n])
        invariant AdmittedFor(old(admissions), admissions, unique, times)
      {
        var a := Prepare(batch[n], used);
        used := used + {a.id};
        FreshIsDue(admissions, cache.writes, a.hash, times[n]);
        ghost var writes := cache.writes;
        var ok := cache.SetNX(DedupeKey(a.hash), "1", DAY, times[n]);
        assert (prepared + [a])[..n] == prepared && times[..n + 1][..n] == times[..n];
        prepared := prepared + [a];
        if ok {
          Accepted(admissions, writes, a.hash, times[n]);
          AdmittedMore(old(admissions), admissions, unique, times, a, n);
          unique := unique + [a];
          admissions := admissions + [Admission(a.hash, times[n])];
        }
      }
      assert times[..|batch|] == times;
    }
  }

  /** The admissions a batch adds are those of its unique articles, at its own times. */
  ghost predicate AdmittedFor(before: seq<Admission>, after: seq<Admission>, unique: seq<NewsArticle>, times: seq<int>) {
    && before <= after && |after| == |before| + |unique|
    && forall k :: 0 <= k < |unique| ==>
         after[|before| + k].hash == unique[k].hash && exists i :: 0 <= i < |times| && after[|before| + k].at == times[i]
  }

  lemma AdmittedNone(before: seq<Admission>, times: seq<int>)
    ensures AdmittedFor(before, before, [], times)
  {}

  lemma AdmittedMore(before: seq<Admission>, after: seq<Admission>, unique: seq<NewsArticle>, times: seq<int>,
                     a: NewsArticle, n: nat)
    requires AdmittedFor(before, after, unique, times) && n < |times|
    ensures AdmittedFor(before, after + [Admission(a.hash, times[n])], unique + [a], times)
  {}

  lemma AdmitOne(admissions: seq<Admission>, a: NewsArticle, now: int)
    ensures Admit(admissions, [a], [now])
         == if Due(admissions, a.hash, now) then (admissions + [Admission(a.hash, now)], [a]) else (admissions, [])
  {
    var batch, times, none := [a], [now], [];
    assert batch[..|batch| - 1] == none && times[..|batch| - 1] == [];
    assert none + [a] == [a];
  }

  // ---------- How far apart news.arrived comes ----------

  /** Over any sequence of fetches, two articles of one hash are admitted at least 24 hours
      apart, in nanoseconds, and their news.arrived come at least a day apart less the
      first one's delay plus the second one's. */
  lemma PublicationsAreSpaced(admissions: seq<Admission>, published: seq<Publication>, i: nat, j: nat)
    requires Spaced(admissions) && SentAll(admissions, published)
    requires i < j < |published| && published[i].hash == published[j].hash
    ensures published[j].sentAt >= published[i].sentAt + DAY - Delay(published[i]) + Delay(published[j])
    ensures published[j].admittedAt >= published[i].admittedAt + 86_400_000_000_000
  {
    assert admissions[i].hash == admissions[j].hash;
  }

  ghost predicate DayApart(published: seq<Publication>) {
    forall i, j :: 0 <= i < j < |published| && published[i].hash == published[j].hash ==>
      published[j].sentAt >= published[i].sentAt + DAY
  }

  ghost predicate Delayed(published: seq<Publication>, delays: seq<nat>) {
    |published| == |delays| && forall i :: 0 <= i < |delays| ==> Delay(published[i]) == delays[i]
  }

  /** Fetches whose articles wait this long between admission and sending publish every
      hash at most once a day, whatever is admitted when, if and only if no article waits
      less than an earlier one. */
  lemma DayApartIff(delays: seq<nat>)
    ensures (forall admissions, published ::
               Spaced(admissions) && SentAll(admissions, published) && Delayed(published, delays) ==> DayApart(published))
       <==> forall i, j :: 0 <= i < j < |delays| ==> delays[i] <= delays[j]
  {
    hide DayApart;
    if i, j :| 0 <= i < j < |delays| && delays[j] < delays[i] {
      var admissions, published := HurriedRepeat(delays, i, j);
    } else {
      forall admissions, published | Spaced(admissions) && SentAll(admissions, published) && Delayed(published, delays)
        ensures DayApart(published)
      {
        PatientIsDayApart(admissions, published, delays);
      }
    }
  }

  lemma PatientIsDayApart(admissions: seq<Admission>, published: seq<Publication>, delays: seq<nat>)
    requires Spaced(admissions) && SentAll(admissions, published) && Delayed(published, delays)
    requires forall i, j :: 0 <= i < j < |delays| ==> delays[i] <= delays[j]
    ensures DayApart(published)
  {
    forall i, j | 0 <= i < j < |published| && published[i].hash == published[j].hash
      ensures published[j].sentAt >= published[i].sentAt + DAY
    {
      PublicationsAreSpaced(admissions, published, i, j);
      assert delays[i] <= delays[j];
    }
  }

  /** Hashes that differ, but for the j-th, which repeats the i-th a day later. */
  lemma HurriedRepeat(delays: seq<nat>, i: nat, j: nat) returns (admissions: seq<Admission>, published: seq<Publication>)
    requires i < j < |delays| && delays[j] < delays[i]
    ensures Spaced(admissions) && SentAll(admissions, published) && Delayed(published, delays) && !DayApart(published)
  {
    admissions := seq(|delays|, k requires 0 <= k < |delays| =>
                        Admission(Tag(if k == j then i else k), if k < j then 0 else DAY));
    published := seq(|delays|, k requires 0 <= k < |delays| =>
                       Publication(admissions[k].hash, admissions[k].at, admissions[k].at + delays[k]));
    forall p, q | 0 <= p < q < |delays| && admissions[p].hash == admissions[q].hash
      ensures p == i && q == j
    {
      assert admissions[p].hash == Tag(if p == j then i else p);
      assert admissions[q].hash == Tag(if q == j then i else q);
    }
    assert published[i].hash == published[j].hash;
    assert published[j].sentAt < published[i].sentAt + DAY;
  }

  function Tag(n: nat): (s: string)
    ensures |s| == n
  {
    seq(n, _ => 'x')
  }

  /** A slow fetch and, a day later, a quick one: both admit the article, and the second
      news.arrived comes an hour short of a day after the first. */
  lemma SlowFetchThenQuick(a: NewsArticle)
    ensures var hour := DAY / 24;
            var (once, first) := Admit([], [a], [0]);
            var (twice, second) := Admit(once, [a], [DAY]);
            var published := [Publication(a.hash, 0, hour), Publication(a.hash, DAY, DAY)];
            && first == second == [a] && SentAll(twice, published)
            && published[1].sentAt == published[0].sentAt + DAY - hour
  {
    hide Admit;
    var none, first, again := [], Admission(a.hash, 0), Admission(a.hash, DAY);
    AdmitOne(none, a, 0);
    assert none + [first] == [first];
    AdmitOne([first], a, DAY);
    assert [first] + [again] == [first, again];
  }

  // ---------- What is published is stored ----------

  ghost predicate StoredUnderOwnId(articles: map<string, NewsArticle>) {
    forall id :: id in articles ==> articles[id].id == id
  }

  lemma {:induction false} AddedIsKept(articles: map<string, NewsArticle>, batch: seq<NewsArticle>)
    requires StoredUnderOwnId(articles)
    ensures articles.Keys <= AddArticles(articles, batch).Keys && StoredUnderOwnId(AddArticles(articles, batch))
    decreases |batch|
  {
    if batch != [] {
      AddedIsKept(AddArticle(articles, batch[0]), batch[1..]);
    }
  }

  lemma {:induction false} AddArticlesSplit(articles: map<string, NewsArticle>, batch: seq<NewsArticle>, n: nat)
    requires n <= |batch|
    ensures AddArticles(articles, batch) == AddArticles(AddArticles(articles, batch[..n]), batch[n..])
    decreases n
  {
    hide AddArticle;
    if n == 0 {
      assert batch[..0] == [] && batch[0..] == batch;
    } else {
      AddArticlesSplit(AddArticle(articles, batch[0]), batch[1..], n - 1);
      assert batch[..n][1..] == batch[1..][..n - 1] && batch[1..][n - 1..] == batch[n..];
    }
  }

  /** The cache forgets a hash after a day and the store never does. Among articles with
      identifiers of their own, a published one is found under its identifier after the
      save if and only if something was stored under it before, or no article of its hash
      was stored when its turn came. */
  lemma PublishedIsStoredIff(articles: map<string, NewsArticle>, batch: seq<NewsArticle>, k: nat)
    requires StoredUnderOwnId(articles) && k < |batch|
    requires forall i, j :: 0 <= i < j < |batch| ==> batch[i].id != batch[j].id
    ensures batch[k].id in AddArticles(articles, batch)
       <==> batch[k].id in articles || !HashKnown(AddArticles(articles, batch[..k]), batch[k].hash)
  {
    var before := AddArticles(articles, batch[..k]);
    AddArticlesSplit(articles, batch, k);
    AddedIsKept(articles, batch[..k]);
    assert batch[k..] == [batch[k]] + batch[k + 1..];
    AddedIsKept(AddArticle(before, batch[k]), batch[k + 1..]);
    OthersAddNothing(articles, batch[..k], batch[k].id);
    OthersAddNothing(AddArticle(before, batch[k]), batch[k + 1..], batch[k].id);
    assert batch[k..][1..] == batch[k + 1..];
  }

  lemma {:induction false} OthersAddNothing(articles: map<string, NewsArticle>, batch: seq<NewsArticle>, id: string)
    requires forall a :: a in batch ==> a.id != id
    ensures id in AddArticles(articles, batch) <==> id in articles
    decreases |batch|
  {
    if batch != [] {
      assert forall a :: a in batch[1..] ==> a in batch;
      OthersAddNothing(AddArticle(articles, batch[0]), batch[1..], id);
    }
  }

  /** Where one hash always comes with one identifier, as with identifiers taken from the
      hash, every published article is found under its own. */
  lemma {:induction false} IdentifiersFromHashesAreStored(articles: map<string, NewsArticle>, batch: seq<NewsArticle>,
                                                          idOf: string -> string, a: NewsArticle)
    requires StoredUnderOwnId(articles) && (forall id :: id in articles ==> idOf(articles[id].hash) == id)
    requires (forall b :: b in batch ==> b.id == idOf(b.hash)) && a in batch
    ensures a.id in AddArticles(articles, batch)
    decreases |batch|
  {
    var next := AddArticle(articles, batch[0]);
    if a == batch[0] {
      AddedIsKept(next, batch[1..]);
    } else {
      IdentifiersFromHashesAreStored(next, batch[1..], idOf, a);
    }
  }

  /** The same content fetched a day later under a new identifier, as when the identifier
      is filled in: it is admitted and published, and not stored. */
  lemma RepublishedIsNotStored(a: NewsArticle, b: NewsArticle)
    requires a.hash == b.hash && a.id != b.id
    ensures var (once, first) := Admit([], [a], [0]);
            var (twice, second) := Admit(once, [b], [DAY]);
            first == [a] && second == [b] && b.id !in AddArticles(AddArticles(map[], first), second)
  {
    hide Admit;
    var none, first, again := [], Admission(a.hash, 0), Admission(a.hash, DAY);
    AdmitOne(none, a, 0);
    assert none + [first] == [first];
    AdmitOne([first], b, DAY);
    assert [a][1..] == [] && [b][1..] == [];
    var empty: map<string, NewsArticle> := map[];
    var stored := AddArticle(empty, a);
    assert AddArticles(empty, [a]) == AddArticles(stored, []) == stored;
    assert HashKnown(stored, b.hash) by { assert stored[a.id] == a; }
    assert AddArticles(stored, [b]) == AddArticles(AddArticle(stored, b), []) == stored;
  }

  /** An article as the fetcher passes it on: identified, hashed, and with the keywords
      and entities of its own text. */
  ghost predicate Prepared(lower: char -> char, a: NewsArticle, b: NewsArticle) {
    && b.title == a.title && b.content == a.content
    && b.id == (if a.id != "" then a.id else b.id) && b.id != ""
    && b.hash == (if a.hash != "" then a.hash else b.id)
    && Extracted(lower, b)
  }

  /** What the matcher relies on: the stored lists are those of the article's own text. */
  ghost predicate Extracted(lower: char -> char, a: NewsArticle) {
    a.keywords == KeywordsOf(lower, Matcher.NewsText(a)) && a.entities == EntitiesOf(lower, Matcher.NewsText(a))
  }

  /** From fetch to match: for every article a fetch lets through, the matcher scores
      with exactly the keywords and entities the fetcher stored. */
  lemma FetchedListsAreUsed(lower: char -> char, a: NewsArticle)
    requires KeepsTokens(lower) && Extracted(lower, a)
    ensures Matcher.NewsKeywords(lower, a) == a.keywords && Matcher.NewsEntities(lower, a) == a.entities
  {
    hide KeywordsOf, EntitiesOf;
    Matcher.PrecomputedListsAreUsed(lower, a);
  }
}
