/** Keyword and entity extraction. Lower-casing is a parameter, rune by rune, of which
    only the behaviour on plain tokens and blanks is assumed. */
module TextMatch {

  const STOP_WORDS := {
    "the", "a", "an", "and", "or", "of", "to", "in", "on", "for", "will", "be", "is", "are", "by", "with",
    "before", "after", "from", "this", "that", "as", "at",
    "approved", "approve", "approval", "decision", "decide", "delays", "delay",
    "spot", "june", "july", "august", "september", "october", "november", "december"}

  predicate IsTokenChar(c: char) { 'a' <= c <= 'z' || '0' <= c <= '9' }

  predicate IsWord(w: string) { w != "" && forall i :: 0 <= i < |w| ==> IsTokenChar(w[i]) }

  ghost predicate KeepsTokens(lower: char -> char) {
    forall c :: IsTokenChar(c) || c == ' ' ==> lower(c) == c
  }

  function Lower(lower: char -> char, s: string): string {
    seq(|s|, i requires 0 <= i < |s| => lower(s[i]))
  }

  function RunLength(s: string): (n: nat)
    ensures n <= |s| && (n < |s| ==> !IsTokenChar(s[n]))
    ensures forall i :: 0 <= i < n ==> IsTokenChar(s[i])
  {
    if s == "" || !IsTokenChar(s[0]) then 0 else 1 + RunLength(s[1..])
  }

  /** The maximal runs of token characters, in order. */
  function Tokens(s: string): seq<string>
    decreases |s|
  {
    if s == "" then []
    else if !IsTokenChar(s[0]) then Tokens(s[1..])
    else
      var n := RunLength(s);
      [s[..n]] + Tokens(s[n..])
  }

  predicate IsNumeric(tok: string) { tok != "" && forall i :: 0 <= i < |tok| ==> '0' <= tok[i] <= '9' }

  predicate Kept(tok: string) { tok !in STOP_WORDS && |tok| >= 2 && !IsNumeric(tok) }

  function Canonical(tok: string): string {
    if tok == "btc" || tok == "bitcoin" then "bitcoin"
    else if tok == "eth" || tok == "ether" || tok == "ethereum" then "ethereum"
    else if tok == "sec" then "sec"
    else if tok == "fed" || tok == "fomc" then "fed"
    else if tok == "trump" || tok == "donaldtrump" then "trump"
    else if tok == "etf" then "etf"
    else tok
  }

  function Synonyms(kw: string): seq<string> {
    if kw == "bitcoin" || kw == "btc" then ["btc", "bitcoin"]
    else if kw == "ethereum" || kw == "ether" || kw == "eth" then ["eth", "ethereum", "ether"]
    else if kw == "sec" then ["sec", "securities and exchange commission"]
    else if kw == "fed" || kw == "fomc" then ["fed", "federal reserve", "fomc"]
    else if kw == "trump" then ["trump", "donald trump"]
    else if kw == "etf" then ["etf", "exchange traded fund"]
    else []
  }

  /** The kept tokens in canonical form. */
  function Terms(toks: seq<string>): seq<string> {
    if toks == [] then []
    else
      var last := toks[|toks| - 1];
      Terms(toks[..|toks| - 1]) + (if Kept(last) then [Canonical(last)] else [])
  }

  /** First occurrences only. */
  function Dedup(xs: seq<string>): seq<string> {
    if xs == [] then []
    else
      var r, last := Dedup(xs[..|xs| - 1]), xs[|xs| - 1];
      if last in r then r else r + [last]
  }

  function Expand(kws: seq<string>): seq<string> {
    if kws == [] then []
    else Expand(kws[..|kws| - 1]) + Synonyms(kws[|kws| - 1])
  }

  function KeywordsOf(lower: char -> char, text: string): seq<string> {
    Dedup(Terms(Tokens(Lower(lower, text))))
  }

  function EntitiesOf(lower: char -> char, text: string): seq<string> {
    Dedup(Expand(KeywordsOf(lower, text)))
  }

  method Keywords(lower: char -> char, text: string) returns (out: seq<string>)
    ensures out == KeywordsOf(lower, text)
  {
    hide Canonical, Dedup, Terms;
    EmptyLists();
    var toks := Tokens(Lower(lower, text));
    assert toks[..0] == [];
    var seen: set<string> := {};
    out := [];
    for i := 0 to |toks|
      invariant out == Dedup(Terms(toks[..i]))
      invariant forall w :: w in seen <==> w in out
    {
      var tok := toks[i];
      assert toks[..i + 1] == toks[..i] + [tok];
      TermsSnoc(toks[..i], tok);
      assert Terms(toks[..i]) + [] == Terms(toks[..i]);
      if tok in STOP_WORDS || |tok| < 2 || IsNumeric(tok) { continue; }
      var canonical := Canonical(tok);
      CanonicalNotEmpty(tok);
      if canonical != "" { tok := canonical; }
      DedupSnoc(Terms(toks[..i]), tok);
      if tok !in seen {
        seen, out := seen + {tok}, out + [tok];
      }
    }
    assert toks[..|toks|] == toks;
  }

  method Entities(lower: char -> char, text: string) returns (out: seq<string>)
    ensures out == EntitiesOf(lower, text)
  {
    hide Synonyms, Dedup, Expand, KeywordsOf;
    EmptyLists();
    var kws := Keywords(lower, text);
    assert kws[..0] == [];
    var seen: set<string> := {};
    out := [];
    for i := 0 to |kws|
      invariant out == Dedup(Expand(kws[..i]))
      invariant forall w :: w in seen <==> w in out
    {
      var vals := Synonyms(kws[i]);
      ghost var before := Expand(kws[..i]);
      assert before + vals[..0] == before;
      for j := 0 to |vals|
        invariant out == Dedup(before + vals[..j])
        invariant forall w :: w in seen <==> w in out
      {
        assert before + vals[..j + 1] == (before + vals[..j]) + [vals[j]];
        DedupSnoc(before + vals[..j], vals[j]);
        if vals[j] !in seen {
          seen, out := seen + {vals[j]}, out + [vals[j]];
        }
      }
      assert vals[..|vals|] == vals;
      assert kws[..i + 1] == kws[..i] + [kws[i]];
      ExpandSnoc(kws[..i], kws[i]);
    }
    assert kws[..|kws|] == kws;
  }

  // ---------- First occurrences ----------

  lemma EmptyLists()
    ensures Dedup([]) == [] && Terms([]) == [] && Expand([]) == []
  {}

  lemma CanonicalNotEmpty(tok: string)
    ensures tok != "" ==> Canonical(tok) != ""
  {}

  lemma TermsSnoc(toks: seq<string>, tok: string)
    ensures Terms(toks + [tok]) == Terms(toks) + (if Kept(tok) then [Canonical(tok)] else [])
  {}

  lemma ExpandSnoc(kws: seq<string>, kw: string)
    ensures Expand(kws + [kw]) == Expand(kws) + Synonyms(kw)
  {}

  lemma DedupSnoc(xs: seq<string>, x: string)
    ensures Dedup(xs + [x]) == if x in Dedup(xs) then Dedup(xs) else Dedup(xs) + [x]
  {}

  ghost predicate Distinct(xs: seq<string>) {
    forall i, j :: 0 <= i < j < |xs| ==> xs[i] != xs[j]
  }

  lemma {:induction false} DedupDistinct(xs: seq<string>)
    ensures Distinct(Dedup(xs)) && forall x :: x in Dedup(xs) <==> x in xs
  {
    if xs != [] {
      DedupDistinct(xs[..|xs| - 1]);
      assert xs == xs[..|xs| - 1] + [xs[|xs| - 1]];
    }
  }

  /** Appending words already present changes nothing. */
  lemma {:induction false} DedupAbsorbs(xs: seq<string>, ys: seq<string>)
    requires forall y :: y in ys ==> y in xs
    ensures Dedup(xs + ys) == Dedup(xs)
  {
    if ys == [] {
      assert xs + ys == xs;
    } else {
      var init, last := ys[..|ys| - 1], ys[|ys| - 1];
      assert ys == init + [last];
      assert xs + ys == (xs + init) + [last];
      DedupAbsorbs(xs, init);
      DedupSnoc(xs + init, last);
      DedupDistinct(xs);
    }
  }

  /** Appending any words keeps what was there and adds only some of them. */
  lemma {:induction false} DedupExtends(xs: seq<string>, ys: seq<string>) returns (zs: seq<string>)
    ensures Dedup(xs + ys) == Dedup(xs) + zs && forall z :: z in zs ==> z in ys
  {
    if ys == [] {
      assert xs + ys == xs;
      zs := [];
    } else {
      var init, last := ys[..|ys| - 1], ys[|ys| - 1];
      assert ys == init + [last];
      assert xs + ys == (xs + init) + [last];
      zs := DedupExtends(xs, init);
      DedupSnoc(xs + init, last);
      if last !in Dedup(xs + init) { zs := zs + [last]; }
    }
  }

  lemma {:induction false} TermsAppend(xs: seq<string>, ys: seq<string>)
    ensures Terms(xs + ys) == Terms(xs) + Terms(ys)
  {
    hide Canonical, Kept;
    if ys == [] {
      assert xs + ys == xs;
    } else {
      assert (xs + ys)[..|xs + ys| - 1] == xs + ys[..|ys| - 1];
      TermsAppend(xs, ys[..|ys| - 1]);
    }
  }

  lemma {:induction false} ExpandAppend(xs: seq<string>, ys: seq<string>)
    ensures Expand(xs + ys) == Expand(xs) + Expand(ys)
  {
    hide Synonyms;
    if ys == [] {
      assert xs + ys == xs;
    } else {
      assert (xs + ys)[..|xs + ys| - 1] == xs + ys[..|ys| - 1];
      ExpandAppend(xs, ys[..|ys| - 1]);
    }
  }

  lemma {:induction false} ExpandContains(kws: seq<string>)
    ensures forall v :: v in Expand(kws) <==> exists k :: k in kws && v in Synonyms(k)
  {
    hide Synonyms;
    if kws != [] {
      var init, last := kws[..|kws| - 1], kws[|kws| - 1];
      ExpandContains(init);
      assert kws == init + [last];
      assert forall k :: k in kws <==> k in init || k == last;
    }
  }

  lemma {:induction false} TermsContains(toks: seq<string>)
    ensures forall y :: y in Terms(toks) <==> exists t :: t in toks && Kept(t) && y == Canonical(t)
  {
    hide Canonical, Kept;
    if toks != [] {
      var init, last := toks[..|toks| - 1], toks[|toks| - 1];
      TermsContains(init);
      assert toks == init + [last];
      assert forall t :: t in toks <==> t in init || t == last;
    }
  }
}
