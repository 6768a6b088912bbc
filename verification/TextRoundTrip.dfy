/** Appending an article's precomputed keywords or entities to its own text, as the
    matcher does, changes neither its keywords nor its entities. */
module TextRoundTrip {
  import opened TextMatch

  /** Words separated by single blanks. */
  function Join(words: seq<string>): string {
    if words == [] then ""
    else if |words| == 1 then words[0]
    else words[0] + " " + Join(words[1..])
  }

  // ---------- Tokenising ----------

  lemma {:induction false} RunLengthStops(a: string, b: string)
    requires b == "" || !IsTokenChar(b[0])
    ensures RunLength(a + b) == RunLength(a)
  {
    if a == "" {
      assert a + b == b;
    } else {
      assert (a + b)[1..] == a[1..] + b;
      RunLengthStops(a[1..], b);
    }
  }

  /** A blank separates: the tokens of a and of b, side by side. */
  lemma {:induction false} TokensAcrossBlank(a: string, b: string)
    ensures Tokens(a + " " + b) == Tokens(a) + Tokens(b)
    decreases |a|
  {
    var s := a + " " + b;
    if a == "" {
      assert s == " " + b && s[1..] == b;
    } else if !IsTokenChar(a[0]) {
      assert s[1..] == a[1..] + " " + b;
      TokensAcrossBlank(a[1..], b);
    } else {
      var n := RunLength(a);
      assert s == a + (" " + b);
      RunLengthStops(a, " " + b);
      assert s[..n] == a[..n] && s[n..] == a[n..] + " " + b;
      TokensAcrossBlank(a[n..], b);
      assert Tokens(s) == [a[..n]] + (Tokens(a[n..]) + Tokens(b));
    }
  }

  lemma {:induction false} TokensOfWord(w: string)
    requires IsWord(w)
    ensures Tokens(w) == [w]
  {
    var n := RunLength(w);
    assert n == |w|;
    assert w[..n] == w && w[n..] == "";
  }

  lemma {:induction false} TokensAreWords(s: string)
    ensures forall t :: t in Tokens(s) ==> IsWord(t)
    decreases |s|
  {
    if s != "" {
      if !IsTokenChar(s[0]) {
        TokensAreWords(s[1..]);
      } else {
        TokensAreWords(s[RunLength(s)..]);
      }
    }
  }

  /** Joining words and tokenising gives the words back. */
  lemma {:induction false} TokensOfJoin(words: seq<string>)
    requires forall w :: w in words ==> IsWord(w)
    ensures Tokens(Join(words)) == words
  {
    if |words| == 1 {
      TokensOfWord(words[0]);
    } else if |words| > 1 {
      TokensOfWord(words[0]);
      TokensOfJoin(words[1..]);
      TokensAcrossBlank(words[0], Join(words[1..]));
    }
  }

  ghost predicate Plain(s: string) {
    forall i :: 0 <= i < |s| ==> IsTokenChar(s[i]) || s[i] == ' '
  }

  lemma LowerKeepsPlain(lower: char -> char, s: string)
    requires KeepsTokens(lower) && Plain(s)
    ensures Lower(lower, s) == s
  {}

  lemma {:induction false} JoinPlain(words: seq<string>)
    requires forall w :: w in words ==> Plain(w)
    ensures Plain(Join(words))
  {
    if |words| >= 1 {
      assert Plain(words[0]);
      if |words| > 1 { JoinPlain(words[1..]); }
    }
  }

  /** The tokens of a text with words appended after a blank. */
  lemma TokensWithAppendix(lower: char -> char, t: string, words: seq<string>)
    requires KeepsTokens(lower) && forall w :: w in words ==> Plain(w)
    ensures Tokens(Lower(lower, t + " " + Join(words))) == Tokens(Lower(lower, t)) + Tokens(Join(words))
  {
    JoinPlain(words);
    LowerKeepsPlain(lower, Join(words));
    assert Lower(lower, t + " " + Join(words)) == Lower(lower, t) + " " + Lower(lower, Join(words));
    TokensAcrossBlank(Lower(lower, t), Join(words));
  }

  // ---------- Canonical words ----------

  lemma BitcoinIsKept()
    ensures IsWord("bitcoin") && Kept("bitcoin")
  {
    assert "bitcoin"[0] == 'b' && "approve"[0] == 'a' && "october"[0] == 'o';
  }

  lemma EthereumIsKept()
    ensures IsWord("ethereum") && Kept("ethereum")
  {
    assert "ethereum"[0] == 'e' && "approved"[0] == 'a' && "approval"[0] == 'a'
      && "decision"[0] == 'd' && "december"[0] == 'd' && "november"[0] == 'n';
  }

  lemma SecIsKept()
    ensures IsWord("sec") && Kept("sec")
  {
    assert "sec"[0] == 's' && "the"[0] == 't' && "and"[0] == 'a' && "for"[0] == 'f' && "are"[0] == 'a';
  }

  lemma FedIsKept()
    ensures IsWord("fed") && Kept("fed")
  {
    assert "fed"[0] == 'f';
    assert "fed"[1] == 'e' && "the"[1] == 'h' && "and"[1] == 'n' && "for"[1] == 'o' && "are"[1] == 'r';
  }

  lemma TrumpIsKept()
    ensures IsWord("trump") && Kept("trump")
  {
    assert "trump"[0] == 't' && "after"[0] == 'a' && "delay"[0] == 'd';
  }

  lemma EtfIsKept()
    ensures IsWord("etf") && Kept("etf")
  {
    assert "etf"[0] == 'e' && "the"[0] == 't' && "and"[0] == 'a' && "for"[0] == 'f' && "are"[0] == 'a';
  }

  /** A canonical form is itself a kept word, and canonicalising again changes nothing. */
  lemma CanonicalIsStable(tok: string)
    requires IsWord(tok) && Kept(tok)
    ensures IsWord(Canonical(tok)) && Kept(Canonical(tok)) && Canonical(Canonical(tok)) == Canonical(tok)
  {
    hide IsWord, Kept;
    BitcoinIsKept();
    EthereumIsKept();
    SecIsKept();
    FedIsKept();
    TrumpIsKept();
    EtfIsKept();
  }

  ghost predicate StableWord(w: string) { IsWord(w) && Kept(w) && Canonical(w) == w }

  lemma KeywordsAreStable(lower: char -> char, t: string)
    ensures forall k :: k in KeywordsOf(lower, t) ==> StableWord(k)
  {
    hide IsWord, Kept, Canonical;
    var toks := Tokens(Lower(lower, t));
    TokensAreWords(Lower(lower, t));
    TermsContains(toks);
    DedupDistinct(Terms(toks));
    forall k | k in KeywordsOf(lower, t)
      ensures StableWord(k)
    {
      var tok :| tok in toks && Kept(tok) && k == Canonical(tok);
      CanonicalIsStable(tok);
    }
  }

  lemma {:induction false} TermsOfStable(ws: seq<string>)
    requires forall w :: w in ws ==> StableWord(w)
    ensures Terms(ws) == ws
  {
    hide Kept, Canonical, IsWord;
    if ws != [] {
      assert StableWord(ws[|ws| - 1]) && ws == ws[..|ws| - 1] + [ws[|ws| - 1]];
      TermsOfStable(ws[..|ws| - 1]);
    }
  }

  /** Keywords(t + " " + join(Keywords(t))) = Keywords(t). */
  lemma KeywordsRoundTrip(lower: char -> char, t: string)
    requires KeepsTokens(lower)
    ensures KeywordsOf(lower, t + " " + Join(KeywordsOf(lower, t))) == KeywordsOf(lower, t)
  {
    hide Kept, Canonical, Tokens, Lower;
    var toks, ks := Tokens(Lower(lower, t)), KeywordsOf(lower, t);
    KeywordsAreStable(lower, t);
    TokensWithAppendix(lower, t, ks);
    TokensOfJoin(ks);
    TermsAppend(toks, ks);
    TermsOfStable(ks);
    DedupDistinct(Terms(toks));
    DedupAbsorbs(Terms(toks), ks);
  }

  // ---------- Entities ----------

  /** No canonical term of any word of a row has synonyms outside the row. */
  ghost predicate ClosedPhrase(v: string, row: seq<string>) {
    Plain(v) && forall y, u :: y in Terms(Tokens(v)) && u in Synonyms(y) ==> u in row
  }

  ghost predicate ClosedRow(row: seq<string>) {
    forall v :: v in row ==> ClosedPhrase(v, row)
  }

  lemma PhraseOfWords(v: string, words: seq<string>, row: seq<string>)
    requires v == Join(words)
    requires forall w :: w in words ==> IsWord(w) && forall u :: u in Synonyms(Canonical(w)) ==> u in row
    ensures ClosedPhrase(v, row)
  {
    hide Canonical, Synonyms, Kept;
    assert forall w :: w in words && IsWord(w) ==> Plain(w);
    JoinPlain(words);
    TokensOfJoin(words);
    TermsContains(words);
  }

  /** A word outside the table stands for itself and has no synonyms. */
  ghost predicate Neutral(w: string) { IsWord(w) && Synonyms(Canonical(w)) == [] }

  lemma SecuritiesIsNeutral()
    ensures Neutral("securities")
  {}

  lemma AndIsNeutral()
    ensures Neutral("and")
  {}

  lemma ExchangeIsNeutral()
    ensures Neutral("exchange")
  {}

  lemma CommissionIsNeutral()
    ensures Neutral("commission")
  {}

  lemma FederalIsNeutral()
    ensures Neutral("federal")
  {}

  lemma ReserveIsNeutral()
    ensures Neutral("reserve")
  {}

  lemma DonaldIsNeutral()
    ensures Neutral("donald")
  {}

  lemma TradedIsNeutral()
    ensures Neutral("traded")
  {}

  lemma FundIsNeutral()
    ensures Neutral("fund")
  {}

  lemma ClosedOwnWord(w: string, row: seq<string>)
    requires IsWord(w) && Synonyms(Canonical(w)) == row
    ensures ClosedPhrase(w, row)
  {
    hide Synonyms, Canonical;
    PhraseOfWords(w, [w], row);
  }

  lemma ClosedTwoWords(a: string, b: string, row: seq<string>)
    requires Neutral(a) && (Neutral(b) || (IsWord(b) && Synonyms(Canonical(b)) == row))
    ensures ClosedPhrase(a + " " + b, row)
  {
    hide Synonyms, Canonical;
    assert [a, b][1..] == [b];
    PhraseOfWords(a + " " + b, [a, b], row);
  }

  lemma ClosedThreeWords(a: string, b: string, c: string, row: seq<string>)
    requires Neutral(a) && Neutral(b) && Neutral(c)
    ensures ClosedPhrase(a + " " + b + " " + c, row)
  {
    hide Synonyms, Canonical;
    assert [a, b, c][1..] == [b, c] && [b, c][1..] == [c];
    assert Join([b, c]) == b + " " + c;
    assert a + " " + b + " " + c == a + " " + (b + " " + c);
    PhraseOfWords(a + " " + b + " " + c, [a, b, c], row);
  }

  lemma ClosedFourWords(a: string, b: string, c: string, d: string, row: seq<string>)
    requires Neutral(a) && Neutral(b) && Neutral(c) && Neutral(d)
    ensures ClosedPhrase(a + " " + b + " " + c + " " + d, row)
  {
    hide Synonyms, Canonical;
    var words := [a, b, c, d];
    assert words[1..] == [b, c, d] && [b, c, d][1..] == [c, d] && [c, d][1..] == [d];
    assert Join([c, d]) == c + " " + d;
    assert Join([b, c, d]) == b + " " + Join([c, d]);
    assert a + " " + b + " " + c + " " + d == a + " " + (b + " " + (c + " " + d));
    PhraseOfWords(a + " " + b + " " + c + " " + d, words, row);
  }

  lemma BitcoinRow()
    ensures ClosedRow(Synonyms("bitcoin"))
  {
    hide ClosedPhrase;
    ClosedOwnWord("btc", Synonyms("bitcoin"));
    ClosedOwnWord("bitcoin", Synonyms("bitcoin"));
  }

  lemma EthereumRow()
    ensures ClosedRow(Synonyms("ethereum"))
  {
    hide ClosedPhrase;
    ClosedOwnWord("eth", Synonyms("ethereum"));
    ClosedOwnWord("ethereum", Synonyms("ethereum"));
    ClosedOwnWord("ether", Synonyms("ethereum"));
  }

  lemma SecuritiesPhrase(row: seq<string>)
    ensures ClosedPhrase("securities and exchange commission", row)
  {
    hide ClosedPhrase, Neutral;
    SecuritiesIsNeutral();
    AndIsNeutral();
    ExchangeIsNeutral();
    CommissionIsNeutral();
    ClosedFourWords("securities", "and", "exchange", "commission", row);
    assert "securities" + " " + "and" + " " + "exchange" + " " + "commission" == "securities and exchange commission";
  }

  lemma FederalPhrase(row: seq<string>)
    ensures ClosedPhrase("federal reserve", row)
  {
    hide ClosedPhrase, Neutral;
    FederalIsNeutral();
    ReserveIsNeutral();
    ClosedTwoWords("federal", "reserve", row);
    assert "federal" + " " + "reserve" == "federal reserve";
  }

  lemma FundPhrase(row: seq<string>)
    ensures ClosedPhrase("exchange traded fund", row)
  {
    hide ClosedPhrase, Neutral;
    ExchangeIsNeutral();
    TradedIsNeutral();
    FundIsNeutral();
    ClosedThreeWords("exchange", "traded", "fund", row);
    assert "exchange" + " " + "traded" + " " + "fund" == "exchange traded fund";
  }

  lemma SecRow()
    ensures ClosedRow(Synonyms("sec"))
  {
    hide ClosedPhrase;
    ClosedOwnWord("sec", Synonyms("sec"));
    SecuritiesPhrase(Synonyms("sec"));
  }

  lemma FedRow()
    ensures ClosedRow(Synonyms("fed"))
  {
    hide ClosedPhrase, Neutral;
    var row := Synonyms("fed");
    ClosedOwnWord("fed", row);
    ClosedOwnWord("fomc", row);
    FederalPhrase(row);
  }

  lemma TrumpRow()
    ensures ClosedRow(Synonyms("trump"))
  {
    hide ClosedPhrase, Neutral;
    var row := Synonyms("trump");
    ClosedOwnWord("trump", row);
    DonaldIsNeutral();
    ClosedTwoWords("donald", "trump", row);
    assert "donald" + " " + "trump" == "donald trump";
  }

  lemma EtfRow()
    ensures ClosedRow(Synonyms("etf"))
  {
    hide ClosedPhrase, Neutral;
    var row := Synonyms("etf");
    ClosedOwnWord("etf", row);
    FundPhrase(row);
  }

  lemma EveryRowIsClosed(k: string)
    ensures ClosedRow(Synonyms(k))
  {
    hide ClosedRow;
    BitcoinRow();
    EthereumRow();
    SecRow();
    FedRow();
    TrumpRow();
    EtfRow();
    NoRow();
  }

  lemma NoRow()
    ensures ClosedRow([])
  {}

  /** The terms of joined phrases are those of the phrases. */
  lemma {:induction false} TermsOfPhrases(phrases: seq<string>)
    ensures forall y :: y in Terms(Tokens(Join(phrases))) ==> exists v :: v in phrases && y in Terms(Tokens(v))
  {
    hide Terms, Tokens;
    if phrases == [] {
      NoTerms();
    } else if |phrases| == 1 {
      assert phrases[0] in phrases;
    } else {
      TermsOfPhrases(phrases[1..]);
      TokensAcrossBlank(phrases[0], Join(phrases[1..]));
      TermsAppend(Tokens(phrases[0]), Tokens(Join(phrases[1..])));
      assert phrases[0] in phrases && forall v :: v in phrases[1..] ==> v in phrases;
    }
  }

  lemma NoTerms()
    ensures Terms(Tokens("")) == []
  {}

  /** Entities(t + " " + join(Entities(t))) = Entities(t), although the appended phrases
      may add keywords. */
  lemma EntitiesRoundTrip(lower: char -> char, t: string)
    requires KeepsTokens(lower)
    ensures EntitiesOf(lower, t + " " + Join(EntitiesOf(lower, t))) == EntitiesOf(lower, t)
  {
    hide Terms, Tokens, Lower, Synonyms, Expand, Dedup, Plain;
    var toks, ks, es := Tokens(Lower(lower, t)), KeywordsOf(lower, t), EntitiesOf(lower, t);
    DedupDistinct(Expand(ks));
    ExpandContains(ks);
    forall v | v in es
      ensures Plain(v) && forall y, u :: y in Terms(Tokens(v)) && u in Synonyms(y) ==> u in Expand(ks)
    {
      var k :| k in ks && v in Synonyms(k);
      EveryRowIsClosed(k);
      assert ClosedPhrase(v, Synonyms(k));
    }
    TokensWithAppendix(lower, t, es);
    var extra := Terms(Tokens(Join(es)));
    TermsAppend(toks, Tokens(Join(es)));
    TermsOfPhrases(es);
    var zs := DedupExtends(Terms(toks), extra);
    ExpandAppend(ks, zs);
    ExpandContains(zs);
    forall u | u in Expand(zs)
      ensures u in Expand(ks)
    {
      var y :| y in zs && u in Synonyms(y);
      assert y in extra;
    }
    DedupAbsorbs(Expand(ks), Expand(zs));
  }

  /** Case does not matter: texts that agree when lower-cased have the same keywords and
      entities. */
  lemma CaseDoesNotMatter(lower: char -> char, s: string, t: string)
    requires |s| == |t| && forall i :: 0 <= i < |s| ==> lower(s[i]) == lower(t[i])
    ensures KeywordsOf(lower, s) == KeywordsOf(lower, t) && EntitiesOf(lower, s) == EntitiesOf(lower, t)
  {
    assert Lower(lower, s) == Lower(lower, t);
  }

  // ---------- What the keywords are ----------

  /** The words that are no keywords. */
  predicate Stopped(w: string) {
    || w in {"the", "a", "an", "and", "or", "of", "to", "in", "on", "for", "will", "be", "is", "are", "by", "with"}
    || w in {"before", "after", "from", "this", "that", "as", "at"}
    || w in {"approved", "approve", "approval", "decision", "decide", "delays", "delay"}
    || w in {"spot", "june", "july", "august", "september", "october", "november", "december"}
  }

  /** Two or more characters, no stop word and no number. */
  predicate ContentWord(w: string) {
    |w| >= 2 && !Stopped(w) && exists i :: 0 <= i < |w| && !('0' <= w[i] <= '9')
  }

  lemma KeptIff(w: string)
    ensures Kept(w) <==> ContentWord(w)
  {
    StopWordsAre(w);
    hide Stopped, STOP_WORDS;
  }

  lemma StopWordsAre(w: string)
    ensures w in STOP_WORDS <==> Stopped(w)
  {}

  /** The keywords of a text are the canonical forms of exactly its content words. */
  lemma KeywordsAreExactly(lower: char -> char, text: string, w: string)
    ensures w in KeywordsOf(lower, text) <==>
              exists tok :: tok in Tokens(Lower(lower, text)) && ContentWord(tok) && w == Canonical(tok)
  {
    hide Canonical, Tokens, Kept, ContentWord, Terms, Dedup;
    var toks := Tokens(Lower(lower, text));
    TermsAre(toks, w);
    DedupDistinct(Terms(toks));
    forall tok ensures Kept(tok) <==> ContentWord(tok) { KeptIff(tok); }
  }

  lemma {:induction false} TermsAre(toks: seq<string>, w: string)
    ensures w in Terms(toks) <==> exists tok :: tok in toks && Kept(tok) && w == Canonical(tok)
  {
    hide Canonical, Kept;
    if toks != [] {
      var init, last := toks[..|toks| - 1], toks[|toks| - 1];
      TermsAre(init, w);
      assert toks == init + [last];
      assert forall tok :: tok in toks <==> tok in init || tok == last;
    }
  }

  /** The names of one thing: they share their keyword and stand for the same phrases. */
  ghost predicate Aliases(names: seq<string>, keyword: string, phrases: seq<string>) {
    Synonyms(keyword) == phrases && forall i :: 0 <= i < |names| ==> Canonical(names[i]) == keyword
  }

  lemma BitcoinAliases()
    ensures Aliases(["btc", "bitcoin"], "bitcoin", ["btc", "bitcoin"])
  {}

  lemma EthereumAliases()
    ensures Aliases(["eth", "ether", "ethereum"], "ethereum", ["eth", "ethereum", "ether"])
  {}

  lemma FedAliases()
    ensures Aliases(["fed", "fomc"], "fed", ["fed", "federal reserve", "fomc"])
  {}

  lemma TrumpAliases()
    ensures Aliases(["trump", "donaldtrump"], "trump", ["trump", "donald trump"])
  {}

  lemma SecAliases()
    ensures Aliases(["sec"], "sec", ["sec", "securities and exchange commission"])
  {}

  lemma EtfAliases()
    ensures Aliases(["etf"], "etf", ["etf", "exchange traded fund"])
  {}

  lemma AliasesShareTheirKeyword()
    ensures Aliases(["btc", "bitcoin"], "bitcoin", ["btc", "bitcoin"])
    ensures Aliases(["eth", "ether", "ethereum"], "ethereum", ["eth", "ethereum", "ether"])
    ensures Aliases(["fed", "fomc"], "fed", ["fed", "federal reserve", "fomc"])
    ensures Aliases(["trump", "donaldtrump"], "trump", ["trump", "donald trump"])
    ensures Aliases(["sec"], "sec", ["sec", "securities and exchange commission"])
    ensures Aliases(["etf"], "etf", ["etf", "exchange traded fund"])
  {
    hide *;
    BitcoinAliases();
    EthereumAliases();
    FedAliases();
    TrumpAliases();
    SecAliases();
    EtfAliases();
  }
}
