/** Validation of what the AI provider returns. Decoding its JSON is outside the model:
    validation starts from the decoded fields. */
module Signal {
  import opened Model
  import Probability

  datatype ProviderOutput = ProviderOutput(
    related: bool, direction: string, probabilityDelta: real, confidence: real,
    sourceReliability: real, pricedInRisk: string, reason: string)

  /** White space as Unicode defines it, which is what trimming strips. */
  predicate IsSpace(c: char) {
    || '\U{9}' <= c <= '\U{D}' || c == ' ' || c == '\U{85}' || c == '\U{A0}' || c == '\U{1680}'
    || '\U{2000}' <= c <= '\U{200A}' || c == '\U{2028}' || c == '\U{2029}' || c == '\U{202F}'
    || c == '\U{205F}' || c == '\U{3000}'
  }

  lemma SpacesAre(c: char)
    ensures IsSpace(c) <==>
              c in ['\t', '\n', '\U{B}', '\U{C}', '\r', ' ', '\U{85}', '\U{A0}', '\U{1680}', '\U{2000}', '\U{2001}',
                    '\U{2002}', '\U{2003}', '\U{2004}', '\U{2005}', '\U{2006}', '\U{2007}', '\U{2008}', '\U{2009}',
                    '\U{200A}', '\U{2028}', '\U{2029}', '\U{202F}', '\U{205F}', '\U{3000}']
  {}

  predicate Blank(s: string) { forall i :: 0 <= i < |s| ==> IsSpace(s[i]) }

  /** The checks in order, after lower-casing; the first that fails is reported. */
  function Validate(lower: string -> string, raw: ProviderOutput): Result<ProviderOutput> {
    var out := raw.(direction := lower(raw.direction), pricedInRisk := lower(raw.pricedInRisk));
    if out.direction !in ["bullish", "bearish", "neutral"] then Err("invalid ai direction")
    else if out.pricedInRisk !in ["low", "medium", "high"] then Err("invalid priced_in_risk")
    else if Blank(out.reason) then Err("ai reason is required")
    else if out.probabilityDelta < -0.20 || out.probabilityDelta > 0.20 then Err("probability_delta out of range")
    else if out.confidence < 0.0 || out.confidence > 1.0 || out.sourceReliability < 0.0 || out.sourceReliability > 1.0 then
      Err("ai confidence/reliability out of range")
    else if !out.related && out.direction != "neutral" then Err("unrelated ai output must be neutral")
    else if !out.related && Abs(out.probabilityDelta) > 0.0 then Err("unrelated ai output must have zero delta")
    else Ok(out)
  }

  function SignalOf(out: ProviderOutput): AISignal {
    AISignal(if out.related then out.probabilityDelta else 0.0, out.confidence, out.sourceReliability, out.pricedInRisk, false)
  }

  /** An answer is accepted exactly when, after lower-casing, its direction is one of
      three words and its priced-in risk another of three, it gives a reason, its delta
      lies within 0.20 and its confidence and reliability within [0, 1], and, if it calls
      the news unrelated, it is neutral and moves nothing. */
  lemma AcceptedIff(lower: string -> string, raw: ProviderOutput)
    ensures var direction, risk := lower(raw.direction), lower(raw.pricedInRisk);
            Validate(lower, raw).Ok? <==>
              && (direction == "bullish" || direction == "bearish" || direction == "neutral")
              && (risk == "low" || risk == "medium" || risk == "high")
              && (exists i :: 0 <= i < |raw.reason| && !IsSpace(raw.reason[i]))
              && -0.20 <= raw.probabilityDelta <= 0.20
              && 0.0 <= raw.confidence <= 1.0 && 0.0 <= raw.sourceReliability <= 1.0
              && (raw.related || (direction == "neutral" && raw.probabilityDelta == 0.0))
  {}

  /** The recorded signal carries the accepted answer field by field. */
  lemma SignalCarriesTheAnswer(lower: string -> string, raw: ProviderOutput)
    requires Validate(lower, raw).Ok?
    ensures var signal := SignalOf(Validate(lower, raw).value);
            && signal.probabilityDelta == raw.probabilityDelta && signal.confidence == raw.confidence
            && signal.sourceReliability == raw.sourceReliability && signal.pricedInRisk == lower(raw.pricedInRisk)
            && !signal.disabled
  {}

  /** Without a key the service records a disabled, neutral signal. */
  const DISABLED := AISignal(0.0, 0.0, 0.0, "high", true)

  /** From provider to probability: whatever a validated output says, and also when the
      provider is disabled, the probability stays within 0.20 of the market's plus the
      momentum term; news judged unrelated leaves only the momentum. */
  lemma ValidatedSignalIsBounded(lower: string -> string, raw: ProviderOutput, cfg: Config, stored: Market, live: Market,
                                 hasLiveState: bool, newsId: string, side: string, outcome: string, id: string, now: real)
    ensures var signal := if Validate(lower, raw).Ok? then SignalOf(Validate(lower, raw).value) else DISABLED;
            var d := Probability.DecisionFor(cfg, stored, live, hasLiveState, signal, newsId, side, outcome, id, now);
            var market := Probability.MarketProbability(live.bestBid, live.bestAsk, live.yesPrice);
            var prior := Probability.MarketProbability(stored.bestBid, stored.bestAsk, stored.yesPrice);
            0.01 <= market <= 0.99 ==>
              && Abs(d.ourProbability - market) <= 0.20 + 0.30 * Abs(market - prior)
              && ((signal.disabled || !raw.related) && !hasLiveState ==> d.ourProbability == market)
  {
    hide Probability.DecisionFor, Probability.MarketProbability;
    var signal := if Validate(lower, raw).Ok? then SignalOf(Validate(lower, raw).value) else DISABLED;
    Probability.SignalMoveIsBounded(cfg, stored, live, hasLiveState, signal, newsId, side, outcome, id, now);
    if (signal.disabled || !raw.related) && !hasLiveState {
      NoDeltaNoMove(cfg, stored, live, signal, newsId, side, outcome, id, now);
    }
  }

  lemma NoDeltaNoMove(cfg: Config, stored: Market, live: Market, signal: AISignal,
                      newsId: string, side: string, outcome: string, id: string, now: real)
    requires signal.probabilityDelta == 0.0
    ensures var market := Probability.MarketProbability(live.bestBid, live.bestAsk, live.yesPrice);
            0.01 <= market <= 0.99 ==>
              Probability.DecisionFor(cfg, stored, live, false, signal, newsId, side, outcome, id, now).ourProbability == market
  {}

  /** A candidate needs a related, validated signal when the confidence threshold is
      positive: a disabled provider never leads to a trade. */
  lemma DisabledNeverTrades(cfg: Config, stored: Market, live: Market, hasLiveState: bool,
                            newsId: string, side: string, outcome: string, id: string, now: real)
    requires cfg.minSignalConfidence > 0.0
    ensures !Probability.DecisionFor(cfg, stored, live, hasLiveState, DISABLED, newsId, side, outcome, id, now).candidate
  {}
}
