/**
 * The same pricing as machine words: every addition, subtraction and multiplication wraps at 2^256 and a
 * zero divisor stops the program (`None`). `NothingWraps` and its companions say when the two agree.
 */
module CurveWords {
  import opened Common
  import opened Arith
  import opened Curve

  function Wrap(x: int): nat {
    if 0 <= x < WORD then x else x % WORD
  }

  function Add(a: nat, b: nat): nat { Wrap(a + b) }
  function Sub(a: nat, b: nat): nat { Wrap(a - b) }
  function Mul(a: nat, b: nat): nat { Wrap(a * b) }

  function Div(a: nat, b: nat): Option<nat> {
    if b == 0 then None else Some(a / b)
  }

  function OutWord(x: nat, reserveIn: nat, reserveOut: nat): Option<nat> {
    Div(Mul(x, reserveOut), Add(reserveIn, x))
  }

  function InWord(y: nat, reserveIn: nat, reserveOut: nat): Option<nat> {
    match Div(Mul(y, reserveIn), Sub(reserveOut, y))
    case None => None
    case Some(q) => Some(Add(q, 1))
  }

  function OpeningWord(s: CurveState): nat {
    if s.openingTaxBps == 0 then 0 else
      var cap := Sub(Sub(Sub(BPS, s.feeBps), s.creatorTaxBps), 100);
      if s.openingTaxBps > cap then cap else s.openingTaxBps
  }

  function NetWord(s: CurveState, spend: nat): nat {
    Sub(Sub(Sub(spend, Mul(spend, s.feeBps) / BPS), Mul(spend, s.creatorTaxBps) / BPS),
        Mul(spend, OpeningWord(s)) / BPS)
  }

  function BuyWord(s: CurveState, quoteIn: nat): Option<BuyQuote> {
    var total := Add(Add(s.feeBps, s.creatorTaxBps), OpeningWord(s));
    match OutWord(NetWord(s, quoteIn), s.quoteReserve, s.tokenReserve)
    case None => None
    case Some(out) =>
      if out <= s.sellableTokens then Some(BuyQuote(out, quoteIn, Sub(quoteIn, quoteIn), total, false)) else
      ClampWord(s, quoteIn, total)
  }

  function ClampWord(s: CurveState, quoteIn: nat, total: nat): Option<BuyQuote> {
    match InWord(s.sellableTokens, s.quoteReserve, s.tokenReserve)
    case None => None
    case Some(need) =>
      var denom := Sub(Sub(Sub(BPS, s.feeBps), s.creatorTaxBps), OpeningWord(s));
      match Div(Sub(Add(Mul(need, BPS), denom), 1), denom)
      case None => None
      case Some(grossed) =>
        var spent := if grossed < quoteIn then grossed else quoteIn;
        Some(BuyQuote(s.sellableTokens, spent, Sub(quoteIn, spent), total, true))
  }

  function SellWord(s: CurveState, tokensIn: nat): Option<nat> {
    match OutWord(tokensIn, s.tokenReserve, s.quoteReserve)
    case None => None
    case Some(gross) => Some(Sub(Sub(gross, Mul(gross, s.feeBps) / BPS), Mul(gross, s.creatorTaxBps) / BPS))
  }

  function SiblingWord(s: CurveState, q: BuyQuote): CurveState {
    var feeTax := Mul(q.spent, Add(Add(s.feeBps, s.creatorTaxBps), OpeningWord(s))) / BPS;
    s.(quoteReserve := Add(s.quoteReserve, Sub(q.spent, feeTax)),
       tokenReserve := Monus(s.tokenReserve, q.tokensOut),
       sellableTokens := Monus(s.sellableTokens, q.tokensOut))
  }

  function BoundWord(s: CurveState, ourQuote: nat, siblingQuote: nat, slippageBps: nat): Option<nat> {
    match BuyWord(s, siblingQuote)
    case None => None
    case Some(q) =>
      match BuyWord(SiblingWord(s, q), ourQuote)
      case None => None
      case Some(ours) => Some(Mul(ours.tokensOut, Sub(BPS, slippageBps)) / BPS)
  }

  /** Reserves and settings as the chain holds them: amounts fit 128 bits and the curve is funded. */
  predicate Funded(s: CurveState) {
    && FeesFit(s)
    && 0 < s.quoteReserve < HALF_WORD
    && s.tokenReserve < HALF_WORD
    && s.sellableTokens < HALF_WORD
    && s.openingTaxBps < HALF_WORD
  }

  lemma HalfTimesHalf(a: nat, b: nat)
    requires a <= HALF_WORD && b < HALF_WORD
    ensures a * b < WORD && Mul(a, b) == a * b
  {
    MulMono(a, HALF_WORD, b);
    MulMono(b, HALF_WORD - 1, HALF_WORD);
    MulComm(HALF_WORD, b);
  }

  lemma NetDoesNotWrap(s: CurveState, spend: nat)
    requires Funded(s) && spend < HALF_WORD
    ensures OpeningWord(s) == EffectiveOpeningBps(s)
    ensures NetWord(s, spend) == AfterFees(s, spend)
  {
    HalfTimesHalf(spend, s.feeBps);
    HalfTimesHalf(spend, s.creatorTaxBps);
    HalfTimesHalf(spend, EffectiveOpeningBps(s));
  }

  lemma OutDoesNotWrap(x: nat, reserveIn: nat, reserveOut: nat)
    requires x < HALF_WORD && 0 < reserveIn < HALF_WORD && reserveOut < HALF_WORD
    ensures OutWord(x, reserveIn, reserveOut) == Some(AmountOut(x, reserveIn, reserveOut))
  {
    HalfTimesHalf(x, reserveOut);
  }

  /** With 128-bit amounts a buy quote never wraps, never underflows and never divides by zero. */
  lemma NothingWraps(s: CurveState, quoteIn: nat)
    requires Funded(s) && quoteIn < HALF_WORD
    ensures BuyWord(s, quoteIn) == Some(QuoteBuy(s, quoteIn))
  {
    var net := AfterFees(s, quoteIn);
    NetDoesNotWrap(s, quoteIn);
    BuyerKeepsOnePercent(s, quoteIn);
    OutDoesNotWrap(net, s.quoteReserve, s.tokenReserve);
    assert Add(Add(s.feeBps, s.creatorTaxBps), OpeningWord(s)) == TotalBps(s);
    if AmountOut(net, s.quoteReserve, s.tokenReserve) > s.sellableTokens {
      ClampDoesNotWrap(s, quoteIn, net);
    }
  }

  lemma ClampDoesNotWrap(s: CurveState, quoteIn: nat, net: nat)
    requires Funded(s) && quoteIn < HALF_WORD && net < HALF_WORD
    requires AmountOut(net, s.quoteReserve, s.tokenReserve) > s.sellableTokens
    requires net == AfterFees(s, quoteIn)
    ensures ClampWord(s, quoteIn, TotalBps(s)) == Some(QuoteBuy(s, quoteIn))
  {
    NetDoesNotWrap(s, quoteIn);
    InverseInRange(net, s.quoteReserve, s.tokenReserve, s.sellableTokens);
    HalfTimesHalf(s.sellableTokens, s.quoteReserve);
    var need := AmountIn(s.sellableTokens, s.quoteReserve, s.tokenReserve);
    assert InWord(s.sellableTokens, s.quoteReserve, s.tokenReserve) == Some(need);
    HalfTimesHalf(need, BPS);
  }

  lemma SaleDoesNotWrap(s: CurveState, tokensIn: nat)
    requires Funded(s) && 0 < s.tokenReserve && tokensIn < HALF_WORD
    ensures 0 <= QuoteSell(s, tokensIn)
    ensures SellWord(s, tokensIn) == Some(QuoteSell(s, tokensIn))
  {
    HalfTimesHalf(tokensIn, s.quoteReserve);
    var gross := AmountOut(tokensIn, s.tokenReserve, s.quoteReserve);
    AmountOutBelowReserve(tokensIn, s.tokenReserve, s.quoteReserve);
    HalfTimesHalf(gross, s.feeBps);
    HalfTimesHalf(gross, s.creatorTaxBps);
    SaleChargesFit(gross, s.feeBps, s.creatorTaxBps);
  }

  lemma SaleChargesFit(gross: nat, a: nat, b: nat)
    requires a + b <= BPS
    ensures Charge(gross, a) + Charge(gross, b) <= gross
  {
    MulMono(a + b, BPS, gross);
    assert gross * a + gross * b == (a + b) * gross;
  }

  lemma SiblingDoesNotWrap(s: CurveState, siblingQuote: nat)
    requires Funded(s) && s.quoteReserve + siblingQuote < HALF_WORD
    ensures SiblingWord(s, QuoteBuy(s, siblingQuote)) == AfterSibling(s, siblingQuote)
    ensures Funded(AfterSibling(s, siblingQuote))
  {
    var q := QuoteBuy(s, siblingQuote);
    assert q.spent <= siblingQuote;
    LumpFeeFits(s, q.spent);
    NetDoesNotWrap(s, q.spent);
    HalfTimesHalf(q.spent, TotalBps(s));
  }

  /** Sizing behind a sibling stays exact too; only the quote reserve can grow, by less than the sibling's spend. */
  lemma BoundDoesNotWrap(s: CurveState, ourQuote: nat, siblingQuote: nat, slippageBps: nat)
    requires Funded(s) && ourQuote < HALF_WORD && s.quoteReserve + siblingQuote < HALF_WORD && slippageBps <= BPS
    ensures BoundWord(s, ourQuote, siblingQuote, slippageBps)
      == Some(MinOutAsLastInBlock(s, ourQuote, siblingQuote, slippageBps))
  {
    NothingWraps(s, siblingQuote);
    SiblingDoesNotWrap(s, siblingQuote);
    var after := AfterSibling(s, siblingQuote);
    NothingWraps(after, ourQuote);
    BuyQuoteSettles(after, ourQuote);
    HalfTimesHalf(QuoteBuy(after, ourQuote).tokensOut, BPS - slippageBps);
  }
}
