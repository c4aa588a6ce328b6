/** Bonding-curve pricing (crates/bodkin/src/pons/curve.rs) in the protocol's integer order. */
module Curve {
  import opened Common
  import opened Arith

  datatype CurveState = CurveState(
    quoteReserve: nat,
    tokenReserve: nat,
    realQuoteReserve: nat,
    sellableTokens: nat,
    feeBps: nat,
    creatorTaxBps: nat,
    openingTaxBps: nat,
    readyToGraduate: bool,
    readBlock: nat,
    readChainTs: nat)

  datatype BuyQuote = BuyQuote(tokensOut: nat, spent: nat, refund: nat, totalInputBps: nat, clamped: bool)

  // ---- Pricing over exact integers ---------------------------------------------------------

  /** The fee schedule leaves at least the 1% that `EffectiveOpeningBps` sets aside for the buyer. */
  predicate FeesFit(s: CurveState) {
    s.feeBps + s.creatorTaxBps <= BPS - 100
  }

  function AmountOut(x: nat, reserveIn: nat, reserveOut: nat): nat
    requires reserveIn + x > 0
  {
    x * reserveOut / (reserveIn + x)
  }

  function AmountIn(y: nat, reserveIn: nat, reserveOut: nat): nat
    requires y < reserveOut
  {
    y * reserveIn / (reserveOut - y) + 1
  }

  function CeilDiv(a: nat, b: nat): nat
    requires b > 0
  {
    (a + b - 1) / b
  }

  function EffectiveOpeningBps(s: CurveState): nat
    requires FeesFit(s)
  {
    Min(s.openingTaxBps, BPS - s.feeBps - s.creatorTaxBps - 100)
  }

  function TotalBps(s: CurveState): (b: nat)
    requires FeesFit(s)
    ensures b <= BPS - 100
  {
    s.feeBps + s.creatorTaxBps + EffectiveOpeningBps(s)
  }

  /** One charge, rounded down. */
  function Charge(x: nat, bps: nat): nat {
    x * bps / BPS
  }

  /** What is left of a spend after the three charges, each rounded down on its own. */
  function AfterFees(s: CurveState, spend: nat): (net: nat)
    requires FeesFit(s)
    ensures spend * (BPS - TotalBps(s)) <= net * BPS <= spend * BPS
    ensures net * BPS < spend * (BPS - TotalBps(s)) + 3 * BPS
  {
    var o := EffectiveOpeningBps(s);
    ChargesFit(spend, s.feeBps, s.creatorTaxBps, o);
    spend - Charge(spend, s.feeBps) - Charge(spend, s.creatorTaxBps) - Charge(spend, o)
  }

  function QuoteBuy(s: CurveState, quoteIn: nat): BuyQuote
    requires FeesFit(s) && s.quoteReserve > 0
  {
    var net := AfterFees(s, quoteIn);
    var out := AmountOut(net, s.quoteReserve, s.tokenReserve);
    if out <= s.sellableTokens then
      BuyQuote(out, quoteIn, 0, TotalBps(s), false)
    else
      InverseInRange(net, s.quoteReserve, s.tokenReserve, s.sellableTokens);
      var need := AmountIn(s.sellableTokens, s.quoteReserve, s.tokenReserve);
      var grossed := CeilDiv(need * BPS, BPS - TotalBps(s));
      var spent := Min(grossed, quoteIn);
      BuyQuote(s.sellableTokens, spent, quoteIn - spent, TotalBps(s), true)
  }

  function QuoteSell(s: CurveState, tokensIn: nat): int
    requires s.tokenReserve + tokensIn > 0
  {
    var gross := AmountOut(tokensIn, s.tokenReserve, s.quoteReserve);
    gross - Charge(gross, s.feeBps) - Charge(gross, s.creatorTaxBps)
  }

  function MinOutFromRate(quote: nat, slippageBps: nat): nat
    requires slippageBps <= BPS
  {
    quote * (BPS - slippageBps) / BPS
  }

  /** The reserves after a sibling's buy, charged as one lump with a single rounding. */
  function AfterSibling(s: CurveState, siblingQuote: nat): CurveState
    requires FeesFit(s) && s.quoteReserve > 0
  {
    var q := QuoteBuy(s, siblingQuote);
    LumpFeeFits(s, q.spent);
    s.(quoteReserve := s.quoteReserve + q.spent - Charge(q.spent, TotalBps(s)),
       tokenReserve := Monus(s.tokenReserve, q.tokensOut),
       sellableTokens := Monus(s.sellableTokens, q.tokensOut))
  }

  function MinOutAsLastInBlock(s: CurveState, ourQuote: nat, siblingQuote: nat, slippageBps: nat): nat
    requires FeesFit(s) && s.quoteReserve > 0 && slippageBps <= BPS
  {
    LumpFeeFits(s, QuoteBuy(s, siblingQuote).spent);
    MinOutFromRate(QuoteBuy(AfterSibling(s, siblingQuote), ourQuote).tokensOut, slippageBps)
  }

  // ---- Arithmetic steps --------------------------------------------------------------------

  /** Three charges, each rounded down on its own, against the exact charge. */
  lemma ChargesFit(x: nat, a: nat, b: nat, c: nat)
    requires a + b + c <= BPS
    ensures var net := x - Charge(x, a) - Charge(x, b) - Charge(x, c);
      && x * (BPS - (a + b + c)) <= net * BPS <= x * BPS
      && net * BPS < x * (BPS - (a + b + c)) + 3 * BPS
      && 0 <= net
  {
    assert x * (BPS - (a + b + c)) == x * BPS - x * a - x * b - x * c;
    MulMono(0, BPS - (a + b + c), x);
    MulComm(x, BPS - (a + b + c));
    assert x * a >= 0 && x * b >= 0 && x * c >= 0;
  }

  lemma RateGrowsWithInput(a: nat, x: nat, y: nat, reserveIn: nat, reserveOut: nat)
    requires a * (reserveIn + x) <= x * reserveOut && a <= reserveOut && x <= y
    ensures a * (reserveIn + y) <= y * reserveOut
  {
    var extra := y - x;
    MulMono(a, reserveOut, extra);
    assert a * (reserveIn + y) == a * (reserveIn + x) + a * extra;
    assert y * reserveOut == x * reserveOut + reserveOut * extra;
  }

  /** Buying `y` with net input `x` is the same inequality read from either side of the pool. */
  lemma PaysFor(x: nat, y: nat, reserveIn: nat, reserveOut: nat)
    requires y <= reserveOut
    ensures y * reserveIn <= x * (reserveOut - y) <==> y * (reserveIn + x) <= x * reserveOut
    ensures y * reserveIn < x * (reserveOut - y) <==> y * (reserveIn + x) < x * reserveOut
  {
    assert x * (reserveOut - y) == x * reserveOut - x * y;
    assert y * (reserveIn + x) == y * reserveIn + y * x;
  }

  lemma LumpFeeFits(s: CurveState, spent: nat)
    requires FeesFit(s)
    ensures Charge(spent, TotalBps(s)) <= spent
  {
    MulMono(TotalBps(s), BPS, spent);
    MulComm(spent, TotalBps(s));
    DivMono(spent * TotalBps(s), spent * BPS, BPS);
  }

  /** A pool never pays out its whole reserve. */
  lemma AmountOutBelowReserve(x: nat, reserveIn: nat, reserveOut: nat)
    requires reserveIn > 0
    ensures AmountOut(x, reserveIn, reserveOut) <= reserveOut
    ensures reserveOut > 0 ==> AmountOut(x, reserveIn, reserveOut) < reserveOut
  {
    if reserveOut > 0 {
      MulStrict(0, reserveOut, reserveIn);
      assert reserveOut * (reserveIn + x) == reserveOut * reserveIn + x * reserveOut;
      DivBelow(reserveOut, x * reserveOut, reserveIn + x);
    }
  }

  /** If a net input buys more than `y`, the inverse price of `y` exists and costs no more than it. */
  lemma InverseInRange(net: nat, reserveIn: nat, reserveOut: nat, y: nat)
    requires reserveIn > 0
    requires AmountOut(net, reserveIn, reserveOut) > y
    ensures y < reserveOut
    ensures AmountIn(y, reserveIn, reserveOut) <= net
  {
    AmountOutBelowReserve(net, reserveIn, reserveOut);
    var out := AmountOut(net, reserveIn, reserveOut);
    DivFloor(net * reserveOut, reserveIn + net);
    MulMono(y + 1, out, reserveIn + net);
    assert (y + 1) * (reserveIn + net) == y * (reserveIn + net) + reserveIn + net;
    PaysFor(net, y, reserveIn, reserveOut);
    DivBelow(net, y * reserveIn, reserveOut - y);
  }

  lemma AmountOutMonotone(x: nat, y: nat, reserveIn: nat, reserveOut: nat)
    requires x <= y && reserveIn > 0
    ensures AmountOut(x, reserveIn, reserveOut) <= AmountOut(y, reserveIn, reserveOut)
  {
    var a := AmountOut(x, reserveIn, reserveOut);
    AmountOutBelowReserve(x, reserveIn, reserveOut);
    DivFloor(x * reserveOut, reserveIn + x);
    RateGrowsWithInput(a, x, y, reserveIn, reserveOut);
    DivAtLeast(a, y * reserveOut, reserveIn + y);
  }

  lemma AmountOutWorseReserves(x: nat, inA: nat, outA: nat, inB: nat, outB: nat)
    requires 0 < inA <= inB && outB <= outA
    ensures AmountOut(x, inB, outB) <= AmountOut(x, inA, outA)
  {
    var b := AmountOut(x, inB, outB);
    DivFloor(x * outB, inB + x);
    MulMono(inA + x, inB + x, b);
    MulComm(b, inA + x);
    MulComm(b, inB + x);
    MulMono(outB, outA, x);
    MulComm(x, outB);
    MulComm(x, outA);
    DivAtLeast(b, x * outA, inA + x);
  }

  lemma InversePriceSuffices(y: nat, reserveIn: nat, reserveOut: nat)
    requires y < reserveOut && reserveIn > 0
    ensures AmountOut(AmountIn(y, reserveIn, reserveOut), reserveIn, reserveOut) >= y
  {
    var n, gap := y * reserveIn, reserveOut - y;
    var need := n / gap + 1;
    DivFloor(n, gap);
    assert need * gap == n / gap * gap + gap;
    PaysFor(need, y, reserveIn, reserveOut);
    DivAtLeast(y, need * reserveOut, reserveIn + need);
  }

  lemma TwoWeiLessFallsShort(x: nat, y: nat, reserveIn: nat, reserveOut: nat)
    requires y < reserveOut && reserveIn > 0
    requires x + 2 <= AmountIn(y, reserveIn, reserveOut)
    ensures AmountOut(x, reserveIn, reserveOut) < y
  {
    var n, gap := y * reserveIn, reserveOut - y;
    var base := n / gap;
    DivFloor(n, gap);
    MulMono(x + 1, base, gap);
    assert (x + 1) * gap == x * gap + gap;
    PaysFor(x, y, reserveIn, reserveOut);
    DivBelow(y, x * reserveOut, reserveIn + x);
  }

  // ---- What the quotes promise -------------------------------------------------------------

  /** `AmountIn` inverts `AmountOut` to within two wei: its price buys `y`, two wei less does not. */
  lemma InversePriceIsTight(y: nat, reserveIn: nat, reserveOut: nat)
    requires y < reserveOut && reserveIn > 0
    ensures AmountOut(AmountIn(y, reserveIn, reserveOut), reserveIn, reserveOut) >= y
    ensures forall x: nat :: x + 2 <= AmountIn(y, reserveIn, reserveOut) ==> AmountOut(x, reserveIn, reserveOut) < y
  {
    InversePriceSuffices(y, reserveIn, reserveOut);
    forall x: nat | x + 2 <= AmountIn(y, reserveIn, reserveOut) ensures AmountOut(x, reserveIn, reserveOut) < y {
      TwoWeiLessFallsShort(x, y, reserveIn, reserveOut);
    }
  }

  /** The buyer keeps at least 1% of a spend, and rounding costs the schedule less than three wei. */
  lemma BuyerKeepsOnePercent(s: CurveState, spend: nat)
    requires FeesFit(s)
    ensures spend <= 100 * AfterFees(s, spend)
    ensures AfterFees(s, spend) <= spend
  {
    MulMono(100, BPS - TotalBps(s), spend);
    MulComm(spend, BPS - TotalBps(s));
  }

  /** A spend that covers the grossed-up price of a net input does pay that net input. */
  lemma GrossUpCovers(s: CurveState, need: nat, spend: nat)
    requires FeesFit(s)
    requires spend >= CeilDiv(need * BPS, BPS - TotalBps(s))
    ensures AfterFees(s, spend) >= need
  {
    var d := BPS - TotalBps(s);
    var grossed := CeilDiv(need * BPS, d);
    DivFloor(need * BPS + d - 1, d);
    MulMono(grossed, spend, d);
  }

  /** The part of a spend left after every charge, before rounding, reaches `need`. */
  predicate ShareCovers(s: CurveState, spend: nat, need: nat)
    requires FeesFit(s)
  {
    need * BPS <= spend * (BPS - TotalBps(s))
  }

  /** The grossed-up price is the least spend whose fee-weighted share reaches the net input. */
  lemma GrossUpIsLeast(s: CurveState, need: nat, spend: nat)
    requires FeesFit(s)
    requires ShareCovers(s, spend, need)
    ensures spend >= CeilDiv(need * BPS, BPS - TotalBps(s))
  {
    var d := BPS - TotalBps(s);
    assert (spend + 1) * d == spend * d + d;
    DivBelow(spend + 1, need * BPS + d - 1, d);
  }

  /**
   * A buy never charges more than was offered, never hands out more than is for sale, and the spend it
   * settles on really does buy what it hands out, clamped or not. A clamped spend is the least whose share
   * before rounding covers the inverse price; `ClampedSpendIsNearlyLeast` says how far that is from the least
   * that buys as much.
   */
  lemma BuyQuoteSettles(s: CurveState, quoteIn: nat)
    requires FeesFit(s) && s.quoteReserve > 0
    ensures var q := QuoteBuy(s, quoteIn);
      && q.spent + q.refund == quoteIn
      && q.tokensOut <= s.sellableTokens
      && q.tokensOut <= AmountOut(AfterFees(s, q.spent), s.quoteReserve, s.tokenReserve)
      && (q.clamped <==> AmountOut(AfterFees(s, quoteIn), s.quoteReserve, s.tokenReserve) > s.sellableTokens)
      && (!q.clamped ==>
            q.refund == 0 && q.tokensOut == AmountOut(AfterFees(s, quoteIn), s.quoteReserve, s.tokenReserve))
      && (q.clamped ==>
            && q.tokensOut == s.sellableTokens < s.tokenReserve
            && AmountIn(s.sellableTokens, s.quoteReserve, s.tokenReserve) <= AfterFees(s, q.spent)
            && (forall x: nat :: ShareCovers(s, x, AmountIn(s.sellableTokens, s.quoteReserve, s.tokenReserve)) ==>
                  q.spent <= x))
  {
    var q := QuoteBuy(s, quoteIn);
    var net := AfterFees(s, quoteIn);
    if q.clamped {
      InverseInRange(net, s.quoteReserve, s.tokenReserve, s.sellableTokens);
      var need := AmountIn(s.sellableTokens, s.quoteReserve, s.tokenReserve);
      if q.spent < quoteIn {
        GrossUpCovers(s, need, q.spent);
      }
      InversePriceIsTight(s.sellableTokens, s.quoteReserve, s.tokenReserve);
      AmountOutMonotone(need, AfterFees(s, q.spent), s.quoteReserve, s.tokenReserve);
      forall x: nat | ShareCovers(s, x, need) ensures q.spent <= x {
        GrossUpIsLeast(s, need, x);
      }
    }
  }

  /**
   * A clamped buy is overcharged by a few wei at most: any spend that would buy as much is no smaller by more than what
   * four wei of net input gross up to, which is never more than 400.
   */
  lemma ClampedSpendIsNearlyLeast(s: CurveState, quoteIn: nat, spend: nat)
    requires FeesFit(s) && s.quoteReserve > 0 && QuoteBuy(s, quoteIn).clamped
    requires AmountOut(AfterFees(s, spend), s.quoteReserve, s.tokenReserve) >= s.sellableTokens
    ensures var q, d := QuoteBuy(s, quoteIn), BPS - TotalBps(s);
      q.spent * d < spend * d + 4 * BPS + d && q.spent <= spend + 400
  {
    var q, d := QuoteBuy(s, quoteIn), BPS - TotalBps(s);
    var net := AfterFees(s, spend);
    InverseInRange(AfterFees(s, quoteIn), s.quoteReserve, s.tokenReserve, s.sellableTokens);
    var need := AmountIn(s.sellableTokens, s.quoteReserve, s.tokenReserve);
    if net + 2 <= need {
      TwoWeiLessFallsShort(net, s.sellableTokens, s.quoteReserve, s.tokenReserve);
      assert false;
    }
    var grossed := CeilDiv(need * BPS, d);
    DivFloor(need * BPS + d - 1, d);
    MulMono(q.spent, grossed, d);
    AtMost400(q.spent, spend, d);
  }

  lemma AtMost400(a: nat, b: nat, d: nat)
    requires d >= 100 && a * d < b * d + 4 * BPS + d
    ensures a <= b + 400
  {
    assert (b + 401) * d == b * d + 401 * d;
    if a > b + 400 {
      MulMono(b + 401, a, d);
    }
  }

  /** A curve with 500 of 1000 tokens for sale against 99 wei, at one percent. */
  predicate IsSmall(s: CurveState) {
    && s.quoteReserve == 99 && s.tokenReserve == 1_000 && s.sellableTokens == 500
    && s.feeBps == 100 && s.creatorTaxBps == 0 && s.openingTaxBps == 0
  }

  lemma SmallNet(s: CurveState, x: nat)
    requires IsSmall(s)
    ensures FeesFit(s) && TotalBps(s) == 100 && AfterFees(s, x) == x - Charge(x, 100)
  {
    assert Charge(x, 0) == 0;
  }

  lemma ClampedQuote(s: CurveState, quoteIn: nat)
    requires FeesFit(s) && s.quoteReserve > 0 && s.sellableTokens < s.tokenReserve
    requires AmountOut(AfterFees(s, quoteIn), s.quoteReserve, s.tokenReserve) > s.sellableTokens
    ensures var need := AmountIn(s.sellableTokens, s.quoteReserve, s.tokenReserve);
      var q := QuoteBuy(s, quoteIn);
      q.clamped && q.tokensOut == s.sellableTokens && q.spent == Min(CeilDiv(need * BPS, BPS - TotalBps(s)), quoteIn)
  {
  }

  lemma SmallPrices()
    ensures Charge(101, 100) == 1 && Charge(1_000, 100) == 10
    ensures AmountOut(100, 99, 1_000) == 502 && AmountOut(990, 99, 1_000) == 909
    ensures AmountIn(500, 99, 1_000) == 100 && CeilDiv(100 * BPS, BPS - 100) == 102
  {
  }

  /** The few wei are real: here 101 would buy 502 tokens, and a buy of the 500 for sale is charged 102. */
  lemma ClampedSpendIsNotLeast(s: CurveState)
    requires IsSmall(s)
    ensures FeesFit(s) && AmountOut(AfterFees(s, 101), s.quoteReserve, s.tokenReserve) == 502
    ensures QuoteBuy(s, 1_000).clamped && QuoteBuy(s, 1_000).tokensOut == 500 && QuoteBuy(s, 1_000).spent == 102
  {
    SmallNet(s, 101);
    SmallNet(s, 1_000);
    SmallPrices();
    ClampedQuote(s, 1_000);
  }

  lemma AfterFeesAntitone(s: CurveState, lower: nat, higher: nat, spend: nat)
    requires FeesFit(s) && lower <= higher
    ensures AfterFees(s.(openingTaxBps := higher), spend) <= AfterFees(s.(openingTaxBps := lower), spend)
  {
    var a := EffectiveOpeningBps(s.(openingTaxBps := lower));
    var b := EffectiveOpeningBps(s.(openingTaxBps := higher));
    MulMono(a, b, spend);
    MulComm(spend, a);
    MulComm(spend, b);
    DivMono(spend * a, spend * b, BPS);
  }

  /** At fixed reserves a higher opening tax never quotes more tokens. */
  lemma HigherTaxNeverQuotesMore(s: CurveState, lower: nat, higher: nat, quoteIn: nat)
    requires FeesFit(s) && s.quoteReserve > 0 && lower <= higher
    ensures QuoteBuy(s.(openingTaxBps := higher), quoteIn).tokensOut
      <= QuoteBuy(s.(openingTaxBps := lower), quoteIn).tokensOut
  {
    AfterFeesAntitone(s, lower, higher, quoteIn);
    AmountOutMonotone(AfterFees(s.(openingTaxBps := higher), quoteIn), AfterFees(s.(openingTaxBps := lower), quoteIn),
                      s.quoteReserve, s.tokenReserve);
  }

  /** Pricing behind a sibling's buy never raises the bound this buy would have been given alone. */
  lemma SiblingNeverRaisesBound(s: CurveState, ourQuote: nat, siblingQuote: nat, slippageBps: nat)
    requires FeesFit(s) && s.quoteReserve > 0 && slippageBps <= BPS
    ensures MinOutAsLastInBlock(s, ourQuote, siblingQuote, slippageBps)
         <= MinOutFromRate(QuoteBuy(s, ourQuote).tokensOut, slippageBps)
  {
    var after := AfterSibling(s, siblingQuote);
    LumpFeeFits(s, QuoteBuy(s, siblingQuote).spent);
    WorseReservesQuoteLess(s, after, ourQuote);
    RateMonotone(QuoteBuy(after, ourQuote).tokensOut, QuoteBuy(s, ourQuote).tokensOut, slippageBps);
  }

  lemma WorseReservesQuoteLess(s: CurveState, after: CurveState, quoteIn: nat)
    requires FeesFit(s) && 0 < s.quoteReserve <= after.quoteReserve
    requires after == s.(quoteReserve := after.quoteReserve, tokenReserve := after.tokenReserve,
                         sellableTokens := after.sellableTokens)
    requires after.tokenReserve <= s.tokenReserve && after.sellableTokens <= s.sellableTokens
    ensures QuoteBuy(after, quoteIn).tokensOut <= QuoteBuy(s, quoteIn).tokensOut
  {
    AmountOutWorseReserves(AfterFees(s, quoteIn), s.quoteReserve, s.tokenReserve, after.quoteReserve,
                           after.tokenReserve);
  }

  /** The minimum is the quote less the slippage, rounded down, so it asks for no better rate than was quoted. */
  lemma MinimumIsTheRate(quote: nat, slippageBps: nat)
    requires slippageBps <= BPS
    ensures var m := MinOutFromRate(quote, slippageBps);
      m <= quote && m * BPS <= quote * (BPS - slippageBps) < m * BPS + BPS
    ensures slippageBps == 0 ==> MinOutFromRate(quote, slippageBps) == quote
  {
    DivFloor(quote * (BPS - slippageBps), BPS);
    MulMono(BPS - slippageBps, BPS, quote);
    MulComm(quote, BPS - slippageBps);
  }

  lemma RateMonotone(a: nat, b: nat, slippageBps: nat)
    requires a <= b && slippageBps <= BPS
    ensures MinOutFromRate(a, slippageBps) <= MinOutFromRate(b, slippageBps)
  {
    MulMono(a, b, BPS - slippageBps);
    DivMono(a * (BPS - slippageBps), b * (BPS - slippageBps), BPS);
  }

  // ---- The prices in plain terms -----------------------------------------------------------------

  /** A pool pays out the most that leaves the product of its reserves no smaller than before. */
  lemma AmountOutIsTheMost(x: nat, reserveIn: nat, reserveOut: nat, y: nat)
    requires reserveIn > 0 && y <= reserveOut
    ensures y <= AmountOut(x, reserveIn, reserveOut) <==>
      (reserveIn + x) * (reserveOut - y) >= reserveIn * reserveOut
  {
    var out := AmountOut(x, reserveIn, reserveOut);
    assert (reserveIn + x) * (reserveOut - y) == reserveIn * reserveOut + x * reserveOut - y * (reserveIn + x);
    if y <= out {
      DivFloor(x * reserveOut, reserveIn + x);
      MulMono(y, out, reserveIn + x);
    } else if y * (reserveIn + x) <= x * reserveOut {
      DivAtLeast(y, x * reserveOut, reserveIn + x);
    }
  }

  /** The charges add up, but for an opening tax that would leave the buyer less than one percent. */
  lemma OpeningTaxIsCapped(s: CurveState)
    requires FeesFit(s)
    ensures TotalBps(s) ==
      if s.feeBps + s.creatorTaxBps + s.openingTaxBps <= 9_900 then s.feeBps + s.creatorTaxBps + s.openingTaxBps
      else 9_900
  {
  }

  /** A sale pays the pool's price less fee and creator tax, each rounded down, and never the opening tax. */
  lemma SaleIsCharged(s: CurveState, tokensIn: nat)
    requires FeesFit(s) && s.tokenReserve > 0
    ensures var gross := AmountOut(tokensIn, s.tokenReserve, s.quoteReserve);
      && gross * (BPS - s.feeBps - s.creatorTaxBps) <= QuoteSell(s, tokensIn) * BPS
      && QuoteSell(s, tokensIn) == gross - gross * s.feeBps / BPS - gross * s.creatorTaxBps / BPS
  {
    var gross := AmountOut(tokensIn, s.tokenReserve, s.quoteReserve);
    assert gross * (BPS - s.feeBps - s.creatorTaxBps)
      == gross * BPS - gross * s.feeBps - gross * s.creatorTaxBps;
  }

  // ---- One wei more ------------------------------------------------------------------------------

  /** A charge that takes the extra wei. */
  predicate StepsUp(x: nat, bps: nat) {
    Charge(x + 1, bps) > Charge(x, bps)
  }

  function StepCount(s: CurveState, x: nat): nat
    requires FeesFit(s)
  {
    (if StepsUp(x, s.feeBps) then 1 else 0) + (if StepsUp(x, s.creatorTaxBps) then 1 else 0)
    + (if StepsUp(x, EffectiveOpeningBps(s)) then 1 else 0)
  }

  lemma ChargeStepsByOne(x: nat, bps: nat)
    requires bps <= BPS
    ensures Charge(x + 1, bps) == Charge(x, bps) + (if StepsUp(x, bps) then 1 else 0)
  {
    assert (x + 1) * bps == x * bps + bps;
    DivMono(x * bps, (x + 1) * bps, BPS);
    DivMono((x + 1) * bps, x * bps + BPS, BPS);
  }

  /**
   * The net input is not monotone in the spend: one wei more nets less exactly when two or three charges step up on
   * it.
   */
  lemma OneMoreWeiNetsLess(s: CurveState, spend: nat)
    requires FeesFit(s)
    ensures AfterFees(s, spend + 1) < AfterFees(s, spend) <==> StepCount(s, spend) >= 2
  {
    ChargeStepsByOne(spend, s.feeBps);
    ChargeStepsByOne(spend, s.creatorTaxBps);
    ChargeStepsByOne(spend, EffectiveOpeningBps(s));
  }

  /** It happens: two charges of two fifths each step up together on the third wei. */
  lemma NettingCanDrop()
    ensures exists s: CurveState, spend: nat :: FeesFit(s) && AfterFees(s, spend + 1) < AfterFees(s, spend)
  {
    var s := CurveState(1, 1, 0, 1, 4_000, 4_000, 0, false, 0, 0);
    assert Charge(2, 4_000) == 0 && Charge(3, 4_000) == 1 && Charge(2, 0) == 0 && Charge(3, 0) == 0;
    OneMoreWeiNetsLess(s, 2);
  }
}
