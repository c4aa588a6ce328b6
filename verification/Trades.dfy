/** Whole sequences of quoted trades, with the reserves moved exactly as replay moves them. */
module Trades {
  import opened Common
  import opened Arith
  import opened Flow
  import opened Curve
  import opened Replay
  import Tax

  datatype Trade = BuyFor(quoteIn: nat, openingTaxBps: nat) | SellOf(tokensIn: nat)

  /** What the trader has put in, taken out, bought and sold so far. */
  datatype Ledger = Ledger(spent: nat, received: int, bought: nat, sold: nat)

  datatype Session = Session(curve: CurveState, ledger: Ledger)

  predicate Open(s: CurveState) {
    FeesFit(s) && s.quoteReserve > 0 && s.tokenReserve > 0
  }

  /** The log a quoted trade leaves behind; a buy's fee field already carries the opening tax. */
  function EventOf(s: CurveState, trade: Trade): FlowEvent
    requires Open(s)
  {
    match trade
    case BuyFor(quoteIn, openingTax) =>
      var taxed := s.(openingTaxBps := openingTax);
      var spent := QuoteBuy(taxed, quoteIn).spent;
      Buy(0, spent, QuoteBuy(taxed, quoteIn).tokensOut,
          Charge(spent, s.feeBps) + Charge(spent, EffectiveOpeningBps(taxed)), Charge(spent, s.creatorTaxBps), 0, 0)
    case SellOf(tokensIn) =>
      var gross := AmountOut(tokensIn, s.tokenReserve, s.quoteReserve);
      SaleCharges(s, gross);
      Sell(0, 0, tokensIn, QuoteSell(s, tokensIn), Charge(gross, s.feeBps), Charge(gross, s.creatorTaxBps), 0)
  }

  lemma SaleCharges(s: CurveState, gross: nat)
    requires FeesFit(s)
    ensures 0 <= gross - Charge(gross, s.feeBps) - Charge(gross, s.creatorTaxBps) <= gross
  {
    ChargesFit(gross, s.feeBps, s.creatorTaxBps, 0);
    assert gross * s.feeBps >= 0 && gross * s.creatorTaxBps >= 0;
  }

  function Settle(l: Ledger, s: CurveState, trade: Trade): Ledger
    requires Open(s)
  {
    match trade
    case BuyFor(quoteIn, openingTax) =>
      var q := QuoteBuy(s.(openingTaxBps := openingTax), quoteIn);
      l.(spent := l.spent + q.spent, bought := l.bought + q.tokensOut)
    case SellOf(tokensIn) =>
      l.(received := l.received + QuoteSell(s, tokensIn), sold := l.sold + tokensIn)
  }

  /** Runs the trades in order; stops if replay would refuse one of them. */
  function Run(s: CurveState, trades: seq<Trade>): Option<Session> {
    if trades == [] then Some(Session(s, Ledger(0, 0, 0, 0))) else
      match Run(s, trades[..|trades| - 1])
      case None => None
      case Some(at) =>
        var trade := trades[|trades| - 1];
        if !Open(at.curve) then None else
          match Step(at.curve, EventOf(at.curve, trade))
          case None => None
          case Some(next) => Some(Session(next, Settle(at.ledger, at.curve, trade)))
  }

  /** Replay reads back exactly the net input of the quote it is replaying. */
  lemma BuyMovesNetQuote(s: CurveState, quoteIn: nat, openingTax: nat)
    requires Open(s) && Step(s, EventOf(s, BuyFor(quoteIn, openingTax))).Some?
    ensures var taxed := s.(openingTaxBps := openingTax);
      var q := QuoteBuy(taxed, quoteIn);
      Step(s, EventOf(s, BuyFor(quoteIn, openingTax))) == BuyStep(s, AfterFees(taxed, q.spent), q.tokensOut)
  {
  }

  lemma SellMovesGrossQuote(s: CurveState, tokensIn: nat)
    requires Open(s) && Step(s, EventOf(s, SellOf(tokensIn))).Some?
    ensures Step(s, EventOf(s, SellOf(tokensIn)))
      == SellStep(s, AmountOut(tokensIn, s.tokenReserve, s.quoteReserve), tokensIn)
  {
  }

  /** Paying `x` into one side and taking at most the quoted amount out of the other never lowers the product. */
  lemma ProductHolds(x: nat, y: nat, reserveIn: nat, reserveOut: nat)
    requires reserveIn > 0 && y <= AmountOut(x, reserveIn, reserveOut) && y <= reserveOut
    ensures (reserveIn + x) * (reserveOut - y) >= reserveIn * reserveOut
  {
    DivFloor(x * reserveOut, reserveIn + x);
    MulMono(y, AmountOut(x, reserveIn, reserveOut), reserveIn + x);
    PaysFor(x, y, reserveIn, reserveOut);
    assert (reserveIn + x) * (reserveOut - y) == reserveIn * reserveOut + x * reserveOut - y * (reserveIn + x);
  }

  /** Replay keeps the fee schedule, and a quoted trade keeps both reserves positive and their product from falling. */
  lemma TradeKeepsProduct(s: CurveState, trade: Trade)
    requires Open(s) && Step(s, EventOf(s, trade)).Some?
    ensures var t := Step(s, EventOf(s, trade)).value;
      && Open(t)
      && t.quoteReserve * t.tokenReserve >= s.quoteReserve * s.tokenReserve
  {
    match trade
    case BuyFor(quoteIn, openingTax) =>
      var taxed := s.(openingTaxBps := openingTax);
      var q := QuoteBuy(taxed, quoteIn);
      BuyQuoteSettles(taxed, quoteIn);
      BuyMovesNetQuote(s, quoteIn, openingTax);
      var net := AfterFees(taxed, q.spent);
      AmountOutBelowReserve(net, s.quoteReserve, s.tokenReserve);
      ProductHolds(net, q.tokensOut, s.quoteReserve, s.tokenReserve);
    case SellOf(tokensIn) =>
      SellMovesGrossQuote(s, tokensIn);
      var gross := AmountOut(tokensIn, s.tokenReserve, s.quoteReserve);
      AmountOutBelowReserve(tokensIn, s.tokenReserve, s.quoteReserve);
      ProductHolds(tokensIn, gross, s.tokenReserve, s.quoteReserve);
      MulComm(s.tokenReserve + tokensIn, s.quoteReserve - gross);
      MulComm(s.tokenReserve, s.quoteReserve);
  }

  /**
   * The curve's quote grows by at most what the trader lost, and its tokens shrink by exactly what the trader holds.
   */
  lemma TradeBalances(s: CurveState, l: Ledger, trade: Trade)
    requires Open(s) && Step(s, EventOf(s, trade)).Some?
    ensures var t, m := Step(s, EventOf(s, trade)).value, Settle(l, s, trade);
      && t.quoteReserve - s.quoteReserve <= (m.spent - l.spent) - (m.received - l.received)
      && s.tokenReserve - t.tokenReserve == (m.bought - l.bought) - (m.sold - l.sold)
  {
    match trade
    case BuyFor(quoteIn, openingTax) =>
      var taxed := s.(openingTaxBps := openingTax);
      BuyMovesNetQuote(s, quoteIn, openingTax);
      BuyerKeepsOnePercent(taxed, QuoteBuy(taxed, quoteIn).spent);
    case SellOf(tokensIn) =>
      SellMovesGrossQuote(s, tokensIn);
      SaleCharges(s, AmountOut(tokensIn, s.tokenReserve, s.quoteReserve));
  }

  /** Over every run of trades the product of the reserves never falls. */
  lemma {:induction false} ProductNeverFalls(s: CurveState, trades: seq<Trade>)
    requires Open(s) && Run(s, trades).Some?
    ensures var at := Run(s, trades).value;
      && Open(at.curve)
      && at.curve.quoteReserve * at.curve.tokenReserve >= s.quoteReserve * s.tokenReserve
      && at.curve.quoteReserve - s.quoteReserve <= at.ledger.spent - at.ledger.received
      && s.tokenReserve - at.curve.tokenReserve == at.ledger.bought - at.ledger.sold
  {
    if trades != [] {
      ProductNeverFalls(s, trades[..|trades| - 1]);
      var at, trade := Run(s, trades[..|trades| - 1]).value, trades[|trades| - 1];
      TradeKeepsProduct(at.curve, trade);
      TradeBalances(at.curve, at.ledger, trade);
    }
  }

  lemma BiggerShareOfProduct(q0: nat, t0: nat, q: nat, t: nat)
    requires q * t >= q0 * t0 && t <= t0 && t > 0
    ensures q >= q0
  {
    MulMono(t, t0, q0);
    MulComm(q0, t);
    MulComm(q0, t0);
    if q < q0 {
      MulStrict(q, q0, t);
    }
  }

  /** No free quote: a trader who sells at most the tokens they bought never takes out more quote than they put in. */
  lemma NoRoundTripProfits(s: CurveState, trades: seq<Trade>)
    requires Open(s) && Run(s, trades).Some?
    requires Run(s, trades).value.ledger.sold <= Run(s, trades).value.ledger.bought
    ensures Run(s, trades).value.ledger.received <= Run(s, trades).value.ledger.spent
  {
    ProductNeverFalls(s, trades);
    var at := Run(s, trades).value;
    BiggerShareOfProduct(s.quoteReserve, s.tokenReserve, at.curve.quoteReserve, at.curve.tokenReserve);
  }

  lemma LumpIsNearlyTheParts(x: nat, a: nat, b: nat, c: nat)
    ensures Charge(x, a) + Charge(x, b) + Charge(x, c) <= Charge(x, a + b + c)
    ensures Charge(x, a + b + c) <= Charge(x, a) + Charge(x, b) + Charge(x, c) + 2
  {
    assert x * (a + b + c) == x * a + x * b + x * c;
    assert x * a >= 0 && x * b >= 0 && x * c >= 0;
  }

  /**
   * Sizing behind a sibling prices the curve as the sibling's own trade would leave it: the same tokens, and a quote
   * reserve at most two wei short, because the charges are rounded once instead of three times.
   */
  lemma BoundIsBehindTheSiblingsTrade(s: CurveState, ourQuote: nat, siblingQuote: nat, slippageBps: nat, t: CurveState)
    requires Open(s) && slippageBps <= BPS
    requires Step(s, EventOf(s, BuyFor(siblingQuote, s.openingTaxBps))) == Some(t)
    ensures var r := AfterSibling(s, siblingQuote).quoteReserve;
      && 0 < r <= t.quoteReserve <= r + 2
      && MinOutAsLastInBlock(s, ourQuote, siblingQuote, slippageBps)
        == MinOutFromRate(QuoteBuy(s.(quoteReserve := r, tokenReserve := t.tokenReserve,
                                      sellableTokens := t.sellableTokens), ourQuote).tokensOut, slippageBps)
  {
    var q, after := QuoteBuy(s, siblingQuote), AfterSibling(s, siblingQuote);
    var r := after.quoteReserve;
    assert s.(openingTaxBps := s.openingTaxBps) == s;
    BuyMovesNetQuote(s, siblingQuote, s.openingTaxBps);
    LumpFeeFits(s, q.spent);
    LumpIsNearlyTheParts(q.spent, s.feeBps, s.creatorTaxBps, EffectiveOpeningBps(s));
    assert after == s.(quoteReserve := r, tokenReserve := t.tokenReserve, sellableTokens := t.sellableTokens);
  }

  /** The entry quote of a replayed launch: the replayed state at the tax of the entry second. */
  function QuotedEntry(launch: Launch, quoteIn: nat, entrySecond: nat): Option<BuyQuote> {
    match StateAt(launch, entrySecond)
    case None => None
    case Some(s) =>
      var t := s.(openingTaxBps := Tax.SnipeTaxBps(launch.startBps, launch.window, entrySecond));
      if FeesFit(t) && t.quoteReserve > 0 then Some(QuoteBuy(t, quoteIn)) else None
  }

  /** No record that a replay would read carries a time between two candidate seconds. */
  predicate QuietFrom(launch: Launch, earlier: nat, later: nat)
    requires launch.curveState.Some?
  {
    forall r :: r in launch.flow && r.key.blockNumber > launch.curveState.value.readBlock ==>
      !(launch.launchedAt + earlier <= Timestamp(r.event) < launch.launchedAt + later)
  }

  /** So a replay up to either of them ends in the same state. */
  lemma QuietStateStays(launch: Launch, earlier: nat, later: nat)
    requires earlier <= later && launch.launchedAt + later < U64
    requires launch.curveState.Some? && QuietFrom(launch, earlier, later) && StateAt(launch, earlier).Some?
    ensures StateAt(launch, later) == StateAt(launch, earlier)
  {
    QuietBetween(launch.flow, launch.curveState.value.readBlock, launch.launchedAt + earlier,
                 launch.launchedAt + later);
    assert ListingOf(launch, later) == ListingOf(launch, earlier);
  }

  /** If nothing more happens on the curve between two candidate seconds, the later one never quotes fewer tokens. */
  lemma QuietCurveRewardsWaiting(launch: Launch, quoteIn: nat, earlier: nat, later: nat)
    requires earlier <= later && launch.launchedAt + later < U64
    requires launch.curveState.Some? && QuietFrom(launch, earlier, later)
    requires QuotedEntry(launch, quoteIn, earlier).Some?
    ensures QuotedEntry(launch, quoteIn, later).Some?
    ensures QuotedEntry(launch, quoteIn, earlier).value.tokensOut <= QuotedEntry(launch, quoteIn, later).value.tokensOut
  {
    QuietStateStays(launch, earlier, later);
    var s := StateAt(launch, earlier).value;
    Tax.WaitingNeverQuotesLess(s, quoteIn, launch.startBps, launch.window, earlier, later);
  }
}
