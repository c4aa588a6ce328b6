/** The opening-tax staircase (crates/bodkin/src/pons/tax.rs) over 64-bit words. */
module Tax {
  import opened Common
  import opened Arith
  import opened Curve

  function Pow2(n: nat): (p: nat)
    ensures p > 0
  {
    if n == 0 then 1 else 2 * Pow2(n - 1)
  }

  function Stairs(windowSecs: nat, elapsedSecs: nat): nat
    requires windowSecs > 0
  {
    Quotient(Min(14 * elapsedSecs, U64 - 1), windowSecs)
  }

  function SnipeTaxBps(startBps: nat, windowSecs: nat, elapsedSecs: nat): nat {
    if windowSecs == 0 || elapsedSecs >= windowSecs then 0 else
      var shift := Stairs(windowSecs, elapsedSecs);
      if shift >= 64 then 0 else Quotient(startBps, Pow2(shift))
  }

  /** Inside the window fewer than 14 halvings have happened, so the 64-bit shift guard never fires. */
  lemma FewerThanFourteenSteps(windowSecs: nat, elapsedSecs: nat)
    requires elapsedSecs < windowSecs
    ensures Stairs(windowSecs, elapsedSecs) < 14
  {
    assert Min(14 * elapsedSecs, U64 - 1) < 14 * windowSecs;
    DivBelow(14, Min(14 * elapsedSecs, U64 - 1), windowSecs);
  }

  lemma {:induction false} Pow2Monotone(a: nat, b: nat)
    requires a <= b
    ensures Pow2(a) <= Pow2(b)
  {
    if a < b {
      Pow2Monotone(a, b - 1);
    }
  }

  /** The tax never rises with time, starts at the full rate and is gone at the end of the window. */
  lemma TaxNeverRises(startBps: nat, windowSecs: nat, earlier: nat, later: nat)
    requires earlier <= later
    ensures SnipeTaxBps(startBps, windowSecs, later) <= SnipeTaxBps(startBps, windowSecs, earlier)
    ensures windowSecs > 0 ==> SnipeTaxBps(startBps, windowSecs, 0) == startBps
    ensures later >= windowSecs ==> SnipeTaxBps(startBps, windowSecs, later) == 0
  {
    if later < windowSecs {
      FewerThanFourteenSteps(windowSecs, earlier);
      FewerThanFourteenSteps(windowSecs, later);
      StairsMonotone(windowSecs, earlier, later);
      DivAntitone(startBps, Stairs(windowSecs, earlier), Stairs(windowSecs, later));
    }
    if windowSecs > 0 {
      assert Stairs(windowSecs, 0) == 0;
    }
  }

  /** The rate is halved, rounding down, once for every fourteenth of the window that has passed. */
  lemma TaxHalvesEveryFourteenth(startBps: nat, windowSecs: nat, elapsedSecs: nat, k: nat)
    requires elapsedSecs < windowSecs && 14 * elapsedSecs < U64
    requires k * windowSecs <= 14 * elapsedSecs < k * windowSecs + windowSecs
    ensures var tax := SnipeTaxBps(startBps, windowSecs, elapsedSecs);
      tax * Pow2(k) <= startBps < tax * Pow2(k) + Pow2(k)
  {
    assert (k + 1) * windowSecs == k * windowSecs + windowSecs;
    DivAtLeast(k, 14 * elapsedSecs, windowSecs);
    DivBelow(k + 1, 14 * elapsedSecs, windowSecs);
    FewerThanFourteenSteps(windowSecs, elapsedSecs);
    DivFloor(startBps, Pow2(k));
  }

  lemma Pow2Doubles(n: nat)
    ensures Pow2(0) == 1 && Pow2(n + 1) == Pow2(n) + Pow2(n)
  {
  }

  lemma StairsMonotone(windowSecs: nat, earlier: nat, later: nat)
    requires windowSecs > 0 && earlier <= later
    ensures Stairs(windowSecs, earlier) <= Stairs(windowSecs, later)
  {
    DivMono(Min(14 * earlier, U64 - 1), Min(14 * later, U64 - 1), windowSecs);
  }

  lemma DivAntitone(x: nat, a: nat, b: nat)
    requires a <= b
    ensures x / Pow2(b) <= x / Pow2(a)
  {
    Pow2Monotone(a, b);
    BiggerDivisor(x, Pow2(a), Pow2(b));
  }

  /** At fixed reserves, waiting for a later second never quotes fewer tokens. */
  lemma WaitingNeverQuotesLess(s: CurveState, quoteIn: nat, startBps: nat, windowSecs: nat, earlier: nat, later: nat)
    requires FeesFit(s) && s.quoteReserve > 0 && earlier <= later
    ensures QuoteBuy(s.(openingTaxBps := SnipeTaxBps(startBps, windowSecs, earlier)), quoteIn).tokensOut
         <= QuoteBuy(s.(openingTaxBps := SnipeTaxBps(startBps, windowSecs, later)), quoteIn).tokensOut
  {
    TaxNeverRises(startBps, windowSecs, earlier, later);
    HigherTaxNeverQuotesMore(s, SnipeTaxBps(startBps, windowSecs, later), SnipeTaxBps(startBps, windowSecs, earlier),
                             quoteIn);
  }

  const LIVE_START_BPS := 9_900
  const LIVE_WINDOW_SECS := 3

  /** The tax of each second on the live three-second window. */
  lemma LiveStaircase(elapsedSecs: nat)
    ensures SnipeTaxBps(LIVE_START_BPS, LIVE_WINDOW_SECS, elapsedSecs)
      == match elapsedSecs case 0 => 9_900 case 1 => 618 case 2 => 19 case _ => 0
  {
    assert Stairs(3, 0) == 0 && Stairs(3, 1) == 4 && Stairs(3, 2) == 9;
    assert Pow2(4) == 16;
    assert Pow2(9) == 32 * Pow2(4);
  }

  /** Second two is the first at which a ceiling admits an entry exactly for the ceilings from 19 to 617. */
  lemma CeilingBand(ceiling: nat)
    ensures 19 <= ceiling <= 617 <==>
      && SnipeTaxBps(LIVE_START_BPS, LIVE_WINDOW_SECS, 2) <= ceiling
      && forall e: nat :: e < 2 ==> SnipeTaxBps(LIVE_START_BPS, LIVE_WINDOW_SECS, e) > ceiling
  {
    LiveStaircase(0);
    LiveStaircase(1);
    LiveStaircase(2);
  }
}
