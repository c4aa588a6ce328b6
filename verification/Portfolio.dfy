/**
 * The research portfolio (crates/bodkin/src/research.rs): exact checked money, a risk state with a permanent latch, and
 * admissions that expire with the revision they were checked in.
 */
module Portfolio {
  import opened Common
  import opened Arith

  datatype Risk = Active | ValuationUnknown | Liquidating | Halted

  datatype Profile = Profile(startingEquity: nat, maxCommitmentBps: nat, maxDrawdownBps: nat, maxOpenPositions: nat) {
    predicate Valid() {
      && 0 < startingEquity < WORD && 1 <= maxCommitmentBps <= BPS && 1 <= maxDrawdownBps <= BPS && 0 < maxOpenPositions
    }
  }

  datatype Holding = Holding(id: string, tokens: nat, entryValue: nat, entryGas: nat, exitReserve: nat,
                             liquidation: Option<nat>)

  datatype Book = Book(
    profile: Profile,
    cash: nat,
    peak: nat,
    drawdown: Option<nat>,
    reserved: nat,
    gasSpent: nat,
    proceeds: nat,
    positions: seq<Holding>,
    risk: Risk,
    breached: bool,
    revision: nat)

  datatype Admission = Admission(revision: nat, entryValue: nat, gasLimit: nat, exitReserve: nat, commitment: nat)
  datatype Settlement = Settlement(id: string, tokens: nat, entryValue: nat, entryGas: nat, liquidation: Option<nat>)

  datatype Error =
    | AdmissionsHalted(risk: Risk)
    | EquityUnknown
    | OpenPositionLimit
    | ZeroCommitment
    | CommitmentLimit(requested: nat, ceiling: nat)
    | InsufficientCash(required: nat, available: nat)
    | Overflow
    | AdmissionExceeded
    | StaleAdmission
    | DuplicatePosition
    | ZeroInventory
    | PositionNotFound
    | InvalidExitQuantity

  datatype Result<T> = Ok(value: T) | Err(error: Error)

  function New(p: Profile): Book {
    Book(p, p.startingEquity, p.startingEquity, Some(0), 0, 0, 0, [], Active, false, 0)
  }

  // ---- Equity and risk ---------------------------------------------------------------------------

  datatype Equity = Known(value: nat) | Unknown | TooBig

  /** Cash plus liquidation values, in list order: an unpriced position hides whatever comes after it. */
  function EquityFrom(cash: nat, ps: seq<Holding>): Equity
    decreases |ps|
  {
    if ps == [] then Known(cash)
    else if ps[0].liquidation.None? then Unknown
    else if cash + ps[0].liquidation.value >= WORD then TooBig
    else EquityFrom(cash + ps[0].liquidation.value, ps[1..])
  }

  predicate AllPriced(ps: seq<Holding>) {
    forall p :: p in ps ==> p.liquidation.Some?
  }

  function DrawdownBps(peak: nat, equity: nat): Option<nat> {
    if peak == 0 || equity >= peak then Some(0)
    else if (peak - equity) * BPS >= WORD then None
    else Some(Quotient((peak - equity) * BPS, peak))
  }

  function RiskOf(breached: bool, empty: bool, priced: bool): Risk {
    if breached then (if empty then Halted else Liquidating) else if priced then Active else ValuationUnknown
  }

  function Refresh(b: Book): Result<Book> {
    match EquityFrom(b.cash, b.positions)
    case TooBig => Err(Overflow)
    case Unknown => Ok(if b.breached then b else b.(risk := ValuationUnknown, drawdown := None))
    case Known(e) =>
      var peak := Max(b.peak, e);
      var d := DrawdownBps(peak, e);
      if d.None? then Err(Overflow) else
        var breached := b.breached || d.value >= b.profile.maxDrawdownBps;
        Ok(b.(peak := peak, drawdown := d, breached := breached, risk := RiskOf(breached, b.positions == [], true)))
  }

  // ---- The operations ----------------------------------------------------------------------------

  function AdmissionFor(b: Book, entryValue: nat, gasLimit: nat, exitReserve: nat): Result<Admission> {
    if !b.risk.Active? then Err(AdmissionsHalted(b.risk))
    else if |b.positions| >= b.profile.maxOpenPositions then Err(OpenPositionLimit)
    else match EquityFrom(b.cash, b.positions)
      case TooBig => Err(Overflow)
      case Unknown => Err(EquityUnknown)
      case Known(equity) =>
        var commitment := entryValue + gasLimit;
        if commitment >= WORD then Err(Overflow)
        else if commitment == 0 then Err(ZeroCommitment)
        else if equity * b.profile.maxCommitmentBps >= WORD then Err(Overflow)
        else
          var ceiling := Quotient(equity * b.profile.maxCommitmentBps, BPS);
          if commitment > ceiling then Err(CommitmentLimit(commitment, ceiling))
          else if commitment + exitReserve >= WORD || b.cash < b.reserved then Err(Overflow)
          else if commitment + exitReserve > b.cash - b.reserved
            then Err(InsufficientCash(commitment + exitReserve, b.cash - b.reserved))
          else Ok(Admission(b.revision, entryValue, gasLimit, exitReserve, commitment))
  }

  function AdmissionError(b: Book, a: Admission): Option<Error> {
    if a.revision != b.revision then Some(StaleAdmission)
    else if !b.risk.Active? then Some(AdmissionsHalted(b.risk))
    else if |b.positions| >= b.profile.maxOpenPositions then Some(OpenPositionLimit)
    else None
  }

  function IndexOf(ps: seq<Holding>, id: string): Option<nat> {
    if ps == [] then None
    else if ps[0].id == id then Some(0)
    else match IndexOf(ps[1..], id)
      case None => None
      case Some(i) => Some(i + 1)
  }

  function AfterEntry(b: Book, a: Admission, s: Settlement): Book
    requires s.entryValue + s.entryGas <= b.cash
  {
    b.(cash := b.cash - (s.entryValue + s.entryGas), reserved := b.reserved + a.exitReserve,
       gasSpent := b.gasSpent + s.entryGas,
       positions := b.positions + [Holding(s.id, s.tokens, s.entryValue, s.entryGas, a.exitReserve, s.liquidation)],
       revision := b.revision + 1)
  }

  function SettleEntry(b: Book, a: Admission, s: Settlement): Result<Book> {
    var cost := s.entryValue + s.entryGas;
    if AdmissionError(b, a).Some? then Err(AdmissionError(b, a).value)
    else if s.id == "" || IndexOf(b.positions, s.id).Some? then Err(DuplicatePosition)
    else if s.tokens == 0 then Err(ZeroInventory)
    else if cost >= WORD then Err(Overflow)
    else if s.entryValue > a.entryValue || s.entryGas > a.gasLimit || cost > a.commitment then Err(AdmissionExceeded)
    else if cost > b.cash then Err(InsufficientCash(cost, b.cash))
    else if b.reserved + a.exitReserve >= WORD || b.gasSpent + s.entryGas >= WORD then Err(Overflow)
    else Refresh(AfterEntry(b, a, s))
  }

  function FailEntry(b: Book, a: Admission, gas: nat): Result<Book> {
    if AdmissionError(b, a).Some? then Err(AdmissionError(b, a).value)
    else if gas > a.gasLimit || gas > a.commitment then Err(AdmissionExceeded)
    else if gas > b.cash then Err(InsufficientCash(gas, b.cash))
    else if b.gasSpent + gas >= WORD then Err(Overflow)
    else Refresh(b.(cash := b.cash - gas, gasSpent := b.gasSpent + gas, revision := b.revision + 1))
  }

  function Mark(b: Book, id: string, liquidation: Option<nat>): Result<Book> {
    match IndexOf(b.positions, id)
    case None => Err(PositionNotFound)
    case Some(i) =>
      if i >= |b.positions| then Err(PositionNotFound)
      else Refresh(b.(positions := b.positions[i := b.positions[i].(liquidation := liquidation)],
                      revision := b.revision + 1))
  }

  /** What is left of a position's liquidation value: unknown when the product does not fit a word. */
  function Rescaled(liquidation: Option<nat>, left: nat, held: nat): Option<nat>
    requires held > 0
  {
    if liquidation.Some? && liquidation.value * left < WORD then Some(Quotient(liquidation.value * left, held))
    else None
  }

  /** A position after part of it was sold. */
  function Trimmed(p: Holding, sold: nat): Holding
    requires 0 < sold < p.tokens
  {
    p.(tokens := p.tokens - sold, liquidation := Rescaled(p.liquidation, p.tokens - sold, p.tokens))
  }

  function AfterSale(ps: seq<Holding>, i: nat, sold: nat): seq<Holding>
    requires i < |ps| && 0 < sold <= ps[i].tokens
  {
    var p := ps[i];
    if sold == p.tokens then ps[..i] + ps[i + 1..] else ps[i := Trimmed(p, sold)]
  }

  function SettleExit(b: Book, id: string, sold: nat, proceeds: nat, gas: nat): Result<Book> {
    match IndexOf(b.positions, id)
    case None => Err(PositionNotFound)
    case Some(i) =>
      if i >= |b.positions| then Err(PositionNotFound)
      else if sold == 0 || sold > b.positions[i].tokens then Err(InvalidExitQuantity)
      else if b.cash + proceeds >= WORD then Err(Overflow)
      else if gas > b.cash + proceeds then Err(InsufficientCash(gas, b.cash + proceeds))
      else if b.proceeds + proceeds >= WORD || b.gasSpent + gas >= WORD then Err(Overflow)
      else if sold == b.positions[i].tokens && b.positions[i].exitReserve > b.reserved then Err(Overflow)
      else Refresh(b.(cash := b.cash + proceeds - gas, proceeds := b.proceeds + proceeds, gasSpent := b.gasSpent + gas,
                      reserved := if sold == b.positions[i].tokens then b.reserved - b.positions[i].exitReserve
                      else b.reserved,
                      positions := AfterSale(b.positions, i, sold), revision := b.revision + 1))
  }

  datatype Op =
    | Enter(admission: Admission, settlement: Settlement)
    | FailEnter(admission: Admission, gas: nat)
    | Price(id: string, liquidation: Option<nat>)
    | Exit(id: string, sold: nat, proceeds: nat, gas: nat)

  function Apply(b: Book, op: Op): Result<Book> {
    match op
    case Enter(a, s) => SettleEntry(b, a, s)
    case FailEnter(a, gas) => FailEntry(b, a, gas)
    case Price(id, v) => Mark(b, id, v)
    case Exit(id, sold, proceeds, gas) => SettleExit(b, id, sold, proceeds, gas)
  }

  // ---- What every book satisfies -----------------------------------------------------------------

  /** Exit gas set aside and tokens held, over all positions. */
  datatype Sums = Sums(reserves: nat, tokens: nat)

  function SumsOf(ps: seq<Holding>): Sums {
    if ps == [] then Sums(0, 0) else
      var rest := SumsOf(ps[1..]);
      Sums(ps[0].exitReserve + rest.reserves, ps[0].tokens + rest.tokens)
  }

  /** The largest loss from the peak that an active book may show. */
  predicate WithinDrawdown(b: Book, equity: nat) {
    equity <= b.peak && (b.peak - equity) * BPS < b.profile.maxDrawdownBps * b.peak
  }

  ghost predicate Inv(b: Book) {
    && b.profile.Valid()
    && b.peak >= b.profile.startingEquity
    && b.reserved == SumsOf(b.positions).reserves
    && (forall p :: p in b.positions ==> p.tokens > 0)
    && !EquityFrom(b.cash, b.positions).TooBig?
    && b.risk == RiskOf(b.breached, b.positions == [], AllPriced(b.positions))
    && (EquityFrom(b.cash, b.positions).Known? ==> EquityFrom(b.cash, b.positions).value <= b.peak)
    && (b.risk.Active? ==>
          EquityFrom(b.cash, b.positions).Known? && WithinDrawdown(b, EquityFrom(b.cash, b.positions).value))
  }

  lemma {:induction false} KnownMeansPriced(cash: nat, ps: seq<Holding>)
    ensures EquityFrom(cash, ps).Known? ==> AllPriced(ps)
    ensures EquityFrom(cash, ps).Unknown? ==> !AllPriced(ps)
    ensures EquityFrom(cash, ps).Known? ==> EquityFrom(cash, ps).value >= cash
    decreases |ps|
  {
    if ps != [] && ps[0].liquidation.Some? && cash + ps[0].liquidation.value < WORD {
      KnownMeansPriced(cash + ps[0].liquidation.value, ps[1..]);
      assert ps == [ps[0]] + ps[1..];
    } else if ps != [] {
      assert ps[0] in ps;
    }
  }

  /** A drawdown below the limit, in basis points rounded down, is a loss strictly below that share of the peak. */
  lemma DrawdownLimit(peak: nat, equity: nat, limit: nat)
    requires 0 < peak && equity <= peak && 0 < limit && DrawdownBps(peak, equity).Some?
    ensures DrawdownBps(peak, equity).value < limit <==> (peak - equity) * BPS < limit * peak
  {
    var loss := (peak - equity) * BPS;
    if equity < peak {
      if loss < limit * peak {
        DivBelow(limit, loss, peak);
      } else {
        DivAtLeast(limit, loss, peak);
      }
    } else {
      assert loss == 0;
      MulStrict(0, limit, peak);
    }
  }

  /**
   * Whatever was changed before it, a successful refresh leaves the risk state where the latch and the positions put
   * it.
   */
  lemma RefreshEstablishes(b: Book)
    requires b.profile.Valid() && b.peak >= b.profile.startingEquity && Refresh(b).Ok?
    requires b.reserved == SumsOf(b.positions).reserves && forall p :: p in b.positions ==> p.tokens > 0
    requires EquityFrom(b.cash, b.positions).Unknown? && b.breached ==> b.risk == Liquidating
    ensures Inv(Refresh(b).value)
    ensures Refresh(b).value == b.(peak := Refresh(b).value.peak, drawdown := Refresh(b).value.drawdown,
                                   breached := Refresh(b).value.breached, risk := Refresh(b).value.risk)
    ensures b.breached ==> Refresh(b).value.breached
    ensures Refresh(b).value.peak
      == match EquityFrom(b.cash, b.positions) case Known(e) => Max(b.peak, e) case _ => b.peak
  {
    KnownMeansPriced(b.cash, b.positions);
    var equity := EquityFrom(b.cash, b.positions);
    if equity.Known? {
      DrawdownLimit(Max(b.peak, equity.value), equity.value, b.profile.maxDrawdownBps);
    } else {
      assert b.positions != [];
    }
  }

  lemma {:induction false} SumsConcat(a: seq<Holding>, b: seq<Holding>)
    ensures SumsOf(a + b) == Sums(SumsOf(a).reserves + SumsOf(b).reserves, SumsOf(a).tokens + SumsOf(b).tokens)
  {
    if a == [] {
      assert a + b == b;
    } else {
      SumsConcat(a[1..], b);
      assert (a + b)[1..] == a[1..] + b;
    }
  }

  lemma SumsThree(a: seq<Holding>, m: seq<Holding>, b: seq<Holding>)
    ensures SumsOf(a + m + b)
      == Sums(SumsOf(a).reserves + SumsOf(m).reserves + SumsOf(b).reserves,
              SumsOf(a).tokens + SumsOf(m).tokens + SumsOf(b).tokens)
  {
    SumsConcat(a + m, b);
    SumsConcat(a, m);
  }

  lemma SumsSplit(ps: seq<Holding>, i: nat, mid: seq<Holding>)
    requires i < |ps|
    ensures var rest := SumsOf(ps[..i] + ps[i + 1..]);
      SumsOf(ps[..i] + mid + ps[i + 1..])
        == Sums(rest.reserves + SumsOf(mid).reserves, rest.tokens + SumsOf(mid).tokens)
  {
    SumsConcat(ps[..i], ps[i + 1..]);
    SumsThree(ps[..i], mid, ps[i + 1..]);
  }

  lemma SumsOne(ps: seq<Holding>, i: nat)
    requires i < |ps|
    ensures var rest := SumsOf(ps[..i] + ps[i + 1..]);
      SumsOf(ps) == Sums(rest.reserves + ps[i].exitReserve, rest.tokens + ps[i].tokens)
  {
    SumsSplit(ps, i, [ps[i]]);
    assert ps == ps[..i] + [ps[i]] + ps[i + 1..];
    assert SumsOf([ps[i]]) == Sums(ps[i].exitReserve, ps[i].tokens);
  }

  lemma SumsReplace(ps: seq<Holding>, i: nat, q: Holding)
    requires i < |ps|
    ensures SumsOf(ps[i := q]).reserves + ps[i].exitReserve == SumsOf(ps).reserves + q.exitReserve
    ensures SumsOf(ps[i := q]).tokens + ps[i].tokens == SumsOf(ps).tokens + q.tokens
  {
    SumsSplit(ps, i, [q]);
    SumsOne(ps, i);
    assert ps[i := q] == ps[..i] + [q] + ps[i + 1..];
    assert SumsOf([q]) == Sums(q.exitReserve, q.tokens);
  }

  lemma {:induction false} IndexIsFirst(ps: seq<Holding>, id: string)
    ensures match IndexOf(ps, id)
      case Some(i) => i < |ps| && ps[i].id == id && forall j :: 0 <= j < i ==> ps[j].id != id
      case None => forall j :: 0 <= j < |ps| ==> ps[j].id != id
  {
    if ps != [] && ps[0].id != id {
      IndexIsFirst(ps[1..], id);
      assert forall j :: 1 <= j < |ps| ==> ps[j] == ps[1..][j - 1];
    }
  }

  /** What a sale does to the sums: the tokens sold leave, and the reserve leaves with the last of them. */
  lemma SaleSums(ps: seq<Holding>, i: nat, sold: nat)
    requires i < |ps| && 0 < sold <= ps[i].tokens
    ensures SumsOf(AfterSale(ps, i, sold)).tokens + sold == SumsOf(ps).tokens
    ensures SumsOf(AfterSale(ps, i, sold)).reserves + (if sold == ps[i].tokens then ps[i].exitReserve else 0)
      == SumsOf(ps).reserves
    ensures (forall p :: p in ps ==> p.tokens > 0) ==> forall p :: p in AfterSale(ps, i, sold) ==> p.tokens > 0
  {
    if sold == ps[i].tokens {
      SumsOne(ps, i);
    } else {
      SumsReplace(ps, i, AfterSale(ps, i, sold)[i]);
    }
  }

  // ---- Single operations -------------------------------------------------------------------------

  /** The book an operation hands to the final risk check. */
  ghost predicate Unchecked(b: Book, op: Op, draft: Book) {
    match op
    case Enter(a, s) => s.entryValue + s.entryGas <= b.cash && draft == AfterEntry(b, a, s) && s.tokens > 0
    case FailEnter(_, gas) =>
      gas <= b.cash && draft == b.(cash := b.cash - gas, gasSpent := b.gasSpent + gas, revision := b.revision + 1)
    case Price(id, v) =>
      exists i :: 0 <= i < |b.positions|
        && draft == b.(positions := b.positions[i := b.positions[i].(liquidation := v)], revision := b.revision + 1)
    case Exit(id, sold, proceeds, gas) =>
      exists i :: 0 <= i < |b.positions| && SoldAt(b, i, sold, proceeds, gas, draft)
  }

  predicate SoldAt(b: Book, i: nat, sold: nat, proceeds: nat, gas: nat, draft: Book)
    requires i < |b.positions|
  {
    var p := b.positions[i];
    && 0 < sold <= p.tokens && gas <= b.cash + proceeds && (sold == p.tokens ==> p.exitReserve <= b.reserved)
    && draft == b.(cash := b.cash + proceeds - gas, proceeds := b.proceeds + proceeds, gasSpent := b.gasSpent + gas,
                   reserved := if sold == p.tokens then b.reserved - p.exitReserve else b.reserved,
                   positions := AfterSale(b.positions, i, sold), revision := b.revision + 1)
  }

  lemma DraftOf(b: Book, op: Op) returns (draft: Book)
    requires Apply(b, op).Ok?
    ensures Unchecked(b, op, draft) && Apply(b, op) == Refresh(draft)
  {
    match op
    case Enter(a, s) => draft := AfterEntry(b, a, s);
    case FailEnter(a, gas) =>
      draft := b.(cash := b.cash - gas, gasSpent := b.gasSpent + gas, revision := b.revision + 1);
    case Price(id, v) =>
      var i := IndexOf(b.positions, id).value;
      draft := b.(positions := b.positions[i := b.positions[i].(liquidation := v)], revision := b.revision + 1);
    case Exit(id, sold, proceeds, gas) =>
      var i := IndexOf(b.positions, id).value;
      draft := b.(cash := b.cash + proceeds - gas, proceeds := b.proceeds + proceeds, gasSpent := b.gasSpent + gas,
                  reserved := if sold == b.positions[i].tokens then b.reserved - b.positions[i].exitReserve
                  else b.reserved,
                  positions := AfterSale(b.positions, i, sold), revision := b.revision + 1);
      assert SoldAt(b, i, sold, proceeds, gas, draft);
  }

  lemma DraftKeepsSums(b: Book, op: Op, draft: Book)
    requires Inv(b) && Unchecked(b, op, draft)
    ensures draft.reserved == SumsOf(draft.positions).reserves
    ensures forall p :: p in draft.positions ==> p.tokens > 0
    ensures draft.profile == b.profile && draft.peak == b.peak && draft.risk == b.risk && draft.breached == b.breached
    ensures draft.revision == b.revision + 1
    ensures op.Exit? ==> SumsOf(draft.positions).tokens + op.sold == SumsOf(b.positions).tokens
    ensures op.Price? ==> SumsOf(draft.positions) == SumsOf(b.positions)
  {
    match op
    case Enter(a, s) =>
      EntryKeepsSums(b.positions, draft.positions[|b.positions|]);
    case FailEnter(_, _) =>
    case Price(id, v) =>
      var i :| 0 <= i < |b.positions|
        && draft == b.(positions := b.positions[i := b.positions[i].(liquidation := v)], revision := b.revision + 1);
      PriceKeepsSums(b.positions, i, v);
    case Exit(id, sold, proceeds, gas) =>
      ExitKeepsSums(b, op, draft);
  }

  lemma ExitKeepsSums(b: Book, op: Op, draft: Book)
    requires Inv(b) && op.Exit? && Unchecked(b, op, draft)
    ensures draft.reserved == SumsOf(draft.positions).reserves
    ensures SumsOf(draft.positions).tokens + op.sold == SumsOf(b.positions).tokens
    ensures forall p :: p in draft.positions ==> p.tokens > 0
  {
    var i :| 0 <= i < |b.positions| && SoldAt(b, i, op.sold, op.proceeds, op.gas, draft);
    SaleSums(b.positions, i, op.sold);
  }

  lemma EntryKeepsSums(ps: seq<Holding>, p: Holding)
    requires p.tokens > 0 && forall q :: q in ps ==> q.tokens > 0
    ensures SumsOf(ps + [p]) == Sums(SumsOf(ps).reserves + p.exitReserve, SumsOf(ps).tokens + p.tokens)
    ensures forall q :: q in ps + [p] ==> q.tokens > 0
  {
    SumsConcat(ps, [p]);
    assert SumsOf([p]) == Sums(p.exitReserve, p.tokens);
  }

  lemma PriceKeepsSums(ps: seq<Holding>, i: nat, v: Option<nat>)
    requires i < |ps| && forall q :: q in ps ==> q.tokens > 0
    ensures SumsOf(ps[i := ps[i].(liquidation := v)]) == SumsOf(ps)
    ensures forall q :: q in ps[i := ps[i].(liquidation := v)] ==> q.tokens > 0
  {
    SumsReplace(ps, i, ps[i].(liquidation := v));
  }

  /** A breached book is liquidating while it holds anything. */
  lemma BreachedWithPositions(b: Book, op: Op, draft: Book)
    requires Inv(b) && Unchecked(b, op, draft) && b.breached && Apply(b, op) == Refresh(draft) && Apply(b, op).Ok?
    ensures b.risk.Liquidating?
  {
    if b.risk.Halted? {
      HaltedIsFinal(b, op);
    }
  }

  /** Every accepted operation keeps the invariant, moves the revision on, and never clears the latch. */
  lemma StepKeepsInv(b: Book, op: Op)
    requires Inv(b) && Apply(b, op).Ok?
    ensures var now := Apply(b, op).value;
      && Inv(now) && now.revision == b.revision + 1 && now.profile == b.profile
      && (b.breached ==> now.breached)
      && now.peak == (match EquityFrom(now.cash, now.positions) case Known(e) => Max(b.peak, e) case _ => b.peak)
  {
    var draft := DraftOf(b, op);
    DraftKeepsSums(b, op, draft);
    if b.breached {
      BreachedWithPositions(b, op, draft);
    }
    RefreshEstablishes(draft);
  }

  /**
   * The latch closes exactly when the equity is known and its loss from the peak is no longer within the limit; the
   * drawdown on record is that loss in basis points, rounded down.
   */
  lemma BreachIsTheLoss(b: Book, op: Op)
    requires Inv(b) && Apply(b, op).Ok?
    ensures var now := Apply(b, op).value;
      var equity := EquityFrom(now.cash, now.positions);
      && (now.breached <==> b.breached || (equity.Known? && !WithinDrawdown(now, equity.value)))
      && (equity.Known? ==>
            && now.drawdown.Some? && equity.value <= now.peak
            && now.drawdown.value * now.peak <= (now.peak - equity.value) * 10_000
                 < now.drawdown.value * now.peak + now.peak)
      && (!equity.Known? ==> now.drawdown == if b.breached then b.drawdown else None)
  {
    var draft := DraftOf(b, op);
    DraftKeepsSums(b, op, draft);
    if b.breached {
      BreachedWithPositions(b, op, draft);
    }
    RefreshEstablishes(draft);
    if EquityFrom(draft.cash, draft.positions).Known? {
      RefreshLatches(draft);
    }
    assert draft.drawdown == b.drawdown;
  }

  lemma RefreshLatches(b: Book)
    requires b.profile.Valid() && b.peak >= b.profile.startingEquity && Refresh(b).Ok?
    requires EquityFrom(b.cash, b.positions).Known?
    ensures var now, e := Refresh(b).value, EquityFrom(b.cash, b.positions).value;
      && (now.breached <==> b.breached || !WithinDrawdown(now, e))
      && now.drawdown.Some? && e <= now.peak
      && now.drawdown.value * now.peak <= (now.peak - e) * 10_000 < now.drawdown.value * now.peak + now.peak
  {
    var e := EquityFrom(b.cash, b.positions).value;
    var peak := Max(b.peak, e);
    DrawdownLimit(peak, e, b.profile.maxDrawdownBps);
    DivFloor((peak - e) * BPS, peak);
  }

  /** Liquidating admits nothing, and every accepted exit lowers the tokens held by exactly what it sold. */
  lemma LiquidationOnlyShrinks(b: Book, op: Op)
    requires Inv(b) && b.risk.Liquidating? && Apply(b, op).Ok?
    ensures var now := Apply(b, op).value;
      && (now.risk.Liquidating? || now.risk.Halted?)
      && (op.Price? || op.Exit?)
      && (op.Exit? ==> SumsOf(now.positions).tokens == SumsOf(b.positions).tokens - op.sold && op.sold > 0)
      && (op.Price? ==> SumsOf(now.positions).tokens == SumsOf(b.positions).tokens)
  {
    var draft := DraftOf(b, op);
    DraftKeepsSums(b, op, draft);
    StepKeepsInv(b, op);
    RefreshEstablishes(draft);
  }

  /** A halted book refuses everything. */
  lemma HaltedIsFinal(b: Book, op: Op)
    requires Inv(b) && b.risk.Halted?
    ensures Apply(b, op).Err?
  {
    assert b.positions == [];
  }

  // ---- Whole runs --------------------------------------------------------------------------------

  /** The book after a list of operations; a refused one leaves it as it was. */
  function Run(b: Book, ops: seq<Op>): Book {
    if ops == [] then b else
      var before, op := Run(b, ops[..|ops| - 1]), ops[|ops| - 1];
      if Apply(before, op).Ok? then Apply(before, op).value else before
  }

  predicate Accepted(b: Book, ops: seq<Op>, k: nat)
    requires k < |ops|
  {
    Apply(Run(b, ops[..k]), ops[k]).Ok?
  }

  lemma RunStep(b: Book, ops: seq<Op>, k: nat)
    requires k < |ops|
    ensures Run(b, ops[..k + 1])
      == if Accepted(b, ops, k) then Apply(Run(b, ops[..k]), ops[k]).value else Run(b, ops[..k])
  {
    assert ops[..k + 1][..k] == ops[..k];
  }

  lemma NewIsSound(p: Profile)
    requires p.Valid()
    ensures Inv(New(p))
  {
    MulStrict(0, p.maxDrawdownBps, p.startingEquity);
  }

  lemma {:induction false} RunKeepsInv(b: Book, ops: seq<Op>)
    requires Inv(b)
    ensures Inv(Run(b, ops)) && Run(b, ops).profile == b.profile
    ensures b.breached ==> Run(b, ops).breached
    ensures Run(b, ops).revision >= b.revision
    ensures Run(b, ops).revision == b.revision ==> Run(b, ops) == b
  {
    if ops != [] {
      RunKeepsInv(b, ops[..|ops| - 1]);
      var before, op := Run(b, ops[..|ops| - 1]), ops[|ops| - 1];
      if Apply(before, op).Ok? {
        StepKeepsInv(before, op);
      }
    }
  }

  lemma {:induction false} RunConcat(b: Book, ops: seq<Op>, more: seq<Op>)
    ensures Run(b, ops + more) == Run(Run(b, ops), more)
  {
    if more == [] {
      assert ops + more == ops;
    } else {
      RunConcat(b, ops, more[..|more| - 1]);
      assert (ops + more)[..|ops + more| - 1] == ops + more[..|more| - 1];
    }
  }

  /**
   * After any operations: the risk state is what the latch, emptiness and pricing say, and a breach is never
   * forgotten.
   */
  lemma RiskIsDetermined(p: Profile, ops: seq<Op>, more: seq<Op>)
    requires p.Valid()
    ensures var b := Run(New(p), ops);
      && (b.risk.Halted? <==> b.breached && b.positions == [])
      && (b.risk.Liquidating? <==> b.breached && b.positions != [])
      && (b.risk.Active? <==> !b.breached && AllPriced(b.positions))
      && (b.risk.ValuationUnknown? <==> !b.breached && !AllPriced(b.positions))
      && b.reserved == SumsOf(b.positions).reserves
      && (b.risk.Active? ==>
            EquityFrom(b.cash, b.positions).Known? && WithinDrawdown(b, EquityFrom(b.cash, b.positions).value))
      && (b.breached ==> Run(New(p), ops + more).breached)
      && (b.risk.Halted? ==> Run(New(p), ops + more) == b)
  {
    NewIsSound(p);
    RunKeepsInv(New(p), ops);
    RunConcat(New(p), ops, more);
    RunKeepsInv(Run(New(p), ops), more);
    if Run(New(p), ops).risk.Halted? {
      HaltedRunsStill(Run(New(p), ops), more);
    }
  }

  lemma {:induction false} HaltedRunsStill(b: Book, ops: seq<Op>)
    requires Inv(b) && b.risk.Halted?
    ensures Run(b, ops) == b
  {
    if ops != [] {
      HaltedRunsStill(b, ops[..|ops| - 1]);
      HaltedIsFinal(b, ops[|ops| - 1]);
    }
  }

  /** The equities known after each accepted operation, the starting equity first. */
  function KnownEquities(p: Profile, ops: seq<Op>): seq<nat> {
    if ops == [] then [p.startingEquity] else
      var now := Run(New(p), ops);
      var rest := KnownEquities(p, ops[..|ops| - 1]);
      if Accepted(New(p), ops, |ops| - 1) && EquityFrom(now.cash, now.positions).Known?
      then rest + [EquityFrom(now.cash, now.positions).value] else rest
  }

  /** The peak is the largest equity ever known. */
  lemma {:induction false} PeakIsTheMaximum(p: Profile, ops: seq<Op>)
    requires p.Valid()
    ensures Run(New(p), ops).peak in KnownEquities(p, ops)
    ensures forall e :: e in KnownEquities(p, ops) ==> e <= Run(New(p), ops).peak
  {
    if ops != [] {
      var n := |ops| - 1;
      PeakIsTheMaximum(p, ops[..n]);
      NewIsSound(p);
      RunKeepsInv(New(p), ops[..n]);
      assert ops[..n + 1] == ops;
      RunStep(New(p), ops, n);
      if Accepted(New(p), ops, n) {
        StepKeepsInv(Run(New(p), ops[..n]), ops[n]);
      }
    }
  }

  /** The value paid for entries that were accepted. */
  function EntryValues(p: Profile, ops: seq<Op>): nat {
    if ops == [] then 0 else
      var n := |ops| - 1;
      EntryValues(p, ops[..n]) + (if Accepted(New(p), ops, n) && ops[n].Enter? then ops[n].settlement.entryValue else 0)
  }

  lemma StepConserves(b: Book, op: Op)
    requires Inv(b) && Apply(b, op).Ok?
    ensures var now := Apply(b, op).value;
      now.cash + now.gasSpent + (if op.Enter? then op.settlement.entryValue else 0) - now.proceeds
        == b.cash + b.gasSpent - b.proceeds
  {
    var draft := DraftOf(b, op);
    DraftKeepsSums(b, op, draft);
    if b.breached {
      BreachedWithPositions(b, op, draft);
    }
    RefreshEstablishes(draft);
  }

  /**
   * No wei appears or vanishes: cash, gas and the price of every entry add up to the starting equity and the proceeds.
   */
  lemma {:induction false} MoneyIsConserved(p: Profile, ops: seq<Op>)
    requires p.Valid()
    ensures var b := Run(New(p), ops);
      b.cash + b.gasSpent + EntryValues(p, ops) == p.startingEquity + b.proceeds
  {
    if ops != [] {
      var n := |ops| - 1;
      MoneyIsConserved(p, ops[..n]);
      NewIsSound(p);
      RunKeepsInv(New(p), ops[..n]);
      assert ops[..n + 1] == ops;
      RunStep(New(p), ops, n);
      if Accepted(New(p), ops, n) {
        StepConserves(Run(New(p), ops[..n]), ops[n]);
      }
    }
  }

  /** No two positions share an id, none is nameless, and there are never more than the profile allows. */
  ghost predicate Orderly(b: Book) {
    DistinctIds(b.positions) && |b.positions| <= b.profile.maxOpenPositions
  }

  ghost predicate DistinctIds(ps: seq<Holding>) {
    && (forall i, j :: 0 <= i < j < |ps| ==> ps[i].id != ps[j].id)
    && (forall p :: p in ps ==> p.id != "")
  }

  lemma SaleKeepsIds(ps: seq<Holding>, i: nat, sold: nat)
    requires i < |ps| && 0 < sold <= ps[i].tokens && DistinctIds(ps)
    ensures DistinctIds(AfterSale(ps, i, sold)) && |AfterSale(ps, i, sold)| <= |ps|
  {
    var now := AfterSale(ps, i, sold);
    forall j | 0 <= j < |now| ensures now[j].id == ps[if sold == ps[i].tokens && j >= i then j + 1 else j].id {
    }
  }

  lemma DraftStaysOrderly(b: Book, op: Op, draft: Book)
    requires Orderly(b) && Unchecked(b, op, draft) && draft.profile == b.profile
    requires op.Enter? ==> |b.positions| < b.profile.maxOpenPositions && op.settlement.id != ""
    requires op.Enter? ==> forall p :: p in b.positions ==> p.id != op.settlement.id
    ensures Orderly(draft)
  {
    if op.Exit? {
      var i :| 0 <= i < |b.positions| && SoldAt(b, i, op.sold, op.proceeds, op.gas, draft);
      SaleKeepsIds(b.positions, i, op.sold);
    }
  }

  lemma StepStaysOrderly(b: Book, op: Op)
    requires Inv(b) && Orderly(b) && Apply(b, op).Ok?
    ensures Orderly(Apply(b, op).value)
  {
    var draft := DraftOf(b, op);
    DraftKeepsSums(b, op, draft);
    if b.breached {
      BreachedWithPositions(b, op, draft);
    }
    if op.Enter? {
      IndexIsFirst(b.positions, op.settlement.id);
    }
    DraftStaysOrderly(b, op, draft);
    RefreshEstablishes(draft);
  }

  lemma {:induction false} BookStaysOrderly(p: Profile, ops: seq<Op>)
    requires p.Valid()
    ensures Orderly(Run(New(p), ops))
  {
    if ops != [] {
      var n := |ops| - 1;
      BookStaysOrderly(p, ops[..n]);
      NewIsSound(p);
      RunKeepsInv(New(p), ops[..n]);
      if Accepted(New(p), ops, n) {
        StepStaysOrderly(Run(New(p), ops[..n]), ops[n]);
      }
    }
  }

  // ---- The operations by the position they name ----------------------------------------------------

  /** The positions with another id, in order. */
  function Others(ps: seq<Holding>, id: string): seq<Holding> {
    if ps == [] then [] else (if ps[0].id == id then [] else [ps[0]]) + Others(ps[1..], id)
  }

  lemma {:induction false} OthersConcat(a: seq<Holding>, b: seq<Holding>, id: string)
    ensures Others(a + b, id) == Others(a, id) + Others(b, id)
  {
    if a == [] {
      assert a + b == b;
    } else {
      OthersConcat(a[1..], b, id);
      assert (a + b)[0] == a[0] && (a + b)[1..] == a[1..] + b;
      Regroup(if a[0].id == id then [] else [a[0]], Others(a[1..], id), Others(b, id));
    }
  }

  lemma Regroup(a: seq<Holding>, b: seq<Holding>, c: seq<Holding>)
    ensures a + (b + c) == (a + b) + c
  {
  }

  lemma OthersAround(a: seq<Holding>, p: Holding, b: seq<Holding>)
    ensures Others(a + [p] + b, p.id) == Others(a + b, p.id)
  {
    OthersConcat(a + [p], b, p.id);
    OthersConcat(a, [p], p.id);
    OthersConcat(a, b, p.id);
    assert [p][1..] == [] && Others([p], p.id) == [];
    assert Others(a, p.id) + [] == Others(a, p.id);
  }

  lemma SplitAt(ps: seq<Holding>, i: nat, q: Holding)
    requires i < |ps|
    ensures ps == ps[..i] + [ps[i]] + ps[i + 1..] && ps[i := q] == ps[..i] + [q] + ps[i + 1..]
  {
  }

  /** What is left of a position is valued at its share of the old value, rounded down, if the product fits a word. */
  predicate SharesValue(before: Holding, after: Holding) {
    match before.liquidation
    case None => after.liquidation.None?
    case Some(v) =>
      && (after.liquidation.Some? <==> v * after.tokens < WORD)
      && (after.liquidation.Some? ==>
            after.liquidation.value * before.tokens <= v * after.tokens
              < after.liquidation.value * before.tokens + before.tokens)
  }

  /** `sold` tokens left the position with this id, or the whole position and its exit gas with them. */
  ghost predicate SoldById(b: Book, id: string, sold: nat, proceeds: nat, gas: nat, now: Book) {
    && now.cash == b.cash + proceeds - gas && now.proceeds == b.proceeds + proceeds && now.gasSpent == b.gasSpent + gas
    && Others(now.positions, id) == Others(b.positions, id)
    && exists p :: p in b.positions && p.id == id && 0 < sold <= p.tokens
         && (sold == p.tokens ==>
               now.reserved + p.exitReserve == b.reserved && forall q :: q in now.positions ==> q.id != id)
         && (sold < p.tokens ==>
               && now.reserved == b.reserved && |now.positions| == |b.positions|
               && exists q :: q in now.positions && SharesValue(p, q)
                    && q == p.(tokens := p.tokens - sold, liquidation := q.liquidation))
  }

  /** Only the value of the position with this id changed. */
  ghost predicate PricedById(b: Book, id: string, liquidation: Option<nat>, now: Book) {
    && now.cash == b.cash && now.proceeds == b.proceeds && now.gasSpent == b.gasSpent && now.reserved == b.reserved
    && Others(now.positions, id) == Others(b.positions, id) && |now.positions| == |b.positions|
    && exists p :: p in b.positions && p.id == id && p.(liquidation := liquidation) in now.positions
  }

  /** A position more, at the price and with the exit gas agreed. */
  predicate EnteredAs(b: Book, a: Admission, s: Settlement, now: Book) {
    && now.cash + s.entryValue + s.entryGas == b.cash && now.proceeds == b.proceeds
    && now.gasSpent == b.gasSpent + s.entryGas && now.reserved == b.reserved + a.exitReserve
    && |now.positions| == |b.positions| + 1 && now.positions[..|b.positions|] == b.positions
    && var p := now.positions[|b.positions|];
       && p.id == s.id && p.tokens == s.tokens && p.entryValue == s.entryValue && p.entryGas == s.entryGas
       && p.exitReserve == a.exitReserve && p.liquidation == s.liquidation
  }

  /** Nothing but the gas was spent. */
  predicate FailedAt(b: Book, gas: nat, now: Book) {
    && now.cash + gas == b.cash && now.gasSpent == b.gasSpent + gas
    && now.proceeds == b.proceeds && now.reserved == b.reserved && now.positions == b.positions
  }

  lemma RefreshKeeps(b: Book)
    requires Refresh(b).Ok?
    ensures var now := Refresh(b).value;
      now == b.(peak := now.peak, drawdown := now.drawdown, breached := now.breached, risk := now.risk)
  {
  }

  lemma TrimmedSharesValue(p: Holding, sold: nat)
    requires 0 < sold < p.tokens
    ensures SharesValue(p, Trimmed(p, sold))
  {
    if p.liquidation.Some? {
      DivFloor(p.liquidation.value * (p.tokens - sold), p.tokens);
    }
  }

  lemma OneReplaced(ps: seq<Holding>, i: nat, q: Holding)
    requires i < |ps| && q.id == ps[i].id
    ensures Others(ps[i := q], q.id) == Others(ps, q.id) && |ps[i := q]| == |ps| && q in ps[i := q]
  {
    SplitAt(ps, i, q);
    OthersAround(ps[..i], ps[i], ps[i + 1..]);
    OthersAround(ps[..i], q, ps[i + 1..]);
    assert ps[i := q][i] == q;
  }

  lemma OthersHaveOtherIds(ps: seq<Holding>, i: nat, q: Holding)
    requires i < |ps| && DistinctIds(ps) && q in ps[..i] + ps[i + 1..]
    ensures q.id != ps[i].id
  {
    if q in ps[..i] {
      var j :| 0 <= j < i && ps[j] == q;
    } else {
      var j :| i < j < |ps| && ps[j] == q;
    }
  }

  lemma OthersOfRest(ps: seq<Holding>, i: nat)
    requires i < |ps|
    ensures Others(ps[..i] + ps[i + 1..], ps[i].id) == Others(ps, ps[i].id)
  {
    SplitAt(ps, i, ps[i]);
    OthersAround(ps[..i], ps[i], ps[i + 1..]);
  }

  lemma OneRemoved(ps: seq<Holding>, i: nat)
    requires i < |ps| && DistinctIds(ps)
    ensures var now := ps[..i] + ps[i + 1..];
      Others(now, ps[i].id) == Others(ps, ps[i].id) && forall q :: q in now ==> q.id != ps[i].id
  {
    OthersOfRest(ps, i);
    forall q | q in ps[..i] + ps[i + 1..] ensures q.id != ps[i].id {
      OthersHaveOtherIds(ps, i, q);
    }
  }

  lemma SaleByIndex(ps: seq<Holding>, i: nat, sold: nat)
    requires i < |ps| && 0 < sold <= ps[i].tokens && DistinctIds(ps)
    ensures var now := AfterSale(ps, i, sold);
      && Others(now, ps[i].id) == Others(ps, ps[i].id)
      && (sold == ps[i].tokens ==> forall q :: q in now ==> q.id != ps[i].id)
      && (sold < ps[i].tokens ==>
            |now| == |ps| && Trimmed(ps[i], sold) in now && SharesValue(ps[i], Trimmed(ps[i], sold)))
  {
    if sold < ps[i].tokens {
      TrimmedSharesValue(ps[i], sold);
      OneReplaced(ps, i, Trimmed(ps[i], sold));
    } else {
      OneRemoved(ps, i);
    }
  }

  lemma SoldAtIsById(b: Book, i: nat, sold: nat, proceeds: nat, gas: nat, draft: Book)
    requires i < |b.positions| && DistinctIds(b.positions) && SoldAt(b, i, sold, proceeds, gas, draft)
    ensures SoldById(b, b.positions[i].id, sold, proceeds, gas, draft)
  {
    SaleByIndex(b.positions, i, sold);
    assert b.positions[i] in b.positions;
  }

  lemma ExitDraft(b: Book, id: string, sold: nat, proceeds: nat, gas: nat) returns (i: nat, draft: Book)
    requires SettleExit(b, id, sold, proceeds, gas).Ok?
    ensures i < |b.positions| && b.positions[i].id == id && SoldAt(b, i, sold, proceeds, gas, draft)
    ensures SettleExit(b, id, sold, proceeds, gas) == Refresh(draft)
  {
    IndexIsFirst(b.positions, id);
    i := IndexOf(b.positions, id).value;
    draft := b.(cash := b.cash + proceeds - gas, proceeds := b.proceeds + proceeds, gasSpent := b.gasSpent + gas,
                reserved := if sold == b.positions[i].tokens then b.reserved - b.positions[i].exitReserve
                else b.reserved,
                positions := AfterSale(b.positions, i, sold), revision := b.revision + 1);
  }

  /** An accepted exit sells from the position it names and from no other. */
  lemma ExitSellsById(b: Book, id: string, sold: nat, proceeds: nat, gas: nat)
    requires DistinctIds(b.positions) && SettleExit(b, id, sold, proceeds, gas).Ok?
    ensures SoldById(b, id, sold, proceeds, gas, SettleExit(b, id, sold, proceeds, gas).value)
  {
    var i, draft := ExitDraft(b, id, sold, proceeds, gas);
    RefreshKeeps(draft);
    SoldAtIsById(b, i, sold, proceeds, gas, draft);
  }

  lemma MarkPricesById(b: Book, id: string, liquidation: Option<nat>)
    requires Mark(b, id, liquidation).Ok?
    ensures PricedById(b, id, liquidation, Mark(b, id, liquidation).value)
  {
    IndexIsFirst(b.positions, id);
    var i := IndexOf(b.positions, id).value;
    var p := b.positions[i];
    var q := p.(liquidation := liquidation);
    RefreshKeeps(b.(positions := b.positions[i := q], revision := b.revision + 1));
    OneReplaced(b.positions, i, q);
    assert p in b.positions;
  }

  /**
   * An admission is granted exactly while the book is active and has room, its equity is known, and the commitment is
   * within its share of that equity and, with the exit gas, covered beyond what is reserved.
   */
  lemma AdmittedExactly(b: Book, value: nat, gas: nat, reserve: nat)
    ensures AdmissionFor(b, value, gas, reserve).Ok? <==>
      && b.risk == Active && |b.positions| < b.profile.maxOpenPositions && EquityFrom(b.cash, b.positions).Known?
      && 0 < value + gas && value + gas + reserve < WORD
      && EquityFrom(b.cash, b.positions).value * b.profile.maxCommitmentBps < WORD
      && (value + gas) * 10_000 <= EquityFrom(b.cash, b.positions).value * b.profile.maxCommitmentBps
      && b.reserved + value + gas + reserve <= b.cash
    ensures AdmissionFor(b, value, gas, reserve).Ok? ==>
      AdmissionFor(b, value, gas, reserve).value == Admission(b.revision, value, gas, reserve, value + gas)
  {
    var equity := EquityFrom(b.cash, b.positions);
    if equity.Known? {
      var n, commitment := equity.value * b.profile.maxCommitmentBps, value + gas;
      if commitment * BPS <= n {
        DivAtLeast(commitment, n, BPS);
      } else {
        DivBelow(commitment, n, BPS);
      }
    }
  }

  lemma EntryIsAsSettled(b: Book, a: Admission, s: Settlement)
    requires SettleEntry(b, a, s).Ok?
    ensures EnteredAs(b, a, s, SettleEntry(b, a, s).value)
  {
    RefreshKeeps(AfterEntry(b, a, s));
  }

  lemma FailureCostsItsGas(b: Book, a: Admission, gas: nat)
    requires FailEntry(b, a, gas).Ok?
    ensures FailedAt(b, gas, FailEntry(b, a, gas).value)
  {
    RefreshKeeps(b.(cash := b.cash - gas, gasSpent := b.gasSpent + gas, revision := b.revision + 1));
  }

  // ---- Admissions --------------------------------------------------------------------------------

  predicate Uses(op: Op, a: Admission) {
    (op.Enter? || op.FailEnter?) && op.admission == a
  }

  lemma PrefixRuns(p: Profile, ops: seq<Op>, i: nat, j: nat)
    requires p.Valid() && i <= j <= |ops|
    ensures var b, c := Run(New(p), ops[..i]), Run(New(p), ops[..j]);
      Inv(b) && Inv(c) && b.revision <= c.revision && (b.revision == c.revision ==> b == c)
  {
    NewIsSound(p);
    RunKeepsInv(New(p), ops[..i]);
    RunConcat(New(p), ops[..i], ops[i..j]);
    assert ops[..i] + ops[i..j] == ops[..j];
    RunKeepsInv(Run(New(p), ops[..i]), ops[i..j]);
  }

  /** An admission that was used once is refused ever after. */
  lemma AdmissionIsUsedOnce(p: Profile, ops: seq<Op>, i: nat, j: nat, a: Admission)
    requires p.Valid() && i < j < |ops| && Uses(ops[i], a) && Uses(ops[j], a) && Accepted(New(p), ops, i)
    ensures Apply(Run(New(p), ops[..j]), ops[j]) == Err(StaleAdmission)
  {
    PrefixRuns(p, ops, i + 1, j);
    PrefixRuns(p, ops, i, i + 1);
    RunStep(New(p), ops, i);
    StepKeepsInv(Run(New(p), ops[..i]), ops[i]);
  }

  /** An admission is only ever used in the very book it was checked in. */
  lemma AdmissionBelongsToItsBook(p: Profile, ops: seq<Op>, i: nat, j: nat, a: Admission, value: nat, gas: nat,
                                  reserve: nat)
    requires p.Valid() && i <= j < |ops|
    requires AdmissionFor(Run(New(p), ops[..i]), value, gas, reserve) == Ok(a)
    requires Uses(ops[j], a) && Accepted(New(p), ops, j)
    ensures Run(New(p), ops[..j]) == Run(New(p), ops[..i])
  {
    PrefixRuns(p, ops, i, j);
  }

  /** A checked admission never runs out of cash, whichever settlement within it is presented and whenever. */
  lemma AdmissionIsFunded(p: Profile, ops: seq<Op>, i: nat, j: nat, a: Admission, value: nat, gas: nat, reserve: nat,
                          s: Settlement)
    requires p.Valid() && i <= j <= |ops|
    requires AdmissionFor(Run(New(p), ops[..i]), value, gas, reserve) == Ok(a)
    ensures !SettlesShort(Run(New(p), ops[..j]), a, s)
  {
    PrefixRuns(p, ops, i, j);
  }

  predicate SettlesShort(b: Book, a: Admission, s: Settlement) {
    SettleEntry(b, a, s).Err? && SettleEntry(b, a, s).error.InsufficientCash?
  }

  lemma {:induction false} OnePositionMore(cash: nat, cost: nat, ps: seq<Holding>, p: Holding)
    requires cost <= cash && EquityFrom(cash, ps).Known? && EquityFrom(cash - cost, ps + [p]).Known?
    ensures p.liquidation.Some?
    ensures EquityFrom(cash - cost, ps + [p]).value == EquityFrom(cash, ps).value - cost + p.liquidation.value
    decreases |ps|
  {
    if ps == [] {
      assert (ps + [p])[1..] == [];
    } else {
      assert (ps + [p])[1..] == ps[1..] + [p];
      OnePositionMore(cash + ps[0].liquidation.value, cost, ps[1..], p);
    }
  }

  /**
   * An entry within its admission costs at most the commitment share of the equity, however badly the new position is
   * valued, and leaves enough cash for every exit it has set gas aside for.
   */
  lemma EntryRisksTheCommitmentOnly(b: Book, a: Admission, s: Settlement, value: nat, gas: nat, reserve: nat)
    requires Inv(b) && AdmissionFor(b, value, gas, reserve) == Ok(a) && SettleEntry(b, a, s).Ok?
    ensures var now := SettleEntry(b, a, s).value;
      && now.cash >= now.reserved
      && EquityFrom(b.cash, b.positions).Known?
      && (EquityFrom(now.cash, now.positions).Known? ==>
            (EquityFrom(b.cash, b.positions).value - EquityFrom(now.cash, now.positions).value) * BPS
              <= EquityFrom(b.cash, b.positions).value * b.profile.maxCommitmentBps)
  {
    var op := Enter(a, s);
    var draft := DraftOf(b, op);
    DraftKeepsSums(b, op, draft);
    RefreshEstablishes(draft);
    var cost := s.entryValue + s.entryGas;
    var equity := EquityFrom(b.cash, b.positions).value;
    DivFloor(equity * b.profile.maxCommitmentBps, BPS);
    MulMono(a.commitment, Quotient(equity * b.profile.maxCommitmentBps, BPS), BPS);
    if EquityFrom(draft.cash, draft.positions).Known? {
      OnePositionMore(b.cash, cost, b.positions, draft.positions[|b.positions|]);
      MulMono(equity - EquityFrom(draft.cash, draft.positions).value, a.commitment, BPS);
    }
  }

  // ---- Room --------------------------------------------------------------------------------------

  function ValueOf(p: Holding): nat {
    if p.liquidation.Some? then p.liquidation.value else 0
  }

  function Worth(ps: seq<Holding>): nat {
    if ps == [] then 0 else ValueOf(ps[0]) + Worth(ps[1..])
  }

  function AmountsOf(op: Op): nat {
    match op
    case Enter(a, s) =>
      s.entryValue + s.entryGas + a.exitReserve + (if s.liquidation.Some? then s.liquidation.value else 0)
    case FailEnter(_, gas) => gas
    case Price(_, v) => if v.Some? then v.value else 0
    case Exit(_, _, proceeds, gas) => proceeds + gas
  }

  /** Everything the book holds, and everything the operation brings, stays below a ten-thousandth of a word. */
  predicate Roomy(b: Book, op: Op) {
    (b.cash + Worth(b.positions) + b.peak + b.reserved + b.gasSpent + b.proceeds + AmountsOf(op)) * BPS < WORD
  }

  lemma {:induction false} EquityFits(cash: nat, ps: seq<Holding>)
    requires cash + Worth(ps) < WORD
    ensures !EquityFrom(cash, ps).TooBig?
    ensures EquityFrom(cash, ps).Known? ==> EquityFrom(cash, ps).value == cash + Worth(ps)
    decreases |ps|
  {
    if ps != [] && ps[0].liquidation.Some? {
      EquityFits(cash + ps[0].liquidation.value, ps[1..]);
    }
  }

  lemma {:induction false} WorthConcat(a: seq<Holding>, b: seq<Holding>)
    ensures Worth(a + b) == Worth(a) + Worth(b)
  {
    if a == [] {
      assert a + b == b;
    } else {
      WorthConcat(a[1..], b);
      assert (a + b)[1..] == a[1..] + b;
    }
  }

  lemma WorthSplit(ps: seq<Holding>, i: nat, mid: seq<Holding>)
    requires i < |ps|
    ensures Worth(ps[..i] + mid + ps[i + 1..]) + ValueOf(ps[i]) == Worth(ps) + Worth(mid)
  {
    WorthConcat(ps[..i], mid);
    WorthConcat(ps[..i] + mid, ps[i + 1..]);
    WorthConcat(ps[..i], [ps[i]]);
    WorthConcat(ps[..i] + [ps[i]], ps[i + 1..]);
    assert ps == ps[..i] + [ps[i]] + ps[i + 1..];
  }

  lemma WorthReplace(ps: seq<Holding>, i: nat, q: Holding)
    requires i < |ps|
    ensures Worth(ps[i := q]) + ValueOf(ps[i]) == Worth(ps) + ValueOf(q)
  {
    WorthSplit(ps, i, [q]);
    assert ps[i := q] == ps[..i] + [q] + ps[i + 1..];
  }

  lemma RescaledIsLess(liquidation: Option<nat>, left: nat, held: nat)
    requires 0 < held && left <= held
    ensures Rescaled(liquidation, left, held).Some? ==>
      liquidation.Some? && Rescaled(liquidation, left, held).value <= liquidation.value
  {
    if liquidation.Some? {
      ShareIsLess(liquidation.value, left, held);
    }
  }

  lemma ShareIsLess(v: nat, left: nat, held: nat)
    requires 0 < held && left <= held
    ensures Quotient(v * left, held) <= v
  {
    MulMono(left, held, v);
    MulComm(v, left);
    MulComm(v, held);
    MulStrict(v, v + 1, held);
    DivBelow(v + 1, v * left, held);
  }

  /** What is left of a priced position is valued pro rata, rounded down. */
  lemma RemainderIsProRata(p: Holding, sold: nat)
    requires 0 < sold < p.tokens && Trimmed(p, sold).liquidation.Some?
    ensures p.liquidation.Some?
    ensures var v, left := Trimmed(p, sold).liquidation.value, p.tokens - sold;
      v * p.tokens <= p.liquidation.value * left < v * p.tokens + p.tokens
  {
    DivFloor(p.liquidation.value * (p.tokens - sold), p.tokens);
  }

  lemma TrimmedIsWorthLess(p: Holding, sold: nat)
    requires 0 < sold < p.tokens
    ensures ValueOf(Trimmed(p, sold)) <= ValueOf(p)
  {
    RescaledIsLess(p.liquidation, p.tokens - sold, p.tokens);
  }

  lemma ReplaceWorth(ps: seq<Holding>, i: nat, q: Holding)
    requires i < |ps| && ValueOf(q) <= ValueOf(ps[i])
    ensures Worth(ps[i := q]) <= Worth(ps)
  {
    WorthReplace(ps, i, q);
  }

  lemma SaleWorth(ps: seq<Holding>, i: nat, sold: nat)
    requires i < |ps| && 0 < sold <= ps[i].tokens
    ensures Worth(AfterSale(ps, i, sold)) <= Worth(ps)
  {
    if sold == ps[i].tokens {
      WorthSplit(ps, i, []);
      assert ps[..i] + [] + ps[i + 1..] == ps[..i] + ps[i + 1..];
    } else {
      TrimmedIsWorthLess(ps[i], sold);
      ReplaceWorth(ps, i, Trimmed(ps[i], sold));
    }
  }

  lemma {:induction false} ReserveIsCounted(ps: seq<Holding>, i: nat)
    requires i < |ps|
    ensures ps[i].exitReserve <= SumsOf(ps).reserves
  {
    if i > 0 {
      ReserveIsCounted(ps[1..], i - 1);
    }
  }

  lemma RefreshFits(b: Book)
    requires (b.cash + Worth(b.positions) + b.peak) * BPS < WORD
    ensures Refresh(b).Ok?
  {
    EquityFits(b.cash, b.positions);
    var equity := EquityFrom(b.cash, b.positions);
    if equity.Known? {
      var peak := Max(b.peak, equity.value);
      MulMono(peak - equity.value, peak, BPS);
    }
  }

  lemma RoomForEntry(b: Book, a: Admission, s: Settlement)
    requires Roomy(b, Enter(a, s))
    ensures SettleEntry(b, a, s) != Err(Overflow)
  {
    if s.entryValue + s.entryGas <= b.cash {
      var draft := AfterEntry(b, a, s);
      var p := draft.positions[|b.positions|];
      WorthConcat(b.positions, [p]);
      assert Worth([p]) == ValueOf(p) + Worth([]);
      RefreshFits(draft);
    }
  }

  lemma RoomForFailure(b: Book, a: Admission, gas: nat)
    requires Roomy(b, FailEnter(a, gas))
    ensures FailEntry(b, a, gas) != Err(Overflow)
  {
    if gas <= b.cash {
      RefreshFits(b.(cash := b.cash - gas, gasSpent := b.gasSpent + gas, revision := b.revision + 1));
    }
  }

  lemma RoomForPrice(b: Book, id: string, v: Option<nat>)
    requires Roomy(b, Price(id, v))
    ensures Mark(b, id, v) != Err(Overflow)
  {
    IndexIsFirst(b.positions, id);
    if IndexOf(b.positions, id).Some? {
      var i := IndexOf(b.positions, id).value;
      var q := b.positions[i].(liquidation := v);
      WorthReplace(b.positions, i, q);
      RefreshFits(b.(positions := b.positions[i := q], revision := b.revision + 1));
    }
  }

  lemma RoomForExit(b: Book, id: string, sold: nat, proceeds: nat, gas: nat)
    requires Inv(b) && Roomy(b, Exit(id, sold, proceeds, gas))
    ensures SettleExit(b, id, sold, proceeds, gas) != Err(Overflow)
  {
    IndexIsFirst(b.positions, id);
    var index := IndexOf(b.positions, id);
    if index.Some? && 0 < sold <= b.positions[index.value].tokens && gas <= b.cash + proceeds {
      ReserveIsCounted(b.positions, index.value);
      SaleWorth(b.positions, index.value, sold);
      var reserve := b.positions[index.value].exitReserve;
      RefreshFits(b.(cash := b.cash + proceeds - gas, proceeds := b.proceeds + proceeds, gasSpent := b.gasSpent + gas,
                     reserved := if sold == b.positions[index.value].tokens then b.reserved - reserve else b.reserved,
                     positions := AfterSale(b.positions, index.value, sold), revision := b.revision + 1));
    }
  }

  /** With room to spare nothing overflows, so an operation is only ever refused for what it asks. */
  lemma RoomMeansNoOverflow(b: Book, op: Op)
    requires Inv(b) && Roomy(b, op)
    ensures Apply(b, op) != Err(Overflow)
  {
    match op
    case Enter(a, s) => RoomForEntry(b, a, s);
    case FailEnter(a, gas) => RoomForFailure(b, a, gas);
    case Price(id, v) => RoomForPrice(b, id, v);
    case Exit(id, sold, proceeds, gas) => RoomForExit(b, id, sold, proceeds, gas);
  }

  /** What an operation asks for that the book can give. */
  predicate Grantable(b: Book, op: Op) {
    match op
    case Enter(a, s) =>
      && a.revision == b.revision && b.risk == Active && |b.positions| < b.profile.maxOpenPositions
      && s.id != "" && (forall p :: p in b.positions ==> p.id != s.id) && s.tokens > 0
      && s.entryValue <= a.entryValue && s.entryGas <= a.gasLimit && s.entryValue + s.entryGas <= a.commitment
      && s.entryValue + s.entryGas <= b.cash
    case FailEnter(a, gas) =>
      && a.revision == b.revision && b.risk == Active && |b.positions| < b.profile.maxOpenPositions
      && gas <= a.gasLimit && gas <= a.commitment && gas <= b.cash
    case Price(id, _) => exists p :: p in b.positions && p.id == id
    case Exit(id, sold, proceeds, gas) =>
      gas <= b.cash + proceeds && exists p :: p in b.positions && p.id == id && 0 < sold <= p.tokens
  }

  lemma IdIsListed(ps: seq<Holding>, id: string)
    requires DistinctIds(ps)
    ensures IndexOf(ps, id).Some? <==> exists p :: p in ps && p.id == id
    ensures IndexOf(ps, id).Some? ==>
      IndexOf(ps, id).value < |ps| && forall p :: p in ps && p.id == id ==> p == ps[IndexOf(ps, id).value]
  {
    IndexIsFirst(ps, id);
  }

  /** With room to spare an operation is accepted exactly when it asks for what the book can give. */
  lemma AcceptedExactly(b: Book, op: Op)
    requires Inv(b) && DistinctIds(b.positions) && Roomy(b, op)
    ensures Apply(b, op).Ok? <==> Grantable(b, op)
  {
    RoomMeansNoOverflow(b, op);
    match op
    case Enter(_, s) => IdIsListed(b.positions, s.id);
    case Price(id, _) => IdIsListed(b.positions, id);
    case Exit(id, _, _, _) => IdIsListed(b.positions, id);
    case _ =>
  }
}
