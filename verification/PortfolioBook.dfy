/** The portfolio object: fields changed in place, each method held to the operation it performs on the book's value. */
module PortfolioBook {
  import opened Common
  import opened Arith
  import P = Portfolio

  /** How a method may end: in the specified book, or refused, and then unchanged unless the numbers ran out of room. */
  ghost predicate Ends(before: P.Book, spec: P.Result<P.Book>, error: Option<P.Error>, now: P.Book) {
    match spec
    case Ok(b) => error.None? && now == b
    case Err(e) => error == Some(e) && (e != P.Overflow ==> now == before)
  }

  lemma EndsSoundly(before: P.Book, op: P.Op, error: Option<P.Error>, now: P.Book)
    requires P.Inv(before) && Ends(before, P.Apply(before, op), error, now)
    ensures error != Some(P.Overflow) ==> P.Inv(now)
  {
    if P.Apply(before, op).Ok? {
      P.StepKeepsInv(before, op);
    }
  }

  lemma ExitEndsById(before: P.Book, id: string, sold: nat, proceeds: nat, gas: nat, error: Option<P.Error>,
                     now: P.Book)
    requires P.Inv(before) && Ends(before, P.SettleExit(before, id, sold, proceeds, gas), error, now)
    ensures error != Some(P.Overflow) ==> P.Inv(now)
    ensures error.None? && P.DistinctIds(before.positions) ==> P.SoldById(before, id, sold, proceeds, gas, now)
  {
    EndsSoundly(before, P.Exit(id, sold, proceeds, gas), error, now);
    if error.None? && P.DistinctIds(before.positions) {
      P.ExitSellsById(before, id, sold, proceeds, gas);
    }
  }

  class ResearchPortfolio {
    const profile: P.Profile
    var cash: nat
    var peak: nat
    var drawdown: Option<nat>
    var reserved: nat
    var gasSpent: nat
    var proceeds: nat
    var positions: seq<P.Holding>
    var risk: P.Risk
    var breached: bool
    var revision: nat

    function State(): P.Book
      reads this
    {
      P.Book(profile, cash, peak, drawdown, reserved, gasSpent, proceeds, positions, risk, breached, revision)
    }

    ghost predicate Valid()
      reads this
    {
      P.Inv(State())
    }

    constructor (profile: P.Profile)
      requires profile.Valid()
      ensures Valid() && State() == P.New(profile)
      ensures cash == peak == profile.startingEquity && drawdown == Some(0) && positions == []
      ensures reserved == gasSpent == proceeds == revision == 0 && risk.Active? && !breached
    {
      this.profile := profile;
      cash, peak, drawdown := profile.startingEquity, profile.startingEquity, Some(0);
      reserved, gasSpent, proceeds, positions := 0, 0, 0, [];
      risk, breached, revision := P.Active, false, 0;
      new;
      P.NewIsSound(profile);
    }

    method KnownEquity() returns (equity: P.Equity)
      ensures equity == P.EquityFrom(cash, positions)
    {
      var total: nat, i: nat := cash, 0;
      assert positions[0..] == positions;
      while i < |positions|
        invariant 0 <= i <= |positions| && P.EquityFrom(cash, positions) == P.EquityFrom(total, positions[i..])
      {
        assert positions[i..][1..] == positions[i + 1..];
        if positions[i].liquidation.None? {
          return P.Unknown;
        }
        if total + positions[i].liquidation.value >= WORD {
          return P.TooBig;
        }
        total := total + positions[i].liquidation.value;
        i := i + 1;
      }
      return P.Known(total);
    }

    method RefreshRisk() returns (error: Option<P.Error>)
      modifies this
      ensures match P.Refresh(old(State()))
        case Ok(b) => error.None? && State() == b
        case Err(e) => error == Some(e) && e == P.Overflow
    {
      var equity := KnownEquity();
      if equity.TooBig? {
        return Some(P.Overflow);
      }
      if equity.Unknown? {
        if !breached {
          risk := P.ValuationUnknown;
          drawdown := None;
        }
        return None;
      }
      peak := Max(peak, equity.value);
      var d := P.DrawdownBps(peak, equity.value);
      if d.None? {
        return Some(P.Overflow);
      }
      drawdown := d;
      if !breached && d.value >= profile.maxDrawdownBps {
        breached := true;
      }
      risk := if breached then (if positions == [] then P.Halted else P.Liquidating) else P.Active;
      return None;
    }

    method Locate(id: string) returns (index: Option<nat>)
      ensures index == P.IndexOf(positions, id)
      ensures index.Some? ==> index.value < |positions|
    {
      P.IndexIsFirst(positions, id);
      var i := 0;
      while i < |positions|
        invariant 0 <= i <= |positions| && forall j :: 0 <= j < i ==> positions[j].id != id
      {
        if positions[i].id == id {
          return Some(i);
        }
        i := i + 1;
      }
      return None;
    }

    /** Checks an entry against the book as it stands, changing nothing. */
    method Admission(entryValue: nat, gasLimit: nat, exitReserve: nat) returns (result: P.Result<P.Admission>)
      ensures result == P.AdmissionFor(State(), entryValue, gasLimit, exitReserve)
      ensures result.Ok? ==>
        && risk.Active? && |positions| < profile.maxOpenPositions
        && result.value.revision == revision && result.value.commitment == entryValue + gasLimit > 0
        && reserved + result.value.commitment + exitReserve <= cash
    {
      if !risk.Active? {
        return P.Err(P.AdmissionsHalted(risk));
      }
      if |positions| >= profile.maxOpenPositions {
        return P.Err(P.OpenPositionLimit);
      }
      var equity := KnownEquity();
      if equity.TooBig? {
        return P.Err(P.Overflow);
      }
      if equity.Unknown? {
        return P.Err(P.EquityUnknown);
      }
      var commitment := entryValue + gasLimit;
      if commitment >= WORD {
        return P.Err(P.Overflow);
      }
      if commitment == 0 {
        return P.Err(P.ZeroCommitment);
      }
      if equity.value * profile.maxCommitmentBps >= WORD {
        return P.Err(P.Overflow);
      }
      var ceiling := Quotient(equity.value * profile.maxCommitmentBps, BPS);
      if commitment > ceiling {
        return P.Err(P.CommitmentLimit(commitment, ceiling));
      }
      var required := commitment + exitReserve;
      if required >= WORD || reserved > cash {
        return P.Err(P.Overflow);
      }
      if required > cash - reserved {
        return P.Err(P.InsufficientCash(required, cash - reserved));
      }
      return P.Ok(P.Admission(revision, entryValue, gasLimit, exitReserve, commitment));
    }

    method SettleEntry(a: P.Admission, s: P.Settlement) returns (error: Option<P.Error>)
      requires Valid()
      modifies this
      ensures Ends(old(State()), P.SettleEntry(old(State()), a, s), error, State())
      ensures error.None? ==> P.EnteredAs(old(State()), a, s, State())
      ensures error != Some(P.Overflow) ==> Valid()
    {
      ghost var before := State();
      var stale := P.AdmissionError(State(), a);
      if stale.Some? {
        return stale;
      }
      var twin := Locate(s.id);
      if s.id == "" || twin.Some? {
        return Some(P.DuplicatePosition);
      }
      if s.tokens == 0 {
        return Some(P.ZeroInventory);
      }
      var cost := s.entryValue + s.entryGas;
      if cost >= WORD {
        return Some(P.Overflow);
      }
      if s.entryValue > a.entryValue || s.entryGas > a.gasLimit || cost > a.commitment {
        return Some(P.AdmissionExceeded);
      }
      if cost > cash {
        return Some(P.InsufficientCash(cost, cash));
      }
      error := BookEntry(a, s);
      if error.None? {
        error := RefreshRisk();
      }
      EndsSoundly(before, P.Enter(a, s), error, State());
      if error.None? {
        P.EntryIsAsSettled(before, a, s);
      }
    }

    /** The fields an accepted entry changes, in the order they are changed. */
    method BookEntry(a: P.Admission, s: P.Settlement) returns (error: Option<P.Error>)
      requires s.entryValue + s.entryGas <= cash
      modifies this
      ensures error.None? <==> old(reserved) + a.exitReserve < WORD && old(gasSpent) + s.entryGas < WORD
      ensures error.Some? ==> error.value == P.Overflow
      ensures error.None? ==> State() == P.AfterEntry(old(State()), a, s)
    {
      cash := cash - (s.entryValue + s.entryGas);
      if reserved + a.exitReserve >= WORD {
        return Some(P.Overflow);
      }
      reserved := reserved + a.exitReserve;
      if gasSpent + s.entryGas >= WORD {
        return Some(P.Overflow);
      }
      gasSpent := gasSpent + s.entryGas;
      positions := positions + [P.Holding(s.id, s.tokens, s.entryValue, s.entryGas, a.exitReserve, s.liquidation)];
      revision := revision + 1;
      return None;
    }

    method FailEntry(a: P.Admission, gas: nat) returns (error: Option<P.Error>)
      requires Valid()
      modifies this
      ensures Ends(old(State()), P.FailEntry(old(State()), a, gas), error, State())
      ensures error.None? ==> P.FailedAt(old(State()), gas, State())
      ensures error != Some(P.Overflow) ==> Valid()
    {
      ghost var before := State();
      var stale := P.AdmissionError(State(), a);
      if stale.Some? {
        return stale;
      }
      if gas > a.gasLimit || gas > a.commitment {
        return Some(P.AdmissionExceeded);
      }
      if gas > cash {
        return Some(P.InsufficientCash(gas, cash));
      }
      cash := cash - gas;
      if gasSpent + gas >= WORD {
        return Some(P.Overflow);
      }
      gasSpent := gasSpent + gas;
      revision := revision + 1;
      error := RefreshRisk();
      EndsSoundly(before, P.FailEnter(a, gas), error, State());
      if error.None? {
        P.FailureCostsItsGas(before, a, gas);
      }
    }

    method Mark(id: string, liquidation: Option<nat>) returns (error: Option<P.Error>)
      requires Valid()
      modifies this
      ensures Ends(old(State()), P.Mark(old(State()), id, liquidation), error, State())
      ensures error.None? ==> P.PricedById(old(State()), id, liquidation, State())
      ensures error != Some(P.Overflow) ==> Valid()
    {
      ghost var before := State();
      var index := Locate(id);
      if index.None? {
        return Some(P.PositionNotFound);
      }
      positions := positions[index.value := positions[index.value].(liquidation := liquidation)];
      revision := revision + 1;
      error := RefreshRisk();
      EndsSoundly(before, P.Price(id, liquidation), error, State());
      if error.None? {
        P.MarkPricesById(before, id, liquidation);
      }
    }

    method SettleExit(id: string, sold: nat, received: nat, gas: nat) returns (error: Option<P.Error>)
      requires Valid()
      modifies this
      ensures Ends(old(State()), P.SettleExit(old(State()), id, sold, received, gas), error, State())
      ensures error.None? && P.DistinctIds(old(positions)) ==>
        P.SoldById(old(State()), id, sold, received, gas, State())
      ensures error != Some(P.Overflow) ==> Valid()
    {
      ghost var before := State();
      var index := Locate(id);
      if index.None? {
        return Some(P.PositionNotFound);
      }
      var i := index.value;
      var held := positions[i].tokens;
      if sold == 0 || sold > held {
        return Some(P.InvalidExitQuantity);
      }
      var left := held - sold;
      if cash + received >= WORD {
        return Some(P.Overflow);
      }
      if gas > cash + received {
        return Some(P.InsufficientCash(gas, cash + received));
      }
      error := BookExit(i, left, received, gas);
      if error.None? {
        error := RefreshRisk();
      }
      ExitEndsById(before, id, sold, received, gas, error, State());
    }

    /** The fields an accepted exit changes, in the order they are changed. */
    method BookExit(i: nat, left: nat, received: nat, gas: nat) returns (error: Option<P.Error>)
      requires i < |positions| && left < positions[i].tokens && gas <= cash + received
      modifies this
      ensures error.None? <==>
        && old(proceeds) + received < WORD && old(gasSpent) + gas < WORD
        && (left == 0 ==> old(positions)[i].exitReserve <= old(reserved))
      ensures error.Some? ==> error.value == P.Overflow
      ensures error.None? ==> P.SoldAt(old(State()), i, old(positions)[i].tokens - left, received, gas, State())
    {
      cash := cash + received - gas;
      if proceeds + received >= WORD {
        return Some(P.Overflow);
      }
      proceeds := proceeds + received;
      if gasSpent + gas >= WORD {
        return Some(P.Overflow);
      }
      gasSpent := gasSpent + gas;
      var released := TakeOut(i, left);
      if !released {
        return Some(P.Overflow);
      }
      revision := revision + 1;
      return None;
    }

    /** Leaves `left` tokens of the position, or removes it and releases its exit gas. */
    method TakeOut(i: nat, left: nat) returns (released: bool)
      requires i < |positions| && left < positions[i].tokens
      modifies this`positions, this`reserved
      ensures released <==> (left == 0 ==> old(positions)[i].exitReserve <= old(reserved))
      ensures released ==> positions == P.AfterSale(old(positions), i, old(positions)[i].tokens - left)
      ensures released ==>
        reserved == (if left == 0 then old(reserved) - old(positions)[i].exitReserve else old(reserved))
    {
      var p := positions[i];
      if left == 0 {
        if p.exitReserve > reserved {
          return false;
        }
        reserved := reserved - p.exitReserve;
        positions := positions[..i] + positions[i + 1..];
      } else {
        positions := positions[i := p.(tokens := left, liquidation := P.Rescaled(p.liquidation, left, p.tokens))];
        assert p.tokens - (p.tokens - left) == left;
      }
      return true;
    }
  }
}
