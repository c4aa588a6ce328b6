/** Positions, their exits and gas charges, and the store that keeps them (crates/bodkin/src/trade/positions.rs). */
module Positions {
  import opened Common
  import opened Arith

  /** `{now}-{index}`: the moment an operation began and how many operations came before it. */
  datatype OpId = OpId(at: nat, index: nat)

  /** `{token}-{opened_at}`. */
  datatype PosId = PosId(token: Address, openedAt: nat)

  datatype Exit = Exit(at: nat, tokens: nat, ethOut: nat, gasWei: nat, reason: string, tx: Option<Hash>)

  datatype Position = Position(
    id: PosId,
    entryTx: Option<Hash>,
    entryEth: nat,
    entryGasWei: nat,
    basisEth: nat,
    basisGasWei: nat,
    overheadGasWei: nat,
    overheadOperations: seq<OpId>,
    tokens: nat,
    peakEth: nat,
    lastEth: nat,
    closed: bool,
    exits: seq<Exit>)

  /** What one sale did, as reported by `apply_exit`. */
  datatype AppliedExit = AppliedExit(
    tokensSold: nat,
    basisSold: nat,
    entryGasSold: nat,
    exitGas: nat,
    remaining: nat,
    closed: bool,
    realized: int,
    netRealized: int)

  function Opened(id: PosId, entryTx: Option<Hash>, eth: nat, gas: nat, tokens: nat): Position {
    Position(id, entryTx, eth, gas, eth, gas, 0, [], tokens, eth, eth, false, [])
  }

  function ScaleHeld(value: nat, part: nat, held: nat): nat
    requires held > 0
  {
    value * part / held
  }

  lemma ScaleIsPart(value: nat, part: nat, held: nat)
    requires held > 0 && part <= held
    ensures ScaleHeld(value, part, held) <= value
    ensures part == held ==> ScaleHeld(value, part, held) == value
  {
    DivFloor(value * part, held);
    MulMono(part, held, value);
    MulComm(value, part);
    MulComm(value, held);
    DivMono(value * part, value * held, held);
    DivAtLeast(value, value * held, held);
    DivBelow(value + 1, value * held, held);
  }

  /** The share of a cost that a sale of `sold` out of `held` releases; the last sale releases all of it. */
  function Released(cost: nat, sold: nat, held: nat): (r: nat)
    requires 0 < held && sold <= held
    ensures r <= cost
  {
    ScaleIsPart(cost, sold, held);
    if sold >= held then cost else ScaleHeld(cost, sold, held)
  }

  predicate Sells(p: Position, tokensSold: nat) {
    p.tokens > 0 && tokensSold > 0
  }

  function ExitReport(p: Position, tokensSold: nat, ethOut: nat, exitGas: nat): AppliedExit {
    if !Sells(p, tokensSold) then AppliedExit(0, 0, 0, exitGas, p.tokens, p.closed, 0, 0 - exitGas)
    else
      var sold := Min(tokensSold, p.tokens);
      var basis, gas := Released(p.basisEth, sold, p.tokens), Released(p.basisGasWei, sold, p.tokens);
      AppliedExit(sold, basis, gas, exitGas, p.tokens - sold, p.tokens == sold, ethOut - basis,
                  ethOut - (basis + gas + exitGas))
  }

  function AfterExit(p: Position, tokensSold: nat, ethOut: nat, exitGas: nat, reason: string, tx: Option<Hash>,
                     at: nat)
    : Position
  {
    if !Sells(p, tokensSold) then p
    else
      var sold := Min(tokensSold, p.tokens);
      var left := p.tokens - sold;
      p.(peakEth := ScaleHeld(p.peakEth, left, p.tokens),
         lastEth := ScaleHeld(p.lastEth, left, p.tokens),
         tokens := left,
         basisEth := p.basisEth - Released(p.basisEth, sold, p.tokens),
         basisGasWei := p.basisGasWei - Released(p.basisGasWei, sold, p.tokens),
         closed := p.closed || left == 0,
         exits := p.exits + [Exit(at, sold, ethOut, exitGas, reason, tx)])
  }

  function AfterOverhead(p: Position, op: OpId, gasWei: nat): Position {
    if op in p.overheadOperations then p
    else p.(overheadOperations := p.overheadOperations + [op], overheadGasWei := p.overheadGasWei + gasWei)
  }

  /** ETH taken out and gas paid by the recorded exits. */
  datatype ExitTotals = ExitTotals(eth: nat, gas: nat)

  function SumExits(exits: seq<Exit>): ExitTotals {
    if exits == [] then ExitTotals(0, 0) else
      var t, e := SumExits(exits[..|exits| - 1]), exits[|exits| - 1];
      ExitTotals(t.eth + e.ethOut, t.gas + e.gasWei)
  }

  function ExitGas(p: Position): nat {
    p.overheadGasWei + SumExits(p.exits).gas
  }

  /** `out - released basis`, once every exit so far is counted. */
  function RealizedPnl(p: Position): int {
    var remaining := if p.closed then 0 else p.basisEth;
    SumExits(p.exits).eth - (p.entryEth - remaining)
  }

  function NetRealizedPnl(p: Position): int {
    var remainingGas := if p.closed then 0 else p.basisGasWei;
    RealizedPnl(p) - (p.entryGasWei - remainingGas + ExitGas(p))
  }

  // ---- The life of one position ----------------------------------------------------------------

  datatype Event =
    | Sale(tokensSold: nat, ethOut: nat, exitGas: nat, reason: string, tx: Option<Hash>, at: nat)
    | FailedExit(op: OpId, gasWei: nat)

  function After(p: Position, e: Event): Position {
    match e
    case Sale(t, o, g, r, x, at) => AfterExit(p, t, o, g, r, x, at)
    case FailedExit(op, g) => AfterOverhead(p, op, g)
  }

  function AfterAll(p: Position, es: seq<Event>): Position {
    if es == [] then p else After(AfterAll(p, es[..|es| - 1]), es[|es| - 1])
  }

  /** The reports of the sales that changed the position, in order. */
  function Reports(p: Position, es: seq<Event>): seq<AppliedExit> {
    if es == [] then [] else
      var before, e := AfterAll(p, es[..|es| - 1]), es[|es| - 1];
      Reports(p, es[..|es| - 1])
      + (if e.Sale? && Sells(before, e.tokensSold) then [ExitReport(before, e.tokensSold, e.ethOut, e.exitGas)] else [])
  }

  datatype Totals = Totals(sold: nat, basis: nat, gas: nat, net: int)

  function SumReports(rs: seq<AppliedExit>): Totals {
    if rs == [] then Totals(0, 0, 0, 0) else
      var t, r := SumReports(rs[..|rs| - 1]), rs[|rs| - 1];
      Totals(t.sold + r.tokensSold, t.basis + r.basisSold, t.gas + r.entryGasSold, t.net + r.netRealized)
  }

  /** The gas of each distinct failed operation, the first charge counting. */
  function Overhead(es: seq<Event>): nat {
    if es == [] then 0 else
      var front, e := es[..|es| - 1], es[|es| - 1];
      Overhead(front) + (if e.FailedExit? && !Charged(front, e.op) then e.gasWei else 0)
  }

  predicate Charged(es: seq<Event>, op: OpId) {
    exists i :: 0 <= i < |es| && es[i].FailedExit? && es[i].op == op
  }

  /** Tokens, basis and entry gas are either still held or accounted for by a report. */
  ghost predicate Conserved(born: Position, p: Position, rs: seq<AppliedExit>) {
    && p.tokens + SumReports(rs).sold == born.tokens
    && p.basisEth + SumReports(rs).basis == born.entryEth
    && p.basisGasWei + SumReports(rs).gas == born.entryGasWei
    && |p.exits| == |rs|
    && p.entryEth == born.entryEth && p.entryGasWei == born.entryGasWei
    && (p.closed <==> p.tokens == 0 < born.tokens)
    && (p.closed ==> p.basisEth == 0 && p.basisGasWei == 0)
    && NetRealizedPnl(p) == SumReports(rs).net - p.overheadGasWei
  }

  /** The overhead is the gas of the distinct failed operations, each listed once. */
  ghost predicate OverheadCounted(born: Position, es: seq<Event>) {
    var p := AfterAll(born, es);
    && p.overheadGasWei == Overhead(es)
    && (forall op :: op in p.overheadOperations <==> Charged(es, op))
    && (forall i, j | 0 <= i < j < |p.overheadOperations| :: p.overheadOperations[i] != p.overheadOperations[j])
  }

  lemma ExitsStep(exits: seq<Exit>, e: Exit)
    ensures SumExits(exits + [e]) == ExitTotals(SumExits(exits).eth + e.ethOut, SumExits(exits).gas + e.gasWei)
  {
    assert (exits + [e])[..|exits|] == exits;
  }

  lemma ReportsStep(rs: seq<AppliedExit>, r: AppliedExit)
    ensures var t := SumReports(rs);
      SumReports(rs + [r])
        == Totals(t.sold + r.tokensSold, t.basis + r.basisSold, t.gas + r.entryGasSold, t.net + r.netRealized)
  {
    assert (rs + [r])[..|rs|] == rs;
  }

  lemma ChargedStep(es: seq<Event>, op: OpId)
    requires es != []
    ensures var e := es[|es| - 1];
      Charged(es, op) <==> Charged(es[..|es| - 1], op) || (e.FailedExit? && e.op == op)
  {
    var front := es[..|es| - 1];
    if Charged(front, op) {
      var i :| 0 <= i < |front| && front[i].FailedExit? && front[i].op == op;
      assert es[i] == front[i];
    }
  }

  lemma {:induction false} OverheadCountsOnce(born: Position, es: seq<Event>)
    requires born.overheadGasWei == 0 && born.overheadOperations == []
    ensures OverheadCounted(born, es)
  {
    if es != [] {
      var front, e := es[..|es| - 1], es[|es| - 1];
      OverheadCountsOnce(born, front);
      forall op
        ensures Charged(es, op) <==> Charged(front, op) || (e.FailedExit? && e.op == op)
      {
        ChargedStep(es, op);
      }
    }
  }

  lemma {:induction false} SalesConserve(born: Position, es: seq<Event>)
    requires born == Opened(born.id, born.entryTx, born.entryEth, born.entryGasWei, born.tokens)
    ensures Conserved(born, AfterAll(born, es), Reports(born, es))
  {
    if es != [] {
      var front, e := es[..|es| - 1], es[|es| - 1];
      SalesConserve(born, front);
      var p, rs := AfterAll(born, front), Reports(born, front);
      if e.Sale? && Sells(p, e.tokensSold) {
        OneSaleConserves(born, p, rs, e);
      } else {
        assert Reports(born, es) == rs;
      }
    }
  }

  lemma OneSaleConserves(born: Position, p: Position, rs: seq<AppliedExit>, e: Event)
    requires e.Sale? && Sells(p, e.tokensSold) && Conserved(born, p, rs)
    ensures Conserved(born, After(p, e), rs + [ExitReport(p, e.tokensSold, e.ethOut, e.exitGas)])
  {
    SaleMoves(p, e);
    var r := ExitReport(p, e.tokensSold, e.ethOut, e.exitGas);
    MoveConserves(born, p, After(p, e), rs, r, Exit(e.at, r.tokensSold, e.ethOut, e.exitGas, e.reason, e.tx));
  }

  /** One recorded sale, in the terms of its report: what leaves the position is what was reported. */
  ghost predicate Moved(p: Position, q: Position, r: AppliedExit, x: Exit) {
    && q.tokens + r.tokensSold == p.tokens
    && q.basisEth + r.basisSold == p.basisEth && q.basisGasWei + r.entryGasSold == p.basisGasWei
    && q.entryEth == p.entryEth && q.entryGasWei == p.entryGasWei && q.overheadGasWei == p.overheadGasWei
    && q.exits == p.exits + [x]
    && r.netRealized == x.ethOut - (r.basisSold + r.entryGasSold + x.gasWei)
    && (q.closed <==> p.closed || q.tokens == 0)
    && (q.tokens == 0 ==> q.basisEth == 0 && q.basisGasWei == 0)
  }

  lemma SaleMoves(p: Position, e: Event)
    requires e.Sale? && Sells(p, e.tokensSold)
    ensures var r := ExitReport(p, e.tokensSold, e.ethOut, e.exitGas);
      Moved(p, After(p, e), r, Exit(e.at, r.tokensSold, e.ethOut, e.exitGas, e.reason, e.tx))
  {
  }

  lemma MoveConserves(born: Position, p: Position, q: Position, rs: seq<AppliedExit>, r: AppliedExit, x: Exit)
    requires p.tokens > 0 && Conserved(born, p, rs) && Moved(p, q, r, x)
    ensures Conserved(born, q, rs + [r])
  {
    ReportsStep(rs, r);
    MoveNets(p, q, r, x);
  }

  lemma MoveNets(p: Position, q: Position, r: AppliedExit, x: Exit)
    requires Moved(p, q, r, x) && !p.closed
    ensures NetRealizedPnl(q) == NetRealizedPnl(p) + r.netRealized
  {
    ExitsStep(p.exits, x);
  }

  /** A sale reports the difference it makes: what is left, whether that is all, and the result it realizes. */
  lemma ReportIsTheDifference(p: Position, tokensSold: nat, ethOut: nat, gas: nat, reason: string, tx: Option<Hash>,
                              at: nat)
    requires !p.closed
    ensures var r, q := ExitReport(p, tokensSold, ethOut, gas), AfterExit(p, tokensSold, ethOut, gas, reason, tx, at);
      && r.tokensSold == p.tokens - q.tokens && r.remaining == q.tokens && (r.closed <==> q.closed)
      && r.basisSold == p.basisEth - q.basisEth && r.entryGasSold == p.basisGasWei - q.basisGasWei
      && r.exitGas == gas && r.realized - r.netRealized == r.entryGasSold + gas
      && r.realized == RealizedPnl(q) - RealizedPnl(p)
  {
    if Sells(p, tokensSold) {
      ExitsStep(p.exits, Exit(at, Min(tokensSold, p.tokens), ethOut, gas, reason, tx));
    }
  }

  /**
   * Over any mix of sales and failed exits of a freshly opened position: tokens, basis and entry gas are conserved,
   * each failed operation's gas counts once, and the net result is the sum of the recorded legs minus that overhead.
   */
  lemma BooksBalance(born: Position, es: seq<Event>)
    requires born == Opened(born.id, born.entryTx, born.entryEth, born.entryGasWei, born.tokens)
    ensures Conserved(born, AfterAll(born, es), Reports(born, es))
    ensures OverheadCounted(born, es)
    ensures NetRealizedPnl(AfterAll(born, es)) == SumReports(Reports(born, es)).net - Overhead(es)
  {
    SalesConserve(born, es);
    OverheadCountsOnce(born, es);
  }

  // ---- Pro-rata basis ---------------------------------------------------------------------------

  lemma OneSaleKeepsShare(entry: nat, total: nat, basis: nat, held: nat, sold: nat, k: nat)
    requires 0 < held && 0 < sold <= held
    requires entry * held <= basis * total <= entry * held + k * total
    ensures var left, rest := held - sold, basis - Released(basis, sold, held);
      entry * left <= rest * total <= entry * left + (k + 1) * total
  {
    var left := held - sold;
    if sold < held {
      var cut := ScaleHeld(basis, sold, held);
      DivFloor(basis * sold, held);
      ScaleIsPart(basis, sold, held);
      var rest := basis - cut;
      assert basis * left == basis * held - basis * sold;
      assert rest * held == basis * held - cut * held;
      assert basis * left <= rest * held < basis * left + held;
      ShareStep(entry, total, basis, held, left, rest, k);
    } else {
      assert entry * left == 0;
      MulMono(0, k + 1, total);
    }
  }

  lemma ShareStep(entry: nat, total: nat, basis: nat, held: nat, left: nat, rest: nat, k: nat)
    requires 0 < held && left <= held
    requires entry * held <= basis * total <= entry * held + k * total
    requires basis * left <= rest * held < basis * left + held
    ensures entry * left <= rest * total <= entry * left + (k + 1) * total
  {
    ShareLower(entry, total, basis, held, left, rest);
    ShareUpper(entry, total, basis, held, left, rest, k);
  }

  lemma Swap(a: int, b: int, c: int)
    ensures a * b * c == a * c * b
  {
    MulComm(b, c);
    assert a * b * c == a * (b * c) && a * c * b == a * (c * b);
  }

  lemma ShareLower(entry: nat, total: nat, basis: nat, held: nat, left: nat, rest: nat)
    requires 0 < held && entry * held <= basis * total && basis * left <= rest * held
    ensures entry * left <= rest * total
  {
    MulMono(entry * held, basis * total, left);
    MulMono(basis * left, rest * held, total);
    Swap(entry, held, left);
    Swap(basis, total, left);
    Swap(rest, held, total);
    CancelFactor(entry * left, rest * total, held);
  }

  lemma ShareUpper(entry: nat, total: nat, basis: nat, held: nat, left: nat, rest: nat, k: nat)
    requires 0 < held && left <= held
    requires basis * total <= entry * held + k * total && rest * held <= basis * left + held
    ensures rest * total <= entry * left + (k + 1) * total
  {
    MulMono(basis * total, entry * held + k * total, left);
    MulMono(rest * held, basis * left + held, total);
    Swap(rest, held, total);
    Swap(basis, total, left);
    Swap(entry, held, left);
    KeepsFactor(k * total, left, held);
    assert (basis * left + held) * total == basis * left * total + held * total;
    assert (entry * held + k * total) * left == entry * held * left + k * total * left;
    assert (entry * left + (k + 1) * total) * held == entry * left * held + k * total * held + total * held;
    MulComm(held, total);
    CancelFactor(rest * total, entry * left + (k + 1) * total, held);
  }

  lemma KeepsFactor(x: nat, a: nat, b: nat)
    requires a <= b
    ensures x * a <= x * b
  {
    MulMono(a, b, x);
    MulComm(x, a);
    MulComm(x, b);
  }

  lemma CancelFactor(a: int, b: int, c: nat)
    requires c > 0 && a * c <= b * c
    ensures a <= b
  {
    if b < a {
      MulStrict(b, a, c);
    }
  }

  /** After k recorded sales the remaining basis is the held tokens' share of the entry, rounded up by at most k wei. */
  lemma {:induction false} BasisStaysProRata(born: Position, es: seq<Event>)
    requires born == Opened(born.id, born.entryTx, born.entryEth, born.entryGasWei, born.tokens)
    ensures var p := AfterAll(born, es);
      born.entryEth * p.tokens <= p.basisEth * born.tokens <= born.entryEth * p.tokens + |p.exits| * born.tokens
  {
    if es != [] {
      var front, e := es[..|es| - 1], es[|es| - 1];
      BasisStaysProRata(born, front);
      var p := AfterAll(born, front);
      if e.Sale? && Sells(p, e.tokensSold) {
        OneSaleKeepsShare(born.entryEth, born.tokens, p.basisEth, p.tokens, Min(e.tokensSold, p.tokens), |p.exits|);
      }
    }
  }

  /** A sale scales the peak and the last value to what is left, rounded down. */
  lemma MarksScaleWithInventory(p: Position, tokensSold: nat, ethOut: nat, gas: nat, reason: string, tx: Option<Hash>,
                                at: nat)
    requires Sells(p, tokensSold)
    ensures var q := AfterExit(p, tokensSold, ethOut, gas, reason, tx, at);
      && q.tokens == Monus(p.tokens, tokensSold)
      && q.peakEth * p.tokens <= p.peakEth * q.tokens < q.peakEth * p.tokens + p.tokens
      && q.lastEth * p.tokens <= p.lastEth * q.tokens < q.lastEth * p.tokens + p.tokens
  {
    DivFloor(p.peakEth * Monus(p.tokens, tokensSold), p.tokens);
    DivFloor(p.lastEth * Monus(p.tokens, tokensSold), p.tokens);
  }

  // ---- The store ---------------------------------------------------------------------------------

  function FindFrom(list: seq<Position>, id: PosId, from: nat): Option<nat>
    decreases |list| - from
  {
    if from >= |list| then None else if list[from].id == id then Some(from) else FindFrom(list, id, from + 1)
  }

  /** The first position with this id: the one every update touches. */
  function Find(list: seq<Position>, id: PosId): Option<nat> {
    FindFrom(list, id, 0)
  }

  lemma {:induction false} FindFromIsFirst(list: seq<Position>, id: PosId, from: nat)
    requires from <= |list|
    ensures match FindFrom(list, id, from)
      case Some(i) => from <= i < |list| && list[i].id == id && (forall j | from <= j < i :: list[j].id != id)
      case None => forall j | from <= j < |list| :: list[j].id != id
    decreases |list| - from
  {
    if from < |list| && list[from].id != id {
      FindFromIsFirst(list, id, from + 1);
    }
  }

  lemma FindIsFirst(list: seq<Position>, id: PosId)
    ensures match Find(list, id)
      case Some(i) => i < |list| && list[i].id == id && (forall j | 0 <= j < i :: list[j].id != id)
      case None => forall j | 0 <= j < |list| :: list[j].id != id
  {
    FindFromIsFirst(list, id, 0);
  }

  class PositionStore {
    var list: seq<Position>
    /** The last committed redb snapshot. */
    var saved: seq<Position>
    var dirty: bool

    ghost predicate Valid()
      reads this
    {
      !dirty ==> list == saved
    }

    constructor (committed: seq<Position>)
      ensures Valid() && list == saved == committed && !dirty
    {
      list, saved, dirty := committed, committed, false;
    }

    method OpenPosition(id: PosId, entryTx: Option<Hash>, eth: nat, gas: nat, tokens: nat) returns (p: Position)
      requires Valid()
      modifies this
      ensures Valid() && saved == old(saved)
      ensures p == Opened(id, entryTx, eth, gas, tokens) && list == old(list) + [p]
    {
      p := Position(id, entryTx, eth, gas, eth, gas, 0, [], tokens, eth, eth, false, []);
      list := list + [p];
      dirty := true;
    }

    method Locate(id: PosId) returns (index: Option<nat>)
      ensures index == Find(list, id)
      ensures index.Some? ==> index.value < |list|
    {
      FindIsFirst(list, id);
      var i := 0;
      while i < |list|
        invariant 0 <= i <= |list|
        invariant forall j | 0 <= j < i :: list[j].id != id
      {
        if list[i].id == id {
          return Some(i);
        }
        i := i + 1;
      }
      return None;
    }

    /** `update_with` around `apply_exit`: sells from the first position with the id. */
    method SellFrom(id: PosId, tokensSold: nat, ethOut: nat, exitGas: nat, reason: string, tx: Option<Hash>, at: nat)
      returns (applied: Option<AppliedExit>)
      requires Valid()
      modifies this
      ensures Valid() && saved == old(saved)
      ensures match Find(old(list), id)
        case None => applied.None? && list == old(list)
        case Some(i) =>
          && i < |old(list)|
          && applied == Some(ExitReport(old(list)[i], tokensSold, ethOut, exitGas))
          && list == old(list)[i := AfterExit(old(list)[i], tokensSold, ethOut, exitGas, reason, tx, at)]
    {
      var found := Locate(id);
      if found.None? {
        return None;
      }
      var i := found.value;
      var p := list[i];
      dirty := true;
      if p.tokens == 0 || tokensSold == 0 {
        assert list == list[i := p];
        return Some(AppliedExit(0, 0, 0, exitGas, p.tokens, p.closed, 0, 0 - exitGas));
      }
      var held := p.tokens;
      var sold := Min(tokensSold, held);
      var basisSold := if sold >= held then p.basisEth else ScaleHeld(p.basisEth, sold, held);
      var gasSold := if sold >= held then p.basisGasWei else ScaleHeld(p.basisGasWei, sold, held);
      ScaleIsPart(p.basisEth, sold, held);
      ScaleIsPart(p.basisGasWei, sold, held);
      var remaining := held - sold;
      p := p.(peakEth := ScaleHeld(p.peakEth, remaining, held));
      p := p.(lastEth := ScaleHeld(p.lastEth, remaining, held));
      p := p.(tokens := remaining);
      p := p.(basisEth := p.basisEth - basisSold);
      p := p.(basisGasWei := p.basisGasWei - gasSold);
      if remaining == 0 {
        p := p.(closed := true);
      }
      p := p.(exits := p.exits + [Exit(at, sold, ethOut, exitGas, reason, tx)]);
      list := list[i := p];
      return Some(AppliedExit(sold, basisSold, gasSold, exitGas, remaining, remaining == 0, ethOut - basisSold,
                              ethOut - (basisSold + gasSold + exitGas)));
    }

    /** `update` around `charge_overhead_gas`. */
    method ChargeOverhead(id: PosId, op: OpId, gasWei: nat) returns (found: bool)
      requires Valid()
      modifies this
      ensures Valid() && saved == old(saved)
      ensures match Find(old(list), id)
        case None => !found && list == old(list)
        case Some(i) => found && i < |old(list)| && list == old(list)[i := AfterOverhead(old(list)[i], op, gasWei)]
    {
      var index := Locate(id);
      if index.None? {
        return false;
      }
      var p := list[index.value];
      dirty := true;
      if op !in p.overheadOperations {
        p := p.(overheadOperations := p.overheadOperations + [op]);
        p := p.(overheadGasWei := p.overheadGasWei + gasWei);
      }
      list := list[index.value := p];
      return true;
    }

    method Flush()
      requires Valid()
      modifies this
      ensures Valid() && list == old(list) && saved == list && !dirty
    {
      saved := list;
      dirty := false;
    }

    /** A restart: what was not committed is gone. */
    method Reload()
      modifies this
      ensures Valid() && saved == old(saved) && list == saved && !dirty
    {
      list := saved;
      dirty := false;
    }
  }
}
