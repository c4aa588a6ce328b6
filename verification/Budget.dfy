/**
 * The session budget and the open-slot counter (crates/bodkin/src/run.rs). The two are separate shared variables, and
 * the open positions are a third: a reservation passes through several steps, and other reservations' steps fall
 * between them in any order.
 */
module Budget {
  import opened Common

  /** Where one attempt to reserve has got to. `Opened` has its position in the book but is not yet committed. */
  datatype Phase =
    | Counted(openNow: nat, cost: nat)
    | Slotted(cost: nat)
    | Refused
    | Live(cost: nat)
    | Opened(cost: nat)
    | Booked(booked: nat)
    | Settled(booked: nat)
    | Kept(cost: nat)
    | Dropping(cost: nat)
    | Gone

  /** Budget spent, slots reserved, positions open, and the attempts so far. */
  datatype Ledger = Ledger(spent: nat, slots: nat, open: nat, phases: seq<Phase>)

  /** `Fill` opens the position of a live reservation; `Close` is the end of any position. */
  datatype Step =
    | Arrive(cost: nat)
    | TakeSlot(i: nat)
    | TakeBudget(i: nat)
    | ReturnSlot(i: nat)
    | Fill(i: nat)
    | Close
    | Commit(i: nat, booked: nat)
    | CommitSlot(i: nat)
    | KeepAll(i: nat)
    | DropSlot(i: nat)
    | DropBudget(i: nat)

  /** A session that starts with `open` positions from before. */
  function Fresh(open: nat): Ledger {
    Ledger(0, 0, open, [])
  }

  /** `fetch_sub(1)`: wraps when there is nothing to take. */
  function Less1(n: nat): nat {
    if n == 0 then U64 - 1 else n - 1
  }

  /** `commit`: keeps `booked` of the reserved cost, with saturating arithmetic either way. */
  function Rebooked(spent: nat, cost: nat, booked: nat): nat {
    if booked >= cost then SatAdd(spent, booked - cost, WORD) else Monus(spent, cost - booked)
  }

  predicate Enabled(l: Ledger, step: Step) {
    match step
    case Arrive(_) => true
    case TakeSlot(i) => i < |l.phases| && l.phases[i].Counted?
    case TakeBudget(i) => i < |l.phases| && l.phases[i].Slotted?
    case ReturnSlot(i) => i < |l.phases| && l.phases[i].Refused?
    case Fill(i) => i < |l.phases| && l.phases[i].Live?
    case Close => l.open > 0
    case Commit(i, _) => i < |l.phases| && (l.phases[i].Live? || l.phases[i].Opened?)
    case CommitSlot(i) => i < |l.phases| && l.phases[i].Booked?
    case KeepAll(i) => i < |l.phases| && l.phases[i].Live?
    case DropSlot(i) => i < |l.phases| && l.phases[i].Live?
    case DropBudget(i) => i < |l.phases| && l.phases[i].Dropping?
  }

  /** The guard on the slot: the positions counted on arrival and the slots taken since. */
  predicate Grants(l: Ledger, i: nat, maxOpen: nat)
    requires Enabled(l, TakeSlot(i))
  {
    l.phases[i].openNow + l.slots < maxOpen
  }

  function Next(l: Ledger, step: Step, budget: nat, maxOpen: nat): Ledger
    requires Enabled(l, step)
  {
    match step
    case Arrive(cost) => l.(phases := l.phases + [Counted(l.open, cost)])
    case TakeSlot(i) =>
      var p := if Grants(l, i, maxOpen) then Slotted(l.phases[i].cost) else Refused;
      l.(slots := l.slots + 1, phases := l.phases[i := p])
    case TakeBudget(i) =>
      var cost := l.phases[i].cost;
      if cost > Monus(budget, l.spent) then l.(phases := l.phases[i := Refused])
      else l.(spent := SatAdd(l.spent, cost, WORD), phases := l.phases[i := Live(cost)])
    case ReturnSlot(i) => l.(slots := Less1(l.slots), phases := l.phases[i := Gone])
    case Fill(i) => l.(open := l.open + 1, phases := l.phases[i := Opened(l.phases[i].cost)])
    case Close => l.(open := l.open - 1)
    case Commit(i, booked) =>
      l.(spent := Rebooked(l.spent, l.phases[i].cost, booked), phases := l.phases[i := Booked(booked)])
    case CommitSlot(i) => l.(slots := Less1(l.slots), phases := l.phases[i := Settled(l.phases[i].booked)])
    case KeepAll(i) => l.(phases := l.phases[i := Kept(l.phases[i].cost)])
    case DropSlot(i) => l.(slots := Less1(l.slots), phases := l.phases[i := Dropping(l.phases[i].cost)])
    case DropBudget(i) => l.(spent := Monus(l.spent, l.phases[i].cost), phases := l.phases[i := Gone])
  }

  // ---- What the two counters stand for -----------------------------------------------------------

  /** Live reservations, booked commits and retained costs; a drop's cost until it is given back. */
  function Owes(p: Phase): nat {
    match p
    case Live(cost) => cost
    case Opened(cost) => cost
    case Booked(booked) => booked
    case Settled(booked) => booked
    case Kept(cost) => cost
    case Dropping(cost) => cost
    case _ => 0
  }

  function HoldsSlot(p: Phase): nat {
    if p.Slotted? || p.Refused? || p.Live? || p.Opened? || p.Booked? || p.Kept? then 1 else 0
  }

  /** A granted slot whose position may still be opened. */
  function Promises(p: Phase): nat {
    if p.Slotted? || p.Live? then 1 else 0
  }

  /** The cost a granted slot has still to reserve. */
  function Awaits(p: Phase): nat {
    if p.Slotted? then p.cost else 0
  }

  function Total(ps: seq<Phase>, f: Phase -> nat): nat {
    if ps == [] then 0 else Total(ps[..|ps| - 1], f) + f(ps[|ps| - 1])
  }

  function Owed(ps: seq<Phase>): nat {
    Total(ps, Owes)
  }

  function SlotsHeld(ps: seq<Phase>): nat {
    Total(ps, HoldsSlot)
  }

  function Promised(ps: seq<Phase>): nat {
    Total(ps, Promises)
  }

  /** Both counters are exact. */
  predicate Exact(l: Ledger) {
    l.spent == Owed(l.phases) && l.slots == SlotsHeld(l.phases)
  }

  lemma {:induction false} Replace(ps: seq<Phase>, i: nat, q: Phase, f: Phase -> nat)
    requires i < |ps|
    ensures Total(ps[i := q], f) + f(ps[i]) == Total(ps, f) + f(q)
    ensures Total(ps, f) >= f(ps[i])
  {
    var n := |ps| - 1;
    if i < n {
      Replace(ps[..n], i, q, f);
      assert ps[i := q][..n] == ps[..n][i := q];
    } else {
      assert ps[i := q][..n] == ps[..n];
    }
  }

  lemma Append(ps: seq<Phase>, p: Phase, f: Phase -> nat)
    ensures Total(ps + [p], f) == Total(ps, f) + f(p)
  {
    assert (ps + [p])[..|ps|] == ps;
  }

  /** What a step does to a total over the attempts. */
  lemma StepTotal(l: Ledger, step: Step, budget: nat, maxOpen: nat, f: Phase -> nat)
    requires Enabled(l, step)
    ensures step.Arrive? ==>
      Total(Next(l, step, budget, maxOpen).phases, f) == Total(l.phases, f) + f(Counted(l.open, step.cost))
    ensures step.Close? ==> Next(l, step, budget, maxOpen).phases == l.phases
    ensures !step.Arrive? && !step.Close? ==>
      && Total(l.phases, f) >= f(l.phases[step.i])
      && Total(Next(l, step, budget, maxOpen).phases, f) + f(l.phases[step.i])
        == Total(l.phases, f) + f(Next(l, step, budget, maxOpen).phases[step.i])
  {
    if step.Arrive? {
      Append(l.phases, Counted(l.open, step.cost), f);
    } else if !step.Close? {
      Replace(l.phases, step.i, Next(l, step, budget, maxOpen).phases[step.i], f);
    }
  }

  /** What a commit would bring the ledger to, were there no word to fit it in. */
  function Reach(l: Ledger, step: Step): int
    requires Enabled(l, step)
  {
    if step.Commit? then l.spent + step.booked - l.phases[step.i].cost else l.spent
  }

  /** The slot counter is exact whatever the amounts are. */
  lemma SlotsStayExact(l: Ledger, step: Step, budget: nat, maxOpen: nat)
    requires l.slots == SlotsHeld(l.phases) && Enabled(l, step)
    ensures var m := Next(l, step, budget, maxOpen); m.slots == SlotsHeld(m.phases)
    ensures step.ReturnSlot? || step.CommitSlot? || step.DropSlot? ==> l.slots > 0
  {
    StepTotal(l, step, budget, maxOpen, HoldsSlot);
  }

  /**
   * One step, whatever else is under way: both counters stay exact, nothing that is given back was not there, and a
   * reservation is granted only within the budget.
   */
  lemma StepIsExact(l: Ledger, step: Step, budget: nat, maxOpen: nat)
    requires Exact(l) && Enabled(l, step) && budget < WORD && Reach(l, step) < WORD
    ensures Exact(Next(l, step, budget, maxOpen))
    ensures step.ReturnSlot? || step.CommitSlot? || step.DropSlot? ==> l.slots > 0
    ensures step.DropBudget? ==> l.spent >= l.phases[step.i].cost
    ensures step.Commit? ==> Next(l, step, budget, maxOpen).spent == Reach(l, step)
    ensures step.TakeBudget? && Next(l, step, budget, maxOpen).phases[step.i].Live? && l.spent <= budget ==>
      Next(l, step, budget, maxOpen).spent == l.spent + l.phases[step.i].cost <= budget
  {
    SlotsStayExact(l, step, budget, maxOpen);
    MoneyStaysExact(l, step, budget, maxOpen);
  }

  /** The amount spent is exact while it fits a word. */
  lemma MoneyStaysExact(l: Ledger, step: Step, budget: nat, maxOpen: nat)
    requires l.spent == Owed(l.phases) && Enabled(l, step) && budget < WORD && Reach(l, step) < WORD
    ensures var m := Next(l, step, budget, maxOpen); m.spent == Owed(m.phases)
    ensures step.DropBudget? ==> l.spent >= l.phases[step.i].cost
    ensures step.Commit? ==> Next(l, step, budget, maxOpen).spent == Reach(l, step)
  {
    StepTotal(l, step, budget, maxOpen, Owes);
  }

  // ---- Every interleaving ------------------------------------------------------------------------

  /** A schedule in which every step finds its reservation where it should be. */
  predicate Runs(l: Ledger, steps: seq<Step>, budget: nat, maxOpen: nat)
    decreases |steps|
  {
    steps == []
    || (Enabled(l, steps[0]) && Runs(Next(l, steps[0], budget, maxOpen), steps[1..], budget, maxOpen))
  }

  function RunAll(l: Ledger, steps: seq<Step>, budget: nat, maxOpen: nat): Ledger
    requires Runs(l, steps, budget, maxOpen)
    decreases |steps|
  {
    if steps == [] then l else RunAll(Next(l, steps[0], budget, maxOpen), steps[1..], budget, maxOpen)
  }

  /** What a commit books beyond the cost it reserved, as a burst with two fills can. */
  function Excess(l: Ledger, step: Step): nat
    requires Enabled(l, step)
  {
    if step.Commit? then Monus(step.booked, l.phases[step.i].cost) else 0
  }

  function Overbooked(l: Ledger, steps: seq<Step>, budget: nat, maxOpen: nat): nat
    requires Runs(l, steps, budget, maxOpen)
    decreases |steps|
  {
    if steps == [] then 0
    else Excess(l, steps[0]) + Overbooked(Next(l, steps[0], budget, maxOpen), steps[1..], budget, maxOpen)
  }

  /**
   * Nothing beyond the budget is spent except what was overbooked, the slot counter is exact, and so is the amount
   * spent unless the overbooking was large enough to saturate it.
   */
  predicate Sound(l: Ledger, budget: nat, over: nat) {
    && budget < WORD && l.spent < WORD
    && l.slots == SlotsHeld(l.phases)
    && l.spent <= budget + over
    && (budget + over < WORD ==> l.spent == Owed(l.phases))
  }

  lemma StepIsSound(l: Ledger, step: Step, budget: nat, maxOpen: nat, over: nat)
    requires Sound(l, budget, over) && Enabled(l, step)
    ensures Sound(Next(l, step, budget, maxOpen), budget, over + Excess(l, step))
    ensures budget + over + Excess(l, step) < WORD ==> Reach(l, step) < WORD
  {
    SlotsStayExact(l, step, budget, maxOpen);
    if budget + over + Excess(l, step) < WORD {
      MoneyStaysExact(l, step, budget, maxOpen);
    }
  }

  lemma {:induction false} RunsStaySound(l: Ledger, steps: seq<Step>, budget: nat, maxOpen: nat, over: nat)
    requires Sound(l, budget, over) && Runs(l, steps, budget, maxOpen)
    ensures Sound(RunAll(l, steps, budget, maxOpen), budget, over + Overbooked(l, steps, budget, maxOpen))
    decreases |steps|
  {
    if steps != [] {
      StepIsSound(l, steps[0], budget, maxOpen, over);
      RunsStaySound(Next(l, steps[0], budget, maxOpen), steps[1..], budget, maxOpen, over + Excess(l, steps[0]));
    }
  }

  /**
   * From a fresh session, under every interleaving of reservations, fills, commits, retentions and drops: the amount
   * spent passes the budget by no more than was booked beyond the reserved costs. It is what is still reserved, booked
   * or retained unless that excess would not fit a word, and the slot counter is exact always.
   */
  lemma BudgetHolds(open: nat, steps: seq<Step>, budget: nat, maxOpen: nat)
    requires budget < WORD && Runs(Fresh(open), steps, budget, maxOpen)
    ensures var l := RunAll(Fresh(open), steps, budget, maxOpen);
      var over := Overbooked(Fresh(open), steps, budget, maxOpen);
      && l.spent <= budget + over
      && (budget + over < WORD ==> l.spent == Owed(l.phases))
      && l.slots == SlotsHeld(l.phases)
  {
    RunsStaySound(Fresh(open), steps, budget, maxOpen, 0);
  }

  function BookedBy(p: Phase): nat {
    if p.Settled? then p.booked else 0
  }

  function KeptBy(p: Phase): nat {
    if p.Kept? then p.cost else 0
  }

  function IsKept(p: Phase): nat {
    if p.Kept? then 1 else 0
  }

  /**
   * Once every attempt has come to rest, what is spent is what was booked or retained, and only retained slots are
   * held.
   */
  lemma {:induction false} AtRestNothingLeaks(ps: seq<Phase>)
    requires forall p :: p in ps ==> p.Settled? || p.Kept? || p.Gone?
    ensures Owed(ps) == Total(ps, BookedBy) + Total(ps, KeptBy) && SlotsHeld(ps) == Total(ps, IsKept)
  {
    if ps != [] {
      AtRestNothingLeaks(ps[..|ps| - 1]);
      assert ps[|ps| - 1] in ps;
    }
  }

  // ---- The open-position cap ---------------------------------------------------------------------

  /** Two attempts at five wei each, with a budget of ten and one position allowed. Both count no open position. */
  function OverrunStep(k: nat): Step {
    match k
    case 0 => Arrive(5)
    case 1 => Arrive(5)
    case 2 => TakeSlot(1)
    case 3 => TakeBudget(1)
    case 4 => Fill(1)
    case 5 => Commit(1, 5)
    case 6 => CommitSlot(1)
    case 7 => TakeSlot(0)
    case 8 => TakeBudget(0)
    case _ => Fill(0)
  }

  function OverrunStage(k: nat): Ledger {
    match k
    case 0 => Ledger(0, 0, 0, [])
    case 1 => Ledger(0, 0, 0, [Counted(0, 5)])
    case 2 => Ledger(0, 0, 0, [Counted(0, 5), Counted(0, 5)])
    case 3 => Ledger(0, 1, 0, [Counted(0, 5), Slotted(5)])
    case 4 => Ledger(5, 1, 0, [Counted(0, 5), Live(5)])
    case 5 => Ledger(5, 1, 1, [Counted(0, 5), Opened(5)])
    case 6 => Ledger(5, 1, 1, [Counted(0, 5), Booked(5)])
    case 7 => Ledger(5, 0, 1, [Counted(0, 5), Settled(5)])
    case 8 => Ledger(5, 1, 1, [Slotted(5), Settled(5)])
    case 9 => Ledger(10, 1, 1, [Live(5), Settled(5)])
    case _ => Ledger(10, 1, 2, [Opened(5), Settled(5)])
  }

  function OverrunFrom(k: nat): seq<Step>
    decreases 10 - k
  {
    if k >= 10 then [] else [OverrunStep(k)] + OverrunFrom(k + 1)
  }

  lemma OverrunAdvances(k: nat)
    requires k < 10
    ensures Enabled(OverrunStage(k), OverrunStep(k)) && Excess(OverrunStage(k), OverrunStep(k)) == 0
    ensures Next(OverrunStage(k), OverrunStep(k), 10, 1) == OverrunStage(k + 1)
  {
  }

  lemma {:induction false} OverrunRuns(k: nat)
    requires k <= 10
    ensures Runs(OverrunStage(k), OverrunFrom(k), 10, 1)
    ensures RunAll(OverrunStage(k), OverrunFrom(k), 10, 1) == OverrunStage(10)
    ensures Overbooked(OverrunStage(k), OverrunFrom(k), 10, 1) == 0
    decreases 10 - k
  {
    if k < 10 {
      OverrunAdvances(k);
      OverrunRuns(k + 1);
      assert OverrunFrom(k)[1..] == OverrunFrom(k + 1);
    }
  }

  /**
   * The steps above do not keep the cap: the open positions are counted before the slot is taken. With one position
   * allowed, a reservation that counted none is granted after another has opened its position, and opens a second.
   */
  lemma CapCanBeOverrun()
    ensures exists steps: seq<Step> ::
      && Runs(Fresh(0), steps, 10, 1)
      && Overbooked(Fresh(0), steps, 10, 1) == 0
      && RunAll(Fresh(0), steps, 10, 1).open > 1
  {
    OverrunRuns(0);
    assert Runs(Fresh(0), OverrunFrom(0), 10, 1);
  }

  /** Every slot in the run is taken on a count that no position opened since has made too low. */
  predicate CountsFresh(l: Ledger, steps: seq<Step>, budget: nat, maxOpen: nat)
    requires Runs(l, steps, budget, maxOpen)
    decreases |steps|
  {
    steps == []
    || ((steps[0].TakeSlot? ==> l.phases[steps[0].i].openNow >= l.open)
        && CountsFresh(Next(l, steps[0], budget, maxOpen), steps[1..], budget, maxOpen))
  }

  lemma {:induction false} FreshRunsKeepPromises(l: Ledger, steps: seq<Step>, budget: nat, maxOpen: nat, bound: nat)
    requires Runs(l, steps, budget, maxOpen) && CountsFresh(l, steps, budget, maxOpen)
    requires l.slots == SlotsHeld(l.phases) && l.open + Promised(l.phases) <= bound && maxOpen <= bound
    ensures RunAll(l, steps, budget, maxOpen).open <= bound
    decreases |steps|
  {
    if steps != [] {
      SlotsStayExact(l, steps[0], budget, maxOpen);
      StepTotal(l, steps[0], budget, maxOpen, Promises);
      PromisesHoldSlots(l.phases);
      FreshRunsKeepPromises(Next(l, steps[0], budget, maxOpen), steps[1..], budget, maxOpen, bound);
    }
  }

  lemma {:induction false} PromisesHoldSlots(ps: seq<Phase>)
    ensures Promised(ps) <= SlotsHeld(ps)
  {
    if ps != [] {
      PromisesHoldSlots(ps[..|ps| - 1]);
    }
  }

  /**
   * The cap holds in every run of these same steps in which each slot is taken on a fresh count: there are never more
   * positions than allowed, or than the session started with.
   */
  lemma FreshCountsKeepTheCap(open: nat, steps: seq<Step>, budget: nat, maxOpen: nat)
    requires Runs(Fresh(open), steps, budget, maxOpen) && CountsFresh(Fresh(open), steps, budget, maxOpen)
    ensures RunAll(Fresh(open), steps, budget, maxOpen).open <= Max(open, maxOpen)
  {
    FreshRunsKeepPromises(Fresh(open), steps, budget, maxOpen, Max(open, maxOpen));
  }

  /** No further slot is taken. */
  predicate Quiet(steps: seq<Step>) {
    forall s :: s in steps ==> !s.TakeSlot?
  }

  lemma {:induction false} QuietRunsKeepPromises(l: Ledger, steps: seq<Step>, budget: nat, maxOpen: nat)
    requires Runs(l, steps, budget, maxOpen) && Quiet(steps)
    ensures RunAll(l, steps, budget, maxOpen).open <= l.open + Promised(l.phases)
    decreases |steps|
  {
    if steps != [] {
      StepTotal(l, steps[0], budget, maxOpen, Promises);
      assert forall s :: s in steps[1..] ==> s in steps;
      QuietRunsKeepPromises(Next(l, steps[0], budget, maxOpen), steps[1..], budget, maxOpen);
    }
  }

  lemma {:induction false} PromiseAt(ps: seq<Phase>) returns (i: nat)
    requires Promised(ps) > 0
    ensures i < |ps| && (ps[i].Slotted? || ps[i].Live?)
  {
    i := |ps| - 1;
    if Promises(ps[i]) == 0 {
      i := PromiseAt(ps[..|ps| - 1]);
    }
  }

  /** How far a granted slot is from its position. */
  function Distance(p: Phase): nat {
    if p.Slotted? then 2 else if p.Live? then 1 else 0
  }

  /** If the budget covers the costs still to be reserved, every granted slot can end in a position. */
  lemma {:induction false} PromisesCanBeKept(l: Ledger, budget: nat, maxOpen: nat) returns (steps: seq<Step>)
    requires l.spent + Total(l.phases, Awaits) <= budget < WORD
    ensures Quiet(steps) && Runs(l, steps, budget, maxOpen)
    ensures RunAll(l, steps, budget, maxOpen).open == l.open + Promised(l.phases)
    decreases Total(l.phases, Distance)
  {
    steps := [];
    if Promised(l.phases) > 0 {
      var i := PromiseAt(l.phases);
      var step := if l.phases[i].Slotted? then TakeBudget(i) else Fill(i);
      StepTotal(l, step, budget, maxOpen, Awaits);
      StepTotal(l, step, budget, maxOpen, Promises);
      StepTotal(l, step, budget, maxOpen, Distance);
      var rest := PromisesCanBeKept(Next(l, step, budget, maxOpen), budget, maxOpen);
      steps := [step] + rest;
      assert steps[1..] == rest;
    }
  }

  /** Whatever the limit: if it is kept so far and the slot is granted, it is kept until another slot is taken. */
  ghost predicate SafeToTake(l: Ledger, i: nat, budget: nat)
    requires Enabled(l, TakeSlot(i))
  {
    forall maxOpen: nat, steps: seq<Step> ::
      l.open + Promised(l.phases) <= maxOpen && Grants(l, i, maxOpen) && Quiet(steps)
      && Runs(Next(l, TakeSlot(i), budget, maxOpen), steps, budget, maxOpen) ==>
        RunAll(Next(l, TakeSlot(i), budget, maxOpen), steps, budget, maxOpen).open <= maxOpen
  }

  /**
   * For one granted slot, both ways. With money for the costs under way, taking it is safe exactly when the count it
   * relies on and the slots held cover the open positions and the slots already granted. A fresh count always does; a
   * count taken before another position was opened does not, once that reservation has given its slot back.
   */
  lemma SafeExactlyWhenCovered(l: Ledger, i: nat, budget: nat)
    requires Enabled(l, TakeSlot(i)) && l.slots == SlotsHeld(l.phases)
    requires l.spent + Total(l.phases, Awaits) + l.phases[i].cost <= budget < WORD
    ensures SafeToTake(l, i, budget) <==> l.phases[i].openNow + l.slots >= l.open + Promised(l.phases)
    ensures l.phases[i].openNow >= l.open ==> SafeToTake(l, i, budget)
    ensures l.phases[i].openNow < l.open && l.slots == Promised(l.phases) ==> !SafeToTake(l, i, budget)
  {
    PromisesHoldSlots(l.phases);
    if l.phases[i].openNow + l.slots >= l.open + Promised(l.phases) {
      forall maxOpen: nat, steps: seq<Step> |
        Grants(l, i, maxOpen) && Quiet(steps)
        && Runs(Next(l, TakeSlot(i), budget, maxOpen), steps, budget, maxOpen)
        ensures RunAll(Next(l, TakeSlot(i), budget, maxOpen), steps, budget, maxOpen).open <= maxOpen
      {
        StepTotal(l, TakeSlot(i), budget, maxOpen, Promises);
        QuietRunsKeepPromises(Next(l, TakeSlot(i), budget, maxOpen), steps, budget, maxOpen);
      }
    } else {
      var maxOpen := l.open + Promised(l.phases);
      StepTotal(l, TakeSlot(i), budget, maxOpen, Promises);
      StepTotal(l, TakeSlot(i), budget, maxOpen, Awaits);
      var steps := PromisesCanBeKept(Next(l, TakeSlot(i), budget, maxOpen), budget, maxOpen);
      assert RunAll(Next(l, TakeSlot(i), budget, maxOpen), steps, budget, maxOpen).open > maxOpen;
    }
  }

  // ---- The shared variables ----------------------------------------------------------------------

  /**
   * `spent` behind its lock, `open_res` as an atomic and the number of open positions; each method is one critical
   * section or one atomic operation. `over` adds up what was booked beyond the reserved costs.
   */
  class Session {
    const budget: nat
    const maxOpen: nat
    var spent: nat
    var openRes: nat
    var open: nat
    ghost var phases: seq<Phase>
    ghost var over: nat

    ghost function State(): Ledger
      reads this
    {
      Ledger(spent, openRes, open, phases)
    }

    ghost predicate Valid()
      reads this
    {
      Sound(State(), budget, over)
    }

    constructor (budget: nat, maxOpen: nat, open: nat)
      requires budget < WORD
      ensures Valid() && State() == Fresh(open) && over == 0 && this.budget == budget && this.maxOpen == maxOpen
    {
      this.budget, this.maxOpen, this.open := budget, maxOpen, open;
      spent, openRes, phases, over := 0, 0, [], 0;
    }

    /** Joins with the open positions it has just counted. */
    method CountOpen(ghost cost: nat) returns (openNow: nat)
      requires Valid()
      modifies this`phases
      ensures Valid() && State() == Next(old(State()), Arrive(cost), budget, maxOpen)
      ensures openNow == open && phases == old(phases) + [Counted(openNow, cost)]
    {
      StepIsSound(State(), Arrive(cost), budget, maxOpen, over);
      openNow := open;
      phases := phases + [Counted(openNow, cost)];
    }

    method ClaimSlot(ghost i: nat, openNow: nat) returns (ok: bool)
      requires Valid() && Enabled(State(), TakeSlot(i)) && phases[i].openNow == openNow
      modifies this
      ensures Valid() && State() == Next(old(State()), TakeSlot(i), budget, maxOpen) && over == old(over)
      ensures ok <==> phases[i].Slotted?
    {
      StepIsSound(State(), TakeSlot(i), budget, maxOpen, over);
      var prior := openRes;
      openRes := openRes + 1;
      ok := openNow + prior < maxOpen;
      phases := phases[i := if ok then Slotted(phases[i].cost) else Refused];
    }

    method ClaimBudget(ghost i: nat, cost: nat) returns (ok: bool)
      requires Valid() && Enabled(State(), TakeBudget(i)) && phases[i].cost == cost
      modifies this
      ensures Valid() && State() == Next(old(State()), TakeBudget(i), budget, maxOpen) && over == old(over)
      ensures ok <==> phases[i].Live?
      ensures ok <==> cost == 0 || old(spent) + cost <= budget
    {
      StepIsSound(State(), TakeBudget(i), budget, maxOpen, over);
      ok := cost <= Monus(budget, spent);
      if ok {
        spent := SatAdd(spent, cost, WORD);
      }
      phases := phases[i := if ok then Live(cost) else Refused];
    }

    method OpenPosition(ghost i: nat)
      requires Valid() && Enabled(State(), Fill(i))
      modifies this
      ensures Valid() && State() == Next(old(State()), Fill(i), budget, maxOpen) && over == old(over)
    {
      StepIsSound(State(), Fill(i), budget, maxOpen, over);
      open := open + 1;
      phases := phases[i := Opened(phases[i].cost)];
    }

    method ReleaseSlot(ghost step: Step)
      requires Valid() && Enabled(State(), step) && (step.ReturnSlot? || step.CommitSlot? || step.DropSlot?)
      modifies this
      ensures Valid() && State() == Next(old(State()), step, budget, maxOpen) && over == old(over)
      ensures openRes + 1 == old(openRes)
    {
      SlotsStayExact(State(), step, budget, maxOpen);
      StepIsSound(State(), step, budget, maxOpen, over);
      phases := Next(State(), step, budget, maxOpen).phases;
      openRes := Less1(openRes);
    }

    method BookSpend(ghost i: nat, cost: nat, booked: nat)
      requires Valid() && Enabled(State(), Commit(i, booked)) && phases[i].cost == cost
      modifies this
      ensures Valid() && State() == Next(old(State()), Commit(i, booked), budget, maxOpen)
      ensures over == old(over) + Monus(booked, cost)
      ensures budget + over < WORD ==> spent + cost == old(spent) + booked
    {
      StepIsSound(State(), Commit(i, booked), budget, maxOpen, over);
      StepTotal(State(), Commit(i, booked), budget, maxOpen, Owes);
      over := over + Monus(booked, cost);
      if booked >= cost {
        spent := SatAdd(spent, booked - cost, WORD);
      } else {
        spent := Monus(spent, cost - booked);
      }
      phases := phases[i := Booked(booked)];
    }

    method ReleaseSpend(ghost i: nat, cost: nat)
      requires Valid() && Enabled(State(), DropBudget(i)) && phases[i].cost == cost
      modifies this
      ensures Valid() && State() == Next(old(State()), DropBudget(i), budget, maxOpen) && over == old(over)
      ensures budget + over < WORD ==> spent + cost == old(spent)
    {
      StepIsSound(State(), DropBudget(i), budget, maxOpen, over);
      StepTotal(State(), DropBudget(i), budget, maxOpen, Owes);
      spent := Monus(spent, cost);
      phases := phases[i := Gone];
    }
  }
}
