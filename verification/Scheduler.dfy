/**
 * The execution lane (crates/bodkin/src/trade/scheduler.rs): one permit, ranked waiters, and routine exits that age.
 */
module Scheduler {
  import opened Common

  const ROUTINE_EXIT_MAX_DEFERRAL_MS := 100

  datatype OperationClass = Emergency | DeadlineEntry | RoutineExit
  datatype Waiter = Waiter(id: nat, class_: OperationClass, enqueued: nat, deadline: Option<nat>)
  datatype Lane = Lane(owned: bool, nextId: nat, waiters: seq<Waiter>)

  predicate Aged(w: Waiter, now: nat) {
    Monus(now, w.enqueued) >= ROUTINE_EXIT_MAX_DEFERRAL_MS
  }

  function Rank(w: Waiter, now: nat): nat {
    match w.class_
    case Emergency => 0
    case RoutineExit => if Aged(w, now) then 1 else 3
    case DeadlineEntry => 2
  }

  predicate Expired(w: Waiter, now: nat) {
    w.deadline.Some? && w.deadline.value <= now
  }

  predicate Before(a: Waiter, b: Waiter, now: nat) {
    Rank(a, now) < Rank(b, now) || (Rank(a, now) == Rank(b, now) && a.id < b.id)
  }

  /** `id` belongs to a live waiter that no other live waiter comes before. */
  predicate Chosen(ws: seq<Waiter>, now: nat, id: nat) {
    exists w :: w in ws && w.id == id && Leads(ws, now, w)
  }

  predicate Leads(ws: seq<Waiter>, now: nat, w: Waiter) {
    !Expired(w, now) && forall v :: v in ws && !Expired(v, now) ==> !Before(v, w, now)
  }

  function IndexOf(ws: seq<Waiter>, id: nat): Option<nat> {
    if ws == [] then None
    else if ws[0].id == id then Some(0)
    else match IndexOf(ws[1..], id)
      case None => None
      case Some(i) => Some(i + 1)
  }

  /** Takes one out by moving the last into its place. */
  function SwapRemove(ws: seq<Waiter>, i: nat): seq<Waiter>
    requires i < |ws|
  {
    ws[i := ws[|ws| - 1]][..|ws| - 1]
  }

  function RemoveWaiter(ws: seq<Waiter>, id: nat): seq<Waiter> {
    var i := IndexOf(ws, id);
    if i.Some? && i.value < |ws| then SwapRemove(ws, i.value) else ws
  }

  // ---- Steps -------------------------------------------------------------------------------------

  /** The critical sections of the lane: joining, one turn of the waiting loop, giving up, and dropping the permit. */
  datatype Step =
    | Join(class_: OperationClass, deadline: Option<nat>, now: nat)
    | Try(id: nat, now: nat)
    | GiveUp(id: nat)
    | Release

  function WaiterOf(ws: seq<Waiter>, id: nat): Option<Waiter> {
    var i := IndexOf(ws, id);
    if i.Some? && i.value < |ws| then Some(ws[i.value]) else None
  }

  /** The waiter that gets the permit in this step. */
  function Granted(s: Lane, step: Step): Option<Waiter> {
    match step
    case Try(id, now) =>
      var w := WaiterOf(s.waiters, id);
      if w.Some? && !Expired(w.value, now) && !s.owned && Chosen(s.waiters, now, id) then w else None
    case _ => None
  }

  function Next(s: Lane, step: Step): Lane {
    match step
    case Join(c, d, now) =>
      if d.Some? && d.value <= now then s
      else Lane(s.owned, s.nextId + 1, s.waiters + [Waiter(s.nextId, c, now, d)])
    case Try(id, now) =>
      var w := WaiterOf(s.waiters, id);
      if w.None? then s
      else if Expired(w.value, now) then s.(waiters := RemoveWaiter(s.waiters, id))
      else if Granted(s, step).Some? then Lane(true, s.nextId, RemoveWaiter(s.waiters, id))
      else s
    case GiveUp(id) => s.(waiters := RemoveWaiter(s.waiters, id))
    case Release => s.(owned := false)
  }

  ghost predicate Inv(s: Lane) {
    && (forall w :: w in s.waiters ==> w.id < s.nextId)
    && (forall i, j | 0 <= i < j < |s.waiters| :: s.waiters[i].id != s.waiters[j].id)
  }

  // ---- Removing from the list --------------------------------------------------------------------

  lemma {:induction false} IndexIsFirst(ws: seq<Waiter>, id: nat)
    ensures match IndexOf(ws, id)
      case Some(i) => i < |ws| && ws[i].id == id
      case None => forall w :: w in ws ==> w.id != id
  {
    if ws != [] && ws[0].id != id {
      IndexIsFirst(ws[1..], id);
      assert ws == [ws[0]] + ws[1..];
    }
  }

  lemma SwapRemoveTakesOne(ws: seq<Waiter>, i: nat)
    requires i < |ws|
    ensures multiset(SwapRemove(ws, i)) == multiset(ws) - multiset{ws[i]}
  {
    var n := |ws| - 1;
    assert ws == ws[..n] + [ws[n]];
    if i < n {
      var a, b := ws[..i], ws[i + 1..n];
      assert ws == a + [ws[i]] + b + [ws[n]];
      assert SwapRemove(ws, i) == a + [ws[n]] + b;
    } else {
      assert SwapRemove(ws, i) == ws[..n];
    }
  }

  /** With distinct ids, what is left is everyone with another id, each still once. */
  lemma RemoveLeavesOthers(ws: seq<Waiter>, id: nat)
    requires forall i, j | 0 <= i < j < |ws| :: ws[i].id != ws[j].id
    ensures var rest := RemoveWaiter(ws, id);
      && (forall w :: w in rest <==> w in ws && w.id != id)
      && (forall i, j | 0 <= i < j < |rest| :: rest[i].id != rest[j].id)
  {
    IndexIsFirst(ws, id);
    var rest := RemoveWaiter(ws, id);
    if IndexOf(ws, id).Some? {
      var k, n := IndexOf(ws, id).value, |ws| - 1;
      assert forall i :: 0 <= i < n ==> rest[i] == if i == k then ws[n] else ws[i];
      forall w | w in ws && w.id != id ensures w in rest {
        var i :| 0 <= i < |ws| && ws[i] == w;
        assert w == rest[if i == n then k else i];
      }
    }
  }

  lemma StepKeepsInv(s: Lane, step: Step)
    requires Inv(s)
    ensures Inv(Next(s, step))
  {
    match step
    case Try(id, _) => RemoveLeavesOthers(s.waiters, id);
    case GiveUp(id) => RemoveLeavesOthers(s.waiters, id);
    case _ =>
  }

  // ---- The choice --------------------------------------------------------------------------------

  /** At most one waiter is chosen, and someone is whenever a live waiter is left. */
  lemma ChoiceIsUnique(ws: seq<Waiter>, now: nat, a: nat, b: nat)
    requires Chosen(ws, now, a) && Chosen(ws, now, b)
    ensures a == b
  {
    var v :| v in ws && v.id == a && Leads(ws, now, v);
    var w :| w in ws && w.id == b && Leads(ws, now, w);
    assert !Before(v, w, now) && !Before(w, v, now);
  }

  lemma {:induction false} SomeoneLeads(ws: seq<Waiter>, now: nat)
    requires exists w :: w in ws && !Expired(w, now)
    ensures exists w :: w in ws && Leads(ws, now, w)
  {
    var w0 := ws[0];
    assert ws == [w0] + ws[1..];
    if forall w :: w in ws[1..] ==> Expired(w, now) {
      assert Leads(ws, now, w0);
    } else {
      SomeoneLeads(ws[1..], now);
      var w :| w in ws[1..] && Leads(ws[1..], now, w);
      if Expired(w0, now) || !Before(w0, w, now) {
        assert Leads(ws, now, w);
      } else {
        assert Leads(ws, now, w0);
      }
    }
  }

  /** The lane hands out the permit to a live waiter that nobody live comes before, and only when nobody has it. */
  lemma GrantGoesToTheFirst(s: Lane, step: Step)
    requires Inv(s) && Granted(s, step).Some?
    ensures var w := Granted(s, step).value;
      && step.Try? && w in s.waiters && w.id == step.id && !s.owned && Next(s, step).owned
      && !Expired(w, step.now)
      && (forall v :: v in s.waiters && v != w && !Expired(v, step.now) ==> Before(w, v, step.now))
      && (forall v :: v in Next(s, step).waiters <==> v in s.waiters && v != w)
  {
    IndexIsFirst(s.waiters, step.id);
    RemoveLeavesOthers(s.waiters, step.id);
    var w := Granted(s, step).value;
    var u :| u in s.waiters && u.id == step.id && Leads(s.waiters, step.now, u);
    SameIdSameWaiter(s, u, w);
    forall v | v in s.waiters && v.id == w.id ensures v == w {
      SameIdSameWaiter(s, v, w);
    }
  }

  lemma SameIdSameWaiter(s: Lane, a: Waiter, b: Waiter)
    requires Inv(s) && a in s.waiters && b in s.waiters && a.id == b.id
    ensures a == b
  {
    var i :| 0 <= i < |s.waiters| && s.waiters[i] == a;
    var j :| 0 <= j < |s.waiters| && s.waiters[j] == b;
  }

  /**
   * A turn is granted exactly when the lane is free, the deadline is ahead, and every other live waiter comes later.
   */
  lemma GrantedExactly(s: Lane, me: Waiter, now: nat)
    requires Inv(s) && me in s.waiters
    ensures Granted(s, Try(me.id, now)) == Some(me) <==>
      && !s.owned && (me.deadline.Some? ==> now < me.deadline.value)
      && forall v :: v in s.waiters && v != me && (v.deadline.Some? ==> now < v.deadline.value) ==> Before(me, v, now)
  {
    IndexIsFirst(s.waiters, me.id);
    SameIdSameWaiter(s, WaiterOf(s.waiters, me.id).value, me);
    if Granted(s, Try(me.id, now)).Some? {
      GrantGoesToTheFirst(s, Try(me.id, now));
    }
  }

  lemma OneLeaves(s: Lane, me: Waiter)
    requires Inv(s) && me in s.waiters
    ensures forall v :: v in RemoveWaiter(s.waiters, me.id) <==> v in s.waiters && v != me
  {
    RemoveLeavesOthers(s.waiters, me.id);
    forall v | v in s.waiters && v.id == me.id ensures v == me {
      SameIdSameWaiter(s, v, me);
    }
  }

  /** A free lane with a live waiter is never stuck: some waiter's next turn is granted. */
  lemma FreeLaneServesSomeone(s: Lane, now: nat)
    requires Inv(s) && !s.owned && exists w :: w in s.waiters && !Expired(w, now)
    ensures exists w :: w in s.waiters && Granted(s, Try(w.id, now)) == Some(w)
  {
    SomeoneLeads(s.waiters, now);
    var w :| w in s.waiters && Leads(s.waiters, now, w);
    IndexIsFirst(s.waiters, w.id);
    SameIdSameWaiter(s, WaiterOf(s.waiters, w.id).value, w);
    assert Granted(s, Try(w.id, now)) == Some(w);
  }

  /**
   * Emergencies come before everything else; an entry comes before a routine exit exactly until that exit has waited a
   * tenth of a second, and so does a routine exit that has before one that has not; otherwise the earlier comes first.
   */
  lemma PrecedenceOfClasses(a: Waiter, b: Waiter, now: nat)
    ensures a.class_.Emergency? && !b.class_.Emergency? ==> Before(a, b, now) && !Before(b, a, now)
    ensures a.class_.DeadlineEntry? && b.class_.RoutineExit? ==>
      && (Before(a, b, now) <==> now < b.enqueued + 100)
      && (Before(b, a, now) <==> now >= b.enqueued + 100)
    ensures a.class_ == b.class_ && !a.class_.RoutineExit? ==> (Before(a, b, now) <==> a.id < b.id)
    ensures a.class_.RoutineExit? && b.class_.RoutineExit? ==>
      (Before(a, b, now) <==>
        if (now >= a.enqueued + 100) == (now >= b.enqueued + 100) then a.id < b.id else now >= a.enqueued + 100)
  {
  }

  // ---- List order does not matter ----------------------------------------------------------------

  /** The same lane with its waiters listed in another order. */
  ghost predicate Shuffled(s: Lane, t: Lane) {
    s.owned == t.owned && s.nextId == t.nextId && multiset(s.waiters) == multiset(t.waiters)
  }

  lemma ShuffledMembers(s: Lane, t: Lane)
    requires Shuffled(s, t)
    ensures forall w :: w in s.waiters <==> w in t.waiters
  {
    forall w ensures w in s.waiters <==> w in t.waiters {
      assert w in s.waiters <==> w in multiset(s.waiters);
      assert w in t.waiters <==> w in multiset(t.waiters);
    }
  }

  lemma ShuffledWaiterOf(s: Lane, t: Lane, id: nat)
    requires Inv(s) && Inv(t) && Shuffled(s, t)
    ensures WaiterOf(s.waiters, id) == WaiterOf(t.waiters, id)
  {
    ShuffledMembers(s, t);
    IndexIsFirst(s.waiters, id);
    IndexIsFirst(t.waiters, id);
    var a, b := WaiterOf(s.waiters, id), WaiterOf(t.waiters, id);
    if a.Some? && b.Some? {
      SameIdSameWaiter(s, a.value, b.value);
    }
  }

  lemma RemoveTakesOne(s: Lane, id: nat)
    requires Inv(s)
    ensures multiset(RemoveWaiter(s.waiters, id))
      == if WaiterOf(s.waiters, id).Some? then multiset(s.waiters) - multiset{WaiterOf(s.waiters, id).value}
      else multiset(s.waiters)
  {
    IndexIsFirst(s.waiters, id);
    if IndexOf(s.waiters, id).Some? {
      SwapRemoveTakesOne(s.waiters, IndexOf(s.waiters, id).value);
    }
  }

  lemma ShuffledChoice(s: Lane, t: Lane, now: nat, id: nat)
    requires Shuffled(s, t)
    ensures Chosen(s.waiters, now, id) <==> Chosen(t.waiters, now, id)
  {
    ShuffledMembers(s, t);
  }

  lemma ShuffledRemove(s: Lane, t: Lane, id: nat)
    requires Inv(s) && Inv(t) && Shuffled(s, t)
    ensures multiset(RemoveWaiter(s.waiters, id)) == multiset(RemoveWaiter(t.waiters, id))
  {
    ShuffledWaiterOf(s, t, id);
    RemoveTakesOne(s, id);
    RemoveTakesOne(t, id);
  }

  /** Whatever order removal has left the list in, the same waiter is granted and the same waiters stay. */
  lemma OrderDoesNotMatter(s: Lane, t: Lane, step: Step)
    requires Inv(s) && Inv(t) && Shuffled(s, t)
    ensures Granted(s, step) == Granted(t, step) && Shuffled(Next(s, step), Next(t, step))
  {
    match step
    case Try(id, now) =>
      ShuffledWaiterOf(s, t, id);
      ShuffledChoice(s, t, now, id);
      ShuffledRemove(s, t, id);
    case GiveUp(id) =>
      ShuffledWaiterOf(s, t, id);
      ShuffledRemove(s, t, id);
    case _ =>
  }

  // ---- Runs --------------------------------------------------------------------------------------

  /** Only the holder of a permit drops one. */
  ghost predicate Honest(s: Lane, steps: seq<Step>)
    decreases |steps|
  {
    steps == [] || ((steps[0].Release? ==> s.owned) && Honest(Next(s, steps[0]), steps[1..]))
  }

  function RunAll(s: Lane, steps: seq<Step>): Lane
    decreases |steps|
  {
    if steps == [] then s else RunAll(Next(s, steps[0]), steps[1..])
  }

  /** Permits handed out minus permits dropped. */
  function Permits(s: Lane, steps: seq<Step>): int
    decreases |steps|
  {
    if steps == [] then 0 else
      (if Granted(s, steps[0]).Some? then 1 else 0) - (if steps[0].Release? then 1 else 0)
        + Permits(Next(s, steps[0]), steps[1..])
  }

  /** From an idle lane, at most one permit is alive, and the lane is owned exactly while one is. */
  lemma {:induction false} OnePermitAtATime(s: Lane, steps: seq<Step>)
    requires Honest(s, steps)
    ensures (if s.owned then 1 else 0) + Permits(s, steps) == if RunAll(s, steps).owned then 1 else 0
    decreases |steps|
  {
    if steps != [] {
      OnePermitAtATime(Next(s, steps[0]), steps[1..]);
    }
  }

  /** The routine exits that joined before `w` and still wait. */
  function Ahead(s: Lane, w: Waiter): set<nat> {
    set v | v in s.waiters && v.class_.RoutineExit? && v.id < w.id :: v.id
  }

  /** Grants to anything but emergencies. */
  function OrdinaryGrants(s: Lane, steps: seq<Step>): nat
    decreases |steps|
  {
    if steps == [] then 0 else
      (if Granted(s, steps[0]).Some? && !Granted(s, steps[0]).value.class_.Emergency? then 1 else 0)
      + OrdinaryGrants(Next(s, steps[0]), steps[1..])
  }

  /** `w` waits throughout, and has been waiting at least the maximum deferral whenever anyone tries. */
  ghost predicate WaitsAged(s: Lane, steps: seq<Step>, w: Waiter)
    decreases |steps|
  {
    && w in s.waiters
    && (steps != [] ==> (steps[0].Try? ==> Aged(w, steps[0].now)) && WaitsAged(Next(s, steps[0]), steps[1..], w))
  }

  /** An aged routine exit is passed over only for an emergency or for a routine exit that joined before it. */
  lemma AgedIsOvertakenByFew(s: Lane, step: Step, w: Waiter)
    requires Inv(s) && w in s.waiters && w.class_.RoutineExit? && w.deadline.None?
    requires Granted(s, step).Some? && Granted(s, step).value != w && Aged(w, step.now)
    ensures var v := Granted(s, step).value; v.class_.Emergency? || (v.class_.RoutineExit? && v.id < w.id)
  {
    GrantGoesToTheFirst(s, step);
  }

  lemma {:induction false} SubsetIsSmaller(a: set<nat>, b: set<nat>)
    requires a <= b
    ensures |a| <= |b|
  {
    if a != {} {
      var x :| x in a;
      SubsetIsSmaller(a - {x}, b - {x});
    }
  }

  lemma AheadShrinks(s: Lane, step: Step, w: Waiter)
    requires Inv(s) && w in s.waiters && w in Next(s, step).waiters && w.class_.RoutineExit? && w.deadline.None?
    requires step.Try? ==> Aged(w, step.now)
    ensures Ahead(Next(s, step), w) <= Ahead(s, w)
    ensures Granted(s, step).Some? && !Granted(s, step).value.class_.Emergency? ==>
      Granted(s, step).value.id in Ahead(s, w) && Granted(s, step).value.id !in Ahead(Next(s, step), w)
  {
    match step
    case Try(id, _) => RemoveLeavesOthers(s.waiters, id);
    case GiveUp(id) => RemoveLeavesOthers(s.waiters, id);
    case _ =>
    if Granted(s, step).Some? {
      GrantGoesToTheFirst(s, step);
      AgedIsOvertakenByFew(s, step, w);
    }
  }

  /** While an aged routine exit waits, no more ordinary grants are made than there were routine exits ahead of it. */
  lemma {:induction false} OvertakingIsBounded(s: Lane, steps: seq<Step>, w: Waiter)
    requires Inv(s) && WaitsAged(s, steps, w) && w.class_.RoutineExit? && w.deadline.None?
    ensures OrdinaryGrants(s, steps) <= |Ahead(s, w)|
    decreases |steps|
  {
    if steps != [] {
      var now := Next(s, steps[0]);
      StepKeepsInv(s, steps[0]);
      OvertakingIsBounded(now, steps[1..], w);
      AheadShrinks(s, steps[0], w);
      var g := Granted(s, steps[0]);
      if g.Some? && !g.value.class_.Emergency? {
        SubsetIsSmaller(Ahead(now, w), Ahead(s, w) - {g.value.id});
      } else {
        SubsetIsSmaller(Ahead(now, w), Ahead(s, w));
      }
    }
  }

  // ---- The object --------------------------------------------------------------------------------

  datatype Turn = Permit(waited: nat) | DeadlineExpired | Wait

  class ExecutionScheduler {
    var owned: bool
    var nextId: nat
    var waiters: seq<Waiter>

    function State(): Lane
      reads this
    {
      Lane(owned, nextId, waiters)
    }

    ghost predicate Valid()
      reads this
    {
      Inv(State())
    }

    constructor ()
      ensures Valid() && State() == Lane(false, 0, [])
    {
      owned, nextId, waiters := false, 0, [];
    }

    /** The first part of `acquire`: joins the lane unless the deadline has passed. */
    method Enqueue(class_: OperationClass, deadline: Option<nat>, now: nat) returns (id: Option<nat>)
      requires Valid()
      modifies this
      ensures Valid() && State() == Next(old(State()), Join(class_, deadline, now))
      ensures id == if deadline.Some? && deadline.value <= now then None else Some(old(nextId))
      ensures owned == old(owned)
      ensures id.Some? ==>
        waiters == old(waiters) + [Waiter(old(nextId), class_, now, deadline)] && nextId == old(nextId) + 1
      ensures id.None? ==> waiters == old(waiters) && nextId == old(nextId)
    {
      StepKeepsInv(State(), Join(class_, deadline, now));
      if deadline.Some? && deadline.value <= now {
        return None;
      }
      id := Some(nextId);
      waiters := waiters + [Waiter(nextId, class_, now, deadline)];
      nextId := nextId + 1;
    }

    /** The live waiter with the least rank, the earliest among equals. */
    method NextWaiter(now: nat) returns (id: Option<nat>)
      ensures id.None? <==> forall w :: w in waiters ==> Expired(w, now)
      ensures id.Some? ==> Chosen(waiters, now, id.value)
    {
      var best: Option<Waiter> := None;
      var i := 0;
      while i < |waiters|
        invariant 0 <= i <= |waiters|
        invariant best.None? ==> forall w :: w in waiters[..i] ==> Expired(w, now)
        invariant best.Some? ==> best.value in waiters[..i] && Leads(waiters[..i], now, best.value)
      {
        assert waiters[..i + 1] == waiters[..i] + [waiters[i]];
        if !Expired(waiters[i], now) && (best.None? || Before(waiters[i], best.value, now)) {
          best := Some(waiters[i]);
        }
        i := i + 1;
      }
      assert waiters[..i] == waiters;
      return if best.Some? then Some(best.value.id) else None;
    }

    method Remove(id: nat)
      modifies this`waiters
      ensures waiters == RemoveWaiter(old(waiters), id)
    {
      IndexIsFirst(waiters, id);
      var i := 0;
      assert waiters[0..] == waiters;
      while i < |waiters|
        invariant 0 <= i <= |waiters| && waiters == old(waiters)
        invariant IndexOf(waiters, id)
          == match IndexOf(waiters[i..], id) case None => None case Some(j) => Some(i + j)
      {
        assert waiters[i..][1..] == waiters[i + 1..];
        if waiters[i].id == id {
          waiters := SwapRemove(waiters, i);
          return;
        }
        i := i + 1;
      }
    }

    /** One turn of a waiter that has joined and neither been granted, nor expired, nor given up. */
    method TryAcquire(me: Waiter, now: nat) returns (turn: Turn)
      requires Valid() && me in waiters
      modifies this
      ensures Valid() && State() == Next(old(State()), Try(me.id, now))
      ensures turn.Permit? <==> Granted(old(State()), Try(me.id, now)) == Some(me)
      ensures turn.Permit? ==> turn.waited == Monus(now, me.enqueued) && !Expired(me, now)
      ensures turn.DeadlineExpired? <==> me.deadline.Some? && me.deadline.value <= now
      ensures turn.Permit? <==>
        && !old(owned) && (me.deadline.Some? ==> now < me.deadline.value)
        && forall v :: v in old(waiters) && v != me && (v.deadline.Some? ==> now < v.deadline.value) ==>
             Before(me, v, now)
      ensures forall v :: v in waiters <==> v in old(waiters) && (v != me || turn.Wait?)
      ensures owned <==> old(owned) || turn.Permit?
    {
      ghost var s := State();
      StepKeepsInv(s, Try(me.id, now));
      IndexIsFirst(waiters, me.id);
      SameIdSameWaiter(s, WaiterOf(waiters, me.id).value, me);
      GrantedExactly(s, me, now);
      OneLeaves(s, me);
      if me.deadline.Some? && me.deadline.value <= now {
        Remove(me.id);
        return DeadlineExpired;
      }
      var next := NextWaiter(now);
      if next.Some? && Chosen(waiters, now, me.id) {
        ChoiceIsUnique(waiters, now, next.value, me.id);
      }
      if !owned && next == Some(me.id) {
        Remove(me.id);
        owned := true;
        return Permit(Monus(now, me.enqueued));
      }
      return Wait;
    }

    /** A waiter dropped while still registered. */
    method Cancel(id: nat)
      requires Valid()
      modifies this
      ensures Valid() && State() == Next(old(State()), GiveUp(id))
      ensures owned == old(owned) && nextId == old(nextId)
      ensures forall w :: w in waiters <==> w in old(waiters) && w.id != id
    {
      RemoveLeavesOthers(waiters, id);
      StepKeepsInv(State(), GiveUp(id));
      Remove(id);
    }

    /** The permit is dropped. */
    method DropPermit()
      requires Valid()
      modifies this
      ensures Valid() && State() == Next(old(State()), Release)
      ensures !owned && waiters == old(waiters) && nextId == old(nextId)
    {
      owned := false;
    }
  }
}
