/** What every legal run of the protocol guarantees, whatever crashes it contains. */
module Safety {
  import opened Common
  import opened Positions
  import opened Journal
  import opened Protocol

  /** `t` is the run `u` up to some moment. */
  predicate Within(t: Trace, u: Trace) {
    t == u || (u.Then? && Within(t, u.before))
  }

  /** An entry operation ends up with at most one position, in the book and in the committed copy. */
  lemma OnePositionPerEntry(t: Trace, id: OpId, i: nat, j: nat)
    requires Legal(t) && id in Replay(t).ops
    ensures var w, hs := Replay(t), HashesOf(Replay(t).ops[id].txs);
      && (EntryAt(w.book, hs, i) && EntryAt(w.book, hs, j) ==> i == j)
      && (EntryAt(w.saved, hs, i) && EntryAt(w.saved, hs, j) ==> i == j)
  {
    EveryRunIsSafe(t);
    var w := Replay(t);
    LessKeepsBook(w.ops, w.saved, w.book);
    assert Once(w.book, HashesOf(w.ops[id].txs)) && Once(w.saved, HashesOf(w.ops[id].txs));
  }

  /** An exit operation ends up with at most one recorded leg, on the position it names. */
  lemma OneLegPerExit(t: Trace, id: OpId, i: nat, k: nat, j: nat, l: nat)
    requires Legal(t) && id in Replay(t).ops
    ensures var w, hs := Replay(t), HashesOf(Replay(t).ops[id].txs);
      && (LegAt(w.book, hs, i, k) && LegAt(w.book, hs, j, l) ==> i == j && k == l)
      && (LegAt(w.book, hs, i, k) ==> w.ops[id].spec.ExitOf? && w.book[i].id == w.ops[id].spec.positionId)
  {
    EveryRunIsSafe(t);
    var w := Replay(t);
    assert Once(w.book, HashesOf(w.ops[id].txs));
    if LegAt(w.book, HashesOf(w.ops[id].txs), i, k) {
      assert Known(w.ops, w.book[i]);
      assert LegKnown(w.ops, w.book[i], w.book[i].exits[k]);
      var h := w.book[i].exits[k].tx.value;
      assert Staged(w.ops, id, h);
      assert OpsInv(w.ops, w.sent);
    }
  }

  /** The gas of an exit operation is charged to one position at most, and there at most once. */
  lemma OneChargePerExit(t: Trace, id: OpId, i: nat, j: nat)
    requires Legal(t)
    requires ChargedAt(Replay(t).book, id, i) && ChargedAt(Replay(t).book, id, j)
    ensures i == j
    ensures NoRepeats(Replay(t).book[i].overheadOperations)
  {
    EveryRunIsSafe(t);
    ChargesAgree(Replay(t), id, i, j);
  }

  lemma ChargesAgree(w: World, id: OpId, i: nat, j: nat)
    requires BookInv(w.ops, w.book) && ChargedAt(w.book, id, i) && ChargedAt(w.book, id, j)
    ensures i == j && NoRepeats(w.book[i].overheadOperations)
  {
    assert Known(w.ops, w.book[i]) && Known(w.ops, w.book[j]);
    assert ChargeKnown(w.ops, w.book[i], id) && ChargeKnown(w.ops, w.book[j], id);
    assert TouchedIsFirst(w.book, i) && TouchedIsFirst(w.book, j);
  }

  /**
   * Whatever was handed to the sequencer is a transaction of a journalled operation, and that operation was pending
   * then.
   */
  lemma {:induction false} NothingIsSentUnstaged(t: Trace, h: Hash)
    requires Legal(t) && h in Replay(t).sent
    ensures exists id, s ::
      Within(Then(s, Send(id, h)), t) && Staged(Replay(s).ops, id, h) && Replay(s).ops[id].state.Pending?
  {
    var before, a := t.before, t.action;
    if h in Replay(before).sent {
      NothingIsSentUnstaged(before, h);
      var id, s :|
        Within(Then(s, Send(id, h)), before) && Staged(Replay(s).ops, id, h) && Replay(s).ops[id].state.Pending?;
      assert Within(Then(s, Send(id, h)), t);
    } else {
      assert a == Send(a.id, h);
      assert Within(Then(before, Send(a.id, h)), t);
    }
  }

  /**
   * A failed operation has no transaction that may still land, an exit or command also none that did anything, and it
   * left nothing in the book but its gas.
   */
  lemma FailureIsFinal(t: Trace, id: OpId)
    requires Legal(t) && id in Replay(t).ops && Replay(t).ops[id].state.Failed?
    ensures forall x :: x in Replay(t).ops[id].txs ==> !IsAmbiguous(x.state)
    ensures !Replay(t).ops[id].spec.Entry? ==>
      forall x :: x in Replay(t).ops[id].txs && x.state.Confirmed? ==> !HasEffect(x)
    ensures NoResult(Replay(t).book, Replay(t).ops[id])
    ensures Replay(t).ops[id].spec.ExitOf? && OperationGas(Replay(t).ops[id].txs) > 0 ==> IsCharged(Replay(t).saved, id)
  {
    EveryRunIsSafe(t);
    assert StateInv(Replay(t), id);
  }

  /** Two pending operations of one wallet never share a subject. */
  lemma OnePendingPerSubject(t: Trace, a: OpId, b: OpId)
    requires Legal(t) && a in Replay(t).ops && b in Replay(t).ops
    requires var x, y := Replay(t).ops[a], Replay(t).ops[b];
      x.state.Pending? && y.state.Pending? && x.wallet == y.wallet && OneSubject(x.spec, y.spec)
    ensures a == b
  {
    EveryRunIsSafe(t);
    assert Rivals(Replay(t).ops[a], Replay(t).ops[b]);
  }

  // ---- Gas ---------------------------------------------------------------------------------------

  /** No transaction was dropped while it had gas written on it. */
  predicate NoGasDropped(t: Trace) {
    t.Start?
    || (NoGasDropped(t.before)
        && (t.action.DropTx? && t.action.id in Replay(t.before).ops ==>
              forall x :: x in Replay(t.before).ops[t.action.id].txs && x.hash == t.action.hash ==> GasOf(x) == 0))
  }

  lemma StepLeavesNoStaleGas(w: World, a: Action, id: OpId)
    requires Enabled(w, a) && id in Next(w, a).ops
    requires forall o :: o in w.ops ==> !CarriesStaleGas(w.ops[o].txs)
    requires a.DropTx? && a.id in w.ops ==> forall x :: x in w.ops[a.id].txs && x.hash == a.hash ==> GasOf(x) == 0
    ensures !CarriesStaleGas(Next(w, a).ops[id].txs)
  {
    if a.Record? && a.id == id {
      EventsLeaveNoStaleGas(w.ops[id], a.event);
    } else if a.DropTx? && a.id == id {
      DropLeavesStaleGas(w.ops[id].txs, a.hash);
    }
  }

  /**
   * What the journal charges for an operation is the gas of its mined transactions in every run that drops none with
   * gas.
   */
  lemma {:induction false} GasIsMinedUntilOneIsDropped(t: Trace, id: OpId)
    requires Legal(t) && NoGasDropped(t) && id in Replay(t).ops
    ensures !CarriesStaleGas(Replay(t).ops[id].txs)
    ensures OperationGas(Replay(t).ops[id].txs) == MinedGas(Replay(t).ops[id].txs)
  {
    if t.Then? {
      forall o | o in Replay(t.before).ops ensures !CarriesStaleGas(Replay(t.before).ops[o].txs) {
        GasIsMinedUntilOneIsDropped(t.before, o);
      }
      StepLeavesNoStaleGas(Replay(t.before), t.action, id);
    }
    StaleGasSplit(Replay(t).ops[id].txs);
  }

  // ---- Gas that is counted twice ------------------------------------------------------------------

  /** The exit has a leg, which carries its gas, and was charged for its gas as well. */
  ghost predicate CountedTwice(w: World, id: OpId)
    requires id in w.ops
  {
    IsCharged(w.book, id) && HasLeg(w.book, HashesOf(w.ops[id].txs))
  }

  /** The action sells for an exit that is already charged. */
  ghost predicate SellsCharged(w: World, a: Action) {
    && a.SellFrom? && a.id in w.ops && w.ops[a.id].spec.ExitOf? && IsCharged(w.book, a.id)
    && var i := Find(w.book, w.ops[a.id].spec.positionId);
       i.Some? && i.value < |w.book| && Sells(w.book[i.value], a.tokens)
  }

  lemma SaleCounts(w: World, a: Action, id: OpId)
    requires Inv(w) && Enabled(w, a) && a.SellFrom? && id in w.ops && !CountedTwice(w, id)
    ensures CountedTwice(Next(w, a), id) <==> a.id == id && SellsCharged(w, a)
  {
    var pos, hs, v := w.ops[a.id].spec.positionId, HashesOf(w.ops[id].txs), Next(w, a);
    assert Staged(w.ops, a.id, a.hash) && (a.hash in hs <==> Staged(w.ops, id, a.hash));
    var f := Find(w.book, pos);
    if f.Some? {
      FirstFound(w.book, pos);
      var n := |w.book[f.value].exits|;
      SaleShows(w.book, v.book, f.value, hs, id, Sells(w.book[f.value], a.tokens) && a.hash in hs);
    }
  }

  /** A book in which one position gained at most one leg. */
  lemma SaleShows(book: seq<Position>, now: seq<Position>, i: nat, hs: set<Hash>, id: OpId, shown: bool)
    requires i < |book| == |now| && now == book[i := now[i]] && now[i].overheadOperations == book[i].overheadOperations
    requires
      || (!shown && now[i].exits == book[i].exits)
      || (|now[i].exits| == |book[i].exits| + 1 && now[i].exits[..|book[i].exits|] == book[i].exits
          && var tx := now[i].exits[|book[i].exits|].tx; tx.Some? && (tx.value in hs <==> shown))
    ensures HasLeg(now, hs) <==> HasLeg(book, hs) || shown
    ensures IsCharged(now, id) <==> IsCharged(book, id)
  {
    forall j: nat, k: nat
      ensures LegAt(now, hs, j, k) <==> LegAt(book, hs, j, k) || (j == i && k == |book[i].exits| && shown)
    {
      if j == i && k < |book[i].exits| && |now[i].exits| > |book[i].exits| {
        assert now[i].exits[k] == now[i].exits[..|book[i].exits|][k];
      }
    }
    if shown {
      assert LegAt(now, hs, i, |book[i].exits|);
    }
    forall j: nat ensures ChargedAt(now, id, j) <==> ChargedAt(book, id, j) {
    }
  }

  lemma ChargeCounts(w: World, a: Action, id: OpId)
    requires Inv(w) && Enabled(w, a) && a.Charge? && id in w.ops && !CountedTwice(w, id)
    ensures !CountedTwice(Next(w, a), id)
  {
    var f, hs, v := Find(w.book, w.ops[a.id].spec.positionId), HashesOf(w.ops[id].txs), Next(w, a);
    if f.Some? {
      FirstFound(w.book, w.ops[a.id].spec.positionId);
      assert forall j: nat, k: nat :: LegAt(v.book, hs, j, k) <==> LegAt(w.book, hs, j, k);
      if a.id != id {
        assert forall j: nat :: ChargedAt(v.book, id, j) <==> ChargedAt(w.book, id, j);
      }
    }
  }

  lemma CommittedCountsLess(w: World, id: OpId)
    requires Inv(w) && id in w.ops
    ensures CountedTwice(w.(book := w.saved), id) ==> CountedTwice(w, id)
  {
    GrowsEvidence(w.saved, w.book, HashesOf(w.ops[id].txs));
    if IsCharged(w.saved, id) {
      var i: nat :| ChargedAt(w.saved, id, i);
      assert Grew(w.saved[i], w.book[i]);
      assert ChargedAt(w.book, id, i);
    }
  }

  lemma JournalCountsTheSame(w: World, a: Action, id: OpId)
    requires Inv(w) && Enabled(w, a) && (a.Record? || a.DropTx?) && id in w.ops
    ensures CountedTwice(Next(w, a), id) <==> CountedTwice(w, id)
  {
    var v := Next(w, a);
    if a.Record? {
      EventHashes(w.ops[a.id], a.event);
      OneChangeExtends(w.ops, a.id, v.ops[a.id], NewHashes(a.event));
    } else {
      DropHashes(w.ops[a.id].txs, a.hash);
      OneChangeExtends(w.ops, a.id, v.ops[a.id], {});
    }
    ExtendsShowsNothingNew(w.ops, v.ops, w.book, id);
  }

  /** One step makes an exit pay twice exactly when it sells for an exit that is already charged. */
  lemma CountsTwiceExactly(w: World, a: Action, id: OpId)
    requires Inv(w) && Enabled(w, a) && id in w.ops && !CountedTwice(w, id)
    ensures CountedTwice(Next(w, a), id) <==> SellsCharged(w, a) && a.id == id
  {
    match a
    case SellFrom(_, _, _, _, _, _) => SaleCounts(w, a, id);
    case Charge(_, _) => ChargeCounts(w, a, id);
    case Record(_, _) => JournalCountsTheSame(w, a, id);
    case DropTx(_, _) => JournalCountsTheSame(w, a, id);
    case Crash => CommittedCountsLess(w, id);
    case OpenFrom(_, _, _, _, _, _) =>
      var hs, v := HashesOf(w.ops[id].txs), Next(w, a);
      assert forall j: nat, k: nat :: LegAt(v.book, hs, j, k) <==> LegAt(w.book, hs, j, k);
      assert forall j: nat :: ChargedAt(v.book, id, j) <==> ChargedAt(w.book, id, j);
    case _ =>
  }

  lemma NewcomersShowNothing(w: World, a: Action, id: OpId)
    requires Enabled(w, a) && id !in w.ops && id in Next(w, a).ops
    ensures !CountedTwice(Next(w, a), id)
  {
    assert a.Begin? && a.id == id;
    assert HashesOf(Next(w, a).ops[id].txs) == {};
  }

  ghost predicate NeverSellsCharged(t: Trace) {
    t.Start? || (NeverSellsCharged(t.before) && !SellsCharged(Replay(t.before), t.action))
  }

  /** In every run that never sells for a charged exit, the gas of an exit counts once: in its leg or as overhead. */
  lemma {:induction false} GasCountsOnce(t: Trace, id: OpId)
    requires Legal(t) && NeverSellsCharged(t) && id in Replay(t).ops
    ensures !CountedTwice(Replay(t), id)
  {
    if t.Then? {
      EveryRunIsSafe(t.before);
      if id in Replay(t.before).ops {
        GasCountsOnce(t.before, id);
        CountsTwiceExactly(Replay(t.before), t.action, id);
      } else {
        NewcomersShowNothing(Replay(t.before), t.action, id);
      }
    }
  }

  // ---- The life of every position ----------------------------------------------------------------

  /** A position as it was opened, and what happened to it since. */
  datatype Life = Life(born: Position, events: seq<Positions.Event>)

  /** The lives behind the book and behind its committed copy. */
  datatype Lives = Lives(book: seq<Life>, saved: seq<Life>)

  function Lived(lives: seq<Life>, i: Option<nat>, e: Positions.Event): seq<Life> {
    if i.Some? && i.value < |lives| then lives[i.value := lives[i.value].(events := lives[i.value].events + [e])]
    else lives
  }

  function NextLives(l: Lives, w: World, a: Action): Lives {
    match a
    case OpenFrom(_, position, h, eth, gas, tokens) =>
      l.(book := l.book + [Life(Opened(position, Some(h), eth, gas, tokens), [])])
    case SellFrom(id, tokens, eth, gas, h, at) =>
      if id in w.ops && w.ops[id].spec.ExitOf? then
        l.(book := Lived(l.book, Find(w.book, w.ops[id].spec.positionId),
                         Sale(tokens, eth, gas, w.ops[id].spec.reason, Some(h), at)))
      else l
    case Charge(id, gas) =>
      if id in w.ops && w.ops[id].spec.ExitOf? then
        l.(book := Lived(l.book, Find(w.book, w.ops[id].spec.positionId), FailedExit(id, gas)))
      else l
    case Flush => l.(saved := l.book)
    case Crash => l.(book := l.saved)
    case _ => l
  }

  /** What a run did to each position and what of it survived. */
  function LivesIn(t: Trace): Lives {
    match t
    case Start => Lives([], [])
    case Then(before, a) => NextLives(LivesIn(before), Replay(before), a)
  }

  predicate Fits(p: Position, l: Life) {
    && l.born == Opened(l.born.id, l.born.entryTx, l.born.entryEth, l.born.entryGasWei, l.born.tokens)
    && p == AfterAll(l.born, l.events)
  }

  predicate AllFit(book: seq<Position>, lives: seq<Life>) {
    |book| == |lives| && forall i :: 0 <= i < |book| ==> Fits(book[i], lives[i])
  }

  lemma OneMoreEvent(book: seq<Position>, lives: seq<Life>, i: nat, e: Positions.Event)
    requires AllFit(book, lives) && i < |book|
    ensures AllFit(book[i := After(book[i], e)], Lived(lives, Some(i), e))
  {
    var es := lives[i].events;
    assert Fits(book[i], lives[i]);
    assert (es + [e])[..|es|] == es;
    assert AfterAll(lives[i].born, es + [e]) == After(book[i], e);
  }

  lemma StepFits(w: World, l: Lives, a: Action)
    requires AllFit(w.book, l.book) && AllFit(w.saved, l.saved)
    ensures AllFit(Next(w, a).book, NextLives(l, w, a).book) && AllFit(Next(w, a).saved, NextLives(l, w, a).saved)
  {
    if (a.SellFrom? || a.Charge?) && a.id in w.ops && w.ops[a.id].spec.ExitOf? {
      var spec := w.ops[a.id].spec;
      var i := Find(w.book, spec.positionId);
      var e :=
        if a.Charge? then FailedExit(a.id, a.gas)
        else Sale(a.tokens, a.eth, a.gas, spec.reason, Some(a.hash), a.at);
      if i.Some? && i.value < |w.book| {
        OneMoreEvent(w.book, l.book, i.value, e);
      }
    }
  }

  /**
   * In every run the book is what the run's sales and failed exits made of the positions it opened, and so is the
   * disk.
   */
  lemma {:induction false} EveryPositionIsItsLife(t: Trace)
    ensures AllFit(Replay(t).book, LivesIn(t).book) && AllFit(Replay(t).saved, LivesIn(t).saved)
  {
    if t.Then? {
      EveryPositionIsItsLife(t.before);
      StepFits(Replay(t.before), LivesIn(t.before), t.action);
    }
  }

  /**
   * So the books balance in every run: each position, in the book and on disk, conserves what its own sales released,
   * counts each failed exit's gas once, and nets the sum of its legs minus that overhead.
   */
  lemma EveryRunBalances(t: Trace, i: nat, onDisk: bool)
    requires i < |if onDisk then Replay(t).saved else Replay(t).book|
    ensures var p := (if onDisk then Replay(t).saved else Replay(t).book)[i];
      var lives := if onDisk then LivesIn(t).saved else LivesIn(t).book;
      && i < |lives|
      && var l := lives[i];
         && p == AfterAll(l.born, l.events)
         && Conserved(l.born, p, Reports(l.born, l.events)) && OverheadCounted(l.born, l.events)
         && NetRealizedPnl(p) == SumReports(Reports(l.born, l.events)).net - Overhead(l.events)
  {
    EveryPositionIsItsLife(t);
    var book := if onDisk then Replay(t).saved else Replay(t).book;
    var lives := if onDisk then LivesIn(t).saved else LivesIn(t).book;
    assert Fits(book[i], lives[i]);
    BooksBalance(lives[i].born, lives[i].events);
  }

  // ---- From one moment of a run to a later one ---------------------------------------------------

  lemma AheadIsTransitive(a: seq<Position>, b: seq<Position>, c: seq<Position>)
    requires Ahead(a, b) && Ahead(b, c)
    ensures Ahead(a, c)
  {
    forall i | 0 <= i < |a| ensures Grew(a[i], c[i]) {
      assert Grew(a[i], b[i]) && Grew(b[i], c[i]);
    }
  }

  /** The same operation later: its transactions are still there, and once settled it is settled for good. */
  predicate Later(a: Operation, b: Operation) {
    && HashesOf(a.txs) <= HashesOf(b.txs)
    && a.spec == b.spec
    && (!a.state.Pending? ==> b.state == a.state)
    && (a.state.Failed? ==> b == a)
  }

  /** Nothing journalled, committed or sent is lost on the way from `v` to `w`. */
  ghost predicate Follows(v: World, w: World) {
    && Ahead(v.saved, w.saved)
    && v.sent <= w.sent
    && forall id :: id in v.ops ==> id in w.ops && Later(v.ops[id], w.ops[id])
  }

  lemma EventIsLater(op: Operation, e: Journal.Event)
    requires DistinctHashes(op.txs) && !op.state.Failed?
    requires e.MarkApplied? || e.MarkFailed? ==> op.state.Pending?
    ensures Later(op, AfterEvent(op, e))
  {
    EventHashes(op, e);
  }

  lemma StepFollows(w: World, a: Action)
    requires Inv(w) && Enabled(w, a)
    ensures Follows(w, Next(w, a))
  {
    if a.Record? {
      EventIsLater(w.ops[a.id], a.event);
    } else if a.DropTx? {
      DropHashes(w.ops[a.id].txs, a.hash);
    }
  }

  lemma FollowsIsTransitive(u: World, v: World, w: World)
    requires Follows(u, v) && Follows(v, w)
    ensures Follows(u, w)
  {
    AheadIsTransitive(u.saved, v.saved, w.saved);
    forall id | id in u.ops ensures id in w.ops && Later(u.ops[id], w.ops[id]) {
      assert Later(u.ops[id], v.ops[id]) && Later(v.ops[id], w.ops[id]);
    }
  }

  /** What is committed is never lost, and a settled operation stays settled, through every later step and crash. */
  lemma {:induction false} CommittedIsNeverLost(t: Trace, u: Trace)
    requires Legal(u) && Within(t, u)
    ensures Legal(t) && Follows(Replay(t), Replay(u))
  {
    if t != u {
      CommittedIsNeverLost(t, u.before);
      EveryRunIsSafe(u.before);
      StepFollows(Replay(u.before), u.action);
      FollowsIsTransitive(Replay(t), Replay(u.before), Replay(u));
    }
  }

  /**
   * A run may stop anywhere: the restarted engine finds the invariant, and every applied operation's result in its
   * book.
   */
  lemma CrashAnywhere(t: Trace, u: Trace)
    requires Legal(u) && Within(t, u)
    ensures Legal(Then(t, Crash))
    ensures var w := Replay(Then(t, Crash));
      && Inv(w)
      && w.book == w.saved == Replay(t).saved
      && w.ops == Replay(t).ops
      && forall id :: id in w.ops && w.ops[id].state.Applied? ==> Done(w.book, w.ops[id])
  {
    CommittedIsNeverLost(t, u);
    EveryRunIsSafe(Then(t, Crash));
    var w := Replay(Then(t, Crash));
    forall id | id in w.ops && w.ops[id].state.Applied? ensures Done(w.book, w.ops[id]) {
      assert StateInv(w, id);
    }
  }
}
