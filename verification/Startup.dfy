/**
 * Recovery at startup (crates/bodkin/src/trade/journal.rs, crates/bodkin/src/run.rs): every operation of the wallet
 * that is pending, or applied on receipts that are still recent, in whatever order the journal lists them.
 */
module Startup {
  import opened Common
  import opened Positions
  import opened Journal
  import opened Protocol
  import opened Safety
  import opened Engine
  import opened Exits
  import opened Fills
  import opened Recovery

  function SelectedIds(ops: map<OpId, Operation>, me: Address, head: nat): set<OpId> {
    set id | id in ops && Selected(ops[id], me, head)
  }

  /** The operations in some order, each once. */
  ghost predicate Lists(order: seq<OpId>, ids: set<OpId>) {
    NoRepeats(order) && forall id :: id in order <==> id in ids
  }

  /** One after another. */
  ghost function RecoverAll(w: World, order: seq<OpId>, view: ChainView, at: nat): (v: World)
    ensures v.ops.Keys == w.ops.Keys
  {
    if order == [] then w else
      var before, id := RecoverAll(w, order[..|order| - 1], view, at), order[|order| - 1];
      if id !in before.ops then before else
        RecoveryIsLocal(before, id, view, at);
        AfterRecovery(before, id, view, at)
  }

  /** The report: each operation as it was found when its turn came. */
  ghost function BlockedIn(w: World, order: seq<OpId>, view: ChainView, at: nat): set<OpId> {
    if order == [] then {} else
      var front, id := order[..|order| - 1], order[|order| - 1];
      var before := RecoverAll(w, front, view, at);
      BlockedIn(w, front, view, at) + (if id in before.ops && Blocks(before, id, view, at) then {id} else {})
  }

  lemma RecoverOneMore(w: World, order: seq<OpId>, id: OpId, view: ChainView, at: nat)
    requires id in w.ops
    ensures var v := RecoverAll(w, order, view, at);
      && RecoverAll(w, order + [id], view, at) == AfterRecovery(v, id, view, at)
      && BlockedIn(w, order + [id], view, at)
        == BlockedIn(w, order, view, at) + (if Blocks(v, id, view, at) then {id} else {})
  {
    assert (order + [id])[..|order|] == order;
  }

  /** Nobody else's turn changes an operation. */
  lemma {:induction false} OthersStay(w: World, order: seq<OpId>, id: OpId, view: ChainView, at: nat)
    requires id in w.ops && id !in order
    ensures RecoverAll(w, order, view, at).ops[id] == w.ops[id] && id !in BlockedIn(w, order, view, at)
  {
    if order != [] {
      var front, last := order[..|order| - 1], order[|order| - 1];
      OthersStay(w, front, id, view, at);
      if last in w.ops {
        RecoveryIsLocal(RecoverAll(w, front, view, at), last, view, at);
      }
    }
  }

  /** A turn is final: later ones leave the operation and its report alone. */
  lemma LaterTurn(w: World, order: seq<OpId>, id: OpId, view: ChainView, at: nat)
    requires order != [] && id in w.ops && order[|order| - 1] != id
    ensures var front := order[..|order| - 1];
      && RecoverAll(w, order, view, at).ops[id] == RecoverAll(w, front, view, at).ops[id]
      && (id in BlockedIn(w, order, view, at) <==> id in BlockedIn(w, front, view, at))
  {
    var last := order[|order| - 1];
    if last in w.ops {
      RecoveryIsLocal(RecoverAll(w, order[..|order| - 1], view, at), last, view, at);
    }
  }

  lemma LastTurn(w: World, order: seq<OpId>, view: ChainView, at: nat)
    requires NoRepeats(order) && order != [] && order[|order| - 1] in w.ops
    ensures var n := |order| - 1;
      var id, v := order[n], RecoverAll(w, order[..n], view, at);
      && v.ops[id] == w.ops[id] && id in AfterRecovery(v, id, view, at).ops
      && RecoverAll(w, order, view, at).ops[id] == AfterRecovery(v, id, view, at).ops[id]
      && (id in BlockedIn(w, order, view, at) <==> Blocks(v, id, view, at))
  {
    var n := |order| - 1;
    assert order[n] !in order[..n];
    OthersStay(w, order[..n], order[n], view, at);
    RecoverOneMore(w, order[..n], order[n], view, at);
    assert order[..n] + [order[n]] == order;
  }

  lemma {:induction false} TurnIsFinal(w: World, order: seq<OpId>, i: nat, view: ChainView, at: nat)
    requires NoRepeats(order) && i < |order| && order[i] in w.ops
    ensures var id, v := order[i], RecoverAll(w, order[..i], view, at);
      && v.ops[id] == w.ops[id] && id in AfterRecovery(v, id, view, at).ops
      && RecoverAll(w, order, view, at).ops[id] == AfterRecovery(v, id, view, at).ops[id]
      && (id in BlockedIn(w, order, view, at) <==> Blocks(v, id, view, at))
  {
    var n := |order| - 1;
    var front, id := order[..n], order[i];
    if i < n {
      assert front[..i] == order[..i] && order[n] != id && front[i] == id;
      TurnIsFinal(w, front, i, view, at);
      LaterTurn(w, order, id, view, at);
    } else {
      LastTurn(w, order, view, at);
    }
  }

  /**
   * Each operation is settled in its turn: from the state the ones before it left, as the specification of one
   * recovery says, and for good; and it is reported exactly when that turn left it blocked.
   */
  lemma SettledInTurn(w: World, order: seq<OpId>, i: nat, view: ChainView, at: nat)
    requires NoRepeats(order) && i < |order| && order[i] in w.ops && !w.ops[order[i]].state.Failed?
    ensures var id, v := order[i], RecoverAll(w, order[..i], view, at);
      Settled(w.ops[id], RecoverAll(w, order, view, at).ops[id], id in BlockedIn(w, order, view, at), view, v.book)
  {
    TurnIsFinal(w, order, i, view, at);
    SettledAtOnce(RecoverAll(w, order[..i], view, at), order[i], view, at);
  }

  lemma SettledAtOnce(v: World, id: OpId, view: ChainView, at: nat)
    requires id in v.ops && !v.ops[id].state.Failed?
    ensures id in AfterRecovery(v, id, view, at).ops
    ensures Settled(v.ops[id], AfterRecovery(v, id, view, at).ops[id], Blocks(v, id, view, at), view, v.book)
  {
    RecoveryIsLocal(v, id, view, at);
    if v.ops[id].state.Pending? {
      PendingForAReason(v, id, view, at);
    }
  }

  /** The book only grows. */
  lemma {:induction false} BookGrows(w: World, order: seq<OpId>, view: ChainView, at: nat)
    ensures Ahead(w.book, RecoverAll(w, order, view, at).book)
  {
    if order == [] {
      AheadOfItself(w.book);
    } else {
      var front, id := order[..|order| - 1], order[|order| - 1];
      BookGrows(w, front, view, at);
      if id in w.ops {
        var v := RecoverAll(w, front, view, at);
        RecoveryGrowsBook(v, id, view, at);
        AheadIsTransitive(w.book, v.book, AfterRecovery(v, id, view, at).book);
      }
    }
  }

  /**
   * Refreshes and settles the selected operations one after another. The stores end where that leads, and the report
   * is exactly the operations that their turn left blocked.
   */
  method Recover(e: Engine, view: ChainView, at: nat) returns (blocked: set<OpId>, ghost order: seq<OpId>)
    requires e.Valid() && e.positions.list == e.positions.saved
    modifies e, e.journal, e.positions
    ensures e.Valid() && e.positions.list == e.positions.saved
    ensures Lists(order, SelectedIds(old(e.journal.operations), e.me, view.head))
    ensures e.State() == RecoverAll(old(e.State()), order, view, at)
    ensures blocked == BlockedIn(old(e.State()), order, view, at)
  {
    var todo := set id | id in e.journal.operations && Selected(e.journal.operations[id], e.me, view.head);
    ghost var w0, selected := e.State(), todo;
    blocked, order := {}, [];
    while todo != {}
      invariant e.Valid() && e.positions.list == e.positions.saved
      invariant Lists(order, selected - todo) && todo <= selected
      invariant e.State() == RecoverAll(w0, order, view, at) && blocked == BlockedIn(w0, order, view, at)
    {
      var id :| id in todo;
      OthersStay(w0, order, id, view, at);
      RecoverOneMore(w0, order, id, view, at);
      ListsOneMore(order, selected, todo, id);
      var stuck := RecoverOne(e, id, view, at);
      if stuck {
        blocked := blocked + {id};
      }
      order, todo := order + [id], todo - {id};
    }
  }

  lemma ListsOneMore(order: seq<OpId>, selected: set<OpId>, todo: set<OpId>, id: OpId)
    requires Lists(order, selected - todo) && id in todo && todo <= selected
    ensures Lists(order + [id], selected - (todo - {id}))
  {
  }

  /**
   * What the report means: whatever of the wallet is still pending is in it; an applied operation is exactly when its
   * receipts changed; and nothing that was not selected was touched.
   */
  lemma ReportIsComplete(w: World, order: seq<OpId>, me: Address, view: ChainView, at: nat, id: OpId)
    requires Lists(order, SelectedIds(w.ops, me, view.head)) && id in w.ops
    ensures var v, blocked := RecoverAll(w, order, view, at), BlockedIn(w, order, view, at);
      && Mine(v.ops[id], me) == Mine(w.ops[id], me)
      && (id in blocked <==> Mine(v.ops[id], me) && (v.ops[id].state.Pending? || Unsound(w.ops, id, me, view)))
      && (!Selected(w.ops[id], me, view.head) ==> v.ops[id] == w.ops[id])
  {
    if id in order {
      var i :| 0 <= i < |order| && order[i] == id;
      SettledInTurn(w, order, i, view, at);
    } else {
      OthersStay(w, order, id, view, at);
    }
  }

  /** An applied operation that recovery looks at again and whose receipts are no longer what it was applied on. */
  predicate Unsound(ops: map<OpId, Operation>, id: OpId, me: Address, view: ChainView) {
    && id in ops && ops[id].state.Applied? && Selected(ops[id], me, view.head)
    && ReceiptsChanged(ops[id], Refreshed(ops[id], view))
  }

  // ---- Transactions in doubt -----------------------------------------------------------------------

  ghost predicate HasDoubt(op: Operation, view: ChainView) {
    exists t :: t in op.txs && InDoubt(t, op.createdAt, view)
  }

  ghost predicate IsInDoubt(ops: map<OpId, Operation>, id: OpId, me: Address, view: ChainView) {
    id in ops && Mine(ops[id], me) && ops[id].state.Pending? && HasDoubt(ops[id], view)
  }

  /**
   * While a transaction may still land, recovery never fails its operation. An entry, reopened or not, and a command
   * stay pending and block the startup; an exit does too, unless the book has its leg already or takes its one
   * confirmed sale now.
   */
  lemma DoubtKeepsOpen(w: World, order: seq<OpId>, i: nat, view: ChainView, at: nat)
    requires NoRepeats(order) && i < |order| && order[i] in w.ops
    requires w.ops[order[i]].state.Pending? && HasDoubt(w.ops[order[i]], view)
    ensures var id, u, v := order[i], RecoverAll(w, order[..i], view, at), RecoverAll(w, order, view, at);
      && (exists t :: t in v.ops[id].txs && t.state.Unresolved?)
      && !v.ops[id].state.Failed? && (v.ops[id].state.Pending? <==> id in BlockedIn(w, order, view, at))
      && (v.ops[id].state.Applied? <==>
            && w.ops[id].spec.ExitOf?
            && (HasLeg(u.book, HashesOf(w.ops[id].txs))
                || SaleToBook(v.ops[id].txs, u.book, w.ops[id].spec.positionId, view)))
  {
    var id, u := order[i], RecoverAll(w, order[..i], view, at);
    TurnIsFinal(w, order, i, view, at);
    DoubtStays(u, id, view, at);
  }

  lemma DoubtStays(u: World, id: OpId, view: ChainView, at: nat)
    requires id in u.ops && u.ops[id].state.Pending? && HasDoubt(u.ops[id], view)
    ensures var v := AfterRecovery(u, id, view, at);
      && id in v.ops
      && (exists t :: t in v.ops[id].txs && t.state.Unresolved?)
      && !v.ops[id].state.Failed? && (v.ops[id].state.Pending? <==> Blocks(u, id, view, at))
      && (v.ops[id].state.Applied? <==>
            && u.ops[id].spec.ExitOf?
            && (HasLeg(u.book, HashesOf(u.ops[id].txs))
                || SaleToBook(v.ops[id].txs, u.book, u.ops[id].spec.positionId, view)))
  {
    var op := u.ops[id];
    var t :| t in op.txs && InDoubt(t, op.createdAt, view);
    var j :| 0 <= j < |op.txs| && op.txs[j] == t;
    RecordAfterRecovery(u, id, j, view, at);
    RecoveryIsLocal(u, id, view, at);
    PendingForAReason(u, id, view, at);
    assert Refreshed(op, view).txs[j].state.Unresolved? && HasAmbiguous(Refreshed(op, view));
    RefreshHashes(op, view);
    if op.spec.ExitOf? && !HasLeg(u.book, HashesOf(op.txs)) {
      RecoveredSaleIsBooked(u, id, view, at);
    }
  }

  /** Nothing of the operation landed and nothing may still land. */
  predicate NothingLanded(op: Operation, view: ChainView) {
    forall t :: t in op.txs ==> GivenUp(t) || (t.hash !in view.receipts && !InDoubt(t, op.createdAt, view))
  }

  /** Conversely, once nothing of it landed or may still land, the operation is dropped for good, and not reported. */
  lemma NothingLandedFails(w: World, order: seq<OpId>, i: nat, view: ChainView, at: nat)
    requires NoRepeats(order) && i < |order| && order[i] in w.ops
    requires w.ops[order[i]].state.Pending? && NothingLanded(w.ops[order[i]], view)
    requires NoResult(RecoverAll(w, order[..i], view, at).book, w.ops[order[i]])
    ensures var id, u, v := order[i], RecoverAll(w, order[..i], view, at), RecoverAll(w, order, view, at);
      && (forall t :: t in v.ops[id].txs ==> GivenUp(t))
      && (v.ops[id].state.Failed? <==> id !in BlockedIn(w, order, view, at))
      && (v.ops[id].state.Failed? <==>
            || !w.ops[id].spec.ExitOf? || OperationGas(v.ops[id].txs) == 0
            || exists k: nat :: FirstWith(u.book, w.ops[id].spec.positionId, k))
  {
    var id, u := order[i], RecoverAll(w, order[..i], view, at);
    TurnIsFinal(w, order, i, view, at);
    LostForGood(u, id, view, at);
  }

  lemma LostForGood(u: World, id: OpId, view: ChainView, at: nat)
    requires id in u.ops && u.ops[id].state.Pending? && NothingLanded(u.ops[id], view) && NoResult(u.book, u.ops[id])
    ensures var v := AfterRecovery(u, id, view, at);
      && id in v.ops && (forall t :: t in v.ops[id].txs ==> GivenUp(t))
      && (v.ops[id].state.Failed? <==> !Blocks(u, id, view, at))
      && (v.ops[id].state.Failed? <==>
            || !u.ops[id].spec.ExitOf? || OperationGas(v.ops[id].txs) == 0
            || exists k: nat :: FirstWith(u.book, u.ops[id].spec.positionId, k))
  {
    var op, now := u.ops[id], Refreshed(u.ops[id], view);
    forall j | 0 <= j < |op.txs| ensures GivenUp(now.txs[j]) {
      assert op.txs[j] in op.txs;
      RecordAfterRecovery(u, id, j, view, at);
    }
    RecoveryIsLocal(u, id, view, at);
    RefreshHashes(op, view);
    AllGivenUp(now.txs, view);
    FindIsFirst(u.book, if op.spec.ExitOf? then op.spec.positionId else PosId(0, 0));
    if op.spec.ExitOf? && Find(u.book, op.spec.positionId).Some? {
      assert FirstWith(u.book, op.spec.positionId, Find(u.book, op.spec.positionId).value);
    }
  }

  lemma AllGivenUp(txs: seq<TxRecord>, view: ChainView)
    requires forall t :: t in txs ==> GivenUp(t)
    ensures SalesIn(txs) == [] && LandedIn(txs, view) == [] && FirstEffect(txs).None?
  {
    forall j | 0 <= j < |txs| ensures GivenUp(txs[j]) {
      assert txs[j] in txs;
    }
    NoneSold(txs);
    FirstEffectActs(txs);
    NoneLanded(txs, view);
  }

  lemma {:induction false} NoneLanded(txs: seq<TxRecord>, view: ChainView)
    requires forall j :: 0 <= j < |txs| ==> GivenUp(txs[j])
    ensures LandedIn(txs, view) == []
  {
    if txs != [] {
      NoneLanded(txs[..|txs| - 1], view);
    }
  }

  /** The transaction is mined, and the chain no longer has it where, or as, the journal has it. */
  predicate Displaced(t: TxRecord, view: ChainView) {
    && (t.state.Confirmed? || t.state.Reverted?)
    && !(Placed(view, t.hash) && view.receipts[t.hash].status == Some(t.state.Confirmed?)
         && view.receipts[t.hash].blockNumber == t.blockNumber && view.receipts[t.hash].blockHash == t.blockHash)
  }

  /** Mined at most 64 blocks below the head, if the block is known. */
  predicate MinedLately(t: TxRecord, head: nat) {
    (t.state.Confirmed? || t.state.Reverted?) && (t.blockNumber.Some? ==> head <= t.blockNumber.value + 64)
  }

  /**
   * An applied operation stops the startup exactly when it is this wallet's on this chain, one of its transactions was
   * mined lately, and one is displaced.
   */
  lemma UnsoundExactly(ops: map<OpId, Operation>, id: OpId, me: Address, view: ChainView)
    requires id in ops && DistinctHashes(ops[id].txs) && view.head < U64
    requires forall t :: t in ops[id].txs && IsMined(t.state) ==> t.blockNumber.Some? && t.blockHash.Some?
    ensures Unsound(ops, id, me, view) <==>
      && ops[id].state.Applied? && ops[id].wallet == me && ops[id].chainId == 4663
      && (exists t :: t in ops[id].txs && MinedLately(t, view.head))
      && exists t :: t in ops[id].txs && Displaced(t, view)
  {
    var op := ops[id];
    ReorgIsReportedExactly(op, view);
    forall t | t in op.txs
      ensures MinedLately(t, view.head) <==> IsMined(t.state) && IsRecent(t, view.head)
      ensures Displaced(t, view) <==> IsMined(t.state) && !StillHas(view, t)
    {
    }
  }

  /**
   * Live startup: a process that died anywhere begins from what was committed and recovers. It goes on exactly when no
   * operation of the wallet is left pending and no applied one has lost its receipts; in particular not past an entry
   * or a command one of whose transactions may still land.
   */
  method StartLive(e: Engine, view: ChainView, at: nat) returns (ok: bool, ghost order: seq<OpId>)
    requires e.Valid()
    modifies e, e.journal, e.positions
    ensures e.Valid() && e.positions.list == e.positions.saved
    ensures Lists(order, SelectedIds(old(e.journal.operations), e.me, view.head))
    ensures e.State() == RecoverAll(Next(old(e.State()), Crash), order, view, at)
    ensures ok <==> BlockedIn(Next(old(e.State()), Crash), order, view, at) == {}
    ensures ok <==> forall id | id in e.journal.operations && Mine(e.journal.operations[id], e.me) ::
      !e.IsOpen(id) && !Unsound(old(e.journal.operations), id, e.me, view)
    ensures ok ==> forall id | IsInDoubt(old(e.journal.operations), id, e.me, view) ::
      old(e.journal.operations)[id].spec.ExitOf? && id in e.journal.operations
      && e.journal.operations[id].state.Applied?
  {
    e.Restart();
    ghost var w := e.State();
    var blocked;
    blocked, order := Recover(e, view, at);
    EmptyReport(w, e.State(), order, e.me, view, at, blocked);
    if blocked == {} {
      DoubtsAreReported(w, e.State(), order, e.me, view, at);
    }
    return blocked == {}, order;
  }

  /** Still pending after the recovery, or applied on receipts that are gone. */
  predicate Troubled(before: map<OpId, Operation>, after: map<OpId, Operation>, id: OpId, me: Address,
                     view: ChainView) {
    id in after && Mine(after[id], me) && (after[id].state.Pending? || Unsound(before, id, me, view))
  }

  lemma NoneTroubled(before: map<OpId, Operation>, after: map<OpId, Operation>, me: Address, view: ChainView,
                     blocked: set<OpId>)
    requires forall id :: id in blocked <==> Troubled(before, after, id, me, view)
    ensures blocked == {} <==>
      forall id | id in after && Mine(after[id], me) :: !after[id].state.Pending? && !Unsound(before, id, me, view)
  {
    if blocked == {} {
      forall id | id in after && Mine(after[id], me)
        ensures !after[id].state.Pending? && !Unsound(before, id, me, view)
      {
        assert !Troubled(before, after, id, me, view);
      }
    } else {
      var id :| id in blocked;
      assert Troubled(before, after, id, me, view);
    }
  }

  /** An empty report: nothing of the wallet is pending or has lost its receipts. */
  lemma EmptyReport(w: World, v: World, order: seq<OpId>, me: Address, view: ChainView, at: nat, blocked: set<OpId>)
    requires Lists(order, SelectedIds(w.ops, me, view.head))
    requires v == RecoverAll(w, order, view, at) && blocked == BlockedIn(w, order, view, at)
    ensures blocked == {} <==>
      forall id | id in v.ops && Mine(v.ops[id], me) :: !v.ops[id].state.Pending? && !Unsound(w.ops, id, me, view)
  {
    BlockedAreKnown(w, order, view, at);
    forall id
      ensures id in blocked <==> Troubled(w.ops, v.ops, id, me, view)
    {
      if id in w.ops {
        ReportIsComplete(w, order, me, view, at, id);
      }
    }
    NoneTroubled(w.ops, v.ops, me, view, blocked);
  }

  /** And nothing in doubt was passed over. */
  lemma DoubtsAreReported(w: World, v: World, order: seq<OpId>, me: Address, view: ChainView, at: nat)
    requires Lists(order, SelectedIds(w.ops, me, view.head)) && BlockedIn(w, order, view, at) == {}
    requires v == RecoverAll(w, order, view, at)
    ensures forall id | IsInDoubt(w.ops, id, me, view) ::
      w.ops[id].spec.ExitOf? && id in v.ops && v.ops[id].state.Applied?
  {
    forall id | IsInDoubt(w.ops, id, me, view)
      ensures w.ops[id].spec.ExitOf? && id in v.ops && v.ops[id].state.Applied?
    {
      DoubtIsReported(w, order, me, view, at, id);
    }
  }

  lemma DoubtIsReported(w: World, order: seq<OpId>, me: Address, view: ChainView, at: nat, id: OpId)
    requires Lists(order, SelectedIds(w.ops, me, view.head)) && IsInDoubt(w.ops, id, me, view)
    ensures var v := RecoverAll(w, order, view, at);
      id in BlockedIn(w, order, view, at) || (w.ops[id].spec.ExitOf? && v.ops[id].state.Applied?)
  {
    assert id in SelectedIds(w.ops, me, view.head) && id in order;
    var i :| 0 <= i < |order| && order[i] == id;
    DoubtKeepsOpen(w, order, i, view, at);
  }

  lemma {:induction false} BlockedAreKnown(w: World, order: seq<OpId>, view: ChainView, at: nat)
    ensures BlockedIn(w, order, view, at) <= w.ops.Keys
  {
    if order != [] {
      BlockedAreKnown(w, order[..|order| - 1], view, at);
    }
  }
}
