/** Crash and recovery record what the uninterrupted engine would have recorded. */
module Refinement {
  import opened Common
  import opened Positions
  import opened Journal
  import opened Protocol
  import opened Submit
  import opened Sales
  import opened Exits
  import opened Fills
  import opened Entries
  import opened Recovery
  import opened Startup
  import opened RecoveryOrder

  /** The states a burst transaction passes through on the live path: staged, answered, followed. */
  predicate OnTheWay(t: TxRecord, staged: TxRecord, o: SendOutcome, view: ChainView) {
    t == staged || t == Marked(staged, FirstEvent(staged.hash, o)) || t == Reconciled1(staged, o, view)
  }

  /** The process died somewhere between staging the burst and opening the position. */
  ghost predicate DiedInBurst(op: Operation, staged: seq<TxRecord>, outcomes: seq<SendOutcome>, view: ChainView) {
    && |op.txs| == |staged| == |outcomes|
    && forall i :: 0 <= i < |staged| ==> OnTheWay(op.txs[i], staged[i], outcomes[i], view)
  }

  predicate FreshBurst(staged: seq<TxRecord>) {
    forall t :: t in staged ==> t.step.EntryStep? && t.state.Prepared? && t.gasWei.None?
  }

  /** What the sequencer refused is not on the chain, and everything else is there. */
  ghost predicate ChainAgrees(staged: seq<TxRecord>, outcomes: seq<SendOutcome>, view: ChainView)
    requires |staged| == |outcomes|
  {
    && !AnyMismatch(staged, outcomes) && !AnyUnresolved(FinalsOf(staged, outcomes, view))
    && forall i :: 0 <= i < |staged| && !Watched(staged[i].hash, outcomes[i]) ==> staged[i].hash !in view.receipts
  }

  /** One transaction after recovery's check: as followed live, or with nothing to its name. */
  lemma OneTransactionAgrees(t: TxRecord, staged: TxRecord, o: SendOutcome, view: ChainView, createdAt: nat)
    requires OnTheWay(t, staged, o, view) && staged.state.Prepared? && staged.gasWei.None?
    requires !Mismatched(staged.hash, o)
    requires Watched(staged.hash, o) ==> !ConfirmOn(view, staged.hash).FinalUnresolved?
    requires !Watched(staged.hash, o) ==> staged.hash !in view.receipts
    ensures var now := Refreshed1(t, createdAt, view);
      && now.hash == staged.hash && now.step == staged.step
      && (Watched(staged.hash, o) ==> now == Reconciled1(staged, o, view))
      && (!Watched(staged.hash, o) ==> !now.state.Confirmed? && GasOf(now) == 0)
  {
  }

  /** Against one and the same chain. */
  lemma {:induction false} BurstAgreesOn(op: Operation, staged: seq<TxRecord>, outcomes: seq<SendOutcome>,
                                         view: ChainView)
    requires DiedInBurst(op, staged, outcomes, view) && FreshBurst(staged) && ChainAgrees(staged, outcomes, view)
    ensures LandedIn(Refreshed(op, view).txs, view) == LandedOf(FinalsOf(staged, outcomes, view))
    ensures OperationGas(Refreshed(op, view).txs) == GasOfFinals(FinalsOf(staged, outcomes, view))
    decreases |staged|
  {
    if staged != [] {
      var n := |staged| - 1;
      var front := op.(txs := op.txs[..n]);
      FrontAgrees(staged, outcomes, view);
      BurstAgreesOn(front, staged[..n], outcomes[..n], view);
      assert Refreshed(op, view).txs[..n] == Refreshed(front, view).txs;
      LastAgrees(op, staged, outcomes, view);
    }
  }

  lemma FrontAgrees(staged: seq<TxRecord>, outcomes: seq<SendOutcome>, view: ChainView)
    requires |staged| == |outcomes| > 0 && ChainAgrees(staged, outcomes, view)
    ensures ChainAgrees(staged[..|staged| - 1], outcomes[..|staged| - 1], view)
  {
    var n := |staged| - 1;
    assert staged[..n + 1] == staged && outcomes[..n + 1] == outcomes;
    FinalsStep(staged, outcomes, view, n);
    assert forall f :: f in FinalsOf(staged[..n], outcomes[..n], view) ==> f in FinalsOf(staged, outcomes, view);
    forall i | 0 <= i < n ensures !Mismatched(staged[..n][i].hash, outcomes[..n][i]) {
      assert !Mismatched(staged[i].hash, outcomes[i]);
    }
  }

  lemma LastAgrees(op: Operation, staged: seq<TxRecord>, outcomes: seq<SendOutcome>, view: ChainView)
    requires DiedInBurst(op, staged, outcomes, view) && FreshBurst(staged) && ChainAgrees(staged, outcomes, view)
    requires staged != []
    ensures var n, now := |staged| - 1, Refreshed(op, view).txs;
      var front := FinalsOf(staged[..n], outcomes[..n], view);
      && (LandedIn(now[..n], view) == LandedOf(front) ==>
            LandedIn(now, view) == LandedOf(FinalsOf(staged, outcomes, view)))
      && OperationGas(now) - OperationGas(now[..n])
        == GasOfFinals(FinalsOf(staged, outcomes, view)) - GasOfFinals(front)
  {
    var n, now := |staged| - 1, Refreshed(op, view).txs;
    var front := FinalsOf(staged[..n], outcomes[..n], view);
    LastRecordAgrees(op, staged, outcomes, view);
    if Watched(staged[n].hash, outcomes[n]) {
      LandedStep(front, ConfirmOn(view, staged[n].hash));
    } else {
      assert front + [] == front;
    }
    LastRecordCounts(now, view);
  }

  /** Unfolds what the last record adds. */
  lemma LastRecordCounts(now: seq<TxRecord>, view: ChainView)
    requires now != []
    ensures var n := |now| - 1;
      && OperationGas(now) == OperationGas(now[..n]) + GasOf(now[n])
      && (!now[n].state.Confirmed? ==> LandedIn(now, view) == LandedIn(now[..n], view))
      && (now[n].state.Confirmed? && now[n].step.EntryStep? && now[n].hash in view.receipts ==>
            LandedIn(now, view) == LandedIn(now[..n], view) + [Landed(now[n].hash, view.receipts[now[n].hash])])
  {
  }

  lemma LastRecordAgrees(op: Operation, staged: seq<TxRecord>, outcomes: seq<SendOutcome>, view: ChainView)
    requires DiedInBurst(op, staged, outcomes, view) && FreshBurst(staged) && ChainAgrees(staged, outcomes, view)
    requires staged != []
    ensures var n := |staged| - 1;
      var t, f := Refreshed(op, view).txs[n], ConfirmOn(view, staged[n].hash);
      && t.step.EntryStep?
      && (Watched(staged[n].hash, outcomes[n]) ==>
            && (t.state.Confirmed? <==> f.FinalConfirmed?) && GasOf(t) == FinalGas(f) && t.hash == f.hash
            && (f.FinalConfirmed? ==> t.hash in view.receipts && f.receipt == view.receipts[t.hash]))
      && (!Watched(staged[n].hash, outcomes[n]) ==> !t.state.Confirmed? && GasOf(t) == 0)
  {
    var n := |staged| - 1;
    assert staged[n] in staged && !Mismatched(staged[n].hash, outcomes[n]);
    assert OnTheWay(op.txs[n], staged[n], outcomes[n], view);
    if Watched(staged[n].hash, outcomes[n]) {
      WatchedIsFollowed(staged, outcomes, view, n);
    }
    OneTransactionAgrees(op.txs[n], staged[n], outcomes[n], view, op.createdAt);
    if Watched(staged[n].hash, outcomes[n]) {
      FollowedRecord(Refreshed(op, view).txs[n], staged[n], outcomes[n], view);
    }
  }

  /** A followed transaction's record says what its final state says. */
  lemma FollowedRecord(t: TxRecord, staged: TxRecord, o: SendOutcome, view: ChainView)
    requires Watched(staged.hash, o) && t == Reconciled1(staged, o, view)
    requires !ConfirmOn(view, staged.hash).FinalUnresolved?
    ensures var f := ConfirmOn(view, staged.hash);
      && (t.state.Confirmed? <==> f.FinalConfirmed?) && GasOf(t) == FinalGas(f)
      && t.hash == f.hash == staged.hash && t.step == staged.step
      && (f.FinalConfirmed? ==> t.hash in view.receipts && f.receipt == view.receipts[t.hash])
  {
  }

  // ---- The chain as recovery finds it later --------------------------------------------------------

  /** Two looks at the chain agree on one transaction: the same receipt, and on its block, or none both times. */
  predicate SameReceipt(view: ChainView, later: ChainView, h: Hash) {
    && (h in view.receipts <==> h in later.receipts)
    && (h in view.receipts ==>
          && later.receipts[h] == view.receipts[h]
          && (IsCanonical(view, view.receipts[h]) <==> IsCanonical(later, view.receipts[h])))
  }

  /** Clock, head, nonces and everybody else's transactions may have moved on. */
  predicate SameReceipts(view: ChainView, later: ChainView, staged: seq<TxRecord>) {
    forall i :: 0 <= i < |staged| ==> SameReceipt(view, later, staged[i].hash)
  }

  lemma {:induction false} SameFinals(staged: seq<TxRecord>, outcomes: seq<SendOutcome>, view: ChainView,
                                      later: ChainView)
    requires |staged| == |outcomes| && SameReceipts(view, later, staged)
    ensures FinalsOf(staged, outcomes, later) == FinalsOf(staged, outcomes, view)
  {
    if staged != [] {
      var n := |staged| - 1;
      SameFinals(staged[..n], outcomes[..n], view, later);
      assert SameReceipt(view, later, staged[n].hash);
    }
  }

  /** Where the process died does not depend on which of the two chains is meant. */
  lemma SameDeath(op: Operation, staged: seq<TxRecord>, outcomes: seq<SendOutcome>, view: ChainView, later: ChainView)
    requires DiedInBurst(op, staged, outcomes, view) && ChainAgrees(staged, outcomes, view)
    requires SameReceipts(view, later, staged)
    ensures DiedInBurst(op, staged, outcomes, later) && ChainAgrees(staged, outcomes, later)
  {
    SameFinals(staged, outcomes, view, later);
    forall i | 0 <= i < |staged|
      ensures OnTheWay(op.txs[i], staged[i], outcomes[i], later)
      ensures !Watched(staged[i].hash, outcomes[i]) ==> staged[i].hash !in later.receipts
    {
      assert SameReceipt(view, later, staged[i].hash);
      assert OnTheWay(op.txs[i], staged[i], outcomes[i], view);
    }
  }

  /** Recovery reads the receipts the live path followed, in the same order, and the same gas. */
  lemma BurstAgrees(op: Operation, staged: seq<TxRecord>, outcomes: seq<SendOutcome>, view: ChainView, later: ChainView)
    requires DiedInBurst(op, staged, outcomes, view) && FreshBurst(staged) && ChainAgrees(staged, outcomes, view)
    requires SameReceipts(view, later, staged)
    ensures LandedIn(Refreshed(op, later).txs, later) == LandedOf(FinalsOf(staged, outcomes, view))
    ensures OperationGas(Refreshed(op, later).txs) == GasOfFinals(FinalsOf(staged, outcomes, view))
  {
    SameFinals(staged, outcomes, view, later);
    SameDeath(op, staged, outcomes, view, later);
    BurstAgreesOn(op, staged, outcomes, later);
  }

  /**
   * Wherever the process died between staging the burst and opening the position, and whenever recovery looks at the
   * chain again, as long as the burst's own receipts stand: recovery opens the position the live path would have
   * opened exactly when no attempt bought tokens for nothing. Only the id differs, since recovery dates the position
   * by the operation.
   */
  lemma RecoveredEntryIsTheLiveEntry(w: World, id: OpId, staged: seq<TxRecord>, outcomes: seq<SendOutcome>,
                                     view: ChainView, later: ChainView, position: PosId)
    requires id in w.ops && w.ops[id].state.Pending? && w.ops[id].spec.Entry?
    requires DiedInBurst(w.ops[id], staged, outcomes, view) && FreshBurst(staged) && ChainAgrees(staged, outcomes, view)
    requires SameReceipts(view, later, staged)
    requires !HasEntry(w.book, HashesOf(w.ops[id].txs))
    requires FillsOf(LandedOf(FinalsOf(staged, outcomes, view)), w.ops[id].spec.value).count > 0
    ensures var f := FillsOf(LandedOf(FinalsOf(staged, outcomes, view)), w.ops[id].spec.value);
      var live := Opened(position, f.hash, f.eth, GasOfFinals(FinalsOf(staged, outcomes, view)), f.tokens);
      var v := EntryAfterRecovery(AfterRefresh(w, id, later), id, later);
      && (v.book == w.book + [live.(id := PosId(w.ops[id].spec.token, w.ops[id].createdAt / 1000))] <==> !f.zeroNet)
      && (!f.zeroNet ==> v.saved == v.book)
      && (f.zeroNet ==> v == AfterRefresh(w, id, later))
  {
    BurstAgrees(w.ops[id], staged, outcomes, view, later);
    RefreshHashes(w.ops[id], later);
  }

  /**
   * When no attempt filled and none cost anything odd, recovery closes the operation as the live path does, or waits.
   */
  lemma RecoveredEmptyEntryIsTheLiveOne(w: World, id: OpId, staged: seq<TxRecord>, outcomes: seq<SendOutcome>,
                                        view: ChainView, later: ChainView)
    requires id in w.ops && w.ops[id].state.Pending? && w.ops[id].spec.Entry?
    requires DiedInBurst(w.ops[id], staged, outcomes, view) && FreshBurst(staged) && ChainAgrees(staged, outcomes, view)
    requires SameReceipts(view, later, staged)
    requires !HasEntry(w.book, HashesOf(w.ops[id].txs))
    requires var f := FillsOf(LandedOf(FinalsOf(staged, outcomes, view)), w.ops[id].spec.value);
      f.count == 0 && !f.zeroNet
    ensures var v := EntryAfterRecovery(AfterRefresh(w, id, later), id, later);
      && v.book == w.book && v.saved == w.saved
      && v.ops[id].state == (if HasAmbiguous(Refreshed(w.ops[id], later)) then Pending else Failed)
  {
    BurstAgrees(w.ops[id], staged, outcomes, view, later);
    RefreshHashes(w.ops[id], later);
  }

  // ---- What becomes of the operation ---------------------------------------------------------------

  /** A refused attempt whose refusal was not yet recorded, and which is too young to be given up. */
  predicate LeftOpen(op: Operation, staged: seq<TxRecord>, outcomes: seq<SendOutcome>, later: ChainView)
    requires |op.txs| == |staged| == |outcomes|
  {
    exists i :: 0 <= i < |staged| && LeftOpenAt(op, op.txs[i], staged[i], outcomes[i], later)
  }

  predicate LeftOpenAt(op: Operation, t: TxRecord, staged: TxRecord, o: SendOutcome, later: ChainView) {
    !Watched(staged.hash, o) && !t.state.Rejected? && !NeverLanded(later, op.createdAt, staged.nonce)
  }

  lemma OpenAfterRefresh(op: Operation, t: TxRecord, staged: TxRecord, o: SendOutcome, view: ChainView)
    requires OnTheWay(t, staged, o, view) && staged.state.Prepared? && !Mismatched(staged.hash, o)
    requires Watched(staged.hash, o) ==> !ConfirmOn(view, staged.hash).FinalUnresolved?
    requires !Watched(staged.hash, o) ==> staged.hash !in view.receipts
    ensures IsAmbiguous(Refreshed1(t, op.createdAt, view).state) <==> LeftOpenAt(op, t, staged, o, view)
  {
  }

  /** Recovery finds an open attempt exactly when a refusal was lost with the process. */
  lemma OpenExactlyWhenLeft(op: Operation, staged: seq<TxRecord>, outcomes: seq<SendOutcome>, view: ChainView)
    requires DiedInBurst(op, staged, outcomes, view) && FreshBurst(staged) && ChainAgrees(staged, outcomes, view)
    ensures HasAmbiguous(Refreshed(op, view)) <==> LeftOpen(op, staged, outcomes, view)
  {
    var now := Refreshed(op, view).txs;
    forall i | 0 <= i < |staged|
      ensures now[i] in now && (IsAmbiguous(now[i].state) <==> LeftOpenAt(op, op.txs[i], staged[i], outcomes[i], view))
    {
      assert staged[i] in staged && OnTheWay(op.txs[i], staged[i], outcomes[i], view);
      assert !Mismatched(staged[i].hash, outcomes[i]);
      if Watched(staged[i].hash, outcomes[i]) {
        WatchedIsFollowed(staged, outcomes, view, i);
      }
      OpenAfterRefresh(op, op.txs[i], staged[i], outcomes[i], view);
    }
  }

  /**
   * The operation itself. The live path marks it applied exactly when one attempt filled and the nonce could be read
   * again; recovery exactly when it finds no open attempt. So after two fills the live path halts, and a restart goes
   * on.
   */
  lemma RecoveredStateIsTheLiveState(w: World, id: OpId, staged: seq<TxRecord>, outcomes: seq<SendOutcome>,
                                     view: ChainView, later: ChainView, w0: World, live: World, outcome: EntryOutcome,
                                     position: PosId, nonceRead: bool)
    requires id in w.ops && w.ops[id].state.Pending? && w.ops[id].spec.Entry?
    requires DiedInBurst(w.ops[id], staged, outcomes, view) && FreshBurst(staged) && ChainAgrees(staged, outcomes, view)
    requires SameReceipts(view, later, staged) && !HasEntry(w.book, HashesOf(w.ops[id].txs))
    requires var f := FillsOf(LandedOf(FinalsOf(staged, outcomes, view)), w.ops[id].spec.value);
      f.count > 0 && !f.zeroNet
    requires EntryShows(w0, live, id, w.ops[id].(txs := staged), outcome, position, w.ops[id].spec.value, outcomes,
                        view, nonceRead)
    ensures var v := EntryAfterRecovery(AfterRefresh(w, id, later), id, later);
      var count := FillsOf(LandedOf(FinalsOf(staged, outcomes, view)), w.ops[id].spec.value).count;
      && id in live.ops && live.ops[id].state == (if count == 1 && nonceRead then Applied else Pending)
      && v.ops[id].state == (if LeftOpen(w.ops[id], staged, outcomes, later) then Pending else Applied)
      && (v.ops[id].state == live.ops[id].state <==>
            (LeftOpen(w.ops[id], staged, outcomes, later) <==> count > 1 || !nonceRead))
  {
    SameDeath(w.ops[id], staged, outcomes, view, later);
    OpenExactlyWhenLeft(w.ops[id], staged, outcomes, later);
    BurstAgrees(w.ops[id], staged, outcomes, view, later);
    RefreshHashes(w.ops[id], later);
  }

  // ---- In the course of a startup ------------------------------------------------------------------

  /**
   * The same in the middle of a startup, whatever was recovered before it: in its turn the operation opens the live
   * position, and it is reported exactly when it is left open or bought for nothing.
   */
  lemma StartupOpensTheLiveEntry(w: World, order: seq<OpId>, i: nat, me: Address, staged: seq<TxRecord>,
                                 outcomes: seq<SendOutcome>, view: ChainView, later: ChainView, position: PosId,
                                 at: nat)
    requires Inv(w) && NoRepeats(order) && OneWallet(w, order, me) && i < |order|
    requires var op := w.ops[order[i]];
      && op.state.Pending? && op.spec.Entry? && !HasEntry(w.book, HashesOf(op.txs))
      && DiedInBurst(op, staged, outcomes, view) && FreshBurst(staged) && ChainAgrees(staged, outcomes, view)
      && FillsOf(LandedOf(FinalsOf(staged, outcomes, view)), op.spec.value).count > 0
    requires SameReceipts(view, later, staged)
    ensures var id := order[i];
      var f := FillsOf(LandedOf(FinalsOf(staged, outcomes, view)), w.ops[id].spec.value);
      var live := Opened(position, f.hash, f.eth, GasOfFinals(FinalsOf(staged, outcomes, view)), f.tokens);
      var u, v := RecoverAll(w, order[..i], later, at), RecoverAll(w, order[..i + 1], later, at);
      && (v.book == u.book + [live.(id := PosId(w.ops[id].spec.token, w.ops[id].createdAt / 1000))] <==> !f.zeroNet)
      && (id in BlockedIn(w, order, later, at) <==> f.zeroNet || LeftOpen(w.ops[id], staged, outcomes, later))
  {
    var id := order[i];
    assert id in order;
    TakesItsTurn(w, order, i, me, later, at);
    var u := RecoverAll(w, order[..i], later, at);
    RecoveredEntryIsTheLiveEntry(u, id, staged, outcomes, view, later, position);
    SameDeath(w.ops[id], staged, outcomes, view, later);
    OpenExactlyWhenLeft(w.ops[id], staged, outcomes, later);
    PendingForAReason(u, id, later, at);
    RefreshHashes(w.ops[id], later);
    BurstAgrees(w.ops[id], staged, outcomes, view, later);
  }

  /** When its turn comes, an operation and what the book shows of it are as they were at the start. */
  lemma TakesItsTurn(w: World, order: seq<OpId>, i: nat, me: Address, view: ChainView, at: nat)
    requires Inv(w) && NoRepeats(order) && OneWallet(w, order, me) && i < |order|
    ensures order[i] in w.ops && SameToSee(w, RecoverAll(w, order[..i], view, at), order[i])
    ensures var u := RecoverAll(w, order[..i], view, at);
      && RecoverAll(w, order[..i + 1], view, at) == AfterRecovery(u, order[i], view, at)
      && (order[i] in BlockedIn(w, order, view, at) <==> Blocks(u, order[i], view, at))
  {
    var front, id := order[..i], order[i];
    assert id in order && id !in front && order[..i + 1] == front + [id];
    assert forall o :: o in front ==> o in order;
    EvidenceStays(w, front, me, id, view, at);
    TurnIsFinal(w, order, i, view, at);
    RecoverOneMore(w, front, id, view, at);
  }

  // ---- A buy that cost nothing -------------------------------------------------------------------

  function Mined(hash: Hash, tokens: nat, refunded: nat): Receipt {
    Receipt(Some(hash), Some(true), Some(5), Some(50), 21_000, tokens, refunded, 0, 0, None, {})
  }

  /** Two attempts bought ten tokens each; the second was refunded in full. */
  function FreeFillView(): ChainView {
    ChainView(5, 2, 2, 0, map[1 := Mined(1, 10, 0), 2 := Mined(2, 10, 100)], map[5 := 50], map[])
  }

  lemma FreeFillFinals()
    ensures var staged, outcomes, view := BurstRecords(0, [1, 2]), [AlreadyKnown, AlreadyKnown], FreeFillView();
      FinalsOf(staged, outcomes, view)
        == [FinalConfirmed(1, 5, 50, Mined(1, 10, 0)), FinalConfirmed(2, 5, 50, Mined(2, 10, 100))]
  {
    var staged, outcomes, view := BurstRecords(0, [1, 2]), [AlreadyKnown, AlreadyKnown], FreeFillView();
    FinalsStep(staged, outcomes, view, 0);
    FinalsStep(staged, outcomes, view, 1);
    assert staged[..0] == [] && outcomes[..0] == [];
    assert staged[..2] == staged && outcomes[..2] == outcomes;
  }

  lemma FreeFillFills(finals: seq<TxFinal>)
    requires finals == [FinalConfirmed(1, 5, 50, Mined(1, 10, 0)), FinalConfirmed(2, 5, 50, Mined(2, 10, 100))]
    ensures FillsOf(LandedOf(finals), 100) == Fills(1, Some(1), 10, 100, true)
  {
    var la, lb := Landed(1, Mined(1, 10, 0)), Landed(2, Mined(2, 10, 100));
    LandedStep([], finals[0]);
    LandedStep([finals[0]], finals[1]);
    assert finals == [finals[0]] + [finals[1]] && [finals[0]] == [] + [finals[0]];
    assert LandedOf(finals) == [la] + [lb];
    FillsStep([], la, 100);
    FillsStep([la], lb, 100);
    assert [] + [la] == [la];
  }

  /**
   * The two paths do part: live, the free attempt is skipped and the position opened with the paid one; after a crash,
   * recovery, three blocks and a minute later, opens nothing and blocks.
   */
  lemma FreeFillDivides()
    ensures var staged, outcomes, view := BurstRecords(0, [1, 2]), [AlreadyKnown, AlreadyKnown], FreeFillView();
      var later := view.(head := 8, nowMs := 60_000);
      var op := Operation(CHAIN_ID, 7, 0, Pending, Entry(3, 4, 100), staged);
      var w := World(map[OpId(0, 0) := op], [], [], {});
      && DiedInBurst(op, staged, outcomes, view) && FreshBurst(staged) && ChainAgrees(staged, outcomes, view)
      && FillsOf(LandedOf(FinalsOf(staged, outcomes, view)), op.spec.value).count == 1
      && EntryAfterRecovery(AfterRefresh(w, OpId(0, 0), later), OpId(0, 0), later).book == []
  {
    var staged, outcomes, view := BurstRecords(0, [1, 2]), [AlreadyKnown, AlreadyKnown], FreeFillView();
    var op := Operation(CHAIN_ID, 7, 0, Pending, Entry(3, 4, 100), staged);
    FreeFillFinals();
    FreeFillFills(FinalsOf(staged, outcomes, view));
    assert ChainAgrees(staged, outcomes, view);
    var later := view.(head := 8, nowMs := 60_000);
    RecoveredEntryIsTheLiveEntry(World(map[OpId(0, 0) := op], [], [], {}), OpId(0, 0), staged, outcomes, view, later,
                                 PosId(3, 0));
  }

  // ---- Exits -------------------------------------------------------------------------------------

  /** The process died after handing in the sale; before it there are approvals only. */
  ghost predicate DiedInSale(op: Operation, sale: TxRecord) {
    && op.txs != [] && op.txs[|op.txs| - 1] == sale
    && IsSale(sale.step) && !sale.state.Rejected? && !sale.state.Dropped?
    && forall i :: 0 <= i < |op.txs| - 1 ==> IsApproval(op.txs[i].step)
  }

  lemma RefreshedSale(op: Operation, sale: TxRecord, view: ChainView, later: ChainView)
    requires DiedInSale(op, sale) && ConfirmOn(view, sale.hash).FinalConfirmed? && SameReceipt(view, later, sale.hash)
    ensures var now := Refreshed(op, later).txs;
      && now != [] && (forall i :: 0 <= i < |now| - 1 ==> IsApproval(now[i].step))
      && OperationGas(now) == OperationGas(now[..|now| - 1]) + view.receipts[sale.hash].gasWei
      && var last := now[|now| - 1];
         last.hash == sale.hash && last.step == sale.step && last.state.Confirmed?
  {
  }

  lemma {:induction false} ApprovalsAreNoSales(txs: seq<TxRecord>)
    requires forall i :: 0 <= i < |txs| ==> IsApproval(txs[i].step)
    ensures SalesIn(txs) == []
  {
    if txs != [] {
      ApprovalsAreNoSales(txs[..|txs| - 1]);
    }
  }

  /** The sale is put into the book with exactly the gas it is given. */
  lemma SaleShowsItsGas(w: World, id: OpId, fill: Fill, gas: nat, other: nat, hash: Hash, at: nat)
    requires id in w.ops && w.ops[id].spec.ExitOf? && StillHolds(w.book, w.ops[id].spec.positionId, fill.tokens)
    ensures AfterSale(w, id, fill, gas, hash, at) == AfterSale(w, id, fill, other, hash, at) ==> gas == other
  {
    FirstFound(w.book, w.ops[id].spec.positionId);
    var i := Find(w.book, w.ops[id].spec.positionId).value;
    var n := |w.book[i].exits|;
    assert AfterSale(w, id, fill, gas, hash, at).book[i].exits[n].gasWei == gas;
    assert AfterSale(w, id, fill, other, hash, at).book[i].exits[n].gasWei == other;
  }

  lemma OneSaleFound(op: Operation, sale: TxRecord, view: ChainView, later: ChainView)
    requires DiedInSale(op, sale) && ConfirmOn(view, sale.hash).FinalConfirmed? && SameReceipt(view, later, sale.hash)
    ensures var sales := SalesIn(Refreshed(op, later).txs);
      |sales| == 1 && sales[0].hash == sale.hash && sales[0].step == sale.step
  {
    var now := Refreshed(op, later).txs;
    var n := |now| - 1;
    RefreshedSale(op, sale, view, later);
    ApprovalsAreNoSales(now[..n]);
    assert SalesIn(now) == SalesIn(now[..n]) + [now[n]];
  }

  /** Recovery finds the one sale and applies it. */
  lemma RecoveredSale(w: World, id: OpId, sale: TxRecord, view: ChainView, later: ChainView, at: nat, live: Sale)
    requires id in w.ops && w.ops[id].state.Pending? && w.ops[id].spec.ExitOf?
    requires DiedInSale(w.ops[id], sale) && !HasLeg(w.book, HashesOf(w.ops[id].txs))
    requires live.SaleOf? && SoldAs(live, Planned(sale.step, sale.hash, AlreadyKnown, view))
    requires SameReceipt(view, later, sale.hash)
    requires StillHolds(w.book, w.ops[id].spec.positionId, live.fill.tokens)
    ensures var v := AfterRefresh(w, id, later);
      ExitAfterRecovery(v, id, later, at)
        == AfterSale(v, id, live.fill, OperationGas(Refreshed(w.ops[id], later).txs), live.hash, at)
  {
    OneSaleFound(w.ops[id], sale, view, later);
    RefreshHashes(w.ops[id], later);
    var v := AfterRefresh(w, id, later);
    assert v.ops[id] == Refreshed(w.ops[id], later) && v.book == w.book;
  }

  /**
   * Wherever the process died between handing in a sale and marking it applied, and whenever recovery looks at the
   * chain again, as long as the sale's receipt stands: recovery applies the sale with the live tokens, ETH and
   * transaction. It charges the live gas exactly when the approvals before it still cost what the journal had for
   * them.
   */
  lemma RecoveredExitIsTheLiveExit(w: World, id: OpId, sale: TxRecord, view: ChainView, later: ChainView, at: nat,
                                   live: Sale)
    requires id in w.ops && w.ops[id].state.Pending? && w.ops[id].spec.ExitOf?
    requires DiedInSale(w.ops[id], sale) && !HasLeg(w.book, HashesOf(w.ops[id].txs))
    requires live.SaleOf? && SoldAs(live, Planned(sale.step, sale.hash, AlreadyKnown, view))
    requires SameReceipt(view, later, sale.hash)
    requires live.gas == OperationGas(w.ops[id].txs[..|w.ops[id].txs| - 1]) + live.receipt.gasWei
    requires StillHolds(w.book, w.ops[id].spec.positionId, live.fill.tokens)
    ensures var v, now := AfterRefresh(w, id, later), Refreshed(w.ops[id], later).txs;
      && ExitAfterRecovery(v, id, later, at) == AfterSale(v, id, live.fill, OperationGas(now), live.hash, at)
      && (ExitAfterRecovery(v, id, later, at) == AfterSale(v, id, live.fill, live.gas, live.hash, at) <==>
            OperationGas(now[..|now| - 1]) == OperationGas(w.ops[id].txs[..|now| - 1]))
  {
    var op, now := w.ops[id], Refreshed(w.ops[id], later);
    RefreshedSale(op, sale, view, later);
    RecoveredSale(w, id, sale, view, later, at, live);
    SaleShowsItsGas(AfterRefresh(w, id, later), id, live.fill, OperationGas(now.txs), live.gas, live.hash, at);
  }

  /** The chain still has this confirmed transaction exactly as the journal has it. */
  predicate Unmoved(t: TxRecord, view: ChainView) {
    t.state.Confirmed? && StillHas(view, t) && t.gasWei == Some(view.receipts[t.hash].gasWei)
  }

  /** In particular when each of them is still mined where it was. */
  lemma UnmovedCostTheSame(op: Operation, later: ChainView, n: nat)
    requires n <= |op.txs| && forall i :: 0 <= i < n ==> Unmoved(op.txs[i], later)
    ensures OperationGas(Refreshed(op, later).txs[..n]) == OperationGas(op.txs[..n])
  {
    forall i | 0 <= i < n ensures Refreshed(op, later).txs[i] == op.txs[i] {
      assert Unmoved(op.txs[i], later);
    }
    assert Refreshed(op, later).txs[..n] == op.txs[..n];
  }

  /**
   * And in the course of a startup: in its turn the exit applies the live sale, if its position still holds something.
   */
  lemma StartupAppliesTheLiveExit(w: World, order: seq<OpId>, i: nat, me: Address, sale: TxRecord, view: ChainView,
                                  later: ChainView, at: nat, live: Sale)
    requires Inv(w) && NoRepeats(order) && OneWallet(w, order, me) && i < |order|
    requires var op := w.ops[order[i]];
      && op.state.Pending? && op.spec.ExitOf? && DiedInSale(op, sale) && !HasLeg(w.book, HashesOf(op.txs))
      && live.SaleOf? && StillHolds(RecoverAll(w, order[..i], later, at).book, op.spec.positionId, live.fill.tokens)
    requires SoldAs(live, Planned(sale.step, sale.hash, AlreadyKnown, view)) && SameReceipt(view, later, sale.hash)
    ensures var id, u := order[i], RecoverAll(w, order[..i], later, at);
      && id in u.ops && u.ops[id] == w.ops[id]
      && RecoverAll(w, order[..i + 1], later, at)
        == AfterSale(AfterRefresh(u, id, later), id, live.fill, OperationGas(Refreshed(w.ops[id], later).txs),
                     live.hash, at)
      && id !in BlockedIn(w, order, later, at)
  {
    assert order[i] in order;
    TakesItsTurn(w, order, i, me, later, at);
    SaleSettles(RecoverAll(w, order[..i], later, at), order[i], sale, view, later, at, live);
  }

  lemma SaleSettles(u: World, id: OpId, sale: TxRecord, view: ChainView, later: ChainView, at: nat, live: Sale)
    requires id in u.ops && u.ops[id].state.Pending? && u.ops[id].spec.ExitOf?
    requires DiedInSale(u.ops[id], sale) && !HasLeg(u.book, HashesOf(u.ops[id].txs))
    requires live.SaleOf? && SoldAs(live, Planned(sale.step, sale.hash, AlreadyKnown, view))
    requires SameReceipt(view, later, sale.hash) && StillHolds(u.book, u.ops[id].spec.positionId, live.fill.tokens)
    ensures AfterRecovery(u, id, later, at)
      == AfterSale(AfterRefresh(u, id, later), id, live.fill, OperationGas(Refreshed(u.ops[id], later).txs), live.hash,
                   at)
    ensures !Blocks(u, id, later, at)
  {
    RecoveredSale(u, id, sale, view, later, at, live);
  }
}
