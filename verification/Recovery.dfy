/**
 * Recovering one operation (crates/bodkin/src/trade/journal.rs): it is checked against the chain and settled or
 * blocked.
 */
module Recovery {
  import opened Common
  import opened Positions
  import opened Journal
  import opened Protocol
  import opened Engine
  import opened Sales
  import opened Exits
  import opened Fills

  // ---- Refreshing the receipts -------------------------------------------------------------------

  /** The records once the first `n` have been checked. */
  function PartlyRefreshed(op: Operation, view: ChainView, n: nat): Operation {
    op.(txs := seq(|op.txs|, i requires 0 <= i < |op.txs| =>
      if i < n then Refreshed1(op.txs[i], op.createdAt, view) else op.txs[i]))
  }

  lemma RefreshStep(op: Operation, view: ChainView, i: nat)
    requires i < |op.txs| && DistinctHashes(op.txs)
    ensures var now, t := PartlyRefreshed(op, view, i), op.txs[i];
      && now.txs[i] == t && t.hash in HashesOf(now.txs)
      && PartlyRefreshed(op, view, i + 1) == match VerdictOn(t, op.createdAt, view)
         case Leave => now
         case Drop => now.(txs := DropRecord(now.txs, t.hash))
         case Say(event) => AfterEvent(now, event)
  {
    var now, t := PartlyRefreshed(op, view, i), op.txs[i];
    SameHashes(op.txs, now.txs);
    assert t in op.txs;
    RefreshIsOneEvent(now.txs, i, op.createdAt, view);
    assert PartlyRefreshed(op, view, i + 1).txs == now.txs[i := Refreshed1(t, op.createdAt, view)];
  }

  method RefreshReceipts(e: Engine, id: OpId, view: ChainView)
    requires e.Valid() && id in e.journal.operations && !e.journal.operations[id].state.Failed?
    modifies e, e.journal
    ensures e.Valid()
    ensures e.State()
      == old(e.State()).(ops := old(e.journal.operations)[id := Refreshed(old(e.journal.operations)[id], view)])
  {
    e.JournalIsSound();
    ghost var w0 := e.State();
    var op := e.journal.operations[id];
    var i := 0;
    assert PartlyRefreshed(op, view, 0) == op;
    while i < |op.txs|
      invariant 0 <= i <= |op.txs| && e.Valid()
      invariant e.State() == w0.(ops := w0.ops[id := PartlyRefreshed(op, view, i)])
    {
      RefreshStep(op, view, i);
      RefreshOne(e, id, op.txs[i], op.createdAt, view);
      i := i + 1;
    }
    assert PartlyRefreshed(op, view, i) == Refreshed(op, view);
  }

  /** One transaction against the chain. */
  method RefreshOne(e: Engine, id: OpId, t: TxRecord, createdAt: nat, view: ChainView)
    requires e.Valid() && Staged(e.journal.operations, id, t.hash) && !e.journal.operations[id].state.Failed?
    modifies e, e.journal
    ensures e.Valid()
    ensures e.State() == match VerdictOn(t, createdAt, view)
      case Leave => old(e.State())
      case Drop => Next(old(e.State()), DropTx(id, t.hash))
      case Say(event) => Next(old(e.State()), Record(id, event))
  {
    if t.state.Rejected? || t.state.Dropped? {
      return;
    }
    if t.hash !in view.receipts {
      if NeverLanded(view, createdAt, t.nonce) {
        e.Forget(id, t.hash);
      } else {
        e.Record(id, MarkUnresolved(t.hash));
      }
      return;
    }
    var r := view.receipts[t.hash];
    if r.txHash != Some(t.hash) || !IsCanonical(view, r) {
      e.Record(id, MarkUnresolved(t.hash));
    } else {
      match r.status {
        case Some(true) => e.Record(id, MarkConfirmed(t.hash, r.blockNumber.value, r.blockHash.value, r.gasWei));
        case Some(false) => e.Record(id, MarkReverted(t.hash, r.blockNumber.value, r.blockHash.value, r.gasWei));
        case None => e.Record(id, MarkUnresolved(t.hash));
      }
    }
  }

  /** The confirmed transactions of a refreshed operation have their receipts at hand. */
  predicate ReceiptsAtHand(op: Operation, view: ChainView) {
    forall t :: t in op.txs && t.state.Confirmed? ==> t.hash in view.receipts
  }

  lemma RefreshedHasReceipts(op: Operation, view: ChainView)
    ensures ReceiptsAtHand(Refreshed(op, view), view)
  {
    forall t | t in Refreshed(op, view).txs && t.state.Confirmed? ensures t.hash in view.receipts {
      RefreshSettles(op, view, t);
    }
  }

  // ---- Entries -----------------------------------------------------------------------------------

  /** What recovering an entry does to the stores. It stays pending exactly when it is reported as blocked. */
  ghost function EntryAfterRecovery(w: World, id: OpId, view: ChainView): World
    requires id in w.ops && w.ops[id].spec.Entry?
  {
    var op := w.ops[id];
    var fills := FillsOf(LandedIn(op.txs, view), op.spec.value);
    var settled := w.(ops := w.ops[id := op.(state := Applied)]);
    if HasEntry(w.book, HashesOf(op.txs)) then (if HasAmbiguous(op) then w else settled)
    else if fills.zeroNet then w
    else if fills.count > 0 then
      var p := Opened(PosId(op.spec.token, op.createdAt / 1000), fills.hash, fills.eth, OperationGas(op.txs),
                      fills.tokens);
      (if HasAmbiguous(op) then w else settled).(book := w.book + [p], saved := w.book + [p])
    else if HasAmbiguous(op) then w
    else w.(ops := w.ops[id := op.(state := Failed)])
  }

  method FindEntry(book: seq<Position>, op: Operation) returns (found: bool)
    ensures found <==> HasEntry(book, HashesOf(op.txs))
  {
    var i := 0;
    while i < |book|
      invariant 0 <= i <= |book| && forall j: nat :: j < i ==> !EntryAt(book, HashesOf(op.txs), j)
    {
      if book[i].entryTx.Some? && book[i].entryTx.value in HashesOf(op.txs) {
        assert EntryAt(book, HashesOf(op.txs), i);
        return true;
      }
      i := i + 1;
    }
    return false;
  }

  /** Reads back the fills; stops at the first confirmed buy that cost nothing. */
  method ReadFills(txs: seq<TxRecord>, value: nat, view: ChainView) returns (fills: Option<Fills>)
    requires forall t :: t in txs && t.state.Confirmed? ==> t.hash in view.receipts
    ensures var f := FillsOf(LandedIn(txs, view), value); fills == if f.zeroNet then None else Some(f)
  {
    var f := Fills(0, None, 0, 0, false);
    var i := 0;
    while i < |txs|
      invariant 0 <= i <= |txs| && f == FillsOf(LandedIn(txs[..i], view), value) && !f.zeroNet
    {
      ReadStep(txs, i, view, value);
      if txs[i].state.Confirmed? && txs[i].step.EntryStep? {
        var r := view.receipts[txs[i].hash];
        if r.boughtTokens > 0 {
          var actual := Monus(value, r.refundedEth);
          if actual == 0 {
            ZeroNetSticks(txs, i + 1, view, value);
            return None;
          }
          f := f.(count := f.count + 1, hash := if f.hash.Some? then f.hash else Some(txs[i].hash),
                  tokens := f.tokens + r.boughtTokens, eth := f.eth + actual);
        }
      }
      i := i + 1;
    }
    assert txs[..i] == txs;
    return Some(f);
  }

  lemma ReadStep(txs: seq<TxRecord>, i: nat, view: ChainView, value: nat)
    requires i < |txs|
    ensures var before, now := FillsOf(LandedIn(txs[..i], view), value), FillsOf(LandedIn(txs[..i + 1], view), value);
      now == if txs[i].state.Confirmed? && txs[i].step.EntryStep? && txs[i].hash in view.receipts
             then WithFill(before, Landed(txs[i].hash, view.receipts[txs[i].hash]), value) else before
  {
    assert txs[..i + 1][..i] == txs[..i];
    var front := LandedIn(txs[..i], view);
    if txs[i].state.Confirmed? && txs[i].step.EntryStep? && txs[i].hash in view.receipts {
      FillsStep(front, Landed(txs[i].hash, view.receipts[txs[i].hash]), value);
    } else {
      assert front + [] == front;
    }
  }

  lemma {:induction false} ZeroNetSticks(txs: seq<TxRecord>, n: nat, view: ChainView, value: nat)
    requires n <= |txs| && FillsOf(LandedIn(txs[..n], view), value).zeroNet
    ensures FillsOf(LandedIn(txs, view), value).zeroNet
    decreases |txs| - n
  {
    if n == |txs| {
      assert txs[..n] == txs;
    } else {
      ReadStep(txs, n, view, value);
      ZeroNetSticks(txs, n + 1, view, value);
    }
  }

  lemma {:induction false} LandedAreStaged(txs: seq<TxRecord>, view: ChainView)
    ensures forall l :: l in LandedIn(txs, view) ==> l.hash in HashesOf(txs)
  {
    if txs != [] {
      var n := |txs| - 1;
      LandedAreStaged(txs[..n], view);
      assert txs == txs[..n] + [txs[n]];
      assert HashesOf(txs[..n]) <= HashesOf(txs);
      assert txs[n] in txs;
    }
  }

  method RecoverEntry(e: Engine, id: OpId, view: ChainView)
    requires e.Valid() && e.positions.list == e.positions.saved
    requires e.IsOpen(id) && e.journal.operations[id].spec.Entry?
    requires ReceiptsAtHand(e.journal.operations[id], view)
    modifies e, e.journal, e.positions
    ensures e.Valid() && e.State() == EntryAfterRecovery(old(e.State()), id, view)
    ensures e.positions.list == e.positions.saved
  {
    var op := e.journal.operations[id];
    var open := HasAmbiguous(op);
    var found := FindEntry(e.positions.list, op);
    if found {
      if !open {
        e.Record(id, MarkApplied);
      }
      return;
    }
    var fills := ReadFills(op.txs, op.spec.value, view);
    if fills.None? {
      return;
    }
    if fills.value.count > 0 {
      FillsHaveAHash(LandedIn(op.txs, view), op.spec.value);
      LandedAreStaged(op.txs, view);
      ReopenEntry(e, id, fills.value, !open);
    } else if !open {
      ExitsAndEntriesApart(e, id);
      e.Record(id, MarkFailed);
    }
  }

  lemma ExitsAndEntriesApart(e: Engine, id: OpId)
    requires e.Valid() && id in e.journal.operations
    ensures !e.journal.operations[id].spec.Entry? ==>
      !HasEntry(e.positions.list, HashesOf(e.journal.operations[id].txs))
    ensures !e.journal.operations[id].spec.ExitOf? ==> !HasLeg(e.positions.list, HashesOf(e.journal.operations[id].txs))
  {
    e.Facts();
    CommandShowsNothing(e.State(), id);
  }

  /**
   * Why recovery must start from a freshly loaded store: an entry found in the book closes its operation, and that is
   * sound exactly when the position it was found by is also on disk.
   */
  lemma FoundEntryMustBeCommitted(w: World, id: OpId, view: ChainView)
    requires Inv(w) && id in w.ops && w.ops[id].state.Pending? && w.ops[id].spec.Entry?
    requires HasEntry(w.book, HashesOf(w.ops[id].txs)) && !HasAmbiguous(w.ops[id])
    ensures Inv(EntryAfterRecovery(w, id, view)) <==> HasEntry(w.saved, HashesOf(w.ops[id].txs))
  {
    var op := w.ops[id].(state := Applied);
    var v := w.(ops := w.ops[id := op]);
    assert EntryAfterRecovery(w, id, view) == v;
    OneChangeExtends(w.ops, id, op, {});
    if HasEntry(w.saved, HashesOf(op.txs)) {
      assert StateInv(v, id);
      OneChangeKeepsInv(w, id, op);
    } else {
      assert !StateInv(v, id);
    }
  }

  method ReopenEntry(e: Engine, id: OpId, fills: Fills, settled: bool)
    requires e.Valid() && e.positions.list == e.positions.saved
    requires e.IsOpen(id) && e.journal.operations[id].spec.Entry?
    requires !HasEntry(e.positions.list, HashesOf(e.journal.operations[id].txs))
    requires settled <==> !HasAmbiguous(e.journal.operations[id])
    requires fills.hash.Some? && Staged(e.journal.operations, id, fills.hash.value)
    modifies e, e.journal, e.positions
    ensures e.Valid() && e.positions.list == e.positions.saved
    ensures var op := old(e.journal.operations)[id];
      && e.positions.list == old(e.positions.list)
          + [Opened(PosId(op.spec.token, op.createdAt / 1000), fills.hash, fills.eth, OperationGas(op.txs),
                    fills.tokens)]
      && e.journal.operations == old(e.journal.operations)[id := op.(state := if settled then Applied else Pending)]
      && e.sent == old(e.sent)
  {
    var op := e.journal.operations[id];
    var gas := e.journal.RecordedGas(id);
    ghost var n := |e.positions.list|;
    e.OpenFrom(id, PosId(op.spec.token, op.createdAt / 1000), fills.hash.value, fills.eth, gas.value, fills.tokens);
    e.Flush();
    if settled {
      assert EntryAt(e.positions.saved, HashesOf(op.txs), n);
      e.Record(id, MarkApplied);
    }
  }

  // ---- Exits -------------------------------------------------------------------------------------

  /** The confirmed sales of an exit, in order. */
  function SalesIn(txs: seq<TxRecord>): seq<TxRecord> {
    if txs == [] then [] else
      var t := txs[|txs| - 1];
      SalesIn(txs[..|txs| - 1]) + (if t.state.Confirmed? && IsSale(t.step) then [t] else [])
  }

  ghost function ExitAfterRecovery(w: World, id: OpId, view: ChainView, at: nat): World
    requires id in w.ops && w.ops[id].spec.ExitOf?
  {
    var op := w.ops[id];
    var sales := SalesIn(op.txs);
    if HasLeg(w.book, HashesOf(op.txs)) then w.(ops := w.ops[id := op.(state := Applied)])
    else if |sales| > 1 then w
    else if |sales| == 1 then SaleAfterRecovery(w, id, sales[0], view, at)
    else if RequiresRecovery(op) then w
    else if OperationGas(op.txs) > 0 && Find(w.book, op.spec.positionId).None? then w
    else AfterFailedExit(w, id)
  }

  /** One confirmed sale: applied if it filled, its position is there, and the position still holds something. */
  function SaleAfterRecovery(w: World, id: OpId, sale: TxRecord, view: ChainView, at: nat): World
    requires id in w.ops && w.ops[id].spec.ExitOf?
  {
    var op := w.ops[id];
    var fill := if sale.hash in view.receipts then SaleFill(sale.step, view.receipts[sale.hash]) else None;
    if fill.Some? && StillHolds(w.book, op.spec.positionId, fill.value.tokens)
    then AfterSale(w, id, fill.value, OperationGas(op.txs), sale.hash, at)
    else w
  }

  method FindLeg(book: seq<Position>, op: Operation) returns (found: bool)
    requires op.spec.ExitOf?
    ensures found <==> exists i: nat, k: nat :: LegAt(book, HashesOf(op.txs), i, k) && book[i].id == op.spec.positionId
  {
    var i := 0;
    while i < |book|
      invariant 0 <= i <= |book|
      invariant forall j: nat, k: nat :: j < i && LegAt(book, HashesOf(op.txs), j, k) ==>
        book[j].id != op.spec.positionId
    {
      if book[i].id == op.spec.positionId {
        var k := 0;
        while k < |book[i].exits|
          invariant 0 <= k <= |book[i].exits| && forall l: nat :: l < k ==> !LegAt(book, HashesOf(op.txs), i, l)
        {
          if book[i].exits[k].tx.Some? && book[i].exits[k].tx.value in HashesOf(op.txs) {
            assert LegAt(book, HashesOf(op.txs), i, k);
            return true;
          }
          k := k + 1;
        }
      }
      i := i + 1;
    }
    return false;
  }

  lemma LegIsOnItsPosition(w: World, id: OpId)
    requires Inv(w) && id in w.ops && w.ops[id].spec.ExitOf?
    ensures HasLeg(w.book, HashesOf(w.ops[id].txs)) <==>
      exists i: nat, k: nat :: LegAt(w.book, HashesOf(w.ops[id].txs), i, k) && w.book[i].id == w.ops[id].spec.positionId
  {
    var hs := HashesOf(w.ops[id].txs);
    if HasLeg(w.book, hs) {
      var i: nat, k: nat :| LegAt(w.book, hs, i, k);
      assert Known(w.ops, w.book[i]);
      assert LegKnown(w.ops, w.book[i], w.book[i].exits[k]);
      assert Staged(w.ops, id, w.book[i].exits[k].tx.value);
    }
  }

  method CollectSales(txs: seq<TxRecord>) returns (sales: seq<TxRecord>)
    ensures sales == SalesIn(txs)
  {
    sales := [];
    var i := 0;
    while i < |txs|
      invariant 0 <= i <= |txs| && sales == SalesIn(txs[..i])
    {
      assert txs[..i + 1][..i] == txs[..i];
      if txs[i].state.Confirmed? && IsSale(txs[i].step) {
        sales := sales + [txs[i]];
      }
      i := i + 1;
    }
    assert txs[..i] == txs;
  }

  lemma {:induction false} SalesAreStaged(txs: seq<TxRecord>)
    ensures forall t :: t in SalesIn(txs) ==>
      t in txs && t.hash in HashesOf(txs) && t.state.Confirmed? && IsSale(t.step)
    ensures SalesIn(txs) == [] ==> forall t :: t in txs && t.state.Confirmed? ==> !IsSale(t.step)
  {
    if txs != [] {
      SalesAreStaged(txs[..|txs| - 1]);
      assert txs == txs[..|txs| - 1] + [txs[|txs| - 1]];
    }
  }

  method RecoverExit(e: Engine, id: OpId, view: ChainView, at: nat)
    requires e.Valid() && e.positions.list == e.positions.saved
    requires e.IsOpen(id) && e.journal.operations[id].spec.ExitOf?
    requires ReceiptsAtHand(e.journal.operations[id], view)
    modifies e, e.journal, e.positions
    ensures e.Valid() && e.State() == ExitAfterRecovery(old(e.State()), id, view, at)
    ensures e.positions.list == e.positions.saved
  {
    var op := e.journal.operations[id];
    e.Facts();
    LegIsOnItsPosition(e.State(), id);
    var found := FindLeg(e.positions.list, op);
    if found {
      e.Record(id, MarkApplied);
      return;
    }
    ExitsAndEntriesApart(e, id);
    SettleUnrecorded(e, id, view, at);
  }

  /** An exit the book knows nothing of. */
  method SettleUnrecorded(e: Engine, id: OpId, view: ChainView, at: nat)
    requires e.Valid() && e.positions.list == e.positions.saved
    requires e.IsOpen(id) && e.journal.operations[id].spec.ExitOf?
    requires ReceiptsAtHand(e.journal.operations[id], view) && NoResult(e.positions.list, e.journal.operations[id])
    modifies e, e.journal, e.positions
    ensures e.Valid() && e.State() == ExitAfterRecovery(old(e.State()), id, view, at)
    ensures e.positions.list == e.positions.saved
  {
    var op := e.journal.operations[id];
    var sales := CollectSales(op.txs);
    SalesAreStaged(op.txs);
    if |sales| > 1 {
      return;
    }
    if |sales| == 1 {
      assert sales[0] in sales;
      ReapplySale(e, id, sales[0], view, at);
      return;
    }
    FailUnsold(e, id);
  }

  /** No sale of it confirmed: charged and failed, unless something else may have had an effect. */
  method FailUnsold(e: Engine, id: OpId)
    requires e.Valid() && e.positions.list == e.positions.saved
    requires e.IsOpen(id) && e.journal.operations[id].spec.ExitOf?
    requires NoResult(e.positions.list, e.journal.operations[id])
    modifies e, e.journal, e.positions
    ensures e.Valid() && e.positions.list == e.positions.saved
    ensures var op, w := old(e.journal.operations)[id], old(e.State());
      e.State()
        == if RequiresRecovery(op) || (OperationGas(op.txs) > 0 && Find(w.book, op.spec.positionId).None?) then w
           else AfterFailedExit(w, id)
  {
    var pending := e.journal.NeedsRecovery(id);
    if pending {
      return;
    }
    var gas := FinishFailedExit(e, id);
  }

  method ReapplySale(e: Engine, id: OpId, sale: TxRecord, view: ChainView, at: nat)
    requires e.Valid() && e.positions.list == e.positions.saved
    requires Staged(e.journal.operations, id, sale.hash) && sale.hash in view.receipts
    requires e.journal.operations[id].state.Pending? && e.journal.operations[id].spec.ExitOf?
    requires NoResult(e.positions.list, e.journal.operations[id])
    modifies e, e.journal, e.positions
    ensures e.Valid() && e.State() == SaleAfterRecovery(old(e.State()), id, sale, view, at)
    ensures e.positions.list == e.positions.saved
  {
    var fill := SaleFill(sale.step, view.receipts[sale.hash]);
    if fill.None? {
      return;
    }
    var gas := e.journal.RecordedGas(id);
    var outcome := SettleExit(e, id, SaleOf(fill.value, sale.hash, gas.value, view.receipts[sale.hash]), at);
  }

  // ---- Commands ----------------------------------------------------------------------------------

  /** The effect a command promised, as the chain shows it. */
  predicate EffectShown(effect: CommandEffect, t: TxRecord, view: ChainView) {
    match effect
    case ReceiptOnly => true
    case RequiredLog(address, topic) => t.hash in view.receipts && LogId(address, topic) in view.receipts[t.hash].logs
    case RuntimeCode(address, codeHash) => address in view.codeHash && view.codeHash[address] == codeHash
  }

  /** The first confirmed transaction with an effect. */
  function FirstEffect(txs: seq<TxRecord>): Option<TxRecord> {
    if txs == [] then None else if txs[0].state.Confirmed? && HasEffect(txs[0]) then Some(txs[0])
    else FirstEffect(txs[1..])
  }

  lemma {:induction false} NoFirstEffect(txs: seq<TxRecord>)
    ensures FirstEffect(txs).None? ==> forall t :: t in txs && t.state.Confirmed? ==> !HasEffect(t)
  {
    if txs != [] {
      NoFirstEffect(txs[1..]);
      assert txs == [txs[0]] + txs[1..];
    }
  }

  function CommandAfterRecovery(w: World, id: OpId, view: ChainView): World
    requires id in w.ops && w.ops[id].spec.Command?
  {
    var op := w.ops[id];
    var t := FirstEffect(op.txs);
    if HasAmbiguous(op) then w
    else if t.None? then w.(ops := w.ops[id := op.(state := Failed)])
    else if EffectShown(op.spec.effect, t.value, view) then w.(ops := w.ops[id := op.(state := Applied)])
    else w
  }

  method RecoverCommand(e: Engine, id: OpId, view: ChainView)
    requires e.Valid() && e.IsOpen(id) && e.journal.operations[id].spec.Command?
    modifies e, e.journal
    ensures e.Valid() && e.State() == CommandAfterRecovery(old(e.State()), id, view)
  {
    var op := e.journal.operations[id];
    if HasAmbiguous(op) {
      return;
    }
    var i := 0;
    while i < |op.txs| && !(op.txs[i].state.Confirmed? && HasEffect(op.txs[i]))
      invariant 0 <= i <= |op.txs| && FirstEffect(op.txs) == FirstEffect(op.txs[i..])
    {
      i := i + 1;
    }
    NoFirstEffect(op.txs);
    if i == |op.txs| {
      ExitsAndEntriesApart(e, id);
      e.Record(id, MarkFailed);
    } else if EffectShown(op.spec.effect, op.txs[i], view) {
      e.Record(id, MarkApplied);
    }
  }

  // ---- Any of them -------------------------------------------------------------------------------

  /** Refreshes and settles one operation; `blocked` is the report. */
  method RecoverOne(e: Engine, id: OpId, view: ChainView, at: nat) returns (blocked: bool)
    requires e.Valid() && e.positions.list == e.positions.saved
    requires id in e.journal.operations && !e.journal.operations[id].state.Failed?
    modifies e, e.journal, e.positions
    ensures e.Valid() && e.positions.list == e.positions.saved
    ensures e.State() == AfterRecovery(old(e.State()), id, view, at)
    ensures blocked <==> Blocks(old(e.State()), id, view, at)
  {
    var before := e.journal.operations[id];
    RefreshReceipts(e, id, view);
    RefreshedHasReceipts(before, view);
    var now := e.journal.operations[id];
    if before.state.Applied? {
      return ReceiptsChanged(before, now);
    }
    match now.spec {
      case Entry(_, _, _) => RecoverEntry(e, id, view);
      case ExitOf(_, _, _, _) => RecoverExit(e, id, view, at);
      case Command(_, _) => RecoverCommand(e, id, view);
    }
    return e.journal.operations[id].state.Pending?;
  }

  function AfterRefresh(w: World, id: OpId, view: ChainView): World
    requires id in w.ops
  {
    w.(ops := w.ops[id := Refreshed(w.ops[id], view)])
  }

  ghost function AfterRecovery(w: World, id: OpId, view: ChainView, at: nat): World
    requires id in w.ops
  {
    var v := AfterRefresh(w, id, view);
    if w.ops[id].state.Applied? then v else
      match w.ops[id].spec
      case Entry(_, _, _) => EntryAfterRecovery(v, id, view)
      case ExitOf(_, _, _, _) => ExitAfterRecovery(v, id, view, at)
      case Command(_, _) => CommandAfterRecovery(v, id, view)
  }

  ghost predicate Blocks(w: World, id: OpId, view: ChainView, at: nat)
    requires id in w.ops
  {
    if w.ops[id].state.Applied? then ReceiptsChanged(w.ops[id], Refreshed(w.ops[id], view))
    else id in AfterRecovery(w, id, view, at).ops && AfterRecovery(w, id, view, at).ops[id].state.Pending?
  }

  predicate Mine(op: Operation, wallet: Address) {
    op.chainId == CHAIN_ID && op.wallet == wallet
  }

  /**
   * Why an exit is left pending: no leg of it is in the book, and several sales confirmed; or one did, but it did not
   * fill or its position is gone or holds nothing; or none did, but something else may have had an effect; or there is
   * gas to charge and no position.
   */
  ghost predicate ExitIsStuck(op: Operation, view: ChainView, book: seq<Position>)
    requires op.spec.ExitOf?
  {
    var sales, position := SalesIn(op.txs), op.spec.positionId;
    && !HasLeg(book, HashesOf(op.txs))
    && match |sales|
       case 0 => HasAmbiguous(op) || TookEffect(op) || (OperationGas(op.txs) > 0 && Find(book, position).None?)
       case 1 =>
         var t := sales[0];
         var fill := if t.hash in view.receipts then SaleFill(t.step, view.receipts[t.hash]) else None;
         fill.None? || !StillHolds(book, position, fill.value.tokens)
       case _ => true
  }

  /**
   * Exactly what recovery leaves pending, given the book it finds: results of which the chain and the book do not tell
   * all.
   */
  ghost predicate MustStayPending(op: Operation, view: ChainView, book: seq<Position>) {
    match op.spec
    case Entry(_, _, value) =>
      HasAmbiguous(op) || (!HasEntry(book, HashesOf(op.txs)) && FillsOf(LandedIn(op.txs, view), value).zeroNet)
    case ExitOf(_, _, _, _) => ExitIsStuck(op, view, book)
    case Command(_, effect) =>
      HasAmbiguous(op) || (FirstEffect(op.txs).Some? && !EffectShown(effect, FirstEffect(op.txs).value, view))
  }

  /**
   * One recovered operation, before and after: its receipts are refreshed, and it is settled unless there is a reason.
   */
  ghost predicate Settled(before: Operation, after: Operation, blocked: bool, view: ChainView, book: seq<Position>) {
    && after == Refreshed(before, view).(state := after.state)
    && (before.state.Pending? ==>
          (blocked <==> after.state.Pending?) && (blocked <==> MustStayPending(Refreshed(before, view), view, book)))
    && (before.state.Applied? ==>
          after.state.Applied? && (blocked <==> ReceiptsChanged(before, Refreshed(before, view))))
  }

  lemma RecoveryIsLocal(w: World, id: OpId, view: ChainView, at: nat)
    requires id in w.ops
    ensures var v := AfterRecovery(w, id, view, at);
      && id in v.ops && v.ops == w.ops[id := v.ops[id]]
      && v.ops[id] == Refreshed(w.ops[id], view).(state := v.ops[id].state)
      && (w.ops[id].state.Applied? ==> v.ops[id].state.Applied?)
  {
  }

  lemma PendingForAReason(w: World, id: OpId, view: ChainView, at: nat)
    requires id in w.ops && w.ops[id].state.Pending?
    ensures id in AfterRecovery(w, id, view, at).ops
    ensures AfterRecovery(w, id, view, at).ops[id].state.Pending? <==>
      MustStayPending(Refreshed(w.ops[id], view), view, w.book)
  {
    var op := Refreshed(w.ops[id], view);
    if op.spec.ExitOf? && |SalesIn(op.txs)| == 0 {
      assert RequiresRecovery(op) <==> HasAmbiguous(op) || TookEffect(op);
    }
  }

  lemma AheadOfItself(book: seq<Position>)
    ensures Ahead(book, book)
  {
    assert forall i :: 0 <= i < |book| ==> Grew(book[i], book[i]);
  }

  lemma SoldGrows(book: seq<Position>, position: PosId, tokens: nat, eth: nat, gas: nat, reason: string, hash: Hash,
                  at: nat)
    ensures Ahead(book, Sold(book, position, tokens, eth, gas, reason, hash, at))
  {
    AheadOfItself(book);
    if Find(book, position).Some? {
      FirstFound(book, position);
      var i := Find(book, position).value;
      ReplaceGrows(book, i, AfterExit(book[i], tokens, eth, gas, reason, Some(hash), at));
    }
  }

  lemma ChargedGrows(book: seq<Position>, position: PosId, id: OpId, gas: nat)
    ensures Ahead(book, ChargedBook(book, position, id, gas))
  {
    AheadOfItself(book);
    if Find(book, position).Some? {
      FirstFound(book, position);
      var i := Find(book, position).value;
      ReplaceGrows(book, i, AfterOverhead(book[i], id, gas));
    }
  }

  lemma ExitRecoveryGrowsBook(w: World, id: OpId, view: ChainView, at: nat)
    requires id in w.ops && w.ops[id].spec.ExitOf?
    ensures Ahead(w.book, ExitAfterRecovery(w, id, view, at).book)
  {
    var op := w.ops[id];
    AheadOfItself(w.book);
    ChargedGrows(w.book, op.spec.positionId, id, OperationGas(op.txs));
    if |SalesIn(op.txs)| == 1 && SalesIn(op.txs)[0].hash in view.receipts {
      var sale := SalesIn(op.txs)[0];
      var fill := SaleFill(sale.step, view.receipts[sale.hash]);
      if fill.Some? {
        SoldGrows(w.book, op.spec.positionId, fill.value.tokens, fill.value.eth, OperationGas(op.txs), op.spec.reason,
                  sale.hash, at);
      }
    }
  }

  /** Recovering an operation only adds to the book. */
  lemma RecoveryGrowsBook(w: World, id: OpId, view: ChainView, at: nat)
    requires id in w.ops
    ensures Ahead(w.book, AfterRecovery(w, id, view, at).book)
  {
    AheadOfItself(w.book);
    if w.ops[id].spec.ExitOf? {
      ExitRecoveryGrowsBook(AfterRefresh(w, id, view), id, view, at);
    }
  }

  // ---- What the chain says of one transaction, in its own terms ------------------------------------

  /** No receipt, and it may still land: less than a minute has passed, or a nonce of the wallet is beyond its own. */
  predicate InDoubt(t: TxRecord, createdAt: nat, view: ChainView) {
    && !t.state.Rejected? && !t.state.Dropped? && t.hash !in view.receipts
    && (view.nowMs < createdAt + 60_000 || t.nonce < view.latestNonce || t.nonce < view.pendingNonce)
  }

  predicate GivenUp(t: TxRecord) {
    t.state.Rejected? || t.state.Dropped?
  }

  /**
   * Recovery leaves of a transaction without a receipt an open record while it may still land, and drops it otherwise.
   * One with a receipt is what the receipt says, if that is in place; and one given up before stays as it was.
   */
  lemma RecordAfterRecovery(w: World, id: OpId, i: nat, view: ChainView, at: nat)
    requires id in w.ops && i < |w.ops[id].txs|
    ensures var op, t, v := w.ops[id], w.ops[id].txs[i], AfterRecovery(w, id, view, at);
      && id in v.ops && |v.ops[id].txs| == |op.txs|
      && var now := v.ops[id].txs[i];
         && (GivenUp(t) ==> now == t)
         && (!GivenUp(t) && t.hash !in view.receipts ==>
               now == if InDoubt(t, op.createdAt, view)
                      then TxRecord(t.step, t.nonce, t.hash, Unresolved, None, None, None)
                      else t.(state := Dropped, blockNumber := None))
         && (!GivenUp(t) && t.hash in view.receipts ==>
               var r := view.receipts[t.hash];
               var state :=
                 if !Placed(view, t.hash) || r.status.None? then Unresolved
                 else if r.status.value then Confirmed else Reverted;
               now == if state.Unresolved? then TxRecord(t.step, t.nonce, t.hash, state, None, None, None)
                      else TxRecord(t.step, t.nonce, t.hash, state, r.blockNumber, r.blockHash, Some(r.gasWei)))
  {
    RecoveryIsLocal(w, id, view, at);
  }

  /** The burst transactions that succeeded, in order. */
  function SucceededIn(txs: seq<TxRecord>, view: ChainView): seq<Landed> {
    if txs == [] then [] else
      var t := txs[|txs| - 1];
      SucceededIn(txs[..|txs| - 1], view)
        + (if t.step == EntryStep && !GivenUp(t) && Succeeded(view, t.hash)
           then [Landed(t.hash, view.receipts[t.hash])] else [])
  }

  predicate LandsAs(now: TxRecord, t: TxRecord, view: ChainView) {
    && now.hash == t.hash && now.step == t.step
    && (now.state.Confirmed? && t.hash in view.receipts <==> !GivenUp(t) && Succeeded(view, t.hash))
  }

  lemma RefreshedLands(t: TxRecord, createdAt: nat, view: ChainView)
    ensures LandsAs(Refreshed1(t, createdAt, view), t, view)
  {
  }

  lemma {:induction false} LandedHaveSucceeded(now: seq<TxRecord>, txs: seq<TxRecord>, view: ChainView)
    requires |now| == |txs| && forall i :: 0 <= i < |txs| ==> LandsAs(now[i], txs[i], view)
    ensures LandedIn(now, view) == SucceededIn(txs, view)
  {
    if txs != [] {
      var n := |txs| - 1;
      LandedHaveSucceeded(now[..n], txs[..n], view);
      assert LandsAs(now[n], txs[n], view);
    }
  }

  lemma RefreshedHaveLanded(op: Operation, view: ChainView)
    ensures LandedIn(Refreshed(op, view).txs, view) == SucceededIn(op.txs, view)
  {
    forall i | 0 <= i < |op.txs| ensures LandsAs(Refreshed(op, view).txs[i], op.txs[i], view) {
      RefreshedLands(op.txs[i], op.createdAt, view);
    }
    LandedHaveSucceeded(Refreshed(op, view).txs, op.txs, view);
  }

  /**
   * Recovery of an entry the book does not have yet: a transaction that bought tokens for nothing leaves everything as
   * it was; otherwise the position is opened with what the receipts show, and with none the operation fails, either
   * way for good only if nothing of it is still open.
   */
  lemma RecoveredEntryIsBought(w: World, id: OpId, view: ChainView, at: nat)
    requires id in w.ops && w.ops[id].state.Pending? && w.ops[id].spec.Entry?
    requires !HasEntry(w.book, HashesOf(w.ops[id].txs))
    ensures var op, now, v := w.ops[id], Refreshed(w.ops[id], view), AfterRecovery(w, id, view, at);
      var ls, open := SucceededIn(op.txs, view), exists t :: t in now.txs && t.state.Unresolved?;
      && id in v.ops
      && (SomeFree(ls, op.spec.value) ==> v == AfterRefresh(w, id, view))
      && (!SomeFree(ls, op.spec.value) && PaidBuys(ls, op.spec.value) == [] ==>
            v.book == w.book && v.saved == w.saved && v.ops[id].state == (if open then Pending else Failed))
      && (!SomeFree(ls, op.spec.value) && PaidBuys(ls, op.spec.value) != [] ==>
            && v.saved == v.book && v.ops[id].state == (if open then Pending else Applied)
            && OneMorePosition(w.book, v.book, PosId(op.spec.token, op.createdAt / 1000), ls, op.spec.value,
                               OperationGas(now.txs)))
  {
    var op := Refreshed(w.ops[id], view);
    var ls := SucceededIn(w.ops[id].txs, view);
    RecoveryIsLocal(w, id, view, at);
    RefreshHashes(w.ops[id], view);
    RefreshedHaveLanded(w.ops[id], view);
    FillsAddUp(ls, op.spec.value);
    OpenedIsOneMore(w.book, PosId(op.spec.token, op.createdAt / 1000), ls, op.spec.value, OperationGas(op.txs));
    forall t | t in op.txs ensures IsAmbiguous(t.state) <==> t.state.Unresolved? {
      RefreshSettles(w.ops[id], view, t);
    }
  }

  /** A confirmed sale. */
  predicate IsSold(t: TxRecord) {
    t.state.Confirmed? && (t.step.CurveSell? || t.step.PoolSell?)
  }

  /** Number `k` is the one confirmed sale. */
  predicate LoneSale(txs: seq<TxRecord>, k: nat) {
    k < |txs| && IsSold(txs[k]) && forall j :: 0 <= j < |txs| && IsSold(txs[j]) ==> j == k
  }

  lemma {:induction false} NoneSold(txs: seq<TxRecord>)
    ensures SalesIn(txs) == [] <==> forall j :: 0 <= j < |txs| ==> !IsSold(txs[j])
  {
    if txs != [] {
      var n := |txs| - 1;
      NoneSold(txs[..n]);
      assert forall j :: 0 <= j < n ==> txs[..n][j] == txs[j];
    }
  }

  lemma {:induction false} LoneSaleIsFound(txs: seq<TxRecord>, k: nat)
    requires LoneSale(txs, k)
    ensures SalesIn(txs) == [txs[k]]
  {
    var n := |txs| - 1;
    assert forall j :: 0 <= j < n ==> txs[..n][j] == txs[j];
    if k < n {
      LoneSaleIsFound(txs[..n], k);
    } else {
      NoneSold(txs[..n]);
    }
  }

  lemma {:induction false} FoundSaleIsLone(txs: seq<TxRecord>) returns (k: nat)
    requires |SalesIn(txs)| == 1
    ensures LoneSale(txs, k)
  {
    var n := |txs| - 1;
    assert forall j :: 0 <= j < n ==> txs[..n][j] == txs[j];
    if IsSold(txs[n]) {
      NoneSold(txs[..n]);
      k := n;
    } else {
      k := FoundSaleIsLone(txs[..n]);
    }
  }

  /** Some confirmed sale is the only one, and there is something to book for it. */
  ghost predicate SaleToBook(txs: seq<TxRecord>, book: seq<Position>, position: PosId, view: ChainView) {
    exists k: nat ::
      && LoneSale(txs, k) && txs[k].hash in view.receipts
      && Sellable(book, position, txs[k].step, view.receipts[txs[k].hash])
  }

  /**
   * Recovery of an exit whose result the book does not have yet: it is applied exactly when one sale of it stands and
   * leaves something to book, and then the book takes what the receipt of that sale shows; another sale beside it, or
   * one without tokens or ETH, changes nothing.
   */
  lemma RecoveredSaleIsBooked(w: World, id: OpId, view: ChainView, at: nat)
    requires id in w.ops && w.ops[id].state.Pending? && w.ops[id].spec.ExitOf?
    requires !HasLeg(w.book, HashesOf(w.ops[id].txs))
    ensures var op, now, v := w.ops[id], Refreshed(w.ops[id], view), AfterRecovery(w, id, view, at);
      && id in v.ops
      && (v.ops[id].state.Applied? <==> SaleToBook(now.txs, w.book, op.spec.positionId, view))
      && (v.ops[id].state.Applied? ==>
            && v.saved == v.book
            && forall k: nat :: LoneSale(now.txs, k) ==>
                 now.txs[k].hash in view.receipts
                 && SaleBooked(w.book, v.book, op.spec.positionId, now.txs[k].step, view.receipts[now.txs[k].hash],
                               OperationGas(now.txs), op.spec.reason, now.txs[k].hash, at))
      && ((exists j :: 0 <= j < |now.txs| && IsSold(now.txs[j])) && !v.ops[id].state.Applied? ==>
            v == AfterRefresh(w, id, view))
  {
    var op, v := Refreshed(w.ops[id], view), AfterRefresh(w, id, view);
    RefreshHashes(w.ops[id], view);
    RecoveryIsLocal(w, id, view, at);
    NoneSold(op.txs);
    forall k: nat | LoneSale(op.txs, k) ensures SalesIn(op.txs) == [op.txs[k]] {
      LoneSaleIsFound(op.txs, k);
    }
    if |SalesIn(op.txs)| == 1 {
      var k := FoundSaleIsLone(op.txs);
      OneSaleIsBooked(w, id, view, at);
    }
  }

  lemma OneSaleIsBooked(w: World, id: OpId, view: ChainView, at: nat)
    requires id in w.ops && w.ops[id].state.Pending? && w.ops[id].spec.ExitOf?
    requires !HasLeg(w.book, HashesOf(w.ops[id].txs)) && |SalesIn(Refreshed(w.ops[id], view).txs)| == 1
    ensures var op, now, v := w.ops[id], Refreshed(w.ops[id], view), AfterRecovery(w, id, view, at);
      && var sale := SalesIn(now.txs)[0];
      && id in v.ops && sale.hash in view.receipts
      && (v.ops[id].state.Applied? <==>
            Sellable(w.book, op.spec.positionId, sale.step, view.receipts[sale.hash]))
      && (v.ops[id].state.Applied? ==>
            && v.saved == v.book
            && SaleBooked(w.book, v.book, op.spec.positionId, sale.step, view.receipts[sale.hash],
                          OperationGas(now.txs), op.spec.reason, sale.hash, at))
      && (!v.ops[id].state.Applied? ==> v == AfterRefresh(w, id, view))
  {
    var op, v := Refreshed(w.ops[id], view), AfterRefresh(w, id, view);
    RefreshHashes(w.ops[id], view);
    SalesAreStaged(op.txs);
    var sale := SalesIn(op.txs)[0];
    assert sale in SalesIn(op.txs);
    RefreshSettles(w.ops[id], view, sale);
    SaleIsBooked(w.book, op.spec.positionId, sale.step, view.receipts[sale.hash], OperationGas(op.txs), op.spec.reason,
                 sale.hash, at);
    assert AfterRecovery(w, id, view, at) == SaleAfterRecovery(v, id, sale, view, at);
  }

  /** A confirmed transaction that is more than an approval, and the first such. */
  predicate Acts(t: TxRecord) {
    t.state.Confirmed? && t.step != TokenApproval && t.step != Permit2Approval
  }

  predicate FirstToAct(txs: seq<TxRecord>, k: nat) {
    k < |txs| && Acts(txs[k]) && forall j :: 0 <= j < k ==> !Acts(txs[j])
  }

  lemma {:induction false} FirstEffectActs(txs: seq<TxRecord>)
    ensures FirstEffect(txs).None? <==> forall j :: 0 <= j < |txs| ==> !Acts(txs[j])
    ensures forall k: nat :: FirstToAct(txs, k) ==> FirstEffect(txs) == Some(txs[k])
  {
    if txs != [] {
      FirstEffectActs(txs[1..]);
      assert forall j :: 1 <= j < |txs| ==> txs[1..][j - 1] == txs[j];
      forall k: nat | FirstToAct(txs, k) && k > 0 ensures FirstEffect(txs) == Some(txs[k]) {
        assert FirstToAct(txs[1..], k - 1);
      }
    }
  }

  /**
   * Recovery of a command: left pending while a transaction of it is open, failed when none acted, and otherwise
   * applied exactly when the chain shows, for the first that did, the log or the code the command promised.
   */
  lemma RecoveredCommandIsShown(w: World, id: OpId, view: ChainView, at: nat)
    requires id in w.ops && w.ops[id].state.Pending? && w.ops[id].spec.Command?
    ensures var now, v := Refreshed(w.ops[id], view), AfterRecovery(w, id, view, at);
      && id in v.ops && v.book == w.book && v.saved == w.saved && v.sent == w.sent
      && ((exists t :: t in now.txs && (t.state.Prepared? || t.state.Submitted? || t.state.Unresolved?)) ==>
            v.ops[id].state.Pending?)
      && ((forall t :: t in now.txs ==> !(t.state.Prepared? || t.state.Submitted? || t.state.Unresolved?)) ==>
            && ((forall j :: 0 <= j < |now.txs| ==> !Acts(now.txs[j])) ==> v.ops[id].state.Failed?)
            && forall k: nat :: FirstToAct(now.txs, k) ==>
                 v.ops[id].state
                   == (if ShowsFor(w.ops[id].spec.effect, now.txs[k].hash, view) then Applied else Pending))
  {
    FirstEffectActs(Refreshed(w.ops[id], view).txs);
  }

  /** The receipt has the log, or the address has the code. */
  predicate ShowsFor(effect: CommandEffect, hash: Hash, view: ChainView) {
    && (effect.RequiredLog? ==>
          hash in view.receipts && LogId(effect.address, effect.topic) in view.receipts[hash].logs)
    && (effect.RuntimeCode? ==> effect.address in view.codeHash && view.codeHash[effect.address] == effect.codeHash)
  }

  // ---- The gas of a dropped transaction -----------------------------------------------------------

  /** An exit whose one sale reverted, its receipt since lost and its nonce unused, and the position it was to close. */
  function LostSale(): Operation {
    Operation(CHAIN_ID, 3, 0, Pending, ExitOf(PosId(1, 1), 1, 2, "manual"),
              [TxRecord(CurveSell, 7, 1, Reverted, Some(5), Some(9), Some(21_000))])
  }

  function LostSaleWorld(): World {
    var p := Opened(PosId(1, 1), None, 100, 0, 10);
    World(map[OpId(0, 0) := LostSale()], [p], [p], {1})
  }

  function LostSaleView(): ChainView {
    ChainView(5, 7, 7, DROP_AFTER_MS, map[], map[], map[])
  }

  /** The gas a drop leaves on the record is charged: the position pays 21000 wei although no transaction is mined. */
  lemma DroppedGasIsCharged(at: nat)
    ensures var w, id, view := LostSaleWorld(), OpId(0, 0), LostSaleView();
      && Inv(w) && !CarriesStaleGas(w.ops[id].txs) && w.book[0].overheadGasWei == 0
      && var v := ExitAfterRecovery(AfterRefresh(w, id, view), id, view, at);
         && v == AfterRecovery(w, id, view, at)
         && v.ops[id].state.Failed? && MinedGas(v.ops[id].txs) == 0
         && v.book == v.saved && |v.book| == 1 && v.book[0].overheadGasWei == 21_000
  {
    var w, id, view := LostSaleWorld(), OpId(0, 0), LostSaleView();
    LoneExitIsSound(w, id, LostSale(), w.book[0]);
    LostSaleGas();
    var v := AfterRefresh(w, id, view);
    assert v.ops[id] == Refreshed(LostSale(), view) && v.book == w.book;
    LostSaleIsCharged(v);
    assert ExitAfterRecovery(v, id, view, at) == AfterFailedExit(v, id);
  }

  lemma LostSaleIsCharged(v: World)
    requires v == AfterRefresh(LostSaleWorld(), OpId(0, 0), LostSaleView())
    ensures Find(v.book, PosId(1, 1)) == Some(0) && !HasLeg(v.book, HashesOf(v.ops[OpId(0, 0)].txs))
    ensures var w := AfterFailedExit(v, OpId(0, 0));
      w.book == w.saved && |w.book| == 1 && w.book[0].overheadGasWei == 21_000
  {
    LostSaleGas();
    FindIsFirst(v.book, PosId(1, 1));
  }

  lemma LostSaleGas()
    ensures var now := Refreshed(LostSale(), LostSaleView());
      && OperationGas(now.txs) == 21_000 && MinedGas(now.txs) == 0 && SalesIn(now.txs) == []
      && !HasAmbiguous(now) && !TookEffect(now)
  {
    var now := Refreshed(LostSale(), LostSaleView());
    assert now.txs == [LostSale().txs[0].(state := Dropped, blockNumber := None)] && now.txs[..0] == [];
    assert OperationGas([]) == 0 && MinedGas([]) == 0 && SalesIn([]) == [];
  }

  lemma LoneExitIsSound(w: World, id: OpId, op: Operation, p: Position)
    requires w == World(map[id := op], [p], [p], HashesOf(op.txs)) && id.index == 0 && op.state.Pending?
    requires DistinctHashes(op.txs) && p.entryTx.None? && p.exits == [] && p.overheadOperations == []
    ensures Inv(w)
  {
    assert |w.ops| == |w.ops.Keys| == |{id}|;
    forall h | h in w.sent ensures exists o :: Staged(w.ops, o, h) {
      assert Staged(w.ops, id, h);
    }
    assert Known(w.ops, p);
    AheadOfItself(w.book);
  }
}
