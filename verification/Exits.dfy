/** Closing positions on the live path, and commands (crates/bodkin/src/run.rs, crates/bodkin/src/trade/exec.rs). */
module Exits {
  import opened Common
  import opened Positions
  import opened Journal
  import opened Protocol
  import opened Engine
  import opened Sales

  /** A book that knows all its hashes shows nothing of hashes nobody has staged. */
  lemma UnstagedShowNothing(ops: map<OpId, Operation>, book: seq<Position>, hs: set<Hash>)
    requires BookInv(ops, book) && forall h, o :: h in hs ==> !Staged(ops, o, h)
    ensures !HasEntry(book, hs) && !HasLeg(book, hs)
  {
    forall i: nat | i < |book| ensures !EntryAt(book, hs, i) && forall k: nat :: !LegAt(book, hs, i, k) {
      assert Known(ops, book[i]);
      forall k: nat ensures !LegAt(book, hs, i, k) {
        if k < |book[i].exits| {
          assert LegKnown(ops, book[i], book[i].exits[k]);
        }
      }
    }
  }

  /** Charges what the failed attempt cost and closes the operation; fails when the position is gone. */
  method FinishFailedExit(e: Engine, id: OpId) returns (gas: Option<nat>)
    requires e.Valid() && e.IsOpen(id) && e.journal.operations[id].spec.ExitOf?
    requires !RequiresRecovery(e.journal.operations[id]) && NoResult(e.positions.list, e.journal.operations[id])
    modifies e, e.journal, e.positions
    ensures e.Valid()
    ensures gas.None? <==>
      && OperationGas(old(e.journal.operations)[id].txs) > 0
      && Find(old(e.positions.list), old(e.journal.operations)[id].spec.positionId).None?
    ensures gas.None? ==> e.State() == old(e.State())
    ensures gas.Some? ==>
      gas.value == OperationGas(old(e.journal.operations)[id].txs) && e.State() == AfterFailedExit(old(e.State()), id)
  {
    ghost var w0 := e.State();
    var op := e.journal.operations[id];
    var recorded := e.journal.RecordedGas(id);
    var spent := recorded.value;
    if spent > 0 {
      ChargeShows(w0, id, spent);
      var found := e.Charge(id, spent);
      if !found {
        return None;
      }
      e.Flush();
    }
    e.Record(id, MarkFailed);
    return Some(spent);
  }

  function AfterFailedExit(w: World, id: OpId): World
    requires id in w.ops && w.ops[id].spec.ExitOf?
  {
    var op := w.ops[id];
    var gas := OperationGas(op.txs);
    var charged := if gas == 0 then w else Next(Next(w, Charge(id, gas)), Flush);
    charged.(ops := w.ops[id := op.(state := Failed)])
  }

  lemma ChargeShows(w: World, id: OpId, gas: nat)
    requires Inv0(w, id)
    ensures var v := Next(w, Charge(id, gas));
      NoResult(v.book, w.ops[id]) && v.ops == w.ops && v.sent == w.sent && v.saved == w.saved
    ensures Find(w.book, w.ops[id].spec.positionId).Some? ==> IsCharged(Next(w, Charge(id, gas)).book, id)
    ensures Find(w.book, w.ops[id].spec.positionId).None? ==> Next(w, Charge(id, gas)) == w
  {
    var f := Find(w.book, w.ops[id].spec.positionId);
    if f.Some? {
      FirstFound(w.book, w.ops[id].spec.positionId);
      var now := Next(w, Charge(id, gas)).book;
      assert ChargedAt(now, id, f.value);
      var hs := HashesOf(w.ops[id].txs);
      assert forall j: nat :: EntryAt(now, hs, j) ==> EntryAt(w.book, hs, j);
      assert forall j: nat, k: nat :: LegAt(now, hs, j, k) ==> LegAt(w.book, hs, j, k);
    }
  }

  ghost predicate Inv0(w: World, id: OpId) {
    id in w.ops && w.ops[id].spec.ExitOf? && NoResult(w.book, w.ops[id])
  }

  // ---- A sale in the terms of its receipt ----------------------------------------------------------

  /** The receipt shows this many tokens sold for this much ETH, neither of them zero. */
  predicate Shows(step: StepName, r: Receipt, tokens: nat, eth: nat) {
    && tokens > 0 && eth > 0
    && if step.PoolSell? then r.poolFill.Some? && r.poolFill.value.tokens == tokens && r.poolFill.value.netOut == eth
       else r.soldTokens == tokens && r.soldForEth == eth
  }

  /** `q` is `p` with one more leg, and that much less held. */
  predicate OneLegMore(p: Position, q: Position, tokens: nat, eth: nat, gas: nat, reason: string, hash: Hash, at: nat) {
    && p.tokens > 0
    && q == p.(tokens := if tokens < p.tokens then p.tokens - tokens else 0,
               exits := p.exits + [Exit(at, Min(tokens, p.tokens), eth, gas, reason, Some(hash))],
               closed := p.closed || p.tokens <= tokens,
               basisEth := q.basisEth, basisGasWei := q.basisGasWei, peakEth := q.peakEth, lastEth := q.lastEth)
  }

  predicate FirstWith(book: seq<Position>, position: PosId, i: nat) {
    i < |book| && book[i].id == position && forall j :: 0 <= j < i ==> book[j].id != position
  }

  /** The first position with this id was sold from, as the receipt shows, and no other was touched. */
  ghost predicate SaleBooked(before: seq<Position>, after: seq<Position>, position: PosId, step: StepName, r: Receipt,
                             gas: nat, reason: string, hash: Hash, at: nat)
  {
    exists i: nat, tokens: nat, eth: nat ::
      && FirstWith(before, position, i) && Shows(step, r, tokens, eth) && |after| == |before|
      && OneLegMore(before[i], after[i], tokens, eth, gas, reason, hash, at) && after == before[i := after[i]]
  }

  /** There is something to sell. */
  ghost predicate Sellable(book: seq<Position>, position: PosId, step: StepName, r: Receipt) {
    exists i: nat, tokens: nat, eth: nat ::
      FirstWith(book, position, i) && book[i].tokens > 0 && Shows(step, r, tokens, eth)
  }

  /** What the books take for the sale is what the receipt shows. */
  lemma FillIsShown(step: StepName, r: Receipt, tokens: nat, eth: nat)
    ensures SaleFill(step, r) == Some(Fill(tokens, eth)) <==> Shows(step, r, tokens, eth)
  {
  }

  lemma SaleIsBooked(book: seq<Position>, position: PosId, step: StepName, r: Receipt, gas: nat, reason: string,
                     hash: Hash, at: nat)
    ensures Sellable(book, position, step, r) <==>
      SaleFill(step, r).Some? && StillHolds(book, position, SaleFill(step, r).value.tokens)
    ensures Sellable(book, position, step, r) ==>
      var fill := SaleFill(step, r).value;
      SaleBooked(book, Sold(book, position, fill.tokens, fill.eth, gas, reason, hash, at), position, step, r, gas,
                 reason, hash, at)
  {
    FindIsFirst(book, position);
    var found, fill := Find(book, position), SaleFill(step, r);
    if fill.Some? {
      FillIsShown(step, r, fill.value.tokens, fill.value.eth);
    }
    if fill.Some? && found.Some? && book[found.value].tokens > 0 {
      assert FirstWith(book, position, found.value) && Shows(step, r, fill.value.tokens, fill.value.eth);
      var now := Sold(book, position, fill.value.tokens, fill.value.eth, gas, reason, hash, at);
      assert OneLegMore(book[found.value], now[found.value], fill.value.tokens, fill.value.eth, gas, reason, hash, at);
    }
  }

  datatype ExitOutcome = ExitRefused | ExitApplied(applied: AppliedExit) | ExitFailed(gas: nat) | ExitUnsettled

  /**
   * The manual close and the mark loop's exit: begin, sell, apply, flush, and only then mark the operation applied. A
   * failed sale is charged and closed unless a transaction of it may still have done something.
   */
  method HandleExit(e: Engine, spec: Spec, now: nat, at: nat, approvals: seq<Planned>, sale: Option<Planned>)
    returns (outcome: ExitOutcome, begun: Option<OpId>, sold: Sale)
    requires e.Valid() && spec.ExitOf?
    requires forall i :: 0 <= i < |approvals| ==> IsApproval(approvals[i].step)
    requires sale.Some? ==> IsSale(sale.value.step)
    requires NewHashesFor(e.journal.operations, Attempts(Plan(approvals, sale)))
    requires e.wallet.Valid() && e.wallet.nonce + |approvals| + 1 < U64
    modifies e, e.journal, e.positions, e.wallet
    ensures e.Valid() && e.wallet.Valid()
    ensures begun.None? <==> !NoRival(old(e.journal.operations), Operation(CHAIN_ID, e.me, now, Pending, spec, []))
    ensures begun.None? ==>
      outcome.ExitRefused? && e.State() == old(e.State()) && e.wallet.nonce == old(e.wallet.nonce)
    ensures begun.Some? ==>
      && begun.value !in old(e.journal.operations)
      && e.wallet.nonce == NonceAfterPlan(Attempts(Plan(approvals, sale)), old(e.wallet.nonce))
      && sold == SaleMade(approvals, sale)
      && (outcome.ExitFailed? ==> outcome.gas == PlanGas(Attempts(Plan(approvals, sale))))
      && var op := Operation(CHAIN_ID, e.me, now, Pending, spec, []);
         var attempt := Attempted(old(e.State()), begun.value, op, Attempts(Plan(approvals, sale)),
                                  old(e.wallet.nonce));
         && (sold.SaleOf? ==>
               SoldAs(sold, sale.value) && ShowsSale(attempt.ops[begun.value].txs, sale.value.step, sold))
         && ExitShows(attempt, e.State(), begun.value, sold, at, outcome)
    ensures outcome.ExitApplied? <==>
      && begun.Some? && sale.Some? && AllLand(Plan(approvals, sale))
      && Sellable(old(e.positions.list), spec.positionId, sale.value.step, sale.value.view.receipts[sale.value.hash])
    ensures outcome.ExitApplied? ==>
      && e.positions.saved == e.positions.list
      && SaleBooked(old(e.positions.list), e.positions.list, spec.positionId, sale.value.step,
                    sale.value.view.receipts[sale.value.hash], PlanGas(Attempts(Plan(approvals, sale))), spec.reason,
                    sale.value.hash, at)
  {
    ghost var w0, start, all := e.State(), e.wallet.nonce, Attempts(Plan(approvals, sale));
    e.Facts();
    sold := NoSale;
    begun := e.Begin(spec, now);
    if begun.None? {
      return ExitRefused, begun, sold;
    }
    var id := begun.value;
    BegunStagesNothing(w0, e.State(), id, all);
    sold := SellAnywhere(e, id, approvals, sale);
    if sold.SaleOf? {
      SaleIsShown(approvals, sale, start);
    }
    AttemptCostsItsReceipts(all, start);
    PlanHashesAreNew(w0.ops, all, start);
    UnstagedShowNothing(w0.ops, w0.book, HashesOf(PlanRecords(all, start)));
    SaleIsStaged(PlanRecords(all, start), sold);
    ghost var v := e.State();
    outcome := CloseExit(e, id, sold, at);
    AppliedAsShown(v, e.State(), id, approvals, sale, at, outcome);
  }

  /** An exit is applied exactly when all its plan landed and left something to book, and as its receipt shows. */
  lemma AppliedAsShown(v: World, w: World, id: OpId, approvals: seq<Planned>, sale: Option<Planned>, at: nat,
                       outcome: ExitOutcome)
    requires id in v.ops && v.ops[id].spec.ExitOf?
    requires ExitShows(v, w, id, SaleMade(approvals, sale), at, outcome)
    ensures var position := v.ops[id].spec.positionId;
      && (outcome.ExitApplied? <==>
            && sale.Some? && AllLand(Plan(approvals, sale))
            && Sellable(v.book, position, sale.value.step, sale.value.view.receipts[sale.value.hash]))
      && (outcome.ExitApplied? ==>
            && w.saved == w.book
            && SaleBooked(v.book, w.book, position, sale.value.step, sale.value.view.receipts[sale.value.hash],
                          PlanGas(Attempts(Plan(approvals, sale))), v.ops[id].spec.reason, sale.value.hash, at))
  {
    ConfirmedMeansLanded(Plan(approvals, sale));
    if sale.Some? && AllLand(Plan(approvals, sale)) {
      var p := sale.value;
      SaleLanded(approvals, p);
      SaleIsBooked(v.book, v.ops[id].spec.positionId, p.step, p.view.receipts[p.hash],
                   PlanGas(Attempts(Plan(approvals, sale))), v.ops[id].spec.reason, p.hash, at);
    }
  }

  lemma SaleLanded(approvals: seq<Planned>, p: Planned)
    requires AllLand(Plan(approvals, Some(p)))
    ensures Lands(p) && p.hash in p.view.receipts
    ensures AttemptOf(p).step == p.step && AttemptOf(p).hash == p.hash && Confirms(AttemptOf(p))
    ensures AttemptOf(p).result.final.receipt == p.view.receipts[p.hash]
  {
    assert Plan(approvals, Some(p))[|approvals|] == p;
  }

  /** The operation has begun and its plan was sent as far as it went; the book is as it was. */
  function Attempted(w: World, id: OpId, op: Operation, plan: seq<Attempt>, nonce: nat): World {
    WithTxs(Next(w, Action.Begin(id, op)), id, PlanRecords(plan, nonce))
  }

  lemma SaleIsStaged(txs: seq<TxRecord>, sold: Sale)
    ensures sold.SaleOf? && (exists step :: ShowsSale(txs, step, sold)) ==> sold.hash in HashesOf(txs)
  {
    if txs != [] {
      assert txs[|txs| - 1] in txs;
    }
  }

  /** What an attempt to sell leaves behind, given how it ended. */
  ghost predicate ExitShows(v: World, w: World, id: OpId, sold: Sale, at: nat, outcome: ExitOutcome)
    requires id in v.ops && v.ops[id].spec.ExitOf?
  {
    var op := v.ops[id];
    match outcome
    case ExitRefused => false
    case ExitApplied(applied) =>
      && sold.SaleOf? && StillHolds(v.book, op.spec.positionId, sold.fill.tokens)
      && w == AfterSale(v, id, sold.fill, sold.gas, sold.hash, at) && applied.tokensSold > 0
    case ExitFailed(gas) =>
      sold.NoSale? && gas == OperationGas(op.txs) && !RequiresRecovery(op) && w == AfterFailedExit(v, id)
    case ExitUnsettled =>
      && w == v
      && if sold.SaleOf? then !StillHolds(v.book, op.spec.positionId, sold.fill.tokens)
         else RequiresRecovery(op) || (OperationGas(op.txs) > 0 && Find(v.book, op.spec.positionId).None?)
  }

  method CloseExit(e: Engine, id: OpId, sold: Sale, at: nat) returns (outcome: ExitOutcome)
    requires e.Valid() && e.IsOpen(id) && e.journal.operations[id].spec.ExitOf?
    requires NoResult(e.positions.list, e.journal.operations[id])
    requires sold.SaleOf? ==> Staged(e.journal.operations, id, sold.hash)
    modifies e, e.journal, e.positions
    ensures e.Valid() && ExitShows(old(e.State()), e.State(), id, sold, at, outcome)
  {
    if sold.NoSale? {
      outcome := AbandonExit(e, id);
    } else {
      outcome := SettleExit(e, id, sold, at);
    }
  }

  lemma BegunStagesNothing(w0: World, w: World, id: OpId, plan: seq<Attempt>)
    requires NewHashesFor(w0.ops, plan) && id !in w0.ops && id in w.ops && w.ops[id].txs == []
    requires w.ops == w0.ops[id := w.ops[id]]
    ensures NewHashesFor(w.ops, plan)
  {
    assert HashesOf(w.ops[id].txs) == {};
    assert forall o, h :: Staged(w.ops, o, h) ==> Staged(w0.ops, o, h);
  }

  /** A sale that did not come off. */
  method AbandonExit(e: Engine, id: OpId) returns (outcome: ExitOutcome)
    requires e.Valid() && e.IsOpen(id) && e.journal.operations[id].spec.ExitOf?
    requires NoResult(e.positions.list, e.journal.operations[id])
    modifies e, e.journal, e.positions
    ensures e.Valid() && (outcome.ExitFailed? || outcome.ExitUnsettled?)
    ensures var op := old(e.journal.operations)[id];
      outcome.ExitUnsettled? <==>
        RequiresRecovery(op) || (OperationGas(op.txs) > 0 && Find(old(e.positions.list), op.spec.positionId).None?)
    ensures outcome.ExitUnsettled? ==> e.State() == old(e.State())
    ensures outcome.ExitFailed? ==>
      outcome.gas == OperationGas(old(e.journal.operations)[id].txs) && e.State() == AfterFailedExit(old(e.State()), id)
  {
    var pending := e.journal.NeedsRecovery(id);
    if pending {
      return ExitUnsettled;
    }
    var gas := FinishFailedExit(e, id);
    return if gas.Some? then ExitFailed(gas.value) else ExitUnsettled;
  }

  /** The position is there and the sale takes something out of it. */
  predicate StillHolds(book: seq<Position>, position: PosId, tokens: nat) {
    var i := Find(book, position);
    i.Some? && i.value < |book| && Sells(book[i.value], tokens)
  }

  function AfterSale(w: World, id: OpId, fill: Fill, gas: nat, hash: Hash, at: nat): World
    requires id in w.ops && w.ops[id].spec.ExitOf?
  {
    var op := w.ops[id];
    var book := Sold(w.book, op.spec.positionId, fill.tokens, fill.eth, gas, op.spec.reason, hash, at);
    w.(ops := w.ops[id := op.(state := Applied)], book := book, saved := book)
  }

  /** A confirmed sale: into the book, to disk, and then the operation is done. */
  method SettleExit(e: Engine, id: OpId, sold: Sale, at: nat) returns (outcome: ExitOutcome)
    requires e.Valid() && sold.SaleOf? && Staged(e.journal.operations, id, sold.hash)
    requires e.journal.operations[id].state.Pending? && e.journal.operations[id].spec.ExitOf?
    requires NoResult(e.positions.list, e.journal.operations[id])
    modifies e, e.journal, e.positions
    ensures e.Valid() && (outcome.ExitApplied? || outcome.ExitUnsettled?)
    ensures outcome.ExitUnsettled? ==> e.State() == old(e.State())
    ensures outcome.ExitApplied? <==>
      StillHolds(old(e.positions.list), old(e.journal.operations)[id].spec.positionId, sold.fill.tokens)
    ensures outcome.ExitApplied? ==> outcome.applied.tokensSold > 0
    ensures outcome.ExitApplied? ==> e.State() == AfterSale(old(e.State()), id, sold.fill, sold.gas, sold.hash, at)
  {
    ghost var w0 := e.State();
    SaleShows(w0, id, sold, at);
    var applied := e.SellFrom(id, sold.fill.tokens, sold.fill.eth, sold.gas, sold.hash, at);
    if applied.None? || applied.value.tokensSold == 0 {
      return ExitUnsettled;
    }
    e.Flush();
    e.Record(id, MarkApplied);
    return ExitApplied(applied.value);
  }

  lemma SaleShows(w: World, id: OpId, sold: Sale, at: nat)
    requires sold.SaleOf? && Staged(w.ops, id, sold.hash) && w.ops[id].spec.ExitOf?
    ensures var v := Next(w, SellFrom(id, sold.fill.tokens, sold.fill.eth, sold.gas, sold.hash, at));
      && (StillHolds(w.book, w.ops[id].spec.positionId, sold.fill.tokens) ==> HasLeg(v.book, HashesOf(w.ops[id].txs)))
      && (!StillHolds(w.book, w.ops[id].spec.positionId, sold.fill.tokens) ==> v == w)
  {
    var f := Find(w.book, w.ops[id].spec.positionId);
    if StillHolds(w.book, w.ops[id].spec.positionId, sold.fill.tokens) {
      var v := Next(w, SellFrom(id, sold.fill.tokens, sold.fill.eth, sold.gas, sold.hash, at));
      assert LegAt(v.book, HashesOf(w.ops[id].txs), f.value, |w.book[f.value].exits|);
    }
  }

  // ---- Commands -----------------------------------------------------------------------------------

  /** Closes a command as failed unless one of its transactions may still have, or already had, an effect. */
  method FailIfResolved(e: Engine, id: OpId) returns (failed: bool)
    requires e.Valid() && e.IsOpen(id) && e.journal.operations[id].spec.Command?
    modifies e, e.journal
    ensures e.Valid()
    ensures failed <==> !RequiresRecovery(old(e.journal.operations)[id])
    ensures e.State() == if failed then Next(old(e.State()), Record(id, MarkFailed)) else old(e.State())
  {
    var pending := e.journal.NeedsRecovery(id);
    if pending {
      return false;
    }
    e.Facts();
    CommandShowsNothing(e.State(), id);
    e.Record(id, MarkFailed);
    return true;
  }

  /** Entries have no legs, exits no entries, and commands neither. */
  lemma CommandShowsNothing(w: World, id: OpId)
    requires Inv(w) && id in w.ops
    ensures !w.ops[id].spec.Entry? ==> !HasEntry(w.book, HashesOf(w.ops[id].txs))
    ensures !w.ops[id].spec.ExitOf? ==> !HasLeg(w.book, HashesOf(w.ops[id].txs))
  {
    var hs := HashesOf(w.ops[id].txs);
    forall h | h in hs ensures Staged(w.ops, id, h) {
    }
    forall i: nat | EntryAt(w.book, hs, i) ensures w.ops[id].spec.Entry? {
      assert Known(w.ops, w.book[i]);
    }
    forall i: nat, k: nat | LegAt(w.book, hs, i, k) ensures w.ops[id].spec.ExitOf? {
      assert Known(w.ops, w.book[i]);
      assert LegKnown(w.ops, w.book[i], w.book[i].exits[k]);
    }
  }
}
