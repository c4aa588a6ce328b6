/**
 * Selling: approvals one after another, then the sale (crates/bodkin/src/trade/curve.rs,
 * crates/bodkin/src/trade/pool.rs).
 */
module Sales {
  import opened Common
  import opened Positions
  import opened Journal
  import opened Protocol
  import opened Wallet
  import opened Engine
  import opened Submit

  /** A transaction the seller means to send, and what the network will do with it. */
  datatype Planned = Planned(step: StepName, hash: Hash, reply: SendOutcome, view: ChainView)

  /** A transaction and how it ends if it is sent. */
  datatype Attempt = Attempt(step: StepName, hash: Hash, result: Submitted)

  function AttemptOf(p: Planned): Attempt {
    Attempt(p.step, p.hash, ResultOf(p.hash, p.reply, p.view))
  }

  function Attempts(plan: seq<Planned>): seq<Attempt> {
    if plan == [] then [] else Attempts(plan[..|plan| - 1]) + [AttemptOf(plan[|plan| - 1])]
  }

  lemma {:induction false} AttemptAt(plan: seq<Planned>, k: nat)
    requires k < |plan|
    ensures |Attempts(plan)| == |plan| && Attempts(plan)[k] == AttemptOf(plan[k])
  {
    var n := |plan| - 1;
    if k < n {
      AttemptAt(plan[..n], k);
    } else if n > 0 {
      AttemptAt(plan[..n], n - 1);
    }
  }

  predicate IsApproval(s: StepName) {
    s.TokenApproval? || s.Permit2Approval?
  }

  predicate IsSale(s: StepName) {
    s.CurveSell? || s.PoolSell?
  }

  datatype Fill = Fill(tokens: nat, eth: nat)

  /** The tokens and net ETH of a confirmed sale, if both are nonzero. */
  function SaleFill(step: StepName, r: Receipt): Option<Fill> {
    if step.PoolSell? then
      if r.poolFill.Some? && r.poolFill.value.tokens > 0 && r.poolFill.value.netOut > 0
      then Some(Fill(r.poolFill.value.tokens, r.poolFill.value.netOut)) else None
    else if r.soldTokens > 0 && r.soldForEth > 0 then Some(Fill(r.soldTokens, r.soldForEth)) else None
  }

  datatype Sale = SaleOf(fill: Fill, hash: Hash, gas: nat, receipt: Receipt) | NoSale

  // ---- One transaction ----------------------------------------------------------------------------

  predicate Refused(a: Attempt) {
    a.result.Bailed?
  }

  predicate Confirms(a: Attempt) {
    a.result.Followed? && a.result.final.FinalConfirmed?
  }

  function GasSpent(a: Attempt): nat {
    if a.result.Followed? then FinalGas(a.result.final) else 0
  }

  /** What the journal has of an attempt sent under this nonce; a refused one gave its nonce back. */
  function RecordFor(a: Attempt, nonce: nat): TxRecord {
    match a.result
    case Followed(FinalConfirmed(_, bn, bh, r)) =>
      TxRecord(a.step, nonce, a.hash, Confirmed, Some(bn), Some(bh), Some(r.gasWei))
    case Followed(FinalReverted(_, bn, bh, gas)) =>
      TxRecord(a.step, nonce, a.hash, Reverted, Some(bn), Some(bh), Some(gas))
    case Followed(FinalUnresolved(_)) => TxRecord(a.step, nonce, a.hash, Unresolved, None, None, None)
    case Bailed => TxRecord(a.step, nonce, a.hash, Rejected, None, None, None)
  }

  lemma RecordSays(a: Attempt, nonce: nat)
    ensures var t := RecordFor(a, nonce);
      && t.hash == a.hash && t.step == a.step && (t.state.Confirmed? <==> Confirms(a))
      && GasOf(t) == GasSpent(a) && (GasOf(t) > 0 ==> IsMined(t.state))
      && (IsApproval(a.step) <==> !HasEffect(t))
  {
  }

  /** A new transaction adds exactly its record. */
  lemma NewRecord(op: Operation, p: Planned, nonce: nat)
    requires p.hash !in HashesOf(op.txs)
    ensures AfterEvent(AfterEvent(op, Stage(p.step, nonce, p.hash)), LastEvent(p.hash, p.reply, p.view, true))
      == op.(txs := op.txs + [RecordFor(AttemptOf(p), nonce)])
  {
    var a := AfterEvent(AfterEvent(op, Stage(p.step, nonce, p.hash)), LastEvent(p.hash, p.reply, p.view, true)).txs;
    var b := op.txs + [RecordFor(AttemptOf(p), nonce)];
    forall i | 0 <= i < |op.txs| ensures op.txs[i].hash != p.hash {
      assert op.txs[i] in op.txs;
    }
    assert |a| == |b| && forall i :: 0 <= i < |a| ==> a[i] == b[i];
  }

  /** One more record under the operation, for a transaction that was sent. */
  function AndThen(w: World, id: OpId, t: TxRecord): World
    requires id in w.ops
  {
    w.(ops := w.ops[id := w.ops[id].(txs := w.ops[id].txs + [t])], sent := w.sent + {t.hash})
  }

  /** Takes the next nonce and sends one planned transaction under it; a refused one gives it back. */
  method SendPlanned(e: Engine, id: OpId, p: Planned) returns (result: Submitted)
    requires e.Valid() && e.IsOpen(id)
    requires Unclaimed(e.journal.operations, id, p.hash) && p.hash !in HashesOf(e.journal.operations[id].txs)
    requires e.wallet.Valid() && e.wallet.nonce + 1 < U64
    modifies e, e.journal, e.wallet
    ensures e.Valid() && e.wallet.Valid() && result == AttemptOf(p).result
    ensures e.wallet.nonce == old(e.wallet.nonce) + (if Refused(AttemptOf(p)) then 0 else 1)
    ensures e.State() == AndThen(old(e.State()), id, RecordFor(AttemptOf(p), old(e.wallet.nonce)))
  {
    ghost var w0 := e.State();
    e.JournalIsSound();
    var nonce := e.wallet.NextNonce();
    ghost var k := |e.wallet.held| - 1;
    OnlyTheTopmostGoesBack(e.wallet.seed, e.wallet.nonce, e.wallet.held, k);
    NewRecord(w0.ops[id], p, nonce);
    var rewound;
    result, rewound := SubmitSigned(e, id, p.step, nonce, p.hash, p.reply, p.view, k);
  }

  // ---- What a plan leaves -------------------------------------------------------------------------

  /** The records: each transaction is sent only once the one before it confirmed. */
  function PlanRecords(plan: seq<Attempt>, nonce: nat): seq<TxRecord> {
    if plan == [] then [] else
      [RecordFor(plan[0], nonce)] + (if Confirms(plan[0]) then PlanRecords(plan[1..], nonce + 1) else [])
  }

  /** Where the nonce counter ends: past the last one sent, unless that was refused. */
  function NonceAfterPlan(plan: seq<Attempt>, nonce: nat): nat {
    if plan == [] || Refused(plan[0]) then nonce
    else if Confirms(plan[0]) then NonceAfterPlan(plan[1..], nonce + 1) else nonce + 1
  }

  /** Gas of the transactions that are sent, as their receipts have it. */
  function PlanGas(plan: seq<Attempt>): nat {
    if plan == [] then 0 else GasSpent(plan[0]) + (if Confirms(plan[0]) then PlanGas(plan[1..]) else 0)
  }

  predicate AllConfirm(plan: seq<Attempt>) {
    forall i :: 0 <= i < |plan| ==> Confirms(plan[i])
  }

  lemma GasStep(txs: seq<TxRecord>, t: TxRecord)
    ensures OperationGas(txs + [t]) == OperationGas(txs) + GasOf(t)
  {
    assert (txs + [t])[..|txs|] == txs;
  }

  lemma {:induction false} GasFromTheFront(t: TxRecord, txs: seq<TxRecord>)
    ensures OperationGas([t] + txs) == GasOf(t) + OperationGas(txs)
  {
    if txs == [] {
      assert [t] + txs == [] + [t];
      GasStep([], t);
    } else {
      var n := |txs| - 1;
      GasFromTheFront(t, txs[..n]);
      assert ([t] + txs)[..n + 1] == [t] + txs[..n];
    }
  }

  /** The gas journalled for an attempt is the gas its receipts show, whatever became of it, and all of it was mined. */
  lemma {:induction false} AttemptCostsItsReceipts(plan: seq<Attempt>, nonce: nat)
    ensures OperationGas(PlanRecords(plan, nonce)) == PlanGas(plan)
    ensures !CarriesStaleGas(PlanRecords(plan, nonce))
  {
    if plan != [] {
      var rest := if Confirms(plan[0]) then PlanRecords(plan[1..], nonce + 1) else [];
      AttemptCostsItsReceipts(plan[1..], nonce + 1);
      GasFromTheFront(RecordFor(plan[0], nonce), rest);
      RecordSays(plan[0], nonce);
    }
  }

  lemma AllConfirmStep(a: seq<Attempt>)
    requires a != []
    ensures AllConfirm(a) <==> Confirms(a[0]) && AllConfirm(a[1..])
  {
    assert forall i :: 0 < i < |a| ==> a[i] == a[1..][i - 1];
  }

  lemma InFront(t: TxRecord, x: seq<TxRecord>, y: seq<TxRecord>)
    ensures [t] + (x + y) == ([t] + x) + y
  {
  }

  /** A plan in two parts: the second is reached exactly when all of the first confirms. */
  lemma {:induction false} RecordsOfTwo(a: seq<Attempt>, b: seq<Attempt>, nonce: nat)
    ensures AllConfirm(a) ==> PlanRecords(a + b, nonce) == PlanRecords(a, nonce) + PlanRecords(b, nonce + |a|)
    ensures AllConfirm(a) ==> |PlanRecords(a, nonce)| == |a|
    ensures !AllConfirm(a) ==> PlanRecords(a + b, nonce) == PlanRecords(a, nonce)
  {
    if a == [] {
      assert a + b == b;
    } else {
      assert (a + b)[0] == a[0] && (a + b)[1..] == a[1..] + b;
      AllConfirmStep(a);
      if Confirms(a[0]) {
        RecordsOfTwo(a[1..], b, nonce + 1);
        InFront(RecordFor(a[0], nonce), PlanRecords(a[1..], nonce + 1), PlanRecords(b, nonce + |a|));
      }
    }
  }

  lemma {:induction false} NonceOfTwo(a: seq<Attempt>, b: seq<Attempt>, nonce: nat)
    ensures AllConfirm(a) ==> NonceAfterPlan(a + b, nonce) == NonceAfterPlan(b, nonce + |a|)
    ensures AllConfirm(a) ==> NonceAfterPlan(a, nonce) == nonce + |a|
    ensures !AllConfirm(a) ==> NonceAfterPlan(a + b, nonce) == NonceAfterPlan(a, nonce)
  {
    if a == [] {
      assert a + b == b;
    } else {
      assert (a + b)[0] == a[0] && (a + b)[1..] == a[1..] + b;
      AllConfirmStep(a);
      if Confirms(a[0]) {
        NonceOfTwo(a[1..], b, nonce + 1);
      }
    }
  }

  lemma {:induction false} GasOfTwo(a: seq<Attempt>, b: seq<Attempt>)
    ensures AllConfirm(a) ==> PlanGas(a + b) == PlanGas(a) + PlanGas(b)
    ensures !AllConfirm(a) ==> PlanGas(a + b) == PlanGas(a)
  {
    if a == [] {
      assert a + b == b;
    } else {
      assert (a + b)[0] == a[0] && (a + b)[1..] == a[1..] + b;
      AllConfirmStep(a);
      if Confirms(a[0]) {
        GasOfTwo(a[1..], b);
      }
    }
  }

  /** What the first `k` of a plan leave when all of them confirm, and what number `k` adds. */
  lemma OneMoreOf(plan: seq<Attempt>, k: nat, nonce: nat)
    requires k < |plan| && AllConfirm(plan[..k])
    ensures PlanRecords(plan[..k + 1], nonce) == PlanRecords(plan[..k], nonce) + [RecordFor(plan[k], nonce + k)]
    ensures PlanGas(plan[..k + 1]) == PlanGas(plan[..k]) + GasSpent(plan[k])
    ensures NonceAfterPlan(plan[..k + 1], nonce) == nonce + k + (if Refused(plan[k]) then 0 else 1)
    ensures AllConfirm(plan[..k + 1]) <==> Confirms(plan[k])
  {
    assert plan[..k + 1] == plan[..k] + [plan[k]];
    assert [plan[k]][1..] == [];
    RecordsOfTwo(plan[..k], [plan[k]], nonce);
    NonceOfTwo(plan[..k], [plan[k]], nonce);
    GasOfTwo(plan[..k], [plan[k]]);
  }

  /** A plan leaves what its first part leaves, if that does not confirm throughout. */
  lemma StopsThere(plan: seq<Attempt>, k: nat, nonce: nat)
    requires k <= |plan| && !AllConfirm(plan[..k])
    ensures PlanRecords(plan, nonce) == PlanRecords(plan[..k], nonce)
    ensures NonceAfterPlan(plan, nonce) == NonceAfterPlan(plan[..k], nonce)
    ensures !AllConfirm(plan)
  {
    assert plan == plan[..k] + plan[k..];
    RecordsOfTwo(plan[..k], plan[k..], nonce);
    NonceOfTwo(plan[..k], plan[k..], nonce);
    var i :| 0 <= i < k && !Confirms(plan[..k][i]);
    assert !Confirms(plan[i]);
  }

  // ---- A plan in the terms of its answers -----------------------------------------------------------

  /** How one transaction that was sent ends: by its answer, and then by its receipt. */
  function EndOf(p: Planned): TxState {
    if p.reply.Reverts? || p.reply.Refuses? then Rejected
    else if p.reply.NoAnswer? || (p.reply.Accepted? && p.reply.returned != p.hash) then Unresolved
    else if !Placed(p.view, p.hash) || p.view.receipts[p.hash].status.None? then Unresolved
    else if p.view.receipts[p.hash].status.value then Confirmed else Reverted
  }

  /** The record of one transaction that was sent under this nonce. */
  predicate RecordsEnd(t: TxRecord, p: Planned, nonce: nat) {
    && t.step == p.step && t.hash == p.hash && t.nonce == nonce && t.state == EndOf(p)
    && (if EndOf(p).Confirmed? || EndOf(p).Reverted?
        then var r := p.view.receipts[p.hash];
             t.blockNumber == r.blockNumber && t.blockHash == r.blockHash && t.gasWei == Some(r.gasWei)
        else t.blockNumber == t.blockHash == t.gasWei == None)
  }

  /**
   * What an attempt journals: the first transactions of its plan under consecutive nonces, each as it ended, up to and
   * including the first that did not confirm; the nonce of that one goes back if it was refused.
   */
  lemma {:induction false} PlanStopsAtTheFirstMiss(plan: seq<Planned>, nonce: nat)
    ensures var rs := PlanRecords(Attempts(plan), nonce);
      && |rs| <= |plan|
      && (forall i :: 0 <= i < |rs| ==> RecordsEnd(rs[i], plan[i], nonce + i))
      && (forall i :: 0 <= i < |rs| - 1 ==> EndOf(plan[i]).Confirmed?)
      && (|rs| < |plan| ==> rs != [] && !EndOf(plan[|rs| - 1]).Confirmed?)
      && NonceAfterPlan(Attempts(plan), nonce)
        == nonce + |rs| - (if rs != [] && EndOf(plan[|rs| - 1]).Rejected? then 1 else 0)
  {
    AttemptsLength(plan);
    if plan != [] {
      AttemptAt(plan, 0);
      AttemptsTail(plan);
      PlanStopsAtTheFirstMiss(plan[1..], nonce + 1);
      FirstRecordEnds(plan[0], nonce);
      PlanFront(plan, nonce);
    }
  }

  lemma FirstRecordEnds(p: Planned, nonce: nat)
    ensures RecordsEnd(RecordFor(AttemptOf(p), nonce), p, nonce)
    ensures Confirms(AttemptOf(p)) <==> EndOf(p).Confirmed?
    ensures Refused(AttemptOf(p)) <==> EndOf(p).Rejected?
  {
  }

  lemma {:induction false} AttemptsTail(plan: seq<Planned>)
    requires plan != []
    ensures Attempts(plan[1..]) == Attempts(plan)[1..]
  {
    AttemptsLength(plan);
    AttemptsLength(plan[1..]);
    forall i | 0 <= i < |plan| - 1 ensures Attempts(plan[1..])[i] == Attempts(plan)[1..][i] {
      AttemptAt(plan[1..], i);
      AttemptAt(plan, i + 1);
    }
  }

  /** Unfolds what the first transaction adds. */
  lemma PlanFront(plan: seq<Planned>, nonce: nat)
    requires plan != [] && |Attempts(plan)| == |plan| && Attempts(plan[1..]) == Attempts(plan)[1..]
    ensures var all, rest := Attempts(plan), Attempts(plan[1..]);
      && PlanRecords(all, nonce)
        == [RecordFor(all[0], nonce)] + (if Confirms(all[0]) then PlanRecords(rest, nonce + 1) else [])
      && NonceAfterPlan(all, nonce)
        == (if Refused(all[0]) then nonce else if Confirms(all[0]) then NonceAfterPlan(rest, nonce + 1) else nonce + 1)
  {
  }

  // ---- New hashes ----------------------------------------------------------------------------------

  ghost predicate NewHashesFor(ops: map<OpId, Operation>, plan: seq<Attempt>) {
    && (forall i, o :: 0 <= i < |plan| ==> !Staged(ops, o, plan[i].hash))
    && (forall i, j :: 0 <= i < j < |plan| ==> plan[i].hash != plan[j].hash)
  }

  function PlanHashes(plan: seq<Attempt>): set<Hash> {
    set a | a in plan :: a.hash
  }

  lemma {:induction false} PlanRecordsComeFromIt(plan: seq<Attempt>, nonce: nat)
    ensures HashesOf(PlanRecords(plan, nonce)) <= PlanHashes(plan)
  {
    if plan != [] {
      RecordSays(plan[0], nonce);
      PlanRecordsComeFromIt(plan[1..], nonce + 1);
      assert plan == [plan[0]] + plan[1..];
      forall t | t in PlanRecords(plan, nonce) ensures t.hash in PlanHashes(plan) {
        if t != RecordFor(plan[0], nonce) {
          assert t in PlanRecords(plan[1..], nonce + 1) && t.hash in PlanHashes(plan[1..]);
        }
      }
    }
  }

  lemma PlanHashesAreNew(ops: map<OpId, Operation>, plan: seq<Attempt>, nonce: nat)
    requires NewHashesFor(ops, plan)
    ensures forall h, o :: h in HashesOf(PlanRecords(plan, nonce)) ==> !Staged(ops, o, h)
  {
    PlanRecordsComeFromIt(plan, nonce);
    forall h, o | h in HashesOf(PlanRecords(plan, nonce)) ensures !Staged(ops, o, h) {
      var a :| a in plan && a.hash == h;
      var i :| 0 <= i < |plan| && plan[i] == a;
    }
  }

  /** A blank operation after these transactions were sent for it. */
  function WithTxs(w: World, id: OpId, txs: seq<TxRecord>): World
    requires id in w.ops
  {
    w.(ops := w.ops[id := w.ops[id].(txs := txs)], sent := w.sent + HashesOf(txs))
  }

  lemma WithOneMore(w: World, id: OpId, txs: seq<TxRecord>, t: TxRecord)
    requires id in w.ops
    ensures WithTxs(w, id, txs + [t]) == AndThen(WithTxs(w, id, txs), id, t)
  {
    assert forall u :: u in txs + [t] <==> u in txs || u == t;
  }

  lemma BlankHasNoTxs(w: World, id: OpId)
    requires id in w.ops && w.ops[id].txs == []
    ensures WithTxs(w, id, []) == w
  {
    assert HashesOf([]) == {};
  }

  /** The next hash of a plan is still nobody's while only earlier ones were staged. */
  lemma FreshFor(w0: World, id: OpId, plan: seq<Attempt>, k: nat, nonce: nat)
    requires id in w0.ops && w0.ops[id].txs == [] && NewHashesFor(w0.ops, plan) && k < |plan|
    ensures var w := WithTxs(w0, id, PlanRecords(plan[..k], nonce));
      Unclaimed(w.ops, id, plan[k].hash) && plan[k].hash !in HashesOf(w.ops[id].txs)
  {
    var w := WithTxs(w0, id, PlanRecords(plan[..k], nonce));
    PlanRecordsComeFromIt(plan[..k], nonce);
    assert forall o :: o != id ==> (Staged(w.ops, o, plan[k].hash) <==> Staged(w0.ops, o, plan[k].hash));
    forall a | a in plan[..k] ensures a.hash != plan[k].hash {
      var j :| 0 <= j < k && plan[j] == a;
    }
  }

  // ---- Sending a plan ------------------------------------------------------------------------------

  /** The world once the first `k` of a plan were sent. */
  function Sent(w0: World, id: OpId, plan: seq<Attempt>, k: nat, nonce: nat): World
    requires id in w0.ops && k <= |plan|
  {
    WithTxs(w0, id, PlanRecords(plan[..k], nonce))
  }

  lemma ReadyToSend(w0: World, id: OpId, plan: seq<Planned>, k: nat, nonce: nat)
    requires id in w0.ops && w0.ops[id].txs == [] && k < |plan| == |Attempts(plan)|
    requires NewHashesFor(w0.ops, Attempts(plan)) && AllConfirm(Attempts(plan)[..k])
    ensures var all, w := Attempts(plan), Sent(w0, id, Attempts(plan), k, nonce);
      && all[k] == AttemptOf(plan[k])
      && Unclaimed(w.ops, id, plan[k].hash) && plan[k].hash !in HashesOf(w.ops[id].txs)
      && Sent(w0, id, all, k + 1, nonce) == AndThen(w, id, RecordFor(all[k], nonce + k))
  {
    var all := Attempts(plan);
    AttemptAt(plan, k);
    FreshFor(w0, id, all, k, nonce);
    OneMoreOf(all, k, nonce);
    WithOneMore(w0, id, PlanRecords(all[..k], nonce), RecordFor(all[k], nonce + k));
  }

  /** Sends number `k` of a plan whose first `k` were sent and confirmed. */
  method SendNext(e: Engine, id: OpId, plan: seq<Planned>, k: nat, ghost w0: World, ghost start: nat)
    returns (result: Submitted)
    requires e.Valid() && id in w0.ops && w0.ops[id].state.Pending? && w0.ops[id].txs == []
    requires k < |plan| == |Attempts(plan)| && NewHashesFor(w0.ops, Attempts(plan))
    requires AllConfirm(Attempts(plan)[..k]) && e.State() == Sent(w0, id, Attempts(plan), k, start)
    requires e.wallet.Valid() && e.wallet.nonce == start + k && start + k + 1 < U64
    modifies e, e.journal, e.wallet
    ensures e.Valid() && e.wallet.Valid() && result == Attempts(plan)[k].result
    ensures e.wallet.nonce == start + k + (if Refused(Attempts(plan)[k]) then 0 else 1)
    ensures e.State() == Sent(w0, id, Attempts(plan), k + 1, start)
  {
    ReadyToSend(w0, id, plan, k, start);
    result := SendPlanned(e, id, plan[k]);
  }

  /** Sends each approval only once the one before it confirmed. */
  method SendApprovals(e: Engine, id: OpId, approvals: seq<Planned>) returns (gas: Option<nat>)
    requires e.Valid() && e.IsOpen(id) && e.journal.operations[id].txs == []
    requires NewHashesFor(e.journal.operations, Attempts(approvals))
    requires e.wallet.Valid() && e.wallet.nonce + |approvals| < U64
    modifies e, e.journal, e.wallet
    ensures e.Valid() && e.wallet.Valid()
    ensures e.wallet.nonce == NonceAfterPlan(Attempts(approvals), old(e.wallet.nonce))
    ensures e.State() == WithTxs(old(e.State()), id, PlanRecords(Attempts(approvals), old(e.wallet.nonce)))
    ensures gas == if AllConfirm(Attempts(approvals)) then Some(PlanGas(Attempts(approvals))) else None
  {
    ghost var w0, start, all := e.State(), e.wallet.nonce, Attempts(approvals);
    BlankHasNoTxs(w0, id);
    AttemptsLength(approvals);
    var total: nat, i: nat := 0, 0;
    while i < |approvals|
      invariant 0 <= i <= |all| && e.Valid() && e.wallet.Valid() && e.wallet.nonce == start + i
      invariant AllConfirm(all[..i]) && e.State() == Sent(w0, id, all, i, start)
      invariant total == PlanGas(all[..i])
    {
      OneMoreOf(all, i, start);
      var r := SendNext(e, id, approvals, i, w0, start);
      if r.Bailed? || !r.final.FinalConfirmed? {
        StopsThere(all, i + 1, start);
        return None;
      }
      total := total + FinalGas(r.final);
      i := i + 1;
    }
    assert all[..i] == all;
    NonceOfTwo(all, [], start);
    return Some(total);
  }

  lemma AttemptsLength(plan: seq<Planned>)
    ensures |Attempts(plan)| == |plan|
  {
    if plan != [] {
      AttemptAt(plan, 0);
    }
  }

  function Plan(approvals: seq<Planned>, sale: Option<Planned>): seq<Planned> {
    approvals + (if sale.Some? then [sale.value] else [])
  }

  lemma PlanEndsInSale(approvals: seq<Planned>, sale: Planned)
    ensures Attempts(approvals + [sale]) == Attempts(approvals) + [AttemptOf(sale)]
    ensures |Attempts(approvals)| == |approvals| && Attempts(approvals + [sale])[..|approvals|] == Attempts(approvals)
  {
    assert (approvals + [sale])[..|approvals|] == approvals;
    AttemptsLength(approvals);
  }

  /** Every approval confirms, and so does a sale that fills. */
  predicate Succeeds(approvals: seq<Planned>, sale: Option<Planned>) {
    && AllConfirm(Attempts(Plan(approvals, sale)))
    && sale.Some? && FillsSale(AttemptOf(sale.value))
  }

  /** The sequencer took it, or had it already, and it succeeded. */
  predicate Lands(p: Planned) {
    (p.reply.AlreadyKnown? || p.reply == Accepted(p.hash)) && Succeeded(p.view, p.hash)
  }

  predicate AllLand(plan: seq<Planned>) {
    forall i :: 0 <= i < |plan| ==> Lands(plan[i])
  }

  lemma ConfirmedMeansLanded(plan: seq<Planned>)
    ensures AllConfirm(Attempts(plan)) <==> AllLand(plan)
  {
    AttemptsLength(plan);
    forall i | 0 <= i < |plan| ensures Confirms(Attempts(plan)[i]) <==> Lands(plan[i]) {
      AttemptAt(plan, i);
    }
  }

  predicate FillsSale(a: Attempt) {
    Confirms(a) && SaleFill(a.step, a.result.final.receipt).Some?
  }

  /** The sale the plan asked for, with the amounts its receipt shows. */
  predicate SoldAs(s: Sale, p: Planned)
    requires s.SaleOf?
  {
    && s.hash == p.hash && ConfirmOn(p.view, p.hash).FinalConfirmed? && s.receipt == p.view.receipts[p.hash]
    && SaleFill(p.step, s.receipt) == Some(s.fill)
  }

  /** The journal of an operation whose sale confirmed: confirmed approvals, then the sale. */
  predicate ShowsSale(txs: seq<TxRecord>, step: StepName, s: Sale)
    requires s.SaleOf?
  {
    && |txs| > 0
    && AllConfirmedApprovals(txs[..|txs| - 1])
    && var last := txs[|txs| - 1];
       last.hash == s.hash && last.state.Confirmed? && last.step == step && OperationGas(txs) == s.gas
  }

  predicate AllConfirmedApprovals(txs: seq<TxRecord>) {
    forall i :: 0 <= i < |txs| ==> txs[i].state.Confirmed? && IsApproval(txs[i].step)
  }

  /**
   * Approvals first, then the sale. `sale` is absent when something other than a transaction stops the attempt (a
   * halted phase, a failed quote).
   */
  method SellAnywhere(e: Engine, id: OpId, approvals: seq<Planned>, sale: Option<Planned>) returns (result: Sale)
    requires e.Valid() && e.IsOpen(id) && e.journal.operations[id].txs == []
    requires NewHashesFor(e.journal.operations, Attempts(Plan(approvals, sale)))
    requires e.wallet.Valid() && e.wallet.nonce + |approvals| + 1 < U64
    modifies e, e.journal, e.wallet
    ensures e.Valid() && e.wallet.Valid()
    ensures e.wallet.nonce == NonceAfterPlan(Attempts(Plan(approvals, sale)), old(e.wallet.nonce))
    ensures e.State()
      == WithTxs(old(e.State()), id, PlanRecords(Attempts(Plan(approvals, sale)), old(e.wallet.nonce)))
    ensures result == SaleMade(approvals, sale)
  {
    ghost var w0, start, all := e.State(), e.wallet.nonce, Attempts(Plan(approvals, sale));
    ApprovalsAreNew(w0.ops, approvals, sale);
    var spent := SendApprovals(e, id, approvals);
    if sale.None? {
      assert Plan(approvals, sale) == approvals;
      return NoSale;
    }
    PlanEndsInSale(approvals, sale.value);
    if spent.None? {
      StopsThere(all, |approvals|, start);
      return NoSale;
    }
    NonceOfTwo(Attempts(approvals), [], start);
    var r := SendNext(e, id, Plan(approvals, sale), |approvals|, w0, start);
    WholePlan(approvals, sale.value, start);
    if r.Bailed? || !r.final.FinalConfirmed? {
      return NoSale;
    }
    var fill := SaleFill(sale.value.step, r.final.receipt);
    if fill.None? {
      return NoSale;
    }
    result := SaleOf(fill.value, sale.value.hash, spent.value + FinalGas(r.final), r.final.receipt);
  }

  /** The sale a plan ends in: the receipt's amounts, and the gas of the whole plan. */
  function SaleMade(approvals: seq<Planned>, sale: Option<Planned>): Sale {
    if !Succeeds(approvals, sale) then NoSale else
      var a := AttemptOf(sale.value);
      SaleOf(SaleFill(a.step, a.result.final.receipt).value, a.hash, PlanGas(Attempts(Plan(approvals, sale))),
             a.result.final.receipt)
  }

  lemma ApprovalsAreNew(ops: map<OpId, Operation>, approvals: seq<Planned>, sale: Option<Planned>)
    requires NewHashesFor(ops, Attempts(Plan(approvals, sale)))
    ensures NewHashesFor(ops, Attempts(approvals))
  {
    if sale.Some? {
      PlanEndsInSale(approvals, sale.value);
      var a, all := Attempts(approvals), Attempts(Plan(approvals, sale));
      forall i | 0 <= i < |a| ensures a[i] == all[i] {
      }
    } else {
      assert Plan(approvals, sale) == approvals;
    }
  }

  /** Once every approval confirmed, the plan is its approvals and the sale. */
  lemma WholePlan(approvals: seq<Planned>, sale: Planned, nonce: nat)
    requires AllConfirm(Attempts(approvals))
    ensures var a, all, n := Attempts(approvals), Attempts(approvals + [sale]), |approvals|;
      && |all| == n + 1 && all[..n + 1] == all && all[n] == AttemptOf(sale)
      && PlanGas(all) == PlanGas(a) + GasSpent(all[n])
      && NonceAfterPlan(all, nonce) == nonce + n + (if Refused(all[n]) then 0 else 1)
      && (AllConfirm(all) <==> Confirms(all[n]))
  {
    PlanEndsInSale(approvals, sale);
    LastOf(Attempts(approvals), AttemptOf(sale), nonce);
  }

  lemma LastOf(a: seq<Attempt>, last: Attempt, nonce: nat)
    requires AllConfirm(a)
    ensures PlanGas(a + [last]) == PlanGas(a) + GasSpent(last)
    ensures NonceAfterPlan(a + [last], nonce) == nonce + |a| + (if Refused(last) then 0 else 1)
    ensures AllConfirm(a + [last]) <==> Confirms(last)
    ensures (a + [last])[..|a| + 1] == a + [last]
  {
    var all := a + [last];
    assert all[..|a|] == a && all[..|a| + 1] == all;
    OneMoreOf(all, |a|, nonce);
  }

  lemma {:induction false} ApprovalsAreShown(approvals: seq<Attempt>, nonce: nat)
    requires AllConfirm(approvals) && forall i :: 0 <= i < |approvals| ==> IsApproval(approvals[i].step)
    ensures AllConfirmedApprovals(PlanRecords(approvals, nonce))
  {
    if approvals != [] {
      RecordSays(approvals[0], nonce);
      AllConfirmStep(approvals);
      ApprovalsAreShown(approvals[1..], nonce + 1);
    }
  }

  /** A sale is the receipt's, and the journal shows it: confirmed approvals, then the sale, at exactly its gas. */
  lemma SaleIsShown(approvals: seq<Planned>, sale: Option<Planned>, nonce: nat)
    requires forall i :: 0 <= i < |approvals| ==> IsApproval(approvals[i].step)
    requires Succeeds(approvals, sale)
    ensures var s, txs := SaleMade(approvals, sale), PlanRecords(Attempts(Plan(approvals, sale)), nonce);
      SoldAs(s, sale.value) && ShowsSale(txs, sale.value.step, s)
  {
    var a, n := Attempts(approvals), |approvals|;
    PlanEndsInSale(approvals, sale.value);
    var all := Attempts(Plan(approvals, sale));
    forall i | 0 <= i < n ensures Confirms(a[i]) && IsApproval(a[i].step) {
      assert a[i] == all[i];
      AttemptAt(approvals, i);
    }
    ApprovalsAreShown(a, nonce);
    OneMoreOf(all, n, nonce);
    assert all[..n + 1] == all;
    RecordsOfTwo(a, [], nonce);
    RecordSays(all[n], nonce + n);
    AttemptCostsItsReceipts(all, nonce);
  }
}
