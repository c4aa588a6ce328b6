/** The live entry: journal, sign, fire, reconcile, open, flush, and only then applied (crates/bodkin/src/run.rs). */
module Entries {
  import opened Common
  import opened Positions
  import opened Journal
  import opened Protocol
  import opened Wallet
  import opened Engine
  import opened Submit
  import opened Exits
  import opened Fills

  /** Whether an answer leaves the transaction worth following. */
  predicate Watched(hash: Hash, o: SendOutcome) {
    o.AlreadyKnown? || o.NoAnswer? || (o.Accepted? && o.returned == hash)
  }

  predicate Mismatched(hash: Hash, o: SendOutcome) {
    o.Accepted? && o.returned != hash
  }

  function FirstEvent(hash: Hash, o: SendOutcome): Journal.Event {
    match o
    case Accepted(returned) => if returned == hash then MarkSubmitted(hash) else MarkUnresolved(hash)
    case AlreadyKnown => MarkSubmitted(hash)
    case NoAnswer => MarkUnresolved(hash)
    case Reverts => MarkRejected(hash)
    case Refuses => MarkRejected(hash)
  }

  /** One record after an event that addresses it. */
  function Marked(t: TxRecord, e: Journal.Event): TxRecord {
    match e
    case MarkSubmitted(_) => t.(state := Submitted, blockNumber := None, blockHash := None, gasWei := None)
    case MarkConfirmed(_, bn, bh, gas) =>
      t.(state := Confirmed, blockNumber := Some(bn), blockHash := Some(bh), gasWei := Some(gas))
    case MarkReverted(_, bn, bh, gas) =>
      t.(state := Reverted, blockNumber := Some(bn), blockHash := Some(bh), gasWei := Some(gas))
    case MarkRejected(_) => t.(state := Rejected, blockNumber := None, blockHash := None, gasWei := None)
    case MarkUnresolved(_) => t.(state := Unresolved, blockNumber := None, blockHash := None, gasWei := None)
    case _ => t
  }

  lemma MarkAt(op: Operation, i: nat, e: Journal.Event)
    requires DistinctHashes(op.txs) && i < |op.txs| && Addressee(e) == Some(op.txs[i].hash)
    ensures AfterEvent(op, e) == op.(txs := op.txs[i := Marked(op.txs[i], e)])
  {
    var a, b := AfterEvent(op, e).txs, op.txs[i := Marked(op.txs[i], e)];
    assert |a| == |b| && forall j :: 0 <= j < |a| ==> a[j] == b[j];
  }

  /** What reconciliation leaves of one transaction, given its answer and the chain afterwards. */
  function Reconciled1(t: TxRecord, o: SendOutcome, view: ChainView): TxRecord {
    if Watched(t.hash, o) then Marked(t, FinalEvent(ConfirmOn(view, t.hash))) else Marked(t, FirstEvent(t.hash, o))
  }

  function Reconciled(txs: seq<TxRecord>, outcomes: seq<SendOutcome>, view: ChainView): seq<TxRecord>
    requires |txs| == |outcomes|
  {
    seq(|txs|, i requires 0 <= i < |txs| => Reconciled1(txs[i], outcomes[i], view))
  }

  /** The final states of the transactions worth following, in burst order. */
  function FinalsOf(txs: seq<TxRecord>, outcomes: seq<SendOutcome>, view: ChainView): seq<TxFinal>
    requires |txs| == |outcomes|
  {
    if txs == [] then [] else
      var n := |txs| - 1;
      FinalsOf(txs[..n], outcomes[..n], view)
        + (if Watched(txs[n].hash, outcomes[n]) then [ConfirmOn(view, txs[n].hash)] else [])
  }

  predicate AnyMismatch(txs: seq<TxRecord>, outcomes: seq<SendOutcome>)
    requires |txs| == |outcomes|
  {
    exists i :: 0 <= i < |txs| && Mismatched(txs[i].hash, outcomes[i])
  }

  predicate AnyUnresolved(finals: seq<TxFinal>) {
    exists f :: f in finals && f.FinalUnresolved?
  }

  ghost predicate TxsAt(e: Engine, id: OpId, w: World, txs: seq<TxRecord>)
    reads e, e.journal, e.positions
  {
    id in w.ops && e.State() == w.(ops := w.ops[id := w.ops[id].(txs := txs)])
  }

  /** Sends number `i` of the burst after those before it. */
  ghost method FireOne(e: Engine, id: OpId, i: nat, before: set<Hash>)
    requires e.Valid() && e.IsOpen(id) && i < |e.journal.operations[id].txs|
    requires e.sent == before + HashesOf(e.journal.operations[id].txs[..i])
    modifies e
    ensures e.Valid() && e.sent == before + HashesOf(e.journal.operations[id].txs[..i + 1])
  {
    HashesStep(e.journal.operations[id].txs, i);
    e.Send(id, e.journal.operations[id].txs[i].hash);
  }

  /** Hands the whole burst to the sequencer. */
  ghost method Fire(e: Engine, id: OpId)
    requires e.Valid() && e.IsOpen(id)
    modifies e
    ensures e.Valid() && e.State() == old(e.State()).(sent := old(e.sent) + HashesOf(e.journal.operations[id].txs))
  {
    var txs, before := e.journal.operations[id].txs, e.sent;
    var i := 0;
    assert HashesOf(txs[..0]) == {};
    while i < |txs|
      invariant 0 <= i <= |txs| && e.Valid() && e.sent == before + HashesOf(txs[..i])
    {
      FireOne(e, id, i, before);
      i := i + 1;
    }
    assert txs[..i] == txs;
  }

  lemma HashesStep(txs: seq<TxRecord>, i: nat)
    requires i < |txs|
    ensures txs[i].hash in HashesOf(txs) && HashesOf(txs[..i + 1]) == HashesOf(txs[..i]) + {txs[i].hash}
  {
    assert txs[..i + 1] == txs[..i] + [txs[i]];
    assert txs[i] in txs;
  }

  /** Records one event about the transaction at `i`. */
  method MarkOne(e: Engine, id: OpId, i: nat, event: Journal.Event)
    requires e.Valid() && id in e.journal.operations && !e.journal.operations[id].state.Failed?
    requires i < |e.journal.operations[id].txs| && Addressee(event) == Some(e.journal.operations[id].txs[i].hash)
    modifies e, e.journal
    ensures e.Valid()
    ensures var op := old(e.journal.operations)[id];
      TxsAt(e, id, old(e.State()), op.txs[i := Marked(op.txs[i], event)])
  {
    e.JournalIsSound();
    MarkAt(e.journal.operations[id], i, event);
    assert e.journal.operations[id].txs[i] in e.journal.operations[id].txs;
    e.Record(id, event);
  }

  /** First the answers, then, for everything worth following, what the chain says. */
  method ReconcileBurst(e: Engine, id: OpId, outcomes: seq<SendOutcome>, view: ChainView)
    returns (finals: seq<TxFinal>, unresolved: bool, mismatch: bool)
    requires e.Valid() && e.IsOpen(id)
    requires |outcomes| == |e.journal.operations[id].txs|
    modifies e, e.journal
    ensures e.Valid()
    ensures var txs := old(e.journal.operations)[id].txs;
      && TxsAt(e, id, old(e.State()), Reconciled(txs, outcomes, view))
      && finals == FinalsOf(txs, outcomes, view)
      && (mismatch <==> AnyMismatch(txs, outcomes))
      && (unresolved <==> AnyUnresolved(finals))
  {
    mismatch := RecordAnswers(e, id, outcomes);
    finals, unresolved := RecordFinals(e, id, outcomes, view, old(e.journal.operations)[id].txs);
  }

  method RecordAnswers(e: Engine, id: OpId, outcomes: seq<SendOutcome>) returns (mismatch: bool)
    requires e.Valid() && e.IsOpen(id)
    requires |outcomes| == |e.journal.operations[id].txs|
    modifies e, e.journal
    ensures e.Valid()
    ensures var txs := old(e.journal.operations)[id].txs;
      TxsAt(e, id, old(e.State()), Answered(txs, outcomes, |txs|)) && (mismatch <==> AnyMismatch(txs, outcomes))
  {
    ghost var w0, txs := e.State(), e.journal.operations[id].txs;
    mismatch := false;
    var i := 0;
    assert Answered(txs, outcomes, 0) == txs;
    while i < |outcomes|
      invariant 0 <= i <= |outcomes| && e.Valid() && TxsAt(e, id, w0, Answered(txs, outcomes, i))
      invariant mismatch <==> AnyMismatch(txs[..i], outcomes[..i])
    {
      AnswerStep(txs, outcomes, i);
      var hash := e.journal.operations[id].txs[i].hash;
      mismatch := mismatch || Mismatched(hash, outcomes[i]);
      MarkOne(e, id, i, FirstEvent(hash, outcomes[i]));
      i := i + 1;
    }
    assert txs[..i] == txs && outcomes[..i] == outcomes;
  }

  lemma AnswerStep(txs: seq<TxRecord>, outcomes: seq<SendOutcome>, i: nat)
    requires |txs| == |outcomes| && i < |txs|
    ensures Answered(txs, outcomes, i)[i] == txs[i]
    ensures Answered(txs, outcomes, i)[i := Marked(txs[i], FirstEvent(txs[i].hash, outcomes[i]))]
      == Answered(txs, outcomes, i + 1)
    ensures AnyMismatch(txs[..i + 1], outcomes[..i + 1]) <==>
      AnyMismatch(txs[..i], outcomes[..i]) || Mismatched(txs[i].hash, outcomes[i])
  {
    var t, o := txs[..i + 1], outcomes[..i + 1];
    assert forall j :: 0 <= j < i ==> t[j] == txs[..i][j] && o[j] == outcomes[..i][j];
    assert t[i] == txs[i] && o[i] == outcomes[i];
    if AnyMismatch(txs[..i], outcomes[..i]) {
      var j :| 0 <= j < i && Mismatched(txs[..i][j].hash, outcomes[..i][j]);
      assert Mismatched(t[j].hash, o[j]);
    }
  }

  /** The records once the first `n` answers are in. */
  function Answered(txs: seq<TxRecord>, outcomes: seq<SendOutcome>, n: nat): seq<TxRecord>
    requires |txs| == |outcomes|
  {
    seq(|txs|, i requires 0 <= i < |txs| =>
      if i < n then Marked(txs[i], FirstEvent(txs[i].hash, outcomes[i])) else txs[i])
  }

  /**
   * The answers as the journal has them before anything is followed: taken, in doubt or refused, with nothing of a
   * block yet.
   */
  lemma AnsweredAsGiven(txs: seq<TxRecord>, outcomes: seq<SendOutcome>, i: nat)
    requires |txs| == |outcomes| && i < |txs|
    ensures var t, o := txs[i], outcomes[i];
      Answered(txs, outcomes, |txs|)[i]
        == TxRecord(t.step, t.nonce, t.hash,
                    if o.AlreadyKnown? || o == Accepted(t.hash) then Submitted
                    else if o.Reverts? || o.Refuses? then Rejected else Unresolved, None, None, None)
  {
  }

  /** The records once the first `n` of them have been followed. */
  function FollowedUp(txs: seq<TxRecord>, outcomes: seq<SendOutcome>, view: ChainView, n: nat): seq<TxRecord>
    requires |txs| == |outcomes|
  {
    seq(|txs|, i requires 0 <= i < |txs| =>
      if i < n then Reconciled1(txs[i], outcomes[i], view) else Marked(txs[i], FirstEvent(txs[i].hash, outcomes[i])))
  }

  lemma FollowUpStep(txs: seq<TxRecord>, outcomes: seq<SendOutcome>, view: ChainView, i: nat)
    requires |txs| == |outcomes| && i < |txs|
    ensures var now := FollowedUp(txs, outcomes, view, i);
      && now[i].hash == txs[i].hash
      && FollowedUp(txs, outcomes, view, i + 1)
        == if Watched(txs[i].hash, outcomes[i]) then now[i := Marked(now[i], FinalEvent(ConfirmOn(view, txs[i].hash)))]
           else now
  {
  }

  /** Follows one transaction, if it is worth it, and records how it ended. */
  method FollowOne(e: Engine, id: OpId, outcomes: seq<SendOutcome>, view: ChainView, i: nat, ghost txs: seq<TxRecord>,
                   ghost w0: World)
    returns (final: Option<TxFinal>)
    requires e.Valid() && |outcomes| == |txs| && i < |txs| && TxsAt(e, id, w0, FollowedUp(txs, outcomes, view, i))
    requires w0.ops[id].state.Pending?
    modifies e, e.journal
    ensures e.Valid() && TxsAt(e, id, w0, FollowedUp(txs, outcomes, view, i + 1))
    ensures final == if Watched(txs[i].hash, outcomes[i]) then Some(ConfirmOn(view, txs[i].hash)) else None
  {
    FollowUpStep(txs, outcomes, view, i);
    var hash := e.journal.operations[id].txs[i].hash;
    if !Watched(hash, outcomes[i]) {
      return None;
    }
    var f := ConfirmOn(view, hash);
    MarkOne(e, id, i, FinalEvent(f));
    return Some(f);
  }

  method RecordFinals(e: Engine, id: OpId, outcomes: seq<SendOutcome>, view: ChainView, ghost txs: seq<TxRecord>)
    returns (finals: seq<TxFinal>, unresolved: bool)
    requires e.Valid() && e.IsOpen(id)
    requires |outcomes| == |txs| && e.journal.operations[id].txs == Answered(txs, outcomes, |txs|)
    modifies e, e.journal
    ensures e.Valid()
    ensures TxsAt(e, id, old(e.State()), Reconciled(txs, outcomes, view))
    ensures finals == FinalsOf(txs, outcomes, view) && (unresolved <==> AnyUnresolved(finals))
  {
    ghost var w0 := e.State();
    finals, unresolved := [], false;
    var i := 0;
    assert FollowedUp(txs, outcomes, view, 0) == Answered(txs, outcomes, |txs|);
    while i < |outcomes|
      invariant 0 <= i <= |outcomes| && e.Valid() && TxsAt(e, id, w0, FollowedUp(txs, outcomes, view, i))
      invariant finals == FinalsOf(txs[..i], outcomes[..i], view)
      invariant unresolved <==> AnyUnresolved(finals)
    {
      FinalsStep(txs, outcomes, view, i);
      var f := FollowOne(e, id, outcomes, view, i, txs, w0);
      if f.Some? {
        UnresolvedStep(finals, f.value);
        unresolved := unresolved || f.value.FinalUnresolved?;
        finals := finals + [f.value];
      }
      i := i + 1;
    }
    assert FollowedUp(txs, outcomes, view, i) == Reconciled(txs, outcomes, view);
    assert txs[..i] == txs && outcomes[..i] == outcomes;
  }

  lemma UnresolvedStep(finals: seq<TxFinal>, f: TxFinal)
    ensures AnyUnresolved(finals + [f]) <==> AnyUnresolved(finals) || f.FinalUnresolved?
  {
    assert f in finals + [f];
  }

  lemma FinalsStep(txs: seq<TxRecord>, outcomes: seq<SendOutcome>, view: ChainView, i: nat)
    requires |txs| == |outcomes| && i < |txs|
    ensures FinalsOf(txs[..i + 1], outcomes[..i + 1], view)
      == FinalsOf(txs[..i], outcomes[..i], view)
        + (if Watched(txs[i].hash, outcomes[i]) then [ConfirmOn(view, txs[i].hash)] else [])
  {
    assert txs[..i + 1][..i] == txs[..i] && outcomes[..i + 1][..i] == outcomes[..i];
  }

  lemma {:induction false} WatchedIsFollowed(txs: seq<TxRecord>, outcomes: seq<SendOutcome>, view: ChainView, i: nat)
    requires |txs| == |outcomes| && i < |txs| && Watched(txs[i].hash, outcomes[i])
    ensures ConfirmOn(view, txs[i].hash) in FinalsOf(txs, outcomes, view)
  {
    var n := |txs| - 1;
    if i < n {
      WatchedIsFollowed(txs[..n], outcomes[..n], view, i);
    }
  }

  /** With no mismatch and nothing unresolved, every transaction of the burst has reached an end. */
  lemma CleanReconciliationSettles(txs: seq<TxRecord>, outcomes: seq<SendOutcome>, view: ChainView)
    requires |txs| == |outcomes| && !AnyMismatch(txs, outcomes) && !AnyUnresolved(FinalsOf(txs, outcomes, view))
    ensures forall t :: t in Reconciled(txs, outcomes, view) ==> !IsAmbiguous(t.state)
  {
    forall i | 0 <= i < |txs| ensures !IsAmbiguous(Reconciled1(txs[i], outcomes[i], view).state) {
      assert !Mismatched(txs[i].hash, outcomes[i]);
      if Watched(txs[i].hash, outcomes[i]) {
        WatchedIsFollowed(txs, outcomes, view, i);
      }
    }
  }

  // ---- The whole entry ----------------------------------------------------------------------------

  function BurstRecords(start: nat, hashes: seq<Hash>): seq<TxRecord> {
    seq(|hashes|, i requires 0 <= i < |hashes| => TxRecord(EntryStep, start + i, hashes[i], Prepared, None, None, None))
  }

  function Burst(start: nat, hashes: seq<Hash>): seq<SignedTx> {
    seq(|hashes|, i requires 0 <= i < |hashes| => SignedTx(start + i, hashes[i]))
  }

  ghost predicate NewBurst(ops: map<OpId, Operation>, hashes: seq<Hash>) {
    && |hashes| > 0
    && (forall i, j :: 0 <= i < j < |hashes| ==> hashes[i] != hashes[j])
    && (forall h, o :: h in hashes ==> !Staged(ops, o, h))
  }

  lemma RecordsHaveTheHashes(start: nat, hashes: seq<Hash>)
    requires forall i, j :: 0 <= i < j < |hashes| ==> hashes[i] != hashes[j]
    ensures HashesOf(BurstRecords(start, hashes)) == set h | h in hashes
    ensures DistinctHashes(BurstRecords(start, hashes))
  {
    var txs := BurstRecords(start, hashes);
    forall h | h in hashes ensures h in HashesOf(txs) {
      var i :| 0 <= i < |hashes| && hashes[i] == h;
      assert txs[i] in txs;
    }
  }

  lemma {:induction false} StagedBurst(start: nat, hashes: seq<Hash>)
    requires forall i, j :: 0 <= i < j < |hashes| ==> hashes[i] != hashes[j]
    ensures StageAll([], EntryStep, Burst(start, hashes)) == BurstRecords(start, hashes)
  {
    if hashes != [] {
      var n := |hashes| - 1;
      var front := hashes[..n];
      StagedBurst(start, front);
      assert Burst(start, hashes)[..n] == Burst(start, front);
      assert BurstRecords(start, hashes) == BurstRecords(start, front) + [BurstRecords(start, hashes)[n]];
      RecordsHaveTheHashes(start, front);
      assert hashes[n] !in front;
    }
  }

  datatype EntryOutcome =
    | EntryRefused
    | EntryUnsigned
    | EntryUnsent(rewound: bool)
    | EntryNoFill(gas: nat)
    | EntryOpened(fills: Fills, gas: nat, settled: bool)
    | EntryUnsettled

  /** Adds up the confirmed transactions that bought something for something. */
  method TallyFills(finals: seq<TxFinal>, value: nat) returns (f: Fills, gas: nat)
    ensures f == FillsOf(LandedOf(finals), value) && gas == GasOfFinals(finals)
  {
    f, gas := Fills(0, None, 0, 0, false), 0;
    var i := 0;
    while i < |finals|
      invariant 0 <= i <= |finals| && gas == GasOfFinals(finals[..i]) && f == FillsOf(LandedOf(finals[..i]), value)
    {
      TallyStep(finals, i, value);
      gas := gas + FinalGas(finals[i]);
      if finals[i].FinalConfirmed? && finals[i].receipt.boughtTokens > 0 {
        var spent := Monus(value, finals[i].receipt.refundedEth);
        if spent == 0 {
          f := f.(zeroNet := true);
        } else {
          f := f.(count := f.count + 1, hash := if f.hash.Some? then f.hash else Some(finals[i].hash),
                  tokens := f.tokens + finals[i].receipt.boughtTokens, eth := f.eth + spent);
        }
      }
      i := i + 1;
    }
    assert finals[..i] == finals;
  }

  lemma TallyStep(finals: seq<TxFinal>, i: nat, value: nat)
    requires i < |finals|
    ensures GasOfFinals(finals[..i + 1]) == GasOfFinals(finals[..i]) + FinalGas(finals[i])
    ensures var before, now := FillsOf(LandedOf(finals[..i]), value), FillsOf(LandedOf(finals[..i + 1]), value);
      now == if finals[i].FinalConfirmed? then WithFill(before, Landed(finals[i].hash, finals[i].receipt), value)
      else before
  {
    assert finals[..i + 1] == finals[..i] + [finals[i]];
    LandedStep(finals[..i], finals[i]);
    if finals[i].FinalConfirmed? {
      FillsStep(LandedOf(finals[..i]), Landed(finals[i].hash, finals[i].receipt), value);
    } else {
      assert LandedOf(finals[..i]) + [] == LandedOf(finals[..i]);
    }
  }

  // ---- The entry in the terms of its receipts --------------------------------------------------------

  /** The sequencer took it, had it already, or did not say. */
  predicate Took(hash: Hash, answer: SendOutcome) {
    answer.AlreadyKnown? || answer.NoAnswer? || answer == Accepted(hash)
  }

  /** Its receipt is in place and says how it ended. */
  predicate Ended(view: ChainView, hash: Hash) {
    Placed(view, hash) && view.receipts[hash].status.Some?
  }

  /** The transactions of the burst that succeeded, in order. */
  function LandedOn(hashes: seq<Hash>, answers: seq<SendOutcome>, view: ChainView): seq<Landed>
    requires |hashes| == |answers|
  {
    if hashes == [] then [] else
      var n := |hashes| - 1;
      LandedOn(hashes[..n], answers[..n], view)
        + (if Took(hashes[n], answers[n]) && Succeeded(view, hashes[n])
           then [Landed(hashes[n], view.receipts[hashes[n]])] else [])
  }

  /** The gas of those that succeeded or reverted. */
  function GasOn(hashes: seq<Hash>, answers: seq<SendOutcome>, view: ChainView): nat
    requires |hashes| == |answers|
  {
    if hashes == [] then 0 else
      var n := |hashes| - 1;
      GasOn(hashes[..n], answers[..n], view)
        + (if Took(hashes[n], answers[n]) && Ended(view, hashes[n]) then view.receipts[hashes[n]].gasWei else 0)
  }

  /** No answer names another transaction, and whatever the sequencer may have taken has ended. */
  predicate AllEnded(hashes: seq<Hash>, answers: seq<SendOutcome>, view: ChainView)
    requires |hashes| == |answers|
  {
    forall i :: 0 <= i < |hashes| ==>
      && (answers[i].Accepted? ==> answers[i].returned == hashes[i])
      && (Took(hashes[i], answers[i]) ==> Ended(view, hashes[i]))
  }

  ghost predicate HashesIn(txs: seq<TxRecord>, hashes: seq<Hash>) {
    |txs| == |hashes| && forall i :: 0 <= i < |txs| ==> txs[i].hash == hashes[i]
  }

  lemma FinalIsOnTheChain(view: ChainView, hash: Hash)
    ensures var f := ConfirmOn(view, hash);
      && (f.FinalConfirmed? <==> Succeeded(view, hash))
      && (f.FinalConfirmed? ==> f.hash == hash && f.receipt == view.receipts[hash])
      && FinalGas(f) == (if Ended(view, hash) then view.receipts[hash].gasWei else 0)
      && (f.FinalUnresolved? <==> !Ended(view, hash))
  {
  }

  /** What one transaction, followed if it was taken, adds to the finals. */
  lemma OneMoreFinal(front: seq<TxFinal>, hash: Hash, answer: SendOutcome, view: ChainView)
    ensures var finals := front + (if Watched(hash, answer) then [ConfirmOn(view, hash)] else []);
      && LandedOf(finals) == LandedOf(front)
        + (if Took(hash, answer) && Succeeded(view, hash) then [Landed(hash, view.receipts[hash])] else [])
      && GasOfFinals(finals) == GasOfFinals(front)
        + (if Took(hash, answer) && Ended(view, hash) then view.receipts[hash].gasWei else 0)
  {
    FinalIsOnTheChain(view, hash);
    LandedStep(front, ConfirmOn(view, hash));
    assert front + [] == front && LandedOf(front) + [] == LandedOf(front);
  }

  lemma {:induction false} FinalsAreOnTheChain(txs: seq<TxRecord>, hashes: seq<Hash>, answers: seq<SendOutcome>,
                                               view: ChainView)
    requires HashesIn(txs, hashes) && |hashes| == |answers|
    ensures LandedOf(FinalsOf(txs, answers, view)) == LandedOn(hashes, answers, view)
    ensures GasOfFinals(FinalsOf(txs, answers, view)) == GasOn(hashes, answers, view)
  {
    if txs != [] {
      var n := |txs| - 1;
      FinalsAreOnTheChain(txs[..n], hashes[..n], answers[..n], view);
      OneMoreFinal(FinalsOf(txs[..n], answers[..n], view), hashes[n], answers[n], view);
    }
  }

  lemma {:induction false} CleanMeansEnded(txs: seq<TxRecord>, hashes: seq<Hash>, answers: seq<SendOutcome>,
                                           view: ChainView)
    requires HashesIn(txs, hashes) && |hashes| == |answers|
    ensures !AnyUnresolved(FinalsOf(txs, answers, view)) && !AnyMismatch(txs, answers) <==>
      AllEnded(hashes, answers, view)
  {
    if txs != [] {
      var n := |txs| - 1;
      CleanMeansEnded(txs[..n], hashes[..n], answers[..n], view);
      EndedStep(hashes, answers, view);
      assert txs[..n + 1] == txs && answers[..n + 1] == answers;
      AnswerStep(txs, answers, n);
      FinalsStep(txs, answers, view, n);
      UnresolvedStep(FinalsOf(txs[..n], answers[..n], view), ConfirmOn(view, hashes[n]));
    }
  }

  lemma EndedStep(hashes: seq<Hash>, answers: seq<SendOutcome>, view: ChainView)
    requires |hashes| == |answers| > 0
    ensures var n := |hashes| - 1;
      AllEnded(hashes, answers, view) <==>
        && AllEnded(hashes[..n], answers[..n], view)
        && (answers[n].Accepted? ==> answers[n].returned == hashes[n])
        && (Took(hashes[n], answers[n]) ==> Ended(view, hashes[n]))
  {
    var n := |hashes| - 1;
    assert forall i :: 0 <= i < n ==> hashes[..n][i] == hashes[i] && answers[..n][i] == answers[i];
  }

  /** How one attempt ends: by its answer and, if the sequencer may have taken it, by its receipt. */
  predicate AttemptEnds(t: TxRecord, nonce: nat, hash: Hash, answer: SendOutcome, view: ChainView) {
    && t.step == EntryStep && t.nonce == nonce && t.hash == hash
    && if Took(hash, answer) && Ended(view, hash) then
         var r := view.receipts[hash];
         && t.state == (if r.status.value then Confirmed else Reverted)
         && t.blockNumber == r.blockNumber && t.blockHash == r.blockHash && t.gasWei == Some(r.gasWei)
       else
         && t.state == (if answer.Reverts? || answer.Refuses? then Rejected else Unresolved)
         && t.blockNumber == t.blockHash == t.gasWei == None
  }

  lemma AttemptsEnd(txs: seq<TxRecord>, start: nat, hashes: seq<Hash>, answers: seq<SendOutcome>, view: ChainView)
    requires |hashes| == |answers| && txs == BurstRecords(start, hashes)
    ensures var now := Reconciled(txs, answers, view);
      && |now| == |hashes|
      && forall i :: 0 <= i < |now| ==> AttemptEnds(now[i], start + i, hashes[i], answers[i], view)
  {
  }

  /**
   * What a fired entry leaves, in the terms of its receipts: a position exactly if some transaction bought tokens and
   * was not refunded in full, and the operation settled exactly if one did, none was free, and nothing is left open.
   */
  ghost predicate BoughtAsShown(before: World, after: World, id: OpId, position: PosId,
                                value: nat, start: nat, hashes: seq<Hash>, answers: seq<SendOutcome>,
                                view: ChainView, nonceRead: bool)
    requires |hashes| == |answers|
  {
    var ls, gas := LandedOn(hashes, answers, view), GasOn(hashes, answers, view);
    var paid, sure := PaidBuys(ls, value), AllEnded(hashes, answers, view) && !SomeFree(ls, value) && nonceRead;
    && id in after.ops && |after.ops[id].txs| == |hashes|
    && (forall i :: 0 <= i < |hashes| ==>
          AttemptEnds(after.ops[id].txs[i], start + i, hashes[i], answers[i], view))
    && (paid != [] ==>
          && after.saved == after.book && OneMorePosition(before.book, after.book, position, ls, value, gas)
          && after.ops[id].state == (if sure && |paid| == 1 then Applied else Pending))
    && (paid == [] ==>
          && after.book == before.book && after.saved == before.saved
          && after.ops[id].state == (if sure then Failed else Pending))
  }

  lemma EntryIsAsShown(w0: World, w: World, id: OpId, op: Operation, outcome: EntryOutcome, position: PosId,
                       value: nat, start: nat, hashes: seq<Hash>, answers: seq<SendOutcome>, view: ChainView,
                       nonceRead: bool)
    requires op.txs == BurstRecords(start, hashes) && |hashes| == |answers|
    requires EntryShows(w0, w, id, op, outcome, position, value, answers, view, nonceRead)
    ensures BoughtAsShown(w0, w, id, position, value, start, hashes, answers, view, nonceRead)
  {
    var ls := LandedOn(hashes, answers, view);
    AttemptsEnd(op.txs, start, hashes, answers, view);
    FinalsAreOnTheChain(op.txs, hashes, answers, view);
    CleanMeansEnded(op.txs, hashes, answers, view);
    FillsAddUp(ls, value);
    OpenedIsOneMore(w0.book, position, ls, value, GasOn(hashes, answers, view));
  }

  /**
   * The whole entry. Besides what the outcome says, nothing changes: no other operation, nothing of the book, and the
   * nonce counter only as far as the burst went.
   */
  method HandleEntry(e: Engine, token: Address, curve: Address, value: nat, now: nat, openedAt: nat, hashes: seq<Hash>,
                     signs: bool, fired: Option<seq<SendOutcome>>, view: ChainView, pendingNonce: Option<nat>)
    returns (outcome: EntryOutcome, begun: Option<OpId>)
    requires e.Valid() && NewBurst(e.journal.operations, hashes)
    requires fired.Some? ==> |fired.value| == |hashes|
    requires e.wallet.Valid() && e.wallet.nonce + |hashes| < U64
    modifies e, e.journal, e.positions, e.wallet
    ensures e.Valid() && e.wallet.Valid()
    ensures outcome.EntryRefused? <==> begun.None?
    ensures begun.None? <==>
      !NoRival(old(e.journal.operations), Operation(CHAIN_ID, e.me, now, Pending, Entry(token, curve, value), []))
    ensures begun.None? ==> e.State() == old(e.State()) && e.wallet.nonce == old(e.wallet.nonce)
    ensures begun.Some? ==>
      && begun.value !in old(e.journal.operations)
      && (outcome.EntryUnsigned? <==> !signs) && (outcome.EntryUnsent? <==> signs && fired.None?)
      && e.wallet.nonce == NonceAfter(old(e.wallet.nonce), |hashes|, outcome, pendingNonce)
      && EntryLeaves(old(e.State()), e.State(), begun.value,
           Operation(CHAIN_ID, e.me, now, Pending, Entry(token, curve, value),
                     BurstRecords(old(e.wallet.nonce), hashes)),
           outcome, PosId(token, openedAt), value, fired, view, pendingNonce.Some?)
    ensures begun.Some? && signs && fired.Some? ==>
      BoughtAsShown(old(e.State()), e.State(), begun.value, PosId(token, openedAt), value, old(e.wallet.nonce), hashes,
                    fired.value, view, pendingNonce.Some?)
  {
    ghost var w0 := e.State();
    e.Facts();
    begun := e.Begin(Entry(token, curve, value), now);
    if begun.None? {
      return EntryRefused, begun;
    }
    var id := begun.value;
    ghost var start := e.wallet.nonce;
    ghost var op := e.journal.operations[id].(txs := BurstRecords(start, hashes));
    outcome := BurstEntry(e, id, PosId(token, openedAt), value, hashes, signs, fired, view, pendingNonce, w0);
    if signs && fired.Some? {
      EntryIsAsShown(w0, e.State(), id, op, outcome, PosId(token, openedAt), value, start, hashes, fired.value, view,
                     pendingNonce.Some?);
    }
  }

  /**
   * Where the nonce counter ends: back where it was if nothing was sent, else where the chain has it, if that could be
   * read.
   */
  function NonceAfter(nonce: nat, taken: nat, outcome: EntryOutcome, pendingNonce: Option<nat>): nat {
    if outcome.EntryUnsigned? || outcome.EntryUnsent? then nonce
    else if pendingNonce.Some? then pendingNonce.value else nonce + taken
  }

  /** The burst of an entry that has just begun. */
  method BurstEntry(e: Engine, id: OpId, position: PosId, value: nat, hashes: seq<Hash>, signs: bool,
                    fired: Option<seq<SendOutcome>>, view: ChainView, pendingNonce: Option<nat>, ghost w0: World)
    returns (outcome: EntryOutcome)
    requires e.Valid() && Inv(w0) && NewBurst(w0.ops, hashes) && (fired.Some? ==> |fired.value| == |hashes|)
    requires id !in w0.ops && id in e.journal.operations
    requires e.State() == w0.(ops := w0.ops[id := e.journal.operations[id]])
    requires BlankEntry(e.journal.operations[id])
    requires e.wallet.Valid() && e.wallet.nonce + |hashes| < U64
    modifies e, e.journal, e.positions, e.wallet
    ensures e.Valid() && e.wallet.Valid() && !outcome.EntryRefused?
    ensures (outcome.EntryUnsigned? <==> !signs) && (outcome.EntryUnsent? <==> signs && fired.None?)
    ensures e.wallet.nonce == NonceAfter(old(e.wallet.nonce), |hashes|, outcome, pendingNonce)
    ensures EntryLeaves(w0, e.State(), id,
                        old(e.journal.operations)[id].(txs := BurstRecords(old(e.wallet.nonce), hashes)), outcome,
              position, value, fired, view, pendingNonce.Some?)
  {
    ghost var op, start := e.journal.operations[id], e.wallet.nonce;
    var nonces := e.wallet.TakeNonces(|hashes|);
    if !signs {
      var back := GiveBackBurst(e.wallet, nonces[0], |hashes|);
      CloseUnsigned(e, id, w0);
      return EntryUnsigned;
    }
    SignAndStage(e, id, nonces, hashes, w0);
    ghost var v := e.State();
    assert v == w0.(ops := w0.ops[id := op.(txs := BurstRecords(start, hashes))]);
    outcome := RunBurst(e, id, position, value, nonces[0], |hashes|, fired, view, pendingNonce);
    LeavesTheSame(w0, v, e.State(), id, v.ops[id], outcome, position, value, fired, view, pendingNonce.Some?);
  }

  /** A staged burst nobody has sent yet. */
  ghost predicate ReadyToFire(e: Engine, id: OpId, count: nat)
    reads e, e.journal, e.positions
  {
    && e.Valid() && e.IsOpen(id) && e.journal.operations[id].spec.Entry?
    && |e.journal.operations[id].txs| == count > 0
    && (forall t :: t in e.journal.operations[id].txs ==> IsAmbiguous(t.state))
    && NoResult(e.positions.list, e.journal.operations[id]) && HashesOf(e.journal.operations[id].txs) !! e.sent
  }

  method SignAndStage(e: Engine, id: OpId, nonces: seq<nat>, hashes: seq<Hash>, ghost w0: World)
    requires e.Valid() && Inv(w0) && NewBurst(w0.ops, hashes)
    requires id !in w0.ops && id in e.journal.operations
    requires e.State() == w0.(ops := w0.ops[id := e.journal.operations[id]])
    requires BlankEntry(e.journal.operations[id])
    requires |nonces| == |hashes| && forall i :: 0 <= i < |nonces| ==> nonces[i] == nonces[0] + i
    modifies e, e.journal
    ensures ReadyToFire(e, id, |hashes|)
    ensures e.State()
      == w0.(ops := w0.ops[id := old(e.journal.operations)[id].(txs := BurstRecords(nonces[0], hashes))])
  {
    var signed := seq(|hashes|, i requires 0 <= i < |hashes| => SignedTx(nonces[i], hashes[i]));
    assert signed == Burst(nonces[0], hashes);
    StageEntry(e, id, signed, nonces[0], hashes, w0);
  }

  /** Nothing was even signed. */
  method CloseUnsigned(e: Engine, id: OpId, ghost w0: World)
    requires e.Valid() && Inv(w0) && id !in w0.ops && id in e.journal.operations && BlankEntry(e.journal.operations[id])
    requires e.State() == w0.(ops := w0.ops[id := e.journal.operations[id]])
    modifies e, e.journal
    ensures e.Valid() && e.State() == w0.(ops := w0.ops[id := old(e.journal.operations)[id].(state := Failed)])
  {
    NothingShown(w0, e.State(), id, {});
    e.Record(id, MarkFailed);
  }

  /** The staged burst: fired and followed, or closed because the moment passed. */
  method RunBurst(e: Engine, id: OpId, position: PosId, value: nat, start: nat, count: nat,
                  fired: Option<seq<SendOutcome>>, view: ChainView, pendingNonce: Option<nat>)
    returns (outcome: EntryOutcome)
    requires ReadyToFire(e, id, count) && (fired.Some? ==> |fired.value| == count)
    requires OnTop(e.wallet, start, count)
    modifies e, e.journal, e.positions, e.wallet
    ensures e.Valid() && e.wallet.Valid() && !outcome.EntryRefused? && !outcome.EntryUnsigned?
    ensures outcome.EntryUnsent? <==> fired.None?
    ensures e.wallet.nonce == NonceAfter(start, count, outcome, pendingNonce)
    ensures EntryLeaves(old(e.State()), e.State(), id, old(e.journal.operations)[id], outcome, position, value, fired,
                        view, pendingNonce.Some?)
  {
    if fired.None? {
      var rewound := GiveBackBurst(e.wallet, start, count);
      CloseUnsent(e, id);
      return EntryUnsent(rewound);
    }
    outcome := FollowEntry(e, id, position, value, fired.value, view, pendingNonce);
  }

  /** The last range taken, and nothing beyond it. */
  ghost predicate OnTop(wallet: Allocator, start: nat, count: nat)
    reads wallet
  {
    && wallet.Valid() && wallet.nonce < U64 && count > 0
    && |wallet.held| > 0 && wallet.held[|wallet.held| - 1] == Range(start, count) && wallet.nonce == start + count
  }

  /** Returns the burst's nonces, which nobody has gone beyond. */
  method GiveBackBurst(wallet: Allocator, start: nat, count: nat) returns (rewound: bool)
    requires OnTop(wallet, start, count)
    modifies wallet
    ensures wallet.Valid() && rewound && wallet.nonce == start
  {
    OnlyTheTopmostGoesBack(wallet.seed, wallet.nonce, wallet.held, |wallet.held| - 1);
    rewound := wallet.RewindNonces(start, count, |wallet.held| - 1);
  }

  predicate BlankEntry(op: Operation) {
    op.state.Pending? && op.txs == [] && op.spec.Entry?
  }

  /** What an entry leaves behind; `op` is the operation with its burst as staged. */
  ghost predicate EntryLeaves(w0: World, w: World, id: OpId, op: Operation, outcome: EntryOutcome, position: PosId,
                              value: nat, fired: Option<seq<SendOutcome>>, view: ChainView, nonceRead: bool)
  {
    match outcome
    case EntryRefused => false
    case EntryUnsigned => w == w0.(ops := w0.ops[id := op.(txs := [], state := Failed)])
    case EntryUnsent(rewound) =>
      rewound && w == w0.(ops := w0.ops[id := op.(txs := AllRejectedOf(op.txs), state := Failed)])
    case _ =>
      && fired.Some? && |fired.value| == |op.txs|
      && EntryShows(w0, w, id, op, outcome, position, value, fired.value, view, nonceRead)
  }

  function AllRejectedOf(txs: seq<TxRecord>): seq<TxRecord> {
    seq(|txs|, i requires 0 <= i < |txs| => txs[i].(state := Rejected))
  }

  /** What an entry that was fired leaves behind. */
  ghost predicate EntryShows(w0: World, w: World, id: OpId, op: Operation, outcome: EntryOutcome, position: PosId,
                             value: nat, outcomes: seq<SendOutcome>, view: ChainView, nonceRead: bool)
    requires |op.txs| == |outcomes|
  {
    var finals := FinalsOf(op.txs, outcomes, view);
    var fills := FillsOf(LandedOf(finals), value);
    var clean := !AnyUnresolved(finals) && !AnyMismatch(op.txs, outcomes) && !fills.zeroNet && nonceRead;
    var now := op.(txs := Reconciled(op.txs, outcomes, view));
    && w.sent == w0.sent + HashesOf(op.txs)
    && match outcome
       case EntryOpened(f, gas, settled) =>
         && f == fills && f.count > 0 && gas == GasOfFinals(finals) && (settled <==> clean && f.count == 1)
         && w.book == w.saved == w0.book + [Opened(position, f.hash, f.eth, gas, f.tokens)]
         && w.ops == w0.ops[id := now.(state := if settled then Applied else Pending)]
       case EntryNoFill(gas) =>
         && fills.count == 0 && clean && gas == GasOfFinals(finals)
         && w.book == w0.book && w.saved == w0.saved && w.ops == w0.ops[id := now.(state := Failed)]
       case EntryUnsettled =>
         && fills.count == 0 && !clean
         && w.book == w0.book && w.saved == w0.saved && w.ops == w0.ops[id := now.(state := Pending)]
       case _ => false
  }

  /** It makes no difference whether the operation itself is already in the world the change is measured from. */
  lemma LeavesTheSame(w0: World, v: World, w: World, id: OpId, op: Operation, outcome: EntryOutcome, position: PosId,
                      value: nat, fired: Option<seq<SendOutcome>>, view: ChainView, nonceRead: bool)
    requires id in v.ops && v == w0.(ops := w0.ops[id := v.ops[id]])
    requires EntryLeaves(v, w, id, op, outcome, position, value, fired, view, nonceRead)
    ensures EntryLeaves(w0, w, id, op, outcome, position, value, fired, view, nonceRead)
  {
    UpdateTwice(w0, v, id, op.(txs := [], state := Failed));
    UpdateTwice(w0, v, id, op.(txs := AllRejectedOf(op.txs), state := Failed));
    if fired.Some? && |fired.value| == |op.txs| {
      var now := op.(txs := Reconciled(op.txs, fired.value, view));
      UpdateTwice(w0, v, id, now.(state := Applied));
      UpdateTwice(w0, v, id, now.(state := Failed));
      UpdateTwice(w0, v, id, now.(state := Pending));
    }
  }

  lemma UpdateTwice(w0: World, v: World, id: OpId, op: Operation)
    requires id in v.ops && v.ops == w0.ops[id := v.ops[id]]
    ensures v.ops[id := op] == w0.ops[id := op]
  {
  }

  lemma NothingShown(w0: World, w: World, id: OpId, hs: set<Hash>)
    requires Inv(w0) && w.book == w0.book && id in w.ops && HashesOf(w.ops[id].txs) == hs
    requires forall h, o :: h in hs ==> !Staged(w0.ops, o, h)
    ensures NoResult(w.book, w.ops[id]) && hs !! w0.sent
  {
    UnstagedShowNothing(w0.ops, w0.book, hs);
    forall h | h in w0.sent ensures h !in hs {
      var o :| Staged(w0.ops, o, h);
    }
  }

  method StageEntry(e: Engine, id: OpId, signed: seq<SignedTx>, ghost start: nat, ghost hashes: seq<Hash>,
                    ghost w0: World)
    requires e.Valid() && Inv(w0) && NewBurst(w0.ops, hashes) && signed == Burst(start, hashes)
    requires id !in w0.ops && id in e.journal.operations
    requires e.State() == w0.(ops := w0.ops[id := e.journal.operations[id]])
    requires BlankEntry(e.journal.operations[id])
    modifies e, e.journal
    ensures e.Valid() && TxsAt(e, id, old(e.State()), BurstRecords(start, hashes))
    ensures NoResult(e.positions.list, e.journal.operations[id]) && HashesOf(e.journal.operations[id].txs) !! e.sent
  {
    StagedBurst(start, hashes);
    RecordsHaveTheHashes(start, hashes);
    BurstHashes(start, hashes);
    assert HashesOf(e.journal.operations[id].txs) == {};
    forall h | h in NewHashes(StageMany(EntryStep, signed)) ensures Unclaimed(e.journal.operations, id, h) {
      assert forall o :: o != id ==> (Staged(e.journal.operations, o, h) <==> Staged(w0.ops, o, h));
    }
    e.Record(id, StageMany(EntryStep, signed));
    NothingShown(w0, e.State(), id, HashesOf(BurstRecords(start, hashes)));
  }

  lemma BurstHashes(start: nat, hashes: seq<Hash>)
    ensures NewHashes(StageMany(EntryStep, Burst(start, hashes))) == set h | h in hashes
  {
    var more := Burst(start, hashes);
    forall h | h in hashes ensures h in NewHashes(StageMany(EntryStep, more)) {
      var i :| 0 <= i < |hashes| && hashes[i] == h;
      assert more[i] in more;
    }
  }

  /** Nothing was sent: every attempt is rejected and the operation closed. */
  method CloseUnsent(e: Engine, id: OpId)
    requires e.Valid() && e.IsOpen(id) && e.journal.operations[id].spec.Entry?
    requires NoResult(e.positions.list, e.journal.operations[id]) && HashesOf(e.journal.operations[id].txs) !! e.sent
    requires forall t :: t in e.journal.operations[id].txs ==> IsAmbiguous(t.state)
    modifies e, e.journal
    ensures e.Valid()
    ensures var op := old(e.journal.operations)[id];
      e.State()
        == old(e.State()).(ops := old(e.journal.operations)[id := op.(txs := AllRejectedOf(op.txs), state := Failed)])
  {
    RejectedBurst(e.journal.operations[id]);
    e.Record(id, AllRejected);
    e.Record(id, MarkFailed);
  }

  lemma RejectedBurst(op: Operation)
    ensures HashesOf(AfterEvent(op, AllRejected).txs) == HashesOf(op.txs) && !HasAmbiguous(AfterEvent(op, AllRejected))
    ensures (forall t :: t in op.txs ==> IsAmbiguous(t.state)) ==>
      AfterEvent(op, AllRejected).txs == AllRejectedOf(op.txs)
  {
    SameHashes(op.txs, RejectOpen(op.txs));
  }

  method FollowEntry(e: Engine, id: OpId, position: PosId, value: nat, outcomes: seq<SendOutcome>, view: ChainView,
                     pendingNonce: Option<nat>)
    returns (outcome: EntryOutcome)
    requires e.Valid() && e.IsOpen(id) && e.journal.operations[id].spec.Entry? && e.wallet.Valid()
    requires |outcomes| == |e.journal.operations[id].txs| && NoResult(e.positions.list, e.journal.operations[id])
    modifies e, e.journal, e.positions, e.wallet
    ensures e.Valid() && e.wallet.Valid()
    ensures e.wallet.nonce == if pendingNonce.Some? then pendingNonce.value else old(e.wallet.nonce)
    ensures EntryShows(old(e.State()), e.State(), id, old(e.journal.operations)[id], outcome, position, value, outcomes,
                       view, pendingNonce.Some?)
  {
    ghost var w0, op := e.State(), e.journal.operations[id];
    var finals, unresolved, mismatch := FireAndReconcile(e, id, outcomes, view);
    ghost var v := e.State();
    var fills, gas := TallyFills(finals, value);
    if pendingNonce.Some? {
      e.wallet.SetNonce(pendingNonce.value);
    }
    var trouble := unresolved || mismatch || fills.zeroNet || pendingNonce.None?;
    if !trouble {
      CleanReconciliationSettles(op.txs, outcomes, view);
    }
    if fills.count > 0 {
      FillIsStaged(op.txs, outcomes, view, value);
    }
    outcome := ConcludeEntry(e, id, position, fills, gas, trouble);
    ConclusionShows(w0, v, e.State(), id, op, outcome, position, value, outcomes, view, pendingNonce.Some?);
  }

  /** The world once the burst is fired and reconciled. */
  function AfterReconciliation(w0: World, id: OpId, op: Operation, outcomes: seq<SendOutcome>, view: ChainView): World
    requires |op.txs| == |outcomes|
  {
    w0.(ops := w0.ops[id := op.(txs := Reconciled(op.txs, outcomes, view))], sent := w0.sent + HashesOf(op.txs))
  }

  method FireAndReconcile(e: Engine, id: OpId, outcomes: seq<SendOutcome>, view: ChainView)
    returns (finals: seq<TxFinal>, unresolved: bool, mismatch: bool)
    requires e.Valid() && e.IsOpen(id) && |outcomes| == |e.journal.operations[id].txs|
    modifies e, e.journal
    ensures e.Valid()
    ensures var op := old(e.journal.operations)[id];
      && e.State() == AfterReconciliation(old(e.State()), id, op, outcomes, view)
      && HashesOf(Reconciled(op.txs, outcomes, view)) == HashesOf(op.txs)
      && finals == FinalsOf(op.txs, outcomes, view)
      && (mismatch <==> AnyMismatch(op.txs, outcomes))
      && (unresolved <==> AnyUnresolved(finals))
  {
    ghost var txs := e.journal.operations[id].txs;
    Fire(e, id);
    finals, unresolved, mismatch := ReconcileBurst(e, id, outcomes, view);
    ReconciledHashes(txs, outcomes, view);
  }

  lemma ConclusionShows(w0: World, v: World, w: World, id: OpId, op: Operation, outcome: EntryOutcome, position: PosId,
                        value: nat, outcomes: seq<SendOutcome>, view: ChainView, nonceRead: bool)
    requires |op.txs| == |outcomes| && v == AfterReconciliation(w0, id, op, outcomes, view) && op.state.Pending?
    requires var finals := FinalsOf(op.txs, outcomes, view);
      var fills := FillsOf(LandedOf(finals), value);
      Concluded(v, w, id, position, fills, GasOfFinals(finals),
        AnyUnresolved(finals) || AnyMismatch(op.txs, outcomes) || fills.zeroNet || !nonceRead, outcome)
    ensures EntryShows(w0, w, id, op, outcome, position, value, outcomes, view, nonceRead)
  {
    var now := op.(txs := Reconciled(op.txs, outcomes, view));
    UpdateTwice(w0, v, id, now.(state := Applied));
    UpdateTwice(w0, v, id, now.(state := Failed));
    UpdateTwice(w0, v, id, now.(state := Pending));
  }

  /** Nothing bought, and closed or left; or bought, and opened. */
  method ConcludeEntry(e: Engine, id: OpId, position: PosId, fills: Fills, gas: nat, trouble: bool)
    returns (outcome: EntryOutcome)
    requires e.Valid() && e.IsOpen(id) && e.journal.operations[id].spec.Entry?
    requires NoResult(e.positions.list, e.journal.operations[id])
    requires fills.count > 0 ==> fills.hash.Some? && Staged(e.journal.operations, id, fills.hash.value)
    requires !trouble ==> !HasAmbiguous(e.journal.operations[id])
    modifies e, e.journal, e.positions
    ensures e.Valid()
    ensures Concluded(old(e.State()), e.State(), id, position, fills, gas, trouble, outcome)
  {
    if fills.count == 0 {
      if trouble {
        return EntryUnsettled;
      }
      e.Record(id, MarkFailed);
      return EntryNoFill(gas);
    }
    var settled := !trouble && fills.count == 1;
    OpenEntry(e, id, position, fills, gas, settled);
    return EntryOpened(fills, gas, settled);
  }

  ghost predicate Concluded(v: World, w: World, id: OpId, position: PosId, fills: Fills, gas: nat, trouble: bool,
                            outcome: EntryOutcome)
  {
    && id in v.ops
    && match outcome
       case EntryOpened(f, g, settled) =>
         && f == fills && g == gas && f.count > 0 && (settled <==> !trouble && f.count == 1)
         && var book := v.book + [Opened(position, f.hash, f.eth, gas, f.tokens)];
            w == v.(ops := v.ops[id := v.ops[id].(state := if settled then Applied else Pending)], book := book,
                    saved := book)
       case EntryNoFill(g) =>
         g == gas && fills.count == 0 && !trouble && w == v.(ops := v.ops[id := v.ops[id].(state := Failed)])
       case EntryUnsettled => fills.count == 0 && trouble && w == v
       case _ => false
  }

  lemma ReconciledHashes(txs: seq<TxRecord>, outcomes: seq<SendOutcome>, view: ChainView)
    requires |txs| == |outcomes|
    ensures HashesOf(Reconciled(txs, outcomes, view)) == HashesOf(txs)
  {
    SameHashes(txs, Reconciled(txs, outcomes, view));
  }

  lemma {:induction false} FinalsAreStaged(txs: seq<TxRecord>, outcomes: seq<SendOutcome>, view: ChainView)
    requires |txs| == |outcomes|
    ensures forall l :: l in LandedOf(FinalsOf(txs, outcomes, view)) ==> l.hash in HashesOf(txs)
  {
    if txs != [] {
      var n := |txs| - 1;
      FinalsAreStaged(txs[..n], outcomes[..n], view);
      var front := FinalsOf(txs[..n], outcomes[..n], view);
      var f := ConfirmOn(view, txs[n].hash);
      if Watched(txs[n].hash, outcomes[n]) {
        LandedStep(front, f);
      } else {
        assert front + [] == front;
      }
      assert txs[n] in txs && forall t :: t in txs[..n] ==> t in txs;
      assert HashesOf(txs[..n]) <= HashesOf(txs);
    }
  }

  lemma FillIsStaged(txs: seq<TxRecord>, outcomes: seq<SendOutcome>, view: ChainView, value: nat)
    requires |txs| == |outcomes| && FillsOf(LandedOf(FinalsOf(txs, outcomes, view)), value).count > 0
    ensures FillsOf(LandedOf(FinalsOf(txs, outcomes, view)), value).hash.Some?
    ensures FillsOf(LandedOf(FinalsOf(txs, outcomes, view)), value).hash.value in HashesOf(txs)
  {
    FinalsAreStaged(txs, outcomes, view);
    FillsHaveAHash(LandedOf(FinalsOf(txs, outcomes, view)), value);
  }

  /** Into the book, to disk, and then, if nothing is in doubt, applied. */
  method OpenEntry(e: Engine, id: OpId, position: PosId, fills: Fills, gas: nat, settled: bool)
    requires e.Valid() && fills.hash.Some? && Staged(e.journal.operations, id, fills.hash.value)
    requires e.journal.operations[id].state.Pending? && e.journal.operations[id].spec.Entry?
    requires NoResult(e.positions.list, e.journal.operations[id])
    requires settled ==> !HasAmbiguous(e.journal.operations[id])
    modifies e, e.journal, e.positions
    ensures e.Valid() && e.sent == old(e.sent)
    ensures var op := old(e.journal.operations)[id];
      e.journal.operations == old(e.journal.operations)[id := op.(state := if settled then Applied else Pending)]
    ensures e.positions.list
      == e.positions.saved == old(e.positions.list) + [Opened(position, fills.hash, fills.eth, gas, fills.tokens)]
  {
    ghost var n := |e.positions.list|;
    e.OpenFrom(id, position, fills.hash.value, fills.eth, gas, fills.tokens);
    e.Flush();
    if settled {
      assert EntryAt(e.positions.saved, HashesOf(e.journal.operations[id].txs), n);
      e.Record(id, MarkApplied);
    }
  }
}
