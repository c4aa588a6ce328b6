/**
 * The journal object (crates/bodkin/src/trade/journal.rs): every method commits the operation it changed before it
 * returns.
 */
module JournalStore {
  import opened Common
  import opened Positions
  import opened Journal

  /** The first record of a transaction: where every update goes. */
  method LocateTx(txs: seq<TxRecord>, hash: Hash) returns (index: Option<nat>)
    ensures match index
      case Some(i) => i < |txs| && txs[i].hash == hash
      case None => hash !in HashesOf(txs)
  {
    var i := 0;
    while i < |txs|
      invariant 0 <= i <= |txs| && forall j :: 0 <= j < i ==> txs[j].hash != hash
    {
      if txs[i].hash == hash {
        return Some(i);
      }
      i := i + 1;
    }
    return None;
  }

  method StageTx(txs: seq<TxRecord>, step: StepName, nonce: nat, hash: Hash) returns (now: seq<TxRecord>)
    ensures now == StageOne(txs, step, nonce, hash)
  {
    var found := LocateTx(txs, hash);
    if found.None? {
      now := txs + [TxRecord(step, nonce, hash, Prepared, None, None, None)];
    } else {
      assert txs[found.value] in txs;
      now := txs;
    }
  }

  method StageBurst(txs: seq<TxRecord>, step: StepName, more: seq<SignedTx>) returns (now: seq<TxRecord>)
    ensures now == StageAll(txs, step, more)
  {
    now := txs;
    var i := 0;
    while i < |more|
      invariant 0 <= i <= |more| && now == StageAll(txs, step, more[..i])
    {
      now := StageTx(now, step, more[i].nonce, more[i].hash);
      assert more[..i + 1][..i] == more[..i];
      i := i + 1;
    }
    assert more[..i] == more;
  }

  method RewriteTx(txs: seq<TxRecord>, hash: Hash, state: TxState, bn: Option<nat>, bh: Option<Hash>, gas: Option<nat>)
    returns (now: seq<TxRecord>, ok: bool)
    requires DistinctHashes(txs)
    ensures ok <==> hash in HashesOf(txs)
    ensures now == SetRecord(txs, hash, state, bn, bh, gas)
  {
    var found := LocateTx(txs, hash);
    ok := found.Some?;
    if found.None? {
      assert forall t :: t in txs ==> t.hash in HashesOf(txs);
      now := txs;
    } else {
      var i := found.value;
      assert txs[i] in txs;
      now := txs[i := txs[i].(state := state, blockNumber := bn, blockHash := bh, gasWei := gas)];
    }
  }

  method SweepOpen(txs: seq<TxRecord>) returns (now: seq<TxRecord>)
    ensures now == RejectOpen(txs)
  {
    now := txs;
    var i := 0;
    while i < |now|
      invariant 0 <= i <= |now| == |txs|
      invariant forall j :: 0 <= j < i ==> now[j] == RejectOpen(txs)[j]
      invariant forall j :: i <= j < |now| ==> now[j] == txs[j]
    {
      if IsAmbiguous(now[i].state) {
        now := now[i := now[i].(state := Rejected)];
      }
      i := i + 1;
    }
  }

  class TxJournal {
    var operations: map<OpId, Operation>

    ghost predicate Valid()
      reads this
    {
      forall id :: id in operations ==> id.index < |operations| && DistinctHashes(operations[id].txs)
    }

    constructor (loaded: map<OpId, Operation>)
      requires forall id :: id in loaded ==> id.index < |loaded| && DistinctHashes(loaded[id].txs)
      ensures Valid() && operations == loaded
    {
      operations := loaded;
    }

    /** Refuses a second pending operation of the wallet on the same subject. */
    method Begin(wallet: Address, spec: Spec, now: nat) returns (begun: Option<OpId>)
      requires Valid()
      modifies this
      ensures Valid()
      ensures begun.None? <==>
        exists o :: o in old(operations) && old(operations)[o].state.Pending? && old(operations)[o].wallet == wallet
          && OneSubject(old(operations)[o].spec, spec)
      ensures begun.None? ==> operations == old(operations)
      ensures begun.Some? ==>
        && begun.value == OpId(now, |old(operations)|) && begun.value !in old(operations)
        && operations == old(operations)[begun.value := Operation(CHAIN_ID, wallet, now, Pending, spec, [])]
    {
      var unseen := operations.Keys;
      while unseen != {}
        invariant unseen <= operations.Keys
        invariant forall o :: o in operations && o !in unseen ==>
          !(operations[o].state.Pending? && operations[o].wallet == wallet && SameSubject(operations[o].spec, spec))
      {
        var o :| o in unseen;
        if operations[o].state.Pending? && operations[o].wallet == wallet && SameSubject(operations[o].spec, spec) {
          return None;
        }
        unseen := unseen - {o};
      }
      var id := OpId(now, |operations|);
      assert id !in operations;
      operations := operations[id := Operation(CHAIN_ID, wallet, now, Pending, spec, [])];
      return Some(id);
    }

    /** Fails when the operation or the transaction it speaks of is unknown. */
    method Record(id: OpId, event: Journal.Event) returns (ok: bool)
      requires Valid()
      modifies this
      ensures Valid()
      ensures ok <==> id in old(operations) && Accepts(old(operations)[id], event)
      ensures operations
        == if ok then old(operations)[id := AfterEvent(old(operations)[id], event)] else old(operations)
    {
      if id !in operations {
        return false;
      }
      var op := operations[id];
      var txs := op.txs;
      ok := true;
      EventHashes(op, event);
      match event {
        case Stage(step, nonce, hash) => txs := StageTx(txs, step, nonce, hash);
        case StageMany(step, more) => txs := StageBurst(txs, step, more);
        case MarkSubmitted(h) => txs, ok := RewriteTx(txs, h, Submitted, None, None, None);
        case MarkConfirmed(h, bn, bh, gas) => txs, ok := RewriteTx(txs, h, Confirmed, Some(bn), Some(bh), Some(gas));
        case MarkReverted(h, bn, bh, gas) => txs, ok := RewriteTx(txs, h, Reverted, Some(bn), Some(bh), Some(gas));
        case MarkRejected(h) => txs, ok := RewriteTx(txs, h, Rejected, None, None, None);
        case MarkUnresolved(h) => txs, ok := RewriteTx(txs, h, Unresolved, None, None, None);
        case AllRejected => txs := SweepOpen(txs);
        case MarkApplied => op := op.(state := Applied);
        case MarkFailed => op := op.(state := Failed);
      }
      if ok {
        operations := operations[id := op.(txs := txs)];
      }
    }

    /** `set_tx_state` as the refresh uses it. */
    method SetDropped(id: OpId, hash: Hash) returns (ok: bool)
      requires Valid()
      modifies this
      ensures Valid()
      ensures ok <==> id in old(operations) && hash in HashesOf(old(operations)[id].txs)
      ensures operations ==
        if ok then old(operations)[id := old(operations)[id].(txs := DropRecord(old(operations)[id].txs, hash))]
        else old(operations)
    {
      if id !in operations {
        return false;
      }
      var op := operations[id];
      var found := LocateTx(op.txs, hash);
      if found.None? {
        return false;
      }
      var i := found.value;
      assert op.txs[i] in op.txs;
      DropHashes(op.txs, hash);
      var txs := op.txs[i := op.txs[i].(state := Dropped, blockNumber := None)];
      assert txs == DropRecord(op.txs, hash);
      operations := operations[id := op.(txs := txs)];
      return true;
    }

    method NeedsRecovery(id: OpId) returns (yes: bool)
      ensures yes <==> id in operations && RequiresRecovery(operations[id])
    {
      if id !in operations || !operations[id].state.Pending? {
        return false;
      }
      var txs := operations[id].txs;
      var i := 0;
      while i < |txs|
        invariant 0 <= i <= |txs|
        invariant forall j :: 0 <= j < i ==>
          !IsAmbiguous(txs[j].state) && !(txs[j].state.Confirmed? && HasEffect(txs[j]))
      {
        if IsAmbiguous(txs[i].state) || (txs[i].state.Confirmed? && HasEffect(txs[i])) {
          assert txs[i] in txs;
          return true;
        }
        i := i + 1;
      }
      return false;
    }

    method RecordedGas(id: OpId) returns (gas: Option<nat>)
      ensures gas == if id in operations then Some(OperationGas(operations[id].txs)) else None
    {
      if id !in operations {
        return None;
      }
      var txs := operations[id].txs;
      var total, i := 0, 0;
      while i < |txs|
        invariant 0 <= i <= |txs| && total == OperationGas(txs[..i])
      {
        if txs[i].gasWei.Some? {
          total := total + txs[i].gasWei.value;
        }
        assert txs[..i + 1][..i] == txs[..i];
        i := i + 1;
      }
      assert txs[..i] == txs;
      return Some(total);
    }
  }
}
