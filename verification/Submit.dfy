/** Sending one transaction and following it to a receipt (crates/bodkin/src/trade/exec.rs). */
module Submit {
  import opened Common
  import opened Positions
  import opened Journal
  import opened Protocol
  import opened Wallet
  import opened Engine

  /** The sequencer's answer. */
  datatype SendOutcome = Accepted(returned: Hash) | AlreadyKnown | Reverts | Refuses | NoAnswer

  datatype TxFinal =
    | FinalConfirmed(hash: Hash, blockNumber: nat, blockHash: Hash, receipt: Receipt)
    | FinalReverted(hash: Hash, blockNumber: nat, blockHash: Hash, gasWei: nat)
    | FinalUnresolved(hash: Hash)

  function FinalGas(f: TxFinal): nat {
    match f
    case FinalConfirmed(_, _, _, receipt) => receipt.gasWei
    case FinalReverted(_, _, _, gas) => gas
    case FinalUnresolved(_) => 0
  }

  /** What polling ends with, given the chain as last seen inside the confirmation window. */
  function ConfirmOn(view: ChainView, hash: Hash): TxFinal {
    if hash !in view.receipts then FinalUnresolved(hash) else
      var r := view.receipts[hash];
      if r.txHash != Some(hash) || !IsCanonical(view, r) || r.status.None? then FinalUnresolved(hash)
      else if r.status.value then FinalConfirmed(hash, r.blockNumber.value, r.blockHash.value, r)
      else FinalReverted(hash, r.blockNumber.value, r.blockHash.value, r.gasWei)
  }

  function FinalEvent(f: TxFinal): Journal.Event {
    match f
    case FinalConfirmed(h, bn, bh, r) => MarkConfirmed(h, bn, bh, r.gasWei)
    case FinalReverted(h, bn, bh, gas) => MarkReverted(h, bn, bh, gas)
    case FinalUnresolved(h) => MarkUnresolved(h)
  }

  datatype Submitted = Followed(final: TxFinal) | Bailed

  function ResultOf(hash: Hash, reply: SendOutcome, view: ChainView): Submitted {
    match reply
    case Accepted(returned) => Followed(if returned == hash then ConfirmOn(view, hash) else FinalUnresolved(hash))
    case AlreadyKnown => Followed(ConfirmOn(view, hash))
    case Reverts => Bailed
    case Refuses => Bailed
    case NoAnswer => Followed(FinalUnresolved(hash))
  }

  /**
   * What the journal says of the transaction in the end. A refused one is only rejected if its nonce could be handed
   * back.
   */
  function LastEvent(hash: Hash, reply: SendOutcome, view: ChainView, rewound: bool): Journal.Event {
    match ResultOf(hash, reply, view)
    case Followed(f) => FinalEvent(f)
    case Bailed => if rewound then MarkRejected(hash) else MarkUnresolved(hash)
  }

  function AfterSubmit(w: World, id: OpId, step: StepName, nonce: nat, hash: Hash, last: Journal.Event): World
    requires id in w.ops
  {
    w.(ops := w.ops[id := AfterEvent(AfterEvent(w.ops[id], Stage(step, nonce, hash)), last)], sent := w.sent + {hash})
  }

  lemma SecondMarkWins(op: Operation, hash: Hash, last: Journal.Event)
    requires Addressee(last) == Some(hash)
    ensures AfterEvent(AfterEvent(op, MarkSubmitted(hash)), last) == AfterEvent(op, last)
  {
    var a, b := AfterEvent(AfterEvent(op, MarkSubmitted(hash)), last).txs, AfterEvent(op, last).txs;
    assert |a| == |b| && forall i :: 0 <= i < |a| ==> a[i] == b[i];
  }

  lemma LastEventAddresses(hash: Hash, reply: SendOutcome, view: ChainView, rewound: bool)
    ensures Addressee(LastEvent(hash, reply, view, rewound)) == Some(hash)
  {
  }

  /** Stage, send, record: in that order, so the hash is durable before the sequencer has it. */
  method SubmitSigned(e: Engine, id: OpId, step: StepName, nonce: nat, hash: Hash, reply: SendOutcome, view: ChainView,
                      ghost k: nat)
    returns (result: Submitted, rewound: bool)
    requires e.Valid() && e.IsOpen(id)
    requires Unclaimed(e.journal.operations, id, hash)
    requires e.wallet.Valid() && e.wallet.nonce < U64 && k < |e.wallet.held| && e.wallet.held[k] == Range(nonce, 1)
    modifies e, e.journal, e.wallet
    ensures e.Valid() && e.wallet.Valid()
    ensures result == ResultOf(hash, reply, view)
    ensures e.State() == AfterSubmit(old(e.State()), id, step, nonce, hash, LastEvent(hash, reply, view, rewound))
    ensures !result.Bailed? ==> e.wallet.nonce == old(e.wallet.nonce) && e.wallet.held == old(e.wallet.held)
    ensures e.wallet.nonce == if result.Bailed? && rewound then nonce else old(e.wallet.nonce)
    ensures result.Bailed? ==> (rewound <==> Topmost(old(e.wallet.held), Range(nonce, 1)))
  {
    StageAndSend(e, id, step, nonce, hash);
    result, rewound := Conclude(e, id, nonce, hash, reply, view, k);
  }

  /** Records what the sequencer's answer, and the chain after it, say of a transaction that was sent. */
  method Conclude(e: Engine, id: OpId, nonce: nat, hash: Hash, reply: SendOutcome, view: ChainView, ghost k: nat)
    returns (result: Submitted, rewound: bool)
    requires e.Valid() && Staged(e.journal.operations, id, hash) && e.journal.operations[id].state.Pending?
    requires e.wallet.Valid() && e.wallet.nonce < U64 && k < |e.wallet.held| && e.wallet.held[k] == Range(nonce, 1)
    modifies e, e.journal, e.wallet
    ensures e.Valid() && e.wallet.Valid()
    ensures e.wallet.nonce == if result.Bailed? && rewound then nonce else old(e.wallet.nonce)
    ensures result == ResultOf(hash, reply, view)
    ensures e.State() == Next(old(e.State()), Record(id, LastEvent(hash, reply, view, rewound)))
    ensures !result.Bailed? ==> e.wallet.nonce == old(e.wallet.nonce) && e.wallet.held == old(e.wallet.held)
    ensures result.Bailed? ==> (rewound <==> Topmost(old(e.wallet.held), Range(nonce, 1)))
  {
    rewound := false;
    match reply {
      case Accepted(returned) =>
        if returned != hash {
          e.Record(id, MarkUnresolved(hash));
          result := Followed(FinalUnresolved(hash));
        } else {
          result := Follow(e, id, hash, view);
        }
      case AlreadyKnown =>
        result := Follow(e, id, hash, view);
      case NoAnswer =>
        e.Record(id, MarkUnresolved(hash));
        result := Followed(FinalUnresolved(hash));
      case _ =>
        rewound := GiveBack(e, id, nonce, hash, k);
        result := Bailed;
    }
  }

  method GiveBack(e: Engine, id: OpId, nonce: nat, hash: Hash, ghost k: nat) returns (rewound: bool)
    requires e.Valid() && Staged(e.journal.operations, id, hash) && e.journal.operations[id].state.Pending?
    requires e.wallet.Valid() && e.wallet.nonce < U64 && k < |e.wallet.held| && e.wallet.held[k] == Range(nonce, 1)
    modifies e, e.journal, e.wallet
    ensures e.Valid() && e.wallet.Valid() && e.wallet.nonce == if rewound then nonce else old(e.wallet.nonce)
    ensures rewound <==> Topmost(old(e.wallet.held), Range(nonce, 1))
    ensures e.State() == Next(old(e.State()), Record(id, if rewound then MarkRejected(hash) else MarkUnresolved(hash)))
  {
    assert Covers(e.wallet.held[k], nonce) && Held(e.wallet.held, nonce);
    rewound := e.wallet.RewindNonces(nonce, 1, k);
    e.Record(id, if rewound then MarkRejected(hash) else MarkUnresolved(hash));
  }

  method StageAndSend(e: Engine, id: OpId, step: StepName, nonce: nat, hash: Hash)
    requires e.Valid() && e.IsOpen(id)
    requires Unclaimed(e.journal.operations, id, hash)
    modifies e, e.journal
    ensures e.Valid() && Staged(e.journal.operations, id, hash)
    ensures e.State() == Next(Next(old(e.State()), Record(id, Stage(step, nonce, hash))), Send(id, hash))
    ensures e.journal.operations[id].state.Pending?
  {
    e.JournalIsSound();
    EventHashes(e.journal.operations[id], Stage(step, nonce, hash));
    e.Record(id, Stage(step, nonce, hash));
    e.Send(id, hash);
  }

  method Follow(e: Engine, id: OpId, hash: Hash, view: ChainView) returns (result: Submitted)
    requires e.Valid() && Staged(e.journal.operations, id, hash) && e.journal.operations[id].state.Pending?
    modifies e, e.journal
    ensures e.Valid() && result == Followed(ConfirmOn(view, hash))
    ensures e.State() == Next(old(e.State()), Record(id, FinalEvent(ConfirmOn(view, hash))))
  {
    e.JournalIsSound();
    var f := ConfirmOn(view, hash);
    SecondRecordWins(e.State(), id, hash, FinalEvent(f));
    e.Record(id, MarkSubmitted(hash));
    e.Record(id, FinalEvent(f));
    return Followed(f);
  }

  lemma SecondRecordWins(w: World, id: OpId, hash: Hash, last: Journal.Event)
    requires Staged(w.ops, id, hash) && DistinctHashes(w.ops[id].txs) && Addressee(last) == Some(hash)
    ensures var v := Next(w, Record(id, MarkSubmitted(hash)));
      && Staged(v.ops, id, hash) && v.ops[id].state == w.ops[id].state
      && Next(v, Record(id, last)) == Next(w, Record(id, last))
  {
    EventHashes(w.ops[id], MarkSubmitted(hash));
    SecondMarkWins(w.ops[id], hash, last);
  }
}
