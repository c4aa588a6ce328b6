/**
 * The live engine's hold on its stores (crates/bodkin/src/trade/exec.rs, crates/bodkin/src/run.rs). Every method below
 * is one durable step; `trace` is the run so far, and `Valid` says that the stores are where that run leads.
 */
module Engine {
  import opened Common
  import opened Positions
  import opened Journal
  import opened JournalStore
  import opened Protocol
  import opened Wallet

  class Engine {
    const me: Address
    const journal: TxJournal
    const positions: PositionStore
    const wallet: Allocator
    ghost var sent: set<Hash>
    ghost var trace: Trace

    ghost function State(): World
      reads this, journal, positions
    {
      World(journal.operations, positions.list, positions.saved, sent)
    }

    /** A known operation that is still pending. */
    predicate IsOpen(id: OpId)
      reads this, journal
    {
      id in journal.operations && journal.operations[id].state.Pending?
    }

    ghost predicate Valid()
      reads this, journal, positions
    {
      Legal(trace) && Replay(trace) == State() && positions.Valid()
    }

    constructor (me: Address, journal: TxJournal, positions: PositionStore, wallet: Allocator)
      requires journal.operations == map[] && positions.list == positions.saved == [] && positions.Valid()
      ensures Valid() && State() == World(map[], [], [], {}) && trace == Start
      ensures this.me == me && this.journal == journal && this.positions == positions && this.wallet == wallet
    {
      this.me, this.journal, this.positions, this.wallet := me, journal, positions, wallet;
      sent, trace := {}, Start;
    }

    /** The journal's own validity is part of what every legal run keeps. */
    lemma Facts()
      requires Valid()
      ensures Inv(State()) && journal.Valid()
    {
      EveryRunIsSafe(trace);
    }

    lemma JournalIsSound()
      requires Valid()
      ensures journal.Valid()
    {
      Facts();
    }

    method Begin(spec: Spec, now: nat) returns (begun: Option<OpId>)
      requires Valid()
      modifies this, journal
      ensures Valid()
      ensures begun.None? ==> State() == old(State())
      ensures begun.None? <==> !NoRival(old(journal.operations), Operation(CHAIN_ID, me, now, Pending, spec, []))
      ensures begun.Some? ==>
        && begun.value !in old(journal.operations)
        && State() == Next(old(State()), Action.Begin(begun.value, Operation(CHAIN_ID, me, now, Pending, spec, [])))
    {
      JournalIsSound();
      ghost var before := State();
      begun := journal.Begin(me, spec, now);
      if begun.Some? {
        ghost var a := Action.Begin(begun.value, Operation(CHAIN_ID, me, now, Pending, spec, []));
        assert Enabled(before, a);
        trace := Then(trace, a);
      } else {
        ghost var o :| o in before.ops && before.ops[o].state.Pending? && before.ops[o].wallet == me
          && SameSubject(before.ops[o].spec, spec);
        assert Rivals(before.ops[o], Operation(CHAIN_ID, me, now, Pending, spec, []));
      }
    }

    method Record(id: OpId, event: Journal.Event)
      requires Valid() && Enabled(State(), Action.Record(id, event))
      modifies this, journal
      ensures Valid() && State() == Next(old(State()), Action.Record(id, event))
    {
      JournalIsSound();
      trace := Then(trace, Action.Record(id, event));
      var ok := journal.Record(id, event);
    }

    method Forget(id: OpId, hash: Hash)
      requires Valid() && Enabled(State(), DropTx(id, hash))
      modifies this, journal
      ensures Valid() && State() == Next(old(State()), DropTx(id, hash))
    {
      JournalIsSound();
      trace := Then(trace, DropTx(id, hash));
      var ok := journal.SetDropped(id, hash);
    }

    /** Hands a signed transaction to the sequencer: allowed only once it is staged under a pending operation. */
    ghost method Send(id: OpId, hash: Hash)
      requires Valid() && Enabled(State(), Action.Send(id, hash))
      modifies this
      ensures Valid() && State() == Next(old(State()), Action.Send(id, hash))
    {
      trace := Then(trace, Action.Send(id, hash));
      sent := sent + {hash};
    }

    method OpenFrom(id: OpId, position: PosId, hash: Hash, eth: nat, gas: nat, tokens: nat)
      requires Valid() && Enabled(State(), Action.OpenFrom(id, position, hash, eth, gas, tokens))
      modifies this, positions
      ensures Valid() && State() == Next(old(State()), Action.OpenFrom(id, position, hash, eth, gas, tokens))
    {
      trace := Then(trace, Action.OpenFrom(id, position, hash, eth, gas, tokens));
      var p := positions.OpenPosition(position, Some(hash), eth, gas, tokens);
    }

    method SellFrom(id: OpId, tokens: nat, eth: nat, gas: nat, hash: Hash, at: nat)
      returns (applied: Option<AppliedExit>)
      requires Valid() && Enabled(State(), Action.SellFrom(id, tokens, eth, gas, hash, at))
      modifies this, positions
      ensures Valid() && State() == Next(old(State()), Action.SellFrom(id, tokens, eth, gas, hash, at))
      ensures var spec := old(journal.operations)[id].spec; match Find(old(positions.list), spec.positionId)
        case None => applied.None?
        case Some(i) =>
          i < |old(positions.list)| && applied == Some(ExitReport(old(positions.list)[i], tokens, eth, gas))
    {
      var spec := journal.operations[id].spec;
      trace := Then(trace, Action.SellFrom(id, tokens, eth, gas, hash, at));
      applied := positions.SellFrom(spec.positionId, tokens, eth, gas, spec.reason, Some(hash), at);
    }

    method Charge(id: OpId, gas: nat) returns (found: bool)
      requires Valid() && Enabled(State(), Action.Charge(id, gas))
      modifies this, positions
      ensures Valid() && State() == Next(old(State()), Action.Charge(id, gas))
      ensures found <==> Find(old(positions.list), old(journal.operations)[id].spec.positionId).Some?
    {
      var spec := journal.operations[id].spec;
      trace := Then(trace, Action.Charge(id, gas));
      found := positions.ChargeOverhead(spec.positionId, id, gas);
    }

    method Flush()
      requires Valid()
      modifies this, positions
      ensures Valid() && State() == Next(old(State()), Action.Flush)
    {
      trace := Then(trace, Action.Flush);
      positions.Flush();
    }

    /** The process dies and starts again from what was committed. */
    method Restart()
      requires Valid()
      modifies this, positions
      ensures Valid() && State() == Next(old(State()), Crash)
    {
      trace := Then(trace, Crash);
      positions.Reload();
    }
  }
}
