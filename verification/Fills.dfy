/** What a burst of entry transactions bought, as the engine reads it live and as recovery reads it back. */
module Fills {
  import opened Common
  import opened Positions
  import opened Journal
  import opened Submit

  /** A confirmed transaction and its receipt. */
  datatype Landed = Landed(hash: Hash, receipt: Receipt)

  /** `zeroNet`: some transaction bought tokens for no net ETH; it is not among the fills. */
  datatype Fills = Fills(count: nat, hash: Option<Hash>, tokens: nat, eth: nat, zeroNet: bool)

  function NetEth(value: nat, r: Receipt): nat {
    Monus(value, r.refundedEth)
  }

  function WithFill(f: Fills, l: Landed, value: nat): Fills {
    if l.receipt.boughtTokens == 0 then f
    else if NetEth(value, l.receipt) == 0 then f.(zeroNet := true)
    else Fills(f.count + 1, if f.hash.Some? then f.hash else Some(l.hash), f.tokens + l.receipt.boughtTokens,
               f.eth + NetEth(value, l.receipt), f.zeroNet)
  }

  function FillsOf(ls: seq<Landed>, value: nat): Fills {
    if ls == [] then Fills(0, None, 0, 0, false) else WithFill(FillsOf(ls[..|ls| - 1], value), ls[|ls| - 1], value)
  }

  /** The confirmed ones among the final states, in order. */
  function LandedOf(finals: seq<TxFinal>): seq<Landed> {
    if finals == [] then [] else
      var f := finals[|finals| - 1];
      LandedOf(finals[..|finals| - 1]) + (if f.FinalConfirmed? then [Landed(f.hash, f.receipt)] else [])
  }

  function GasOfFinals(finals: seq<TxFinal>): nat {
    if finals == [] then 0 else GasOfFinals(finals[..|finals| - 1]) + FinalGas(finals[|finals| - 1])
  }

  /** The confirmed entry transactions of an operation with the receipts the chain has for them, in order. */
  function LandedIn(txs: seq<TxRecord>, view: ChainView): seq<Landed> {
    if txs == [] then [] else
      var t := txs[|txs| - 1];
      LandedIn(txs[..|txs| - 1], view)
      + (if t.state.Confirmed? && t.step.EntryStep? && t.hash in view.receipts
         then [Landed(t.hash, view.receipts[t.hash])] else [])
  }

  lemma FillsStep(ls: seq<Landed>, l: Landed, value: nat)
    ensures FillsOf(ls + [l], value) == WithFill(FillsOf(ls, value), l, value)
  {
    assert (ls + [l])[..|ls|] == ls;
  }

  lemma LandedStep(finals: seq<TxFinal>, f: TxFinal)
    ensures LandedOf(finals + [f]) == LandedOf(finals) + (if f.FinalConfirmed? then [Landed(f.hash, f.receipt)] else [])
    ensures GasOfFinals(finals + [f]) == GasOfFinals(finals) + FinalGas(f)
  {
    assert (finals + [f])[..|finals|] == finals;
  }

  lemma {:induction false} FillsHaveAHash(ls: seq<Landed>, value: nat)
    ensures var f := FillsOf(ls, value);
      && (f.count > 0 <==> f.hash.Some?)
      && (f.count > 0 ==> f.tokens > 0 && f.eth > 0 && exists l :: l in ls && l.hash == f.hash.value)
  {
    if ls != [] {
      var front, last := ls[..|ls| - 1], ls[|ls| - 1];
      FillsHaveAHash(front, value);
      assert forall l :: l in front ==> l in ls;
      assert last in ls;
    }
  }

  // ---- What the fills add up to ----------------------------------------------------------------------

  /** The transactions that bought tokens. */
  function Buys(ls: seq<Landed>): seq<Landed> {
    if ls == [] then [] else
      Buys(ls[..|ls| - 1]) + (if ls[|ls| - 1].receipt.boughtTokens > 0 then [ls[|ls| - 1]] else [])
  }

  /** Those of them that were not refunded in full. */
  function PaidBuys(ls: seq<Landed>, value: nat): seq<Landed> {
    if ls == [] then [] else
      var l := ls[|ls| - 1];
      PaidBuys(ls[..|ls| - 1], value)
        + (if l.receipt.boughtTokens > 0 && l.receipt.refundedEth < value then [l] else [])
  }

  function Bought(ls: seq<Landed>): nat {
    if ls == [] then 0 else Bought(ls[..|ls| - 1]) + ls[|ls| - 1].receipt.boughtTokens
  }

  function Refunds(ls: seq<Landed>): nat {
    if ls == [] then 0 else Refunds(ls[..|ls| - 1]) + ls[|ls| - 1].receipt.refundedEth
  }

  /** A transaction that bought tokens and was refunded in full. */
  ghost predicate SomeFree(ls: seq<Landed>, value: nat) {
    exists l :: l in ls && l.receipt.boughtTokens > 0 && l.receipt.refundedEth >= value
  }

  /**
   * The fills are the paid buys, the first of them naming the position: their tokens, and the value of each less its
   * refund.
   */
  ghost predicate AddUp(f: Fills, paid: seq<Landed>, value: nat) {
    && f.count == |paid| && f.hash == (if paid == [] then None else Some(paid[0].hash))
    && f.tokens == Bought(paid) && f.eth + Refunds(paid) == value * |paid|
  }

  lemma OneMore(ls: seq<Landed>, l: Landed, value: nat)
    ensures Bought(ls + [l]) == Bought(ls) + l.receipt.boughtTokens
    ensures Refunds(ls + [l]) == Refunds(ls) + l.receipt.refundedEth
    ensures value * |ls + [l]| == value * |ls| + value
  {
    assert (ls + [l])[..|ls|] == ls;
    assert value * (|ls| + 1) == value * |ls| + value;
  }

  lemma OneMoreAddsUp(f: Fills, paid: seq<Landed>, l: Landed, value: nat)
    requires AddUp(f, paid, value)
    ensures l.receipt.boughtTokens > 0 && l.receipt.refundedEth < value ==>
      AddUp(WithFill(f, l, value), paid + [l], value) && (WithFill(f, l, value).zeroNet <==> f.zeroNet)
    ensures !(l.receipt.boughtTokens > 0 && l.receipt.refundedEth < value) ==>
      && AddUp(WithFill(f, l, value), paid + [], value)
      && (WithFill(f, l, value).zeroNet <==> f.zeroNet || l.receipt.boughtTokens > 0)
  {
    assert paid + [] == paid;
    OneMore(paid, l, value);
  }

  lemma {:induction false} FillsAddUp(ls: seq<Landed>, value: nat)
    ensures AddUp(FillsOf(ls, value), PaidBuys(ls, value), value)
    ensures FillsOf(ls, value).zeroNet <==> SomeFree(ls, value)
  {
    if ls != [] {
      var front, l := ls[..|ls| - 1], ls[|ls| - 1];
      FillsAddUp(front, value);
      OneMoreAddsUp(FillsOf(front, value), PaidBuys(front, value), l, value);
      assert ls == front + [l];
    }
  }

  lemma NothingMore(ls: seq<Landed>)
    ensures ls + [] == ls
  {
  }

  /** If nothing is refunded beyond its value, the same holds over all the buys: a free one adds nothing. */
  lemma {:induction false} RefundsAreTakenOff(ls: seq<Landed>, value: nat)
    requires forall l :: l in ls ==> l.receipt.refundedEth <= value
    ensures FillsOf(ls, value).eth + Refunds(Buys(ls)) == value * |Buys(ls)|
  {
    if ls != [] {
      var front, l := ls[..|ls| - 1], ls[|ls| - 1];
      assert l in ls && forall m :: m in front ==> m in ls;
      RefundsAreTakenOff(front, value);
      OneMore(Buys(front), l, value);
      NothingMore(Buys(front));
    }
  }

  /** One more position: what the paid buys bought, for their value less their refunds, named by the first of them. */
  ghost predicate OneMorePosition(before: seq<Position>, after: seq<Position>, position: PosId, ls: seq<Landed>,
                                  value: nat, gas: nat)
  {
    var paid := PaidBuys(ls, value);
    && paid != [] && |after| == |before| + 1 && after[..|before|] == before
    && var p := after[|before|];
       && p.id == position && p.entryTx == Some(paid[0].hash) && p.tokens == Bought(paid)
       && p.entryEth + Refunds(paid) == value * |paid|
       && p.basisEth == p.peakEth == p.lastEth == p.entryEth && p.basisGasWei == p.entryGasWei == gas
       && p.overheadGasWei == 0 && p.overheadOperations == [] && p.exits == [] && !p.closed
  }

  lemma OpenedIsOneMore(book: seq<Position>, position: PosId, ls: seq<Landed>, value: nat, gas: nat)
    ensures FillsOf(ls, value).count > 0 <==> PaidBuys(ls, value) != []
    ensures var f := FillsOf(ls, value);
      f.count > 0 ==>
        OneMorePosition(book, book + [Opened(position, f.hash, f.eth, gas, f.tokens)], position, ls, value, gas)
  {
    FillsAddUp(ls, value);
    var f := FillsOf(ls, value);
    assert (book + [Opened(position, f.hash, f.eth, gas, f.tokens)])[..|book|] == book;
  }
}
