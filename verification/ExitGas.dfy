/**
 * The gas of an exit that recovery finds again (crates/bodkin/src/trade/journal.rs): a sale is reapplied with all the
 * gas of its operation, whatever was charged for that operation before.
 */
module ExitGas {
  import opened Common
  import opened Positions
  import opened Journal
  import opened Protocol
  import opened Safety
  import opened Sales
  import opened Exits
  import opened Recovery

  /** The view confirms exactly one sale of this exit; it filled, and its position still holds something. */
  predicate SaleStands(w: World, id: OpId, view: ChainView) {
    && id in w.ops && w.ops[id].spec.ExitOf?
    && var sales := SalesIn(Refreshed(w.ops[id], view).txs);
       && |sales| == 1 && sales[0].hash in view.receipts
       && var fill := SaleFill(sales[0].step, view.receipts[sales[0].hash]);
          fill.Some? && StillHolds(w.book, w.ops[id].spec.positionId, fill.value.tokens)
  }

  lemma SaleLeavesALeg(w: World, id: OpId, view: ChainView, at: nat)
    requires id in w.ops && w.ops[id].state.Pending? && SaleStands(w, id, view)
    requires !HasLeg(w.book, HashesOf(w.ops[id].txs))
    ensures HasLeg(AfterRecovery(w, id, view, at).book, HashesOf(w.ops[id].txs))
  {
    var v := AfterRefresh(w, id, view);
    var sale := SalesIn(v.ops[id].txs)[0];
    RefreshHashes(w.ops[id], view);
    SalesAreStaged(v.ops[id].txs);
    assert sale in SalesIn(v.ops[id].txs);
    var fill := SaleFill(sale.step, view.receipts[sale.hash]);
    SaleLegShows(v, id, fill.value, OperationGas(v.ops[id].txs), sale.hash, at);
    assert AfterRecovery(w, id, view, at) == AfterSale(v, id, fill.value, OperationGas(v.ops[id].txs), sale.hash, at);
  }

  lemma SaleLegShows(v: World, id: OpId, fill: Fill, gas: nat, hash: Hash, at: nat)
    requires id in v.ops && v.ops[id].spec.ExitOf? && hash in HashesOf(v.ops[id].txs)
    requires StillHolds(v.book, v.ops[id].spec.positionId, fill.tokens)
    ensures HasLeg(AfterSale(v, id, fill, gas, hash, at).book, HashesOf(v.ops[id].txs))
  {
    var f := Find(v.book, v.ops[id].spec.positionId).value;
    assert LegAt(AfterSale(v, id, fill, gas, hash, at).book, HashesOf(v.ops[id].txs), f, |v.book[f].exits|);
  }

  lemma NoSaleLeavesNone(w: World, id: OpId, view: ChainView, at: nat)
    requires id in w.ops && w.ops[id].state.Pending? && w.ops[id].spec.ExitOf? && !SaleStands(w, id, view)
    requires !HasLeg(w.book, HashesOf(w.ops[id].txs))
    ensures !HasLeg(AfterRecovery(w, id, view, at).book, HashesOf(w.ops[id].txs))
  {
    var v := AfterRefresh(w, id, view);
    var pos, gas, b := v.ops[id].spec.positionId, OperationGas(v.ops[id].txs), AfterRecovery(w, id, view, at).book;
    RefreshHashes(w.ops[id], view);
    assert b == w.book || b == ChargedBook(w.book, pos, id, gas);
    if Find(w.book, pos).Some? {
      FirstFound(w.book, pos);
    }
    assert forall i: nat, k: nat :: LegAt(b, HashesOf(w.ops[id].txs), i, k) ==>
      LegAt(w.book, HashesOf(w.ops[id].txs), i, k);
  }

  lemma SaleChargesNothing(w: World, id: OpId, view: ChainView, at: nat)
    requires id in w.ops && w.ops[id].state.Pending? && SaleStands(w, id, view)
    requires !HasLeg(w.book, HashesOf(w.ops[id].txs))
    ensures IsCharged(AfterRecovery(w, id, view, at).book, id) <==> IsCharged(w.book, id)
  {
    var b, pos := AfterRecovery(w, id, view, at).book, w.ops[id].spec.positionId;
    RefreshHashes(w.ops[id], view);
    FirstFound(w.book, pos);
    assert forall i: nat :: ChargedAt(b, id, i) <==> ChargedAt(w.book, id, i);
  }

  /** Recovery makes an exit pay twice exactly when it was charged before and its sale stands now. */
  lemma RecoveryCountsTwice(w: World, id: OpId, view: ChainView, at: nat)
    requires id in w.ops && w.ops[id].state.Pending? && w.ops[id].spec.ExitOf?
    requires !HasLeg(w.book, HashesOf(w.ops[id].txs))
    ensures var v := AfterRecovery(w, id, view, at);
      id in v.ops && (CountedTwice(v, id) <==> IsCharged(w.book, id) && SaleStands(w, id, view))
  {
    RecoveryIsLocal(w, id, view, at);
    RefreshHashes(w.ops[id], view);
    if SaleStands(w, id, view) {
      SaleLeavesALeg(w, id, view, at);
      SaleChargesNothing(w, id, view, at);
    } else {
      NoSaleLeavesNone(w, id, view, at);
    }
  }

  // ---- It happens ------------------------------------------------------------------------------------

  /** A sale that reverted and was charged; the process died before the operation was marked failed. */
  function RevertedSale(): Operation {
    Operation(CHAIN_ID, 3, 0, Pending, ExitOf(PosId(1, 1), 1, 2, "manual"),
              [TxRecord(CurveSell, 7, 1, Reverted, Some(5), Some(9), Some(21_000))])
  }

  function ChargedWorld(): World {
    var p := AfterOverhead(Opened(PosId(1, 1), None, 100, 0, 10), OpId(0, 0), 21_000);
    World(map[OpId(0, 0) := RevertedSale()], [p], [p], {1})
  }

  /** After a reorganisation the same transaction is mined again, and sells. */
  function SoldView(): ChainView {
    ChainView(8, 8, 8, 0, map[1 := Receipt(Some(1), Some(true), Some(6), Some(60), 30_000, 0, 0, 10, 7, None, {})],
              map[6 := 60], map[])
  }

  /** The same with nothing charged yet. */
  function UnchargedWorld(): World {
    var p := Opened(PosId(1, 1), None, 100, 0, 10);
    World(map[OpId(0, 0) := RevertedSale()], [p], [p], {1})
  }

  lemma UnchargedWorldIsSound()
    ensures Inv(UnchargedWorld()) && Enabled(UnchargedWorld(), Charge(OpId(0, 0), 21_000))
  {
    var w := UnchargedWorld();
    ChargeIsEnabled(w, OpId(0, 0));
    LoneExitIsSound(w, OpId(0, 0), RevertedSale(), w.book[0]);
  }

  lemma TwoStepsAway()
    ensures ChargedWorld() == Next(Next(UnchargedWorld(), Charge(OpId(0, 0), 21_000)), Flush)
  {
    FindIsFirst(UnchargedWorld().book, PosId(1, 1));
  }

  /** From there it is two steps: the gas is charged, and flushed. */
  lemma ChargedWorldIsSound()
    ensures Inv(ChargedWorld())
  {
    UnchargedWorldIsSound();
    ChargeKeepsInv(UnchargedWorld(), Charge(OpId(0, 0), 21_000));
    CommitKeepsInv(Next(UnchargedWorld(), Charge(OpId(0, 0), 21_000)));
    TwoStepsAway();
  }

  lemma ChargedWorldShows()
    ensures IsCharged(ChargedWorld().book, OpId(0, 0)) && !HasLeg(ChargedWorld().book, HashesOf(RevertedSale().txs))
  {
    assert ChargedAt(ChargedWorld().book, OpId(0, 0), 0);
  }

  lemma ChargeIsEnabled(w: World, id: OpId)
    requires w.ops == map[id := RevertedSale()] && |w.book| == 1 && w.book[0].exits == []
    ensures Enabled(w, Charge(id, 21_000)) && HashesOf(RevertedSale().txs) == {1}
  {
    var txs := RevertedSale().txs;
    assert txs[..0] == [] && OperationGas([]) == 0;
    assert OperationGas(txs) == 21_000;
  }

  lemma SoldRecord()
    ensures var now := Refreshed(RevertedSale(), SoldView());
      && now.txs == [TxRecord(CurveSell, 7, 1, Confirmed, Some(6), Some(60), Some(30_000))]
      && SalesIn(now.txs) == now.txs && OperationGas(now.txs) == 30_000 && MinedGas(now.txs) == 30_000
  {
    var now, t := Refreshed(RevertedSale(), SoldView()), TxRecord(CurveSell, 7, 1, Confirmed, Some(6), Some(60),
                                                                  Some(30_000));
    assert now.txs == [t] && now.txs[..0] == [];
    assert SalesIn([]) == [] && OperationGas([]) == 0 && MinedGas([]) == 0;
  }

  /** From a sound state: the position pays 51000 wei for 30000 that were mined. */
  lemma ExitPaysTwice(at: nat)
    ensures var w, id, view := ChargedWorld(), OpId(0, 0), SoldView();
      var v := AfterRecovery(w, id, view, at);
      && Inv(w) && CountedTwice(v, id) && v.ops[id].state.Applied? && MinedGas(v.ops[id].txs) == 30_000
      && |v.book| == 1 && Positions.ExitGas(v.book[0]) == 51_000
  {
    var w, id, view := ChargedWorld(), OpId(0, 0), SoldView();
    ChargedWorldIsSound();
    ChargedWorldShows();
    SoldRecord();
    FindIsFirst(w.book, PosId(1, 1));
    RecoveryCountsTwice(w, id, view, at);
    SoldOnce(w.book[0], at);
    ChargedSaleIsApplied(at);
  }

  lemma ChargedSaleIsApplied(at: nat)
    ensures var v := AfterRefresh(ChargedWorld(), OpId(0, 0), SoldView());
      && v.ops[OpId(0, 0)] == Refreshed(RevertedSale(), SoldView())
      && AfterRecovery(ChargedWorld(), OpId(0, 0), SoldView(), at)
        == AfterSale(v, OpId(0, 0), Fill(10, 7), 30_000, 1, at)
  {
    var w, id, view := ChargedWorld(), OpId(0, 0), SoldView();
    ChargedWorldShows();
    SoldRecord();
    RefreshHashes(RevertedSale(), view);
    FindIsFirst(w.book, PosId(1, 1));
    var v := AfterRefresh(w, id, view);
    assert v.ops[id] == Refreshed(RevertedSale(), view) && v.book == w.book;
  }

  lemma SoldOnce(p: Position, at: nat)
    requires p == ChargedWorld().book[0]
    ensures Positions.ExitGas(AfterExit(p, 10, 7, 30_000, "manual", Some(1), at)) == 51_000
  {
    ExitsStep([], Exit(at, 10, 7, 30_000, "manual", Some(1)));
    assert [] + [Exit(at, 10, 7, 30_000, "manual", Some(1))] == [Exit(at, 10, 7, 30_000, "manual", Some(1))];
  }
}
