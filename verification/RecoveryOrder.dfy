/**
 * When the order in which operations are recovered matters (crates/bodkin/src/trade/journal.rs): the journal lists them
 * by id, and an exit may come before the entry whose position it sells.
 */
module RecoveryOrder {
  import opened Common
  import opened Positions
  import opened Journal
  import opened Protocol
  import opened Submit
  import opened Sales
  import opened Fills
  import opened Recovery
  import opened Startup

  // ---- What one operation does to the book ---------------------------------------------------------

  /** The position recovery gives a refreshed entry. */
  function PositionFor(op: Operation, view: ChainView): Position
    requires op.spec.Entry?
  {
    var fills := FillsOf(LandedIn(op.txs, view), op.spec.value);
    Opened(EntryId(op), fills.hash, fills.eth, OperationGas(op.txs), fills.tokens)
  }

  function EntryId(op: Operation): PosId
    requires op.spec.Entry?
  {
    PosId(op.spec.token, op.createdAt / 1000)
  }

  /** Recovery opens a position for this entry. */
  ghost predicate Opens(w: World, id: OpId, view: ChainView) {
    && id in w.ops && w.ops[id].state.Pending? && w.ops[id].spec.Entry?
    && !HasEntry(w.book, HashesOf(w.ops[id].txs))
    && var fills := FillsOf(LandedIn(Refreshed(w.ops[id], view).txs, view), w.ops[id].spec.value);
       !fills.zeroNet && fills.count > 0
  }

  lemma EntryBook(w: World, id: OpId, view: ChainView, at: nat)
    requires id in w.ops && w.ops[id].state.Pending? && w.ops[id].spec.Entry?
    ensures AfterRecovery(w, id, view, at).book
      == if Opens(w, id, view) then w.book + [PositionFor(Refreshed(w.ops[id], view), view)] else w.book
  {
    RefreshHashes(w.ops[id], view);
  }

  /** A position with at most one leg more, which is the operation's own. */
  predicate OwnLegOnly(p: Position, q: Position, hs: set<Hash>) {
    && q.id == p.id && q.entryTx == p.entryTx
    && (q.exits == p.exits
        || (|q.exits| == |p.exits| + 1 && q.exits[..|p.exits|] == p.exits
            && q.exits[|p.exits|].tx.Some? && q.exits[|p.exits|].tx.value in hs))
  }

  lemma ChargeIsOwn(book: seq<Position>, position: PosId, id: OpId, gas: nat, hs: set<Hash>)
    ensures ChangesOne(book, ChargedBook(book, position, id, gas), Find(book, position), hs)
  {
    if Find(book, position).Some? {
      FirstFound(book, position);
    }
  }

  lemma SaleIsOwn(book: seq<Position>, position: PosId, tokens: nat, eth: nat, gas: nat, reason: string, hash: Hash,
                  at: nat, hs: set<Hash>)
    requires hash in hs
    ensures ChangesOne(book, Sold(book, position, tokens, eth, gas, reason, hash, at), Find(book, position), hs)
  {
    if Find(book, position).Some? {
      FirstFound(book, position);
    }
  }

  lemma SameIsOwn(book: seq<Position>, position: PosId, hs: set<Hash>)
    ensures ChangesOne(book, book, Find(book, position), hs)
  {
    if Find(book, position).Some? {
      FirstFound(book, position);
    }
  }

  /** At most the position at `f` changed, by at most one leg of these hashes. */
  predicate ChangesOne(book: seq<Position>, now: seq<Position>, f: Option<nat>, hs: set<Hash>) {
    if f.None? then now == book else
      && f.value < |book| == |now| && now == book[f.value := now[f.value]]
      && OwnLegOnly(book[f.value], now[f.value], hs)
  }

  /** An exit touches the position it names, if there is one, and nothing else. */
  lemma ExitBook(w: World, id: OpId, view: ChainView, at: nat)
    requires id in w.ops && w.ops[id].state.Pending? && w.ops[id].spec.ExitOf?
    ensures ChangesOne(w.book, AfterRecovery(w, id, view, at).book, Find(w.book, w.ops[id].spec.positionId),
                       HashesOf(w.ops[id].txs))
  {
    var v := AfterRefresh(w, id, view);
    var op := v.ops[id];
    var pos, hs, sales := op.spec.positionId, HashesOf(op.txs), SalesIn(op.txs);
    RefreshHashes(w.ops[id], view);
    SameIsOwn(w.book, pos, hs);
    ChargeIsOwn(w.book, pos, id, OperationGas(op.txs), hs);
    if |sales| == 1 {
      SalesAreStaged(op.txs);
      assert sales[0] in sales;
      SaleBook(v, id, sales[0], view, at);
    }
  }

  lemma SaleBook(v: World, id: OpId, sale: TxRecord, view: ChainView, at: nat)
    requires id in v.ops && v.ops[id].spec.ExitOf? && sale.hash in HashesOf(v.ops[id].txs)
    ensures ChangesOne(v.book, SaleAfterRecovery(v, id, sale, view, at).book, Find(v.book, v.ops[id].spec.positionId),
                       HashesOf(v.ops[id].txs))
  {
    var op := v.ops[id];
    SameIsOwn(v.book, op.spec.positionId, HashesOf(op.txs));
    var fill := if sale.hash in view.receipts then SaleFill(sale.step, view.receipts[sale.hash]) else None;
    if fill.Some? {
      SaleIsOwn(v.book, op.spec.positionId, fill.value.tokens, fill.value.eth, OperationGas(op.txs), op.spec.reason,
                sale.hash, at, HashesOf(op.txs));
    }
  }

  lemma OthersBook(w: World, id: OpId, view: ChainView, at: nat)
    requires id in w.ops && !w.ops[id].state.Failed? && (w.ops[id].state.Applied? || w.ops[id].spec.Command?)
    ensures AfterRecovery(w, id, view, at).book == w.book
  {
  }

  /** Recovery shows nothing new of anybody else. */
  lemma OwnEvidenceOnly(w: World, id: OpId, view: ChainView, at: nat, hs: set<Hash>)
    requires id in w.ops && !w.ops[id].state.Failed? && HashesOf(w.ops[id].txs) !! hs
    ensures var b := AfterRecovery(w, id, view, at).book;
      (HasEntry(b, hs) <==> HasEntry(w.book, hs)) && (HasLeg(b, hs) <==> HasLeg(w.book, hs))
  {
    var b := AfterRecovery(w, id, view, at).book;
    if w.ops[id].state.Applied? || w.ops[id].spec.Command? {
      OthersBook(w, id, view, at);
    } else if w.ops[id].spec.Entry? {
      EntryBook(w, id, view, at);
      if Opens(w, id, view) {
        OpenedIsItsOwn(w.ops[id], view);
        OneMoreShows(w.book, PositionFor(Refreshed(w.ops[id], view), view), hs);
      }
    } else {
      ExitBook(w, id, view, at);
      var f := Find(w.book, w.ops[id].spec.positionId);
      if f.Some? {
        OwnLegShows(w.book, b, f.value, HashesOf(w.ops[id].txs), hs);
      }
    }
  }

  lemma OpenedIsItsOwn(op: Operation, view: ChainView)
    requires op.spec.Entry? && FillsOf(LandedIn(Refreshed(op, view).txs, view), op.spec.value).count > 0
    ensures var p := PositionFor(Refreshed(op, view), view);
      p.entryTx.Some? && p.entryTx.value in HashesOf(op.txs) && p.exits == [] && p.tokens > 0
  {
    var now := Refreshed(op, view);
    RefreshHashes(op, view);
    FillsHaveAHash(LandedIn(now.txs, view), op.spec.value);
    LandedAreStaged(now.txs, view);
  }

  lemma OneMoreShows(book: seq<Position>, p: Position, hs: set<Hash>)
    requires p.exits == [] && p.entryTx.Some? && p.entryTx.value !in hs
    ensures HasEntry(book + [p], hs) <==> HasEntry(book, hs)
    ensures HasLeg(book + [p], hs) <==> HasLeg(book, hs)
  {
    forall i: nat ensures EntryAt(book + [p], hs, i) <==> EntryAt(book, hs, i) {
    }
    forall i: nat, k: nat ensures LegAt(book + [p], hs, i, k) <==> LegAt(book, hs, i, k) {
    }
  }

  lemma OwnLegShows(book: seq<Position>, now: seq<Position>, j: nat, own: set<Hash>, hs: set<Hash>)
    requires j < |book| == |now| && now == book[j := now[j]] && OwnLegOnly(book[j], now[j], own) && own !! hs
    ensures HasEntry(now, hs) <==> HasEntry(book, hs)
    ensures HasLeg(now, hs) <==> HasLeg(book, hs)
  {
    forall i: nat ensures EntryAt(now, hs, i) <==> EntryAt(book, hs, i) {
    }
    forall i: nat, k: nat ensures LegAt(now, hs, i, k) <==> LegAt(book, hs, i, k) {
      if i == j && k < |book[j].exits| {
        assert now[j].exits[k] == now[j].exits[..|book[j].exits|][k];
      }
    }
  }

  // ---- What an operation depends on ----------------------------------------------------------------

  /** The outcome of this exit depends on whether its position is there. */
  ghost predicate Needs(w: World, id: OpId, view: ChainView) {
    && id in w.ops && w.ops[id].state.Pending? && w.ops[id].spec.ExitOf?
    && !HasLeg(w.book, HashesOf(w.ops[id].txs))
    && var op := Refreshed(w.ops[id], view);
       var sales := SalesIn(op.txs);
       || (|sales| == 1 && sales[0].hash in view.receipts
           && SaleFill(sales[0].step, view.receipts[sales[0].hash]).Some?)
       || (|sales| == 0 && !HasAmbiguous(op) && !TookEffect(op) && OperationGas(op.txs) > 0)
  }

  /** The operation is as it was, and the book shows the same of it. */
  ghost predicate SameToSee(w: World, v: World, id: OpId) {
    && id in w.ops && id in v.ops && w.ops[id] == v.ops[id]
    && (HasEntry(v.book, HashesOf(w.ops[id].txs)) <==> HasEntry(w.book, HashesOf(w.ops[id].txs)))
    && (HasLeg(v.book, HashesOf(w.ops[id].txs)) <==> HasLeg(w.book, HashesOf(w.ops[id].txs)))
  }

  lemma EntryDepends(w: World, v: World, id: OpId, view: ChainView, at: nat)
    requires SameToSee(w, v, id) && w.ops[id].state.Pending? && w.ops[id].spec.Entry?
    ensures id in AfterRecovery(w, id, view, at).ops && id in AfterRecovery(v, id, view, at).ops
    ensures AfterRecovery(v, id, view, at).ops[id] == AfterRecovery(w, id, view, at).ops[id]
    ensures Opens(v, id, view) <==> Opens(w, id, view)
  {
    RefreshHashes(w.ops[id], view);
  }

  lemma OthersDepend(w: World, v: World, id: OpId, view: ChainView, at: nat)
    requires id in w.ops && id in v.ops && w.ops[id] == v.ops[id] && !w.ops[id].state.Failed?
    requires w.ops[id].state.Applied? || w.ops[id].spec.Command?
    ensures id in AfterRecovery(w, id, view, at).ops && id in AfterRecovery(v, id, view, at).ops
    ensures AfterRecovery(v, id, view, at).ops[id] == AfterRecovery(w, id, view, at).ops[id]
  {
  }

  /** An exit that finds the same position ends the same way and does the same to it. */
  lemma ExitDepends(w: World, v: World, id: OpId, view: ChainView, at: nat)
    requires SameToSee(w, v, id) && w.ops[id].state.Pending? && w.ops[id].spec.ExitOf?
    requires var f := Find(w.book, w.ops[id].spec.positionId);
      && Find(v.book, w.ops[id].spec.positionId) == f
      && (f.Some? ==> f.value < |w.book| && f.value < |v.book| && v.book[f.value] == w.book[f.value])
    ensures id in AfterRecovery(w, id, view, at).ops && id in AfterRecovery(v, id, view, at).ops
    ensures AfterRecovery(v, id, view, at).ops[id] == AfterRecovery(w, id, view, at).ops[id]
    ensures var f := Find(w.book, w.ops[id].spec.positionId);
      f.Some? ==>
        && f.value < |AfterRecovery(w, id, view, at).book| && f.value < |AfterRecovery(v, id, view, at).book|
        && AfterRecovery(v, id, view, at).book[f.value] == AfterRecovery(w, id, view, at).book[f.value]
  {
    RefreshHashes(w.ops[id], view);
  }

  /** An exit that does not need its position ends the same way with or without it, and leaves the book alone. */
  lemma ExitNeedsNothing(w: World, v: World, id: OpId, view: ChainView, at: nat)
    requires SameToSee(w, v, id) && w.ops[id].state.Pending? && w.ops[id].spec.ExitOf?
    requires Find(w.book, w.ops[id].spec.positionId).None? && !Needs(w, id, view)
    ensures id in AfterRecovery(w, id, view, at).ops && id in AfterRecovery(v, id, view, at).ops
    ensures AfterRecovery(v, id, view, at).ops[id] == AfterRecovery(w, id, view, at).ops[id]
    ensures AfterRecovery(v, id, view, at).book == v.book
  {
    RefreshHashes(w.ops[id], view);
  }

  // ---- Each as if alone -----------------------------------------------------------------------------

  /** An entry would open the very position an exit needs and does not find. */
  ghost predicate Awaits(w: World, a: OpId, b: OpId, view: ChainView) {
    && Opens(w, a, view) && Needs(w, b, view)
    && w.ops[b].spec.positionId == EntryId(w.ops[a])
    && Find(w.book, w.ops[b].spec.positionId).None?
  }

  /** The positions a list of entries opens, in its order. */
  ghost function OpenedBy(w: World, order: seq<OpId>, view: ChainView): seq<Position> {
    if order == [] then [] else
      var id := order[|order| - 1];
      OpenedBy(w, order[..|order| - 1], view)
        + (if Opens(w, id, view) then [PositionFor(Refreshed(w.ops[id], view), view)] else [])
  }

  predicate Touches(w: World, id: OpId, i: nat) {
    && id in w.ops && w.ops[id].state.Pending? && w.ops[id].spec.ExitOf?
    && Find(w.book, w.ops[id].spec.positionId) == Some(i)
  }

  /** Operations recovery may be asked to recover together: one wallet's, none of them failed. */
  ghost predicate OneWallet(w: World, order: seq<OpId>, me: Address) {
    forall id :: id in order ==> id in w.ops && !w.ops[id].state.Failed? && w.ops[id].wallet == me
  }

  /** Each operation, and each position that was there, ends as if that operation alone had been recovered. */
  ghost predicate AsIfAlone(w: World, v: World, order: seq<OpId>, view: ChainView, at: nat) {
    && v.sent == w.sent && v.ops.Keys == w.ops.Keys
    && (forall id :: id in order && id in w.ops ==>
          id in AfterRecovery(w, id, view, at).ops && v.ops[id] == AfterRecovery(w, id, view, at).ops[id])
    && (forall id :: id in w.ops && id !in order ==> v.ops[id] == w.ops[id])
    && |v.book| >= |w.book| && v.book[|w.book|..] == OpenedBy(w, order, view)
    && (forall i: nat, id :: i < |w.book| && id in order && Touches(w, id, i) ==>
          i < |AfterRecovery(w, id, view, at).book| && v.book[i] == AfterRecovery(w, id, view, at).book[i])
    && (forall i: nat :: i < |w.book| && Untouched(w, order, i) ==> v.book[i] == w.book[i])
  }

  predicate Untouched(w: World, order: seq<OpId>, i: nat) {
    forall id :: id in order ==> !Touches(w, id, i)
  }

  /** Two exits of one wallet never touch the same position. */
  lemma TouchedOnce(w: World, a: OpId, b: OpId, i: nat)
    requires Inv(w) && Touches(w, a, i) && Touches(w, b, i) && w.ops[a].wallet == w.ops[b].wallet
    ensures a == b
  {
    FirstFound(w.book, w.ops[a].spec.positionId);
    FirstFound(w.book, w.ops[b].spec.positionId);
    assert Rivals(w.ops[a], w.ops[b]);
  }

  /** Until its turn, the book shows the same of an operation as at the start. */
  lemma {:induction false} EvidenceStays(w: World, order: seq<OpId>, me: Address, id: OpId, view: ChainView, at: nat)
    requires Inv(w) && OneWallet(w, order, me) && NoRepeats(order) && id in w.ops && id !in order
    ensures SameToSee(w, RecoverAll(w, order, view, at), id)
  {
    if order != [] {
      var front, last := order[..|order| - 1], order[|order| - 1];
      assert order == front + [last] && last !in front;
      EvidenceStays(w, front, me, id, view, at);
      OthersStay(w, front, last, view, at);
      EvidenceStep(w, RecoverAll(w, front, view, at), last, id, view, at);
      RecoverOneMore(w, front, last, view, at);
    }
  }

  lemma EvidenceStep(w: World, v: World, last: OpId, id: OpId, view: ChainView, at: nat)
    requires Inv(w) && SameToSee(w, v, id) && last in w.ops && last in v.ops && v.ops[last] == w.ops[last] && last != id
    requires !w.ops[last].state.Failed?
    ensures SameToSee(w, AfterRecovery(v, last, view, at), id)
  {
    HashesApart(w, last, id);
    OwnEvidenceOnly(v, last, view, at, HashesOf(w.ops[id].txs));
    RecoveryIsLocal(v, last, view, at);
  }

  lemma HashesApart(w: World, a: OpId, b: OpId)
    requires Inv(w) && a in w.ops && b in w.ops && a != b
    ensures HashesOf(w.ops[a].txs) !! HashesOf(w.ops[b].txs)
  {
    forall h | h in HashesOf(w.ops[a].txs) ensures h !in HashesOf(w.ops[b].txs) {
      assert Staged(w.ops, a, h);
      assert Staged(w.ops, b, h) ==> a == b;
    }
  }

  lemma {:induction false} OpenedByComesFrom(w: World, order: seq<OpId>, view: ChainView, k: nat)
    requires k < |OpenedBy(w, order, view)|
    ensures exists a ::
      a in order && Opens(w, a, view) && OpenedBy(w, order, view)[k] == PositionFor(Refreshed(w.ops[a], view), view)
  {
    var front, last := order[..|order| - 1], order[|order| - 1];
    if k < |OpenedBy(w, front, view)| {
      OpenedByComesFrom(w, front, view, k);
      var a :| a in front && Opens(w, a, view)
        && OpenedBy(w, front, view)[k] == PositionFor(Refreshed(w.ops[a], view), view);
      assert a in order;
    } else {
      assert last in order;
    }
  }

  /** No exit of the list needs a position that an entry of the list opens. */
  ghost predicate NoneAwaits(w: World, order: seq<OpId>, view: ChainView) {
    forall a, b :: a in order && b in order ==> !Awaits(w, a, b, view)
  }

  /** What an exit finds in its turn: its position as at the start, or one it does not need. */
  lemma FoundInTurn(w: World, v: World, order: seq<OpId>, me: Address, id: OpId, view: ChainView, at: nat)
    requires Inv(w) && AsIfAlone(w, v, order, view, at) && Ahead(w.book, v.book)
    requires OneWallet(w, order + [id], me) && id !in order && NoneAwaits(w, order + [id], view)
    requires w.ops[id].state.Pending? && w.ops[id].spec.ExitOf?
    ensures var f, g := Find(w.book, w.ops[id].spec.positionId), Find(v.book, w.ops[id].spec.positionId);
      && (f.Some? ==> g == f && f.value < |w.book| && v.book[f.value] == w.book[f.value])
      && (f.None? ==> g.None? || !Needs(w, id, view))
  {
    var pos := w.ops[id].spec.positionId;
    var f, g := Find(w.book, pos), Find(v.book, pos);
    assert id in order + [id];
    forall i | 0 <= i < |w.book| ensures w.book[i].id == v.book[i].id {
      assert Grew(w.book[i], v.book[i]);
    }
    if f.Some? {
      FirstFound(w.book, pos);
      FindKeeps(w.book, v.book, pos);
      forall o | o in order ensures !Touches(w, o, f.value) {
        assert o in order + [id];
        if Touches(w, o, f.value) {
          TouchedOnce(w, o, id, f.value);
        }
      }
      assert Untouched(w, order, f.value);
    } else if g.Some? {
      FindIsFirst(w.book, pos);
      FirstFound(v.book, pos);
      assert g.value >= |w.book|;
      var k := g.value - |w.book|;
      assert v.book[|w.book|..][k] == v.book[g.value];
      OpenedByComesFrom(w, order, view, k);
      var a :| a in order && Opens(w, a, view)
        && OpenedBy(w, order, view)[k] == PositionFor(Refreshed(w.ops[a], view), view);
      assert a in order + [id] && !Awaits(w, a, id, view);
    }
  }

  lemma OneMoreOpened(w: World, order: seq<OpId>, id: OpId, view: ChainView)
    ensures OpenedBy(w, order + [id], view)
      == OpenedBy(w, order, view) + (if Opens(w, id, view) then [PositionFor(Refreshed(w.ops[id], view), view)] else [])
  {
    assert (order + [id])[..|order|] == order;
  }

  /** The outcome of one more turn, compared with that operation alone. */
  ghost predicate TurnAsIfAlone(w: World, v: World, u: World, id: OpId, view: ChainView, at: nat) {
    && id in w.ops && id in u.ops && id in AfterRecovery(w, id, view, at).ops
    && u.ops == v.ops[id := u.ops[id]] && u.sent == v.sent
    && u.ops[id] == AfterRecovery(w, id, view, at).ops[id]
    && |u.book| >= |v.book|
    && u.book[|v.book|..] == (if Opens(w, id, view) then [PositionFor(Refreshed(w.ops[id], view), view)] else [])
    && (forall i: nat :: i < |v.book| && !Touches(w, id, i) ==> u.book[i] == v.book[i])
    && (forall i: nat :: i < |v.book| && Touches(w, id, i) ==>
          i < |AfterRecovery(w, id, view, at).book| && u.book[i] == AfterRecovery(w, id, view, at).book[i])
  }

  lemma EntryTurn(w: World, v: World, id: OpId, view: ChainView, at: nat)
    requires SameToSee(w, v, id) && w.ops[id].state.Pending? && w.ops[id].spec.Entry?
    ensures TurnAsIfAlone(w, v, AfterRecovery(v, id, view, at), id, view, at)
  {
    EntryDepends(w, v, id, view, at);
    EntryBook(v, id, view, at);
    RecoveryIsLocal(v, id, view, at);
  }

  lemma OtherTurn(w: World, v: World, id: OpId, view: ChainView, at: nat)
    requires SameToSee(w, v, id) && !w.ops[id].state.Failed? && (w.ops[id].state.Applied? || w.ops[id].spec.Command?)
    ensures TurnAsIfAlone(w, v, AfterRecovery(v, id, view, at), id, view, at)
  {
    OthersDepend(w, v, id, view, at);
    OthersBook(v, id, view, at);
    RecoveryIsLocal(v, id, view, at);
  }

  lemma ExitTurn(w: World, v: World, id: OpId, view: ChainView, at: nat)
    requires SameToSee(w, v, id) && w.ops[id].state.Pending? && w.ops[id].spec.ExitOf?
    requires var f, g := Find(w.book, w.ops[id].spec.positionId), Find(v.book, w.ops[id].spec.positionId);
      && (f.Some? ==> g == f && f.value < |w.book| && f.value < |v.book| && v.book[f.value] == w.book[f.value])
      && (f.None? ==> g.None? || !Needs(w, id, view))
    ensures TurnAsIfAlone(w, v, AfterRecovery(v, id, view, at), id, view, at)
  {
    var f, g := Find(w.book, w.ops[id].spec.positionId), Find(v.book, w.ops[id].spec.positionId);
    if f.Some? || g.None? {
      ExitDepends(w, v, id, view, at);
      FoundExitTurn(w, v, id, view, at);
    } else {
      RecoveryIsLocal(v, id, view, at);
      ExitNeedsNothing(w, v, id, view, at);
    }
  }

  lemma FoundExitTurn(w: World, v: World, id: OpId, view: ChainView, at: nat)
    requires id in w.ops && id in v.ops && w.ops[id] == v.ops[id] && w.ops[id].state.Pending? && w.ops[id].spec.ExitOf?
    requires Find(v.book, w.ops[id].spec.positionId) == Find(w.book, w.ops[id].spec.positionId)
    requires id in AfterRecovery(w, id, view, at).ops && id in AfterRecovery(v, id, view, at).ops
    requires AfterRecovery(v, id, view, at).ops[id] == AfterRecovery(w, id, view, at).ops[id]
    requires var f := Find(w.book, w.ops[id].spec.positionId);
      f.Some? ==>
        && f.value < |AfterRecovery(w, id, view, at).book| && f.value < |AfterRecovery(v, id, view, at).book|
        && AfterRecovery(v, id, view, at).book[f.value] == AfterRecovery(w, id, view, at).book[f.value]
    ensures TurnAsIfAlone(w, v, AfterRecovery(v, id, view, at), id, view, at)
  {
    RecoveryIsLocal(v, id, view, at);
    ExitBook(v, id, view, at);
  }

  lemma TailGrows(w: seq<Position>, v: seq<Position>, u: seq<Position>)
    requires |w| <= |v| <= |u| && forall i :: |w| <= i < |v| ==> u[i] == v[i]
    ensures u[|w|..] == v[|w|..] + u[|v|..]
  {
  }

  lemma TouchesOld(w: World, id: OpId, i: nat)
    requires Touches(w, id, i)
    ensures i < |w.book|
  {
    FirstFound(w.book, w.ops[id].spec.positionId);
  }

  /** The tail of the book after one more turn. */
  lemma TurnKeepsTail(w: World, v: World, u: World, order: seq<OpId>, id: OpId, view: ChainView, at: nat)
    requires |w.book| <= |v.book| && v.book[|w.book|..] == OpenedBy(w, order, view)
    requires TurnAsIfAlone(w, v, u, id, view, at)
    ensures |u.book| >= |w.book| && u.book[|w.book|..] == OpenedBy(w, order + [id], view)
  {
    OneMoreOpened(w, order, id, view);
    forall i: nat | |w.book| <= i < |v.book| ensures u.book[i] == v.book[i] {
      if Touches(w, id, i) {
        TouchesOld(w, id, i);
      }
    }
    TailGrows(w.book, v.book, u.book);
  }

  /** A position that was there, after one more turn. */
  lemma TurnKeepsPosition(w: World, v: World, u: World, order: seq<OpId>, me: Address, id: OpId, view: ChainView,
                          at: nat,
                          i: nat)
    requires Inv(w) && AsIfAlone(w, v, order, view, at) && TurnAsIfAlone(w, v, u, id, view, at)
    requires OneWallet(w, order + [id], me) && id !in order && i < |w.book|
    ensures i < |u.book|
    ensures forall o :: o in order + [id] && Touches(w, o, i) ==>
      i < |AfterRecovery(w, o, view, at).book| && u.book[i] == AfterRecovery(w, o, view, at).book[i]
    ensures Untouched(w, order + [id], i) ==> u.book[i] == w.book[i]
  {
    assert forall o :: o in order + [id] <==> o in order || o == id;
    if Touches(w, id, i) {
      forall o | o in order ensures !Touches(w, o, i) {
        assert o in order + [id];
        if Touches(w, o, i) {
          TouchedOnce(w, o, id, i);
        }
      }
    }
  }

  lemma TurnKeepsAlone(w: World, v: World, u: World, order: seq<OpId>, me: Address, id: OpId, view: ChainView, at: nat)
    requires Inv(w) && AsIfAlone(w, v, order, view, at) && TurnAsIfAlone(w, v, u, id, view, at)
    requires OneWallet(w, order + [id], me) && id !in order
    ensures AsIfAlone(w, u, order + [id], view, at)
  {
    assert forall o :: o in order + [id] <==> o in order || o == id;
    TurnKeepsTail(w, v, u, order, id, view, at);
    forall i: nat | i < |w.book|
      ensures forall o :: o in order + [id] && Touches(w, o, i) ==>
        i < |AfterRecovery(w, o, view, at).book| && u.book[i] == AfterRecovery(w, o, view, at).book[i]
      ensures Untouched(w, order + [id], i) ==> u.book[i] == w.book[i]
    {
      TurnKeepsPosition(w, v, u, order, me, id, view, at, i);
    }
  }

  /** Without an exit that awaits an entry, recovery in any order does to each what recovering it alone would do. */
  lemma {:induction false} EachAsIfAlone(w: World, order: seq<OpId>, me: Address, view: ChainView, at: nat)
    requires Inv(w) && NoRepeats(order) && OneWallet(w, order, me) && NoneAwaits(w, order, view)
    ensures AsIfAlone(w, RecoverAll(w, order, view, at), order, view, at)
  {
    if order == [] {
      assert w.book[|w.book|..] == [];
    } else {
      var front, id := order[..|order| - 1], order[|order| - 1];
      assert order == front + [id] && id !in front;
      EachAsIfAlone(w, front, me, view, at);
      var v := RecoverAll(w, front, view, at);
      OneTurn(w, v, front, me, id, view, at);
      RecoverOneMore(w, front, id, view, at);
      TurnKeepsAlone(w, v, AfterRecovery(v, id, view, at), front, me, id, view, at);
    }
  }

  lemma OneTurn(w: World, v: World, front: seq<OpId>, me: Address, id: OpId, view: ChainView, at: nat)
    requires Inv(w) && v == RecoverAll(w, front, view, at) && AsIfAlone(w, v, front, view, at)
    requires NoRepeats(front) && OneWallet(w, front + [id], me) && id !in front && NoneAwaits(w, front + [id], view)
    ensures TurnAsIfAlone(w, v, AfterRecovery(v, id, view, at), id, view, at)
  {
    assert id in front + [id];
    assert forall o :: o in front ==> o in front + [id];
    EvidenceStays(w, front, me, id, view, at);
    if w.ops[id].state.Applied? || w.ops[id].spec.Command? {
      OtherTurn(w, v, id, view, at);
    } else if w.ops[id].spec.Entry? {
      EntryTurn(w, v, id, view, at);
    } else {
      BookGrows(w, front, view, at);
      FoundInTurn(w, v, front, me, id, view, at);
      ExitTurn(w, v, id, view, at);
    }
  }

  /** And the report is what each alone would have been reported as. */
  lemma BlockedAsIfAlone(w: World, order: seq<OpId>, me: Address, view: ChainView, at: nat, id: OpId)
    requires Inv(w) && NoRepeats(order) && OneWallet(w, order, me) && NoneAwaits(w, order, view) && id in w.ops
    ensures id in BlockedIn(w, order, view, at) <==> id in order && Blocks(w, id, view, at)
  {
    if id in order {
      var i :| 0 <= i < |order| && order[i] == id;
      EachAsIfAlone(w, order, me, view, at);
      TurnIsFinal(w, order, i, view, at);
      RecoveryIsLocal(w, id, view, at);
    } else {
      OthersStay(w, order, id, view, at);
    }
  }

  // ---- Exactly when the order matters ----------------------------------------------------------------

  lemma {:induction false} OpenedByConcat(w: World, a: seq<OpId>, b: seq<OpId>, view: ChainView)
    ensures OpenedBy(w, a + b, view) == OpenedBy(w, a, view) + OpenedBy(w, b, view)
  {
    if b == [] {
      assert a + b == a && OpenedBy(w, a, view) + [] == OpenedBy(w, a, view);
    } else {
      var n := |b| - 1;
      assert a + b == (a + b[..n]) + [b[n]] && b == b[..n] + [b[n]];
      OpenedByConcat(w, a, b[..n], view);
      OneMoreOpened(w, a + b[..n], b[n], view);
      OneMoreOpened(w, b[..n], b[n], view);
    }
  }

  lemma OpenedWithout(w: World, b: seq<OpId>, j: nat, view: ChainView)
    requires j < |b|
    ensures multiset(OpenedBy(w, b, view))
      == multiset(OpenedBy(w, b[..j] + b[j + 1..], view)) + multiset(OpenedBy(w, [b[j]], view))
  {
    assert b == b[..j] + ([b[j]] + b[j + 1..]);
    OpenedByConcat(w, b[..j], [b[j]] + b[j + 1..], view);
    OpenedByConcat(w, [b[j]], b[j + 1..], view);
    OpenedByConcat(w, b[..j], b[j + 1..], view);
  }

  lemma WithoutOne(b: seq<OpId>, j: nat)
    requires j < |b|
    ensures multiset(b[..j] + b[j + 1..]) == multiset(b) - multiset{b[j]}
  {
    assert b == b[..j] + [b[j]] + b[j + 1..];
  }

  lemma WithoutFirst(a: seq<OpId>)
    requires a != []
    ensures multiset(a[1..]) == multiset(a) - multiset{a[0]}
  {
    assert a == [a[0]] + a[1..];
  }

  lemma OpenedFirst(w: World, a: seq<OpId>, view: ChainView)
    requires a != []
    ensures multiset(OpenedBy(w, a, view)) == multiset(OpenedBy(w, a[1..], view)) + multiset(OpenedBy(w, [a[0]], view))
  {
    assert a == [a[0]] + a[1..];
    OpenedByConcat(w, [a[0]], a[1..], view);
  }

  lemma PlaceIn(a: seq<OpId>, b: seq<OpId>) returns (j: nat)
    requires a != [] && multiset(a) == multiset(b)
    ensures j < |b| && b[j] == a[0]
  {
    assert a[0] in multiset(b);
    j :| j < |b| && b[j] == a[0];
  }

  /** Two listings of the same operations open the same positions. */
  lemma {:induction false} OpenedAlike(w: World, a: seq<OpId>, b: seq<OpId>, view: ChainView)
    requires multiset(a) == multiset(b)
    ensures multiset(OpenedBy(w, a, view)) == multiset(OpenedBy(w, b, view))
    decreases |a|
  {
    if a == [] {
      assert |multiset(b)| == 0 && b == [];
    } else {
      var j := PlaceIn(a, b);
      WithoutFirst(a);
      WithoutOne(b, j);
      OpenedAlike(w, a[1..], b[..j] + b[j + 1..], view);
      OpenedFirst(w, a, view);
      OpenedWithout(w, b, j, view);
    }
  }

  lemma {:induction false} ListedOnce(order: seq<OpId>)
    requires NoRepeats(order)
    ensures forall id :: multiset(order)[id] == if id in order then 1 else 0
  {
    if order != [] {
      var n := |order| - 1;
      ListedOnce(order[..n]);
      assert order == order[..n] + [order[n]];
      assert order[n] !in order[..n];
    }
  }

  lemma ListedAlike(a: seq<OpId>, b: seq<OpId>, ids: set<OpId>)
    requires Lists(a, ids) && Lists(b, ids)
    ensures multiset(a) == multiset(b)
  {
    ListedOnce(a);
    ListedOnce(b);
  }

  /** Two orders lead to the same journal, the same report, and the same book up to the order of what was opened. */
  ghost predicate SameEnd(w: World, a: seq<OpId>, b: seq<OpId>, view: ChainView, at: nat) {
    var u, v := RecoverAll(w, a, view, at), RecoverAll(w, b, view, at);
    && u.ops == v.ops && u.sent == v.sent && BlockedIn(w, a, view, at) == BlockedIn(w, b, view, at)
    && |u.book| >= |w.book| && |v.book| >= |w.book|
    && u.book[..|w.book|] == v.book[..|w.book|]
    && multiset(u.book[|w.book|..]) == multiset(v.book[|w.book|..])
  }

  lemma AnyOrderSameEnd(w: World, a: seq<OpId>, b: seq<OpId>, ids: set<OpId>, me: Address, view: ChainView, at: nat)
    requires Inv(w) && Lists(a, ids) && Lists(b, ids) && OneWallet(w, a, me) && NoneAwaits(w, a, view)
    ensures SameEnd(w, a, b, view, at)
  {
    assert OneWallet(w, b, me) && NoneAwaits(w, b, view);
    EachAsIfAlone(w, a, me, view, at);
    EachAsIfAlone(w, b, me, view, at);
    ListedAlike(a, b, ids);
    OpenedAlike(w, a, b, view);
    SameOldPositions(w, RecoverAll(w, a, view, at), RecoverAll(w, b, view, at), a, b, ids, view, at);
    SameReport(w, a, b, ids, me, view, at);
    SameOps(w, RecoverAll(w, a, view, at), RecoverAll(w, b, view, at), a, b, ids, view, at);
  }

  lemma SameReport(w: World, a: seq<OpId>, b: seq<OpId>, ids: set<OpId>, me: Address, view: ChainView, at: nat)
    requires Inv(w) && Lists(a, ids) && Lists(b, ids)
    requires OneWallet(w, a, me) && OneWallet(w, b, me) && NoneAwaits(w, a, view) && NoneAwaits(w, b, view)
    ensures BlockedIn(w, a, view, at) == BlockedIn(w, b, view, at)
  {
    BlockedAreKnown(w, a, view, at);
    BlockedAreKnown(w, b, view, at);
    forall id | id in w.ops ensures id in BlockedIn(w, a, view, at) <==> id in BlockedIn(w, b, view, at) {
      BlockedAsIfAlone(w, a, me, view, at, id);
      BlockedAsIfAlone(w, b, me, view, at, id);
    }
  }

  lemma SameOps(w: World, u: World, v: World, a: seq<OpId>, b: seq<OpId>, ids: set<OpId>, view: ChainView, at: nat)
    requires Lists(a, ids) && Lists(b, ids) && AsIfAlone(w, u, a, view, at) && AsIfAlone(w, v, b, view, at)
    ensures u.ops == v.ops
  {
    forall id | id in w.ops ensures u.ops[id] == v.ops[id] {
    }
  }

  lemma SameOldPositions(w: World, u: World, v: World, a: seq<OpId>, b: seq<OpId>, ids: set<OpId>, view: ChainView,
                         at: nat)
    requires Lists(a, ids) && Lists(b, ids) && AsIfAlone(w, u, a, view, at) && AsIfAlone(w, v, b, view, at)
    ensures u.book[..|w.book|] == v.book[..|w.book|]
  {
    forall i: nat | i < |w.book| ensures u.book[i] == v.book[i] {
      if !Untouched(w, a, i) {
        var id :| id in a && Touches(w, id, i);
        assert id in b;
      } else {
        assert Untouched(w, b, i);
      }
    }
  }

  /** The exit that awaits an entry is blocked before it and settled after it. */
  lemma AwaitingIsBlocked(w: World, a: OpId, b: OpId, view: ChainView, at: nat)
    requires Inv(w) && Awaits(w, a, b, view)
    ensures Blocks(w, b, view, at)
    ensures b in AfterRecovery(w, a, view, at).ops && !Blocks(AfterRecovery(w, a, view, at), b, view, at)
  {
    RefreshHashes(w.ops[b], view);
    var v := AfterRecovery(w, a, view, at);
    RecoveryIsLocal(w, a, view, at);
    EntryBook(w, a, view, at);
    OpenedIsItsOwn(w.ops[a], view);
    HashesApart(w, a, b);
    OwnEvidenceOnly(w, a, view, at, HashesOf(w.ops[b].txs));
    FoundAtTheEnd(w.book, PositionFor(Refreshed(w.ops[a], view), view));
    NeedIsMet(v, b, view, at);
    PendingForAReason(w, b, view, at);
  }

  lemma FoundAtTheEnd(book: seq<Position>, p: Position)
    requires Find(book, p.id).None?
    ensures Find(book + [p], p.id) == Some(|book|)
  {
    FindIsFirst(book, p.id);
    FindIsFirst(book + [p], p.id);
    assert (book + [p])[|book|].id == p.id;
    assert forall i :: 0 <= i < |book| ==> (book + [p])[i] == book[i];
  }

  lemma NeedIsMet(v: World, b: OpId, view: ChainView, at: nat)
    requires Needs(v, b, view)
    requires var f := Find(v.book, v.ops[b].spec.positionId);
      f.Some? && f.value < |v.book| && v.book[f.value].tokens > 0
    ensures !Blocks(v, b, view, at)
  {
    RefreshHashes(v.ops[b], view);
    PendingForAReason(v, b, view, at);
  }

  /** Some listing of a set. */
  lemma {:induction false} Listing(ids: set<OpId>) returns (order: seq<OpId>)
    ensures Lists(order, ids)
    decreases ids
  {
    order := [];
    if ids != {} {
      var id :| id in ids;
      var rest := Listing(ids - {id});
      order := rest + [id];
      assert NoRepeats(order);
    }
  }

  lemma TwoFirst(ids: set<OpId>, a: OpId, b: OpId) returns (order: seq<OpId>)
    requires a in ids && b in ids && a != b
    ensures Lists(order, ids) && |order| > 1 && order[0] == a && order[1] == b
  {
    var rest := Listing(ids - {a, b});
    order := [a, b] + rest;
    assert forall id :: id in order <==> id == a || id == b || id in rest;
    assert a !in rest && b !in rest;
  }

  lemma EntryFirst(w: World, order: seq<OpId>, a: OpId, b: OpId, view: ChainView, at: nat)
    requires Inv(w) && Awaits(w, a, b, view) && NoRepeats(order) && |order| > 1 && order[0] == a && order[1] == b
    ensures b !in BlockedIn(w, order, view, at)
  {
    AwaitingIsBlocked(w, a, b, view, at);
    TurnIsFinal(w, order, 1, view, at);
    AfterFirst(w, order, view, at);
  }

  lemma AfterFirst(w: World, order: seq<OpId>, view: ChainView, at: nat)
    requires order != [] && order[0] in w.ops
    ensures RecoverAll(w, order[..1], view, at) == AfterRecovery(w, order[0], view, at)
  {
    RecoverOneMore(w, [], order[0], view, at);
    assert order[..1] == [] + [order[0]];
  }

  lemma ExitFirst(w: World, order: seq<OpId>, a: OpId, b: OpId, view: ChainView, at: nat)
    requires Inv(w) && Awaits(w, a, b, view) && NoRepeats(order) && |order| > 0 && order[0] == b
    ensures b in BlockedIn(w, order, view, at)
  {
    AwaitingIsBlocked(w, a, b, view, at);
    TurnIsFinal(w, order, 0, view, at);
    assert order[..0] == [];
  }

  ghost predicate SomeAwaits(w: World, ids: set<OpId>, view: ChainView) {
    exists a, b :: a in ids && b in ids && Awaits(w, a, b, view)
  }

  /** Two orders with different reports. */
  ghost predicate OrderShows(w: World, ids: set<OpId>, view: ChainView, at: nat) {
    exists x, y :: Lists(x, ids) && Lists(y, ids) && BlockedIn(w, x, view, at) != BlockedIn(w, y, view, at)
  }

  ghost predicate OrderIsLost(w: World, ids: set<OpId>, view: ChainView, at: nat) {
    forall x, y :: Lists(x, ids) && Lists(y, ids) ==> SameEnd(w, x, y, view, at)
  }

  lemma OrderMatters(w: World, ids: set<OpId>, a: OpId, b: OpId, view: ChainView, at: nat)
    requires Inv(w) && a in ids && b in ids && Awaits(w, a, b, view)
    ensures OrderShows(w, ids, view, at)
  {
    var x := TwoFirst(ids, a, b);
    var y := TwoFirst(ids, b, a);
    EntryFirst(w, x, a, b, view, at);
    ExitFirst(w, y, a, b, view, at);
  }

  /**
   * The order in which the selected operations are recovered changes the report if and only if some entry would open
   * the position that some exit needs and does not find. Otherwise it changes nothing but the order of the positions
   * that are opened.
   */
  lemma OrderMattersExactly(w: World, ids: set<OpId>, me: Address, view: ChainView, at: nat)
    requires Inv(w)
    requires forall id :: id in ids ==> id in w.ops && !w.ops[id].state.Failed? && w.ops[id].wallet == me
    ensures OrderShows(w, ids, view, at) <==> SomeAwaits(w, ids, view)
    ensures OrderIsLost(w, ids, view, at) <==> !SomeAwaits(w, ids, view)
  {
    if SomeAwaits(w, ids, view) {
      var a, b :| a in ids && b in ids && Awaits(w, a, b, view);
      OrderMatters(w, ids, a, b, view, at);
    } else {
      NothingAwaited(w, ids, me, view, at);
    }
    LostOrShown(w, ids, view, at);
  }

  lemma LostOrShown(w: World, ids: set<OpId>, view: ChainView, at: nat)
    ensures OrderIsLost(w, ids, view, at) ==> !OrderShows(w, ids, view, at)
  {
    if OrderShows(w, ids, view, at) {
      var x, y :| Lists(x, ids) && Lists(y, ids) && BlockedIn(w, x, view, at) != BlockedIn(w, y, view, at);
      assert !SameEnd(w, x, y, view, at);
    }
  }

  lemma NothingAwaited(w: World, ids: set<OpId>, me: Address, view: ChainView, at: nat)
    requires Inv(w) && !SomeAwaits(w, ids, view)
    requires forall id :: id in ids ==> id in w.ops && !w.ops[id].state.Failed? && w.ops[id].wallet == me
    ensures OrderIsLost(w, ids, view, at)
  {
    forall x, y | Lists(x, ids) && Lists(y, ids) ensures SameEnd(w, x, y, view, at) {
      AnyOrderSameEnd(w, x, y, ids, me, view, at);
    }
  }

  // ---- It can happen ---------------------------------------------------------------------------------

  /** An entry and an exit whose position that entry would open; both are sent, and neither is in the book. */
  function EntryAndExit(): World {
    var entry := Operation(CHAIN_ID, 3, 0, Pending, Entry(1, 2, 100),
                           [TxRecord(EntryStep, 0, 1, Submitted, None, None, None)]);
    var exit := Operation(CHAIN_ID, 3, 500, Pending, ExitOf(PosId(1, 0), 1, 2, "manual"),
                          [TxRecord(CurveSell, 1, 2, Submitted, None, None, None)]);
    World(map[OpId(0, 0) := entry, OpId(500, 1) := exit], [], [], {})
  }

  function BothMined(): ChainView {
    ChainView(5, 2, 2, 1_000,
              map[1 := Receipt(Some(1), Some(true), Some(5), Some(50), 21_000, 10, 0, 0, 0, None, {}),
                  2 := Receipt(Some(2), Some(true), Some(5), Some(50), 21_000, 0, 0, 10, 7, None, {})],
              map[5 := 50], map[])
  }

  /** Two operations with nothing in common, and an empty book. */
  lemma TwoAreSound(w: World, i: OpId, a: Operation, j: OpId, b: Operation)
    requires w == World(map[i := a, j := b], [], [], {}) && i != j && i.index < 2 && j.index < 2
    requires DistinctHashes(a.txs) && DistinctHashes(b.txs) && HashesOf(a.txs) !! HashesOf(b.txs)
    requires a.state.Pending? && b.state.Pending? && !SameSubject(a.spec, b.spec) && !SameSubject(b.spec, a.spec)
    ensures Inv(w)
  {
    assert |w.ops| == |w.ops.Keys| == |{i, j}|;
  }

  lemma EntryAndExitAreSound()
    ensures Inv(EntryAndExit())
  {
    var w := EntryAndExit();
    TwoAreSound(w, OpId(0, 0), w.ops[OpId(0, 0)], OpId(500, 1), w.ops[OpId(500, 1)]);
  }

  lemma EntryWouldOpen()
    ensures Opens(EntryAndExit(), OpId(0, 0), BothMined())
  {
    var w, view := EntryAndExit(), BothMined();
    var now := Refreshed(w.ops[OpId(0, 0)], view);
    var t, l := now.txs[0], Landed(1, view.receipts[1]);
    assert now.txs == [t] && now.txs[..0] == [];
    assert LandedIn([], view) == [] && LandedIn(now.txs, view) == [l];
    FillsStep([], l, 100);
    assert [] + [l] == [l];
  }

  lemma ExitWouldSell()
    ensures Needs(EntryAndExit(), OpId(500, 1), BothMined())
  {
    var w, view := EntryAndExit(), BothMined();
    var now := Refreshed(w.ops[OpId(500, 1)], view);
    assert now.txs == [now.txs[0]] && now.txs[..0] == [];
    assert SalesIn([]) == [] && SalesIn(now.txs) == [now.txs[0]];
  }

  /** So one start may go on where another, listing the same operations differently, refuses. */
  lemma OrderCanMatter(at: nat)
    ensures var w, view := EntryAndExit(), BothMined();
      Inv(w) && OrderShows(w, SelectedIds(w.ops, 3, view.head), view, at)
  {
    var w, view := EntryAndExit(), BothMined();
    EntryAndExitAreSound();
    EntryWouldOpen();
    ExitWouldSell();
    OrderMatters(w, SelectedIds(w.ops, 3, view.head), OpId(0, 0), OpId(500, 1), view, at);
  }
}
