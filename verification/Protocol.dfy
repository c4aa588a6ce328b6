/**
 * The journal, the position book and the sequencer as one machine that may crash between any two steps
 * (crates/bodkin/src/trade/journal.rs, positions.rs and their callers in run.rs and exec.rs).
 *
 * Every journal write commits before its step ends; positions are committed only by `Flush`, so a crash takes the book
 * back to the last flush.
 */
module Protocol {
  import opened Common
  import opened Positions
  import opened Journal

  datatype World = World(ops: map<OpId, Operation>, book: seq<Position>, saved: seq<Position>, sent: set<Hash>)

  datatype Action =
    | Begin(id: OpId, op: Operation)
    | Record(id: OpId, event: Journal.Event)
    | DropTx(id: OpId, hash: Hash)
    | Send(id: OpId, hash: Hash)
    | OpenFrom(id: OpId, position: PosId, hash: Hash, eth: nat, gas: nat, tokens: nat)
    | SellFrom(id: OpId, tokens: nat, eth: nat, gas: nat, hash: Hash, at: nat)
    | Charge(id: OpId, gas: nat)
    | Flush
    | Crash

  /** A run: the actions taken so far, latest outermost. */
  datatype Trace = Start | Then(before: Trace, action: Action)

  function Sold(book: seq<Position>, position: PosId, tokens: nat, eth: nat, gas: nat, reason: string, hash: Hash,
                at: nat)
    : seq<Position>
  {
    var i := Find(book, position);
    if i.Some? && i.value < |book|
    then book[i.value := AfterExit(book[i.value], tokens, eth, gas, reason, Some(hash), at)]
    else book
  }

  function ChargedBook(book: seq<Position>, position: PosId, id: OpId, gas: nat): seq<Position> {
    var i := Find(book, position);
    if i.Some? && i.value < |book| then book[i.value := AfterOverhead(book[i.value], id, gas)] else book
  }

  function Next(w: World, a: Action): World {
    match a
    case Begin(id, op) => w.(ops := w.ops[id := op])
    case Record(id, e) => if id in w.ops then w.(ops := w.ops[id := AfterEvent(w.ops[id], e)]) else w
    case DropTx(id, h) =>
      if id in w.ops then w.(ops := w.ops[id := w.ops[id].(txs := DropRecord(w.ops[id].txs, h))]) else w
    case Send(_, h) => w.(sent := w.sent + {h})
    case OpenFrom(_, position, h, eth, gas, tokens) =>
      w.(book := w.book + [Opened(position, Some(h), eth, gas, tokens)])
    case SellFrom(id, tokens, eth, gas, h, at) =>
      if id in w.ops && w.ops[id].spec.ExitOf?
      then w.(book := Sold(w.book, w.ops[id].spec.positionId, tokens, eth, gas, w.ops[id].spec.reason, h, at))
      else w
    case Charge(id, gas) =>
      if id in w.ops && w.ops[id].spec.ExitOf? then w.(book := ChargedBook(w.book, w.ops[id].spec.positionId, id, gas))
      else w
    case Flush => w.(saved := w.book)
    case Crash => w.(book := w.saved)
  }

  function Replay(t: Trace): World {
    match t
    case Start => World(map[], [], [], {})
    case Then(before, a) => Next(Replay(before), a)
  }

  // ---- What the stores show of an operation ------------------------------------------------------

  predicate Staged(ops: map<OpId, Operation>, id: OpId, h: Hash) {
    id in ops && h in HashesOf(ops[id].txs)
  }

  /** No other operation has this transaction. */
  ghost predicate Unclaimed(ops: map<OpId, Operation>, id: OpId, h: Hash) {
    forall o :: Staged(ops, o, h) ==> o == id
  }

  predicate EntryAt(book: seq<Position>, hs: set<Hash>, i: nat) {
    i < |book| && book[i].entryTx.Some? && book[i].entryTx.value in hs
  }

  predicate LegAt(book: seq<Position>, hs: set<Hash>, i: nat, k: nat) {
    i < |book| && k < |book[i].exits| && book[i].exits[k].tx.Some? && book[i].exits[k].tx.value in hs
  }

  predicate ChargedAt(book: seq<Position>, id: OpId, i: nat) {
    i < |book| && id in book[i].overheadOperations
  }

  ghost predicate HasEntry(book: seq<Position>, hs: set<Hash>) {
    exists i: nat :: EntryAt(book, hs, i)
  }

  ghost predicate HasLeg(book: seq<Position>, hs: set<Hash>) {
    exists i: nat, k: nat :: LegAt(book, hs, i, k)
  }

  ghost predicate IsCharged(book: seq<Position>, id: OpId) {
    exists i: nat :: ChargedAt(book, id, i)
  }

  /** The committed book already shows the result of the operation. */
  ghost predicate Done(saved: seq<Position>, op: Operation) {
    match op.spec
    case Entry(_, _, _) => HasEntry(saved, HashesOf(op.txs))
    case ExitOf(_, _, _, _) => HasLeg(saved, HashesOf(op.txs))
    case Command(_, _) => true
  }

  ghost predicate NoResult(book: seq<Position>, op: Operation) {
    !HasEntry(book, HashesOf(op.txs)) && !HasLeg(book, HashesOf(op.txs))
  }

  // ---- When a step is allowed --------------------------------------------------------------------

  predicate Rivals(a: Operation, b: Operation) {
    a.state.Pending? && b.state.Pending? && a.wallet == b.wallet && SameSubject(a.spec, b.spec)
  }

  ghost predicate NoRival(ops: map<OpId, Operation>, op: Operation) {
    forall o :: o in ops ==> !Rivals(ops[o], op)
  }

  ghost predicate EventAllowed(w: World, id: OpId, e: Journal.Event)
    requires id in w.ops
  {
    var op := w.ops[id];
    match e
    case Stage(_, _, _) => op.state.Pending? && forall h :: h in NewHashes(e) ==> Unclaimed(w.ops, id, h)
    case StageMany(_, _) => op.state.Pending? && forall h :: h in NewHashes(e) ==> Unclaimed(w.ops, id, h)
    case AllRejected => op.state.Pending? && HashesOf(op.txs) !! w.sent
    case MarkApplied => op.state.Pending? && Done(w.saved, op) && (op.spec.Entry? ==> !HasAmbiguous(op))
    case MarkFailed =>
      && op.state.Pending? && !HasAmbiguous(op) && NoResult(w.book, op)
      && (op.spec.Entry? || !TookEffect(op))
      && (op.spec.ExitOf? && OperationGas(op.txs) > 0 ==> IsCharged(w.saved, id))
    case _ => !op.state.Failed?
  }

  ghost predicate Enabled(w: World, a: Action) {
    match a
    case Begin(id, op) => id !in w.ops && id.index == |w.ops| && op.state.Pending? && op.txs == [] && NoRival(w.ops, op)
    case Record(id, e) => id in w.ops && Accepts(w.ops[id], e) && EventAllowed(w, id, e)
    case DropTx(id, h) => Staged(w.ops, id, h) && !w.ops[id].state.Failed?
    case Send(id, h) => Staged(w.ops, id, h) && w.ops[id].state.Pending?
    case OpenFrom(id, _, h, _, _, _) =>
      && Staged(w.ops, id, h) && w.ops[id].state.Pending? && w.ops[id].spec.Entry?
      && !HasEntry(w.book, HashesOf(w.ops[id].txs))
    case SellFrom(id, _, _, _, h, _) =>
      && Staged(w.ops, id, h) && w.ops[id].state.Pending? && w.ops[id].spec.ExitOf?
      && !HasLeg(w.book, HashesOf(w.ops[id].txs))
    case Charge(id, gas) =>
      && id in w.ops && w.ops[id].state.Pending? && w.ops[id].spec.ExitOf? && gas == OperationGas(w.ops[id].txs)
      && !HasLeg(w.book, HashesOf(w.ops[id].txs))
    case Flush => true
    case Crash => true
  }

  ghost predicate Legal(t: Trace) {
    match t
    case Start => true
    case Then(before, a) => Legal(before) && Enabled(Replay(before), a)
  }

  // ---- The invariant -----------------------------------------------------------------------------

  ghost predicate OpsInv(ops: map<OpId, Operation>, sent: set<Hash>) {
    && (forall id :: id in ops ==> id.index < |ops| && DistinctHashes(ops[id].txs))
    && (forall a, b, h :: Staged(ops, a, h) && Staged(ops, b, h) ==> a == b)
    && (forall h :: h in sent ==> exists id :: Staged(ops, id, h))
    && (forall a, b :: a in ops && b in ops && Rivals(ops[a], ops[b]) ==> a == b)
  }

  ghost predicate EntryKnown(ops: map<OpId, Operation>, p: Position) {
    p.entryTx.Some? ==> exists id :: Staged(ops, id, p.entryTx.value) && ops[id].spec.Entry?
  }

  ghost predicate LegKnown(ops: map<OpId, Operation>, p: Position, e: Exit) {
    e.tx.Some? ==> exists id :: Staged(ops, id, e.tx.value) && ops[id].spec.ExitOf? && ops[id].spec.positionId == p.id
  }

  predicate ChargeKnown(ops: map<OpId, Operation>, p: Position, id: OpId) {
    id in ops && ops[id].spec.ExitOf? && ops[id].spec.positionId == p.id
  }

  /** Only the first position with an id is ever sold from or charged. */
  predicate TouchedIsFirst(book: seq<Position>, i: nat)
    requires i < |book|
  {
    book[i].exits != [] || book[i].overheadOperations != [] ==> Find(book, book[i].id) == Some(i)
  }

  ghost predicate NoRepeats(ids: seq<OpId>) {
    forall i, j | 0 <= i < j < |ids| :: ids[i] != ids[j]
  }

  ghost predicate Known(ops: map<OpId, Operation>, p: Position) {
    && EntryKnown(ops, p)
    && (forall k :: 0 <= k < |p.exits| ==> LegKnown(ops, p, p.exits[k]))
    && (forall id :: id in p.overheadOperations ==> ChargeKnown(ops, p, id))
    && NoRepeats(p.overheadOperations)
  }

  ghost predicate Once(book: seq<Position>, hs: set<Hash>) {
    && (forall i: nat, j: nat :: EntryAt(book, hs, i) && EntryAt(book, hs, j) ==> i == j)
    && (forall i: nat, k: nat, j: nat, l: nat :: LegAt(book, hs, i, k) && LegAt(book, hs, j, l) ==> i == j && k == l)
  }

  ghost predicate BookInv(ops: map<OpId, Operation>, book: seq<Position>) {
    && (forall i :: 0 <= i < |book| ==> Known(ops, book[i]) && TouchedIsFirst(book, i))
    && (forall id :: id in ops ==> Once(book, HashesOf(ops[id].txs)))
  }

  predicate Grew(p: Position, q: Position) {
    && p.id == q.id && p.entryTx == q.entryTx && p.exits <= q.exits && p.overheadOperations <= q.overheadOperations
    && q.tokens <= p.tokens && (p.exits == q.exits ==> p.tokens == q.tokens)
  }

  /** The book only ever adds to what is committed. */
  predicate Ahead(saved: seq<Position>, book: seq<Position>) {
    |saved| <= |book| && forall i :: 0 <= i < |saved| ==> Grew(saved[i], book[i])
  }

  ghost predicate StateInv(w: World, id: OpId)
    requires id in w.ops
  {
    var op := w.ops[id];
    && (op.state.Applied? ==> Done(w.saved, op))
    && (op.state.Failed? ==>
          && !HasAmbiguous(op) && NoResult(w.book, op)
          && (op.spec.Entry? || !TookEffect(op))
          && (op.spec.ExitOf? && OperationGas(op.txs) > 0 ==> IsCharged(w.saved, id)))
  }

  ghost predicate Inv(w: World) {
    && OpsInv(w.ops, w.sent)
    && BookInv(w.ops, w.book)
    && Ahead(w.saved, w.book)
    && forall id :: id in w.ops ==> StateInv(w, id)
  }

  // ---- Facts about the book ----------------------------------------------------------------------

  lemma FindKeeps(a: seq<Position>, b: seq<Position>, id: PosId)
    requires |a| <= |b| && forall i :: 0 <= i < |a| ==> a[i].id == b[i].id
    requires Find(a, id).Some? || |a| == |b|
    ensures Find(a, id) == Find(b, id)
  {
    FindIsFirst(a, id);
    FindIsFirst(b, id);
    var fa, fb := Find(a, id), Find(b, id);
    if fa.Some? {
      assert a[fa.value].id == b[fa.value].id;
    }
    if fb.Some? && fb.value < |a| {
      assert a[fb.value].id == b[fb.value].id;
    }
  }

  lemma GrowsEvidence(a: seq<Position>, b: seq<Position>, hs: set<Hash>)
    requires Ahead(a, b)
    ensures HasEntry(a, hs) ==> HasEntry(b, hs)
    ensures HasLeg(a, hs) ==> HasLeg(b, hs)
  {
    if HasEntry(a, hs) {
      var i: nat :| EntryAt(a, hs, i);
      assert Grew(a[i], b[i]);
      assert EntryAt(b, hs, i);
    }
    if HasLeg(a, hs) {
      var i: nat, k: nat :| LegAt(a, hs, i, k);
      assert Grew(a[i], b[i]);
      assert LegAt(b, hs, i, k);
    }
  }

  lemma OnceForLess(a: seq<Position>, b: seq<Position>, hs: set<Hash>)
    requires Ahead(a, b) && Once(b, hs)
    ensures Once(a, hs)
  {
    forall i: nat, j: nat | EntryAt(a, hs, i) && EntryAt(a, hs, j) ensures i == j {
      assert Grew(a[i], b[i]) && Grew(a[j], b[j]);
      assert EntryAt(b, hs, i) && EntryAt(b, hs, j);
    }
    forall i: nat, k: nat, j: nat, l: nat | LegAt(a, hs, i, k) && LegAt(a, hs, j, l) ensures i == j && k == l {
      assert Grew(a[i], b[i]) && Grew(a[j], b[j]);
      assert LegAt(b, hs, i, k) && LegAt(b, hs, j, l);
    }
  }

  lemma KnownForLess(ops: map<OpId, Operation>, p: Position, q: Position)
    requires Grew(p, q) && Known(ops, q)
    ensures Known(ops, p)
  {
    forall k | 0 <= k < |p.exits| ensures LegKnown(ops, p, p.exits[k]) {
      assert LegKnown(ops, q, q.exits[k]);
    }
    forall id | id in p.overheadOperations ensures ChargeKnown(ops, p, id) {
      assert id in q.overheadOperations;
    }
  }

  /** What holds of the book holds of everything it grew from, in particular of the committed copy. */
  lemma LessKeepsBook(ops: map<OpId, Operation>, a: seq<Position>, b: seq<Position>)
    requires Ahead(a, b) && BookInv(ops, b)
    ensures BookInv(ops, a)
  {
    forall i | 0 <= i < |a| ensures Known(ops, a[i]) && TouchedIsFirst(a, i) {
      assert Grew(a[i], b[i]);
      KnownForLess(ops, a[i], b[i]);
      assert TouchedIsFirst(b, i);
      if a[i].exits != [] || a[i].overheadOperations != [] {
        FirstInPrefix(a, b, i);
      }
    }
    forall id | id in ops ensures Once(a, HashesOf(ops[id].txs)) {
      OnceForLess(a, b, HashesOf(ops[id].txs));
    }
  }

  lemma FirstInPrefix(a: seq<Position>, b: seq<Position>, i: nat)
    requires Ahead(a, b) && i < |a| && Find(b, b[i].id) == Some(i)
    ensures Find(a, a[i].id) == Some(i)
  {
    assert Grew(a[i], b[i]);
    FindIsFirst(a, a[i].id);
    FindIsFirst(b, b[i].id);
    var j := Find(a, a[i].id);
    assert j.Some? && j.value <= i;
    assert Grew(a[j.value], b[j.value]);
  }

  // ---- Steps that change the journal -------------------------------------------------------------

  /** The same operations with at least the same transactions, and no transaction that another operation has. */
  ghost predicate Extends(ops: map<OpId, Operation>, now: map<OpId, Operation>) {
    && ops.Keys == now.Keys
    && (forall id :: id in ops ==> now[id].spec == ops[id].spec && now[id].wallet == ops[id].wallet)
    && (forall id, h :: Staged(ops, id, h) ==> Staged(now, id, h))
    && (forall id, h :: Staged(now, id, h) && !Staged(ops, id, h) ==> forall o :: !Staged(ops, o, h))
  }

  lemma ExtendsKeepsKnown(ops: map<OpId, Operation>, now: map<OpId, Operation>, p: Position)
    requires Extends(ops, now) && Known(ops, p)
    ensures Known(now, p)
  {
    if p.entryTx.Some? {
      var id :| Staged(ops, id, p.entryTx.value) && ops[id].spec.Entry?;
      assert Staged(now, id, p.entryTx.value);
    }
    forall k | 0 <= k < |p.exits| ensures LegKnown(now, p, p.exits[k]) {
      var e := p.exits[k];
      assert LegKnown(ops, p, e);
      if e.tx.Some? {
        var id :| Staged(ops, id, e.tx.value) && ops[id].spec.ExitOf? && ops[id].spec.positionId == p.id;
        assert Staged(now, id, e.tx.value);
      }
    }
  }

  /** A book that knows all its hashes shows nothing new of an operation that gained transactions. */
  lemma ExtendsShowsNothingNew(ops: map<OpId, Operation>, now: map<OpId, Operation>, book: seq<Position>, id: OpId)
    requires Extends(ops, now) && id in ops
    requires forall i :: 0 <= i < |book| ==> Known(ops, book[i])
    ensures forall i: nat :: EntryAt(book, HashesOf(now[id].txs), i) <==> EntryAt(book, HashesOf(ops[id].txs), i)
    ensures forall i: nat, k: nat :: LegAt(book, HashesOf(now[id].txs), i, k) <==>
      LegAt(book, HashesOf(ops[id].txs), i, k)
  {
    forall i | 0 <= i < |book| && book[i].entryTx.Some?
      ensures book[i].entryTx.value in HashesOf(now[id].txs) <==> book[i].entryTx.value in HashesOf(ops[id].txs)
    {
      assert Known(ops, book[i]);
      var o :| Staged(ops, o, book[i].entryTx.value);
      SameMembership(ops, now, id, o, book[i].entryTx.value);
    }
    forall i, k | 0 <= i < |book| && 0 <= k < |book[i].exits| && book[i].exits[k].tx.Some?
      ensures book[i].exits[k].tx.value in HashesOf(now[id].txs) <==> book[i].exits[k].tx.value in HashesOf(ops[id].txs)
    {
      assert Known(ops, book[i]);
      assert LegKnown(ops, book[i], book[i].exits[k]);
      var o :| Staged(ops, o, book[i].exits[k].tx.value);
      SameMembership(ops, now, id, o, book[i].exits[k].tx.value);
    }
  }

  lemma SameMembership(ops: map<OpId, Operation>, now: map<OpId, Operation>, id: OpId, o: OpId, h: Hash)
    requires Extends(ops, now) && id in ops && Staged(ops, o, h)
    ensures h in HashesOf(now[id].txs) <==> h in HashesOf(ops[id].txs)
  {
    assert Staged(now, id, h) <==> h in HashesOf(now[id].txs);
    assert Staged(ops, id, h) <==> h in HashesOf(ops[id].txs);
  }

  lemma ExtendsKeepsBook(ops: map<OpId, Operation>, now: map<OpId, Operation>, book: seq<Position>)
    requires Extends(ops, now) && BookInv(ops, book)
    ensures BookInv(now, book)
  {
    forall i | 0 <= i < |book| ensures Known(now, book[i]) {
      ExtendsKeepsKnown(ops, now, book[i]);
    }
    forall id | id in now ensures Once(book, HashesOf(now[id].txs)) {
      ExtendsShowsNothingNew(ops, now, book, id);
      assert Once(book, HashesOf(ops[id].txs));
    }
  }

  lemma ExtendsKeepsEvidence(ops: map<OpId, Operation>, now: map<OpId, Operation>, book: seq<Position>, id: OpId)
    requires Extends(ops, now) && id in ops && BookInv(ops, book)
    ensures HasEntry(book, HashesOf(now[id].txs)) <==> HasEntry(book, HashesOf(ops[id].txs))
    ensures HasLeg(book, HashesOf(now[id].txs)) <==> HasLeg(book, HashesOf(ops[id].txs))
  {
    ExtendsShowsNothingNew(ops, now, book, id);
    if HasEntry(book, HashesOf(ops[id].txs)) {
      var i: nat :| EntryAt(book, HashesOf(ops[id].txs), i);
      assert EntryAt(book, HashesOf(now[id].txs), i);
    }
    if HasEntry(book, HashesOf(now[id].txs)) {
      var i: nat :| EntryAt(book, HashesOf(now[id].txs), i);
      assert EntryAt(book, HashesOf(ops[id].txs), i);
    }
    if HasLeg(book, HashesOf(ops[id].txs)) {
      var i: nat, k: nat :| LegAt(book, HashesOf(ops[id].txs), i, k);
      assert LegAt(book, HashesOf(now[id].txs), i, k);
    }
    if HasLeg(book, HashesOf(now[id].txs)) {
      var i: nat, k: nat :| LegAt(book, HashesOf(now[id].txs), i, k);
      assert LegAt(book, HashesOf(ops[id].txs), i, k);
    }
  }

  /** Rewriting one operation, with new transactions only where nobody else has them, extends the journal. */
  lemma OneChangeExtends(ops: map<OpId, Operation>, id: OpId, op: Operation, more: set<Hash>)
    requires id in ops && op.spec == ops[id].spec && op.wallet == ops[id].wallet
    requires HashesOf(op.txs) == HashesOf(ops[id].txs) + more
    requires forall h :: h in more ==> Unclaimed(ops, id, h)
    ensures Extends(ops, ops[id := op])
  {
    var now := ops[id := op];
    forall o, h | Staged(now, o, h) && !Staged(ops, o, h) ensures forall x :: !Staged(ops, x, h) {
      assert o == id && h in more;
      assert Unclaimed(ops, id, h);
    }
  }

  lemma OneChangeKeepsOps(w: World, id: OpId, op: Operation)
    requires OpsInv(w.ops, w.sent) && id in w.ops && Extends(w.ops, w.ops[id := op])
    requires DistinctHashes(op.txs) && (op.state.Pending? ==> w.ops[id].state.Pending?)
    ensures OpsInv(w.ops[id := op], w.sent)
  {
    var now := w.ops[id := op];
    assert now.Keys == w.ops.Keys;
    assert |now| == |now.Keys| == |w.ops.Keys| == |w.ops|;
    forall a, b | a in now && b in now && Rivals(now[a], now[b]) ensures a == b {
      assert Rivals(w.ops[a], w.ops[b]);
    }
    forall a, b, h | Staged(now, a, h) && Staged(now, b, h) ensures a == b {
      assert !Staged(w.ops, a, h) ==> a == id && !Staged(w.ops, b, h);
      assert !Staged(w.ops, b, h) ==> b == id && !Staged(w.ops, a, h);
    }
    forall h | h in w.sent ensures exists o :: Staged(now, o, h) {
      var o :| Staged(w.ops, o, h);
      assert Staged(now, o, h);
    }
  }

  lemma OneChangeKeepsOthers(w: World, id: OpId, op: Operation)
    requires Inv(w) && id in w.ops && Extends(w.ops, w.ops[id := op])
    ensures forall o :: o in w.ops && o != id ==> StateInv(w.(ops := w.ops[id := op]), o)
  {
    forall o | o in w.ops && o != id ensures StateInv(w.(ops := w.ops[id := op]), o) {
      assert StateInv(w, o);
    }
  }

  /** Any allowed rewrite of one operation keeps the invariant, given that it does so for the operation itself. */
  lemma OneChangeKeepsInv(w: World, id: OpId, op: Operation)
    requires Inv(w) && id in w.ops && Extends(w.ops, w.ops[id := op])
    requires DistinctHashes(op.txs) && (op.state.Pending? ==> w.ops[id].state.Pending?)
    requires StateInv(w.(ops := w.ops[id := op]), id)
    ensures Inv(w.(ops := w.ops[id := op]))
  {
    OneChangeKeepsOps(w, id, op);
    ExtendsKeepsBook(w.ops, w.ops[id := op], w.book);
    OneChangeKeepsOthers(w, id, op);
  }

  lemma SetTxKeepsState(w: World, id: OpId, op: Operation)
    requires Inv(w) && id in w.ops && Extends(w.ops, w.ops[id := op])
    requires op.spec == w.ops[id].spec && op.state == w.ops[id].state && !op.state.Failed?
    ensures StateInv(w.(ops := w.ops[id := op]), id)
  {
    assert StateInv(w, id);
    if op.state.Applied? {
      LessKeepsBook(w.ops, w.saved, w.book);
      ExtendsKeepsEvidence(w.ops, w.ops[id := op], w.saved, id);
    }
  }

  lemma RecordKeepsInv(w: World, id: OpId, e: Journal.Event)
    requires Inv(w) && Enabled(w, Record(id, e))
    ensures Inv(Next(w, Record(id, e)))
  {
    var op := AfterEvent(w.ops[id], e);
    assert StateInv(w, id);
    EventHashes(w.ops[id], e);
    OneChangeExtends(w.ops, id, op, NewHashes(e));
    if !e.MarkApplied? && !e.MarkFailed? {
      SetTxKeepsState(w, id, op);
    }
    OneChangeKeepsInv(w, id, op);
  }

  lemma DropKeepsInv(w: World, id: OpId, h: Hash)
    requires Inv(w) && Enabled(w, DropTx(id, h))
    ensures Inv(Next(w, DropTx(id, h)))
  {
    var op := w.ops[id].(txs := DropRecord(w.ops[id].txs, h));
    DropHashes(w.ops[id].txs, h);
    OneChangeExtends(w.ops, id, op, {});
    SetTxKeepsState(w, id, op);
    OneChangeKeepsInv(w, id, op);
  }

  lemma BeginKeepsOps(w: World, id: OpId, op: Operation)
    requires OpsInv(w.ops, w.sent) && Enabled(w, Begin(id, op))
    ensures OpsInv(w.ops[id := op], w.sent)
  {
    var now := w.ops[id := op];
    assert HashesOf(op.txs) == {};
    assert now.Keys == w.ops.Keys + {id};
    assert |now| == |now.Keys| == |w.ops| + 1;
    assert forall o, h :: Staged(now, o, h) <==> Staged(w.ops, o, h);
    forall a | a in w.ops ensures !Rivals(w.ops[a], op) && !Rivals(op, w.ops[a]) {
      SubjectIsSymmetric(op.spec, w.ops[a].spec);
    }
  }

  lemma SubjectIsSymmetric(a: Spec, b: Spec)
    ensures SameSubject(a, b) <==> SameSubject(b, a)
  {
  }

  lemma BeginKeepsKnown(ops: map<OpId, Operation>, id: OpId, op: Operation, p: Position)
    requires id !in ops && Known(ops, p)
    ensures Known(ops[id := op], p)
  {
    var now := ops[id := op];
    assert forall o, h :: Staged(ops, o, h) ==> Staged(now, o, h);
    if p.entryTx.Some? {
      var o :| Staged(ops, o, p.entryTx.value) && ops[o].spec.Entry?;
      assert Staged(now, o, p.entryTx.value);
    }
    forall k | 0 <= k < |p.exits| ensures LegKnown(now, p, p.exits[k]) {
      var e := p.exits[k];
      assert LegKnown(ops, p, e);
      if e.tx.Some? {
        var o :| Staged(ops, o, e.tx.value) && ops[o].spec.ExitOf? && ops[o].spec.positionId == p.id;
        assert Staged(now, o, e.tx.value);
      }
    }
  }

  lemma BeginKeepsInv(w: World, id: OpId, op: Operation)
    requires Inv(w) && Enabled(w, Begin(id, op))
    ensures Inv(Next(w, Begin(id, op)))
  {
    var now := w.ops[id := op];
    BeginKeepsOps(w, id, op);
    forall i | 0 <= i < |w.book| ensures Known(now, w.book[i]) {
      BeginKeepsKnown(w.ops, id, op, w.book[i]);
    }
    assert HashesOf(op.txs) == {};
    forall o | o in now ensures Once(w.book, HashesOf(now[o].txs)) {
      if o != id {
        assert Once(w.book, HashesOf(w.ops[o].txs));
      }
    }
    forall o | o in now ensures StateInv(w.(ops := now), o) {
      if o != id {
        assert StateInv(w, o);
      }
    }
  }

  // ---- Steps that change the book ----------------------------------------------------------------

  /** Growing the book leaves what is committed, and every operation it shows nothing new of, as it was. */
  lemma GrowthKeepsStates(w: World, book: seq<Position>, id: OpId)
    requires Inv(w) && id in w.ops && w.ops[id].state.Pending? && Ahead(w.book, book)
    requires forall o :: o in w.ops && o != id && NoResult(w.book, w.ops[o]) ==> NoResult(book, w.ops[o])
    ensures Ahead(w.saved, book)
    ensures forall o :: o in w.ops ==> StateInv(w.(book := book), o)
  {
    forall i | 0 <= i < |w.saved| ensures Grew(w.saved[i], book[i]) {
      assert Grew(w.saved[i], w.book[i]) && Grew(w.book[i], book[i]);
    }
    forall o | o in w.ops ensures StateInv(w.(book := book), o) {
      assert StateInv(w, o);
    }
  }

  lemma OpenKeepsInv(w: World, a: Action)
    requires Inv(w) && a.OpenFrom? && Enabled(w, a)
    ensures Inv(Next(w, a))
  {
    var p := Opened(a.position, Some(a.hash), a.eth, a.gas, a.tokens);
    var book := w.book + [p];
    assert Staged(w.ops, a.id, a.hash);
    assert Known(w.ops, p);
    forall i | 0 <= i < |book| ensures Known(w.ops, book[i]) && TouchedIsFirst(book, i) {
      if i < |w.book| {
        assert book[i] == w.book[i];
        assert TouchedIsFirst(w.book, i);
        if book[i].exits != [] || book[i].overheadOperations != [] {
          FindKeeps(w.book, book, book[i].id);
        }
      }
    }
    forall o | o in w.ops
      ensures Once(book, HashesOf(w.ops[o].txs))
      ensures o != a.id && NoResult(w.book, w.ops[o]) ==> NoResult(book, w.ops[o])
    {
      OpenShowsOnce(w, a, book, o);
    }
    assert Ahead(w.book, book);
    GrowthKeepsStates(w, book, a.id);
  }

  lemma OpenShowsOnce(w: World, a: Action, book: seq<Position>, o: OpId)
    requires Inv(w) && a.OpenFrom? && Enabled(w, a) && o in w.ops
    requires book == w.book + [Opened(a.position, Some(a.hash), a.eth, a.gas, a.tokens)]
    ensures Once(book, HashesOf(w.ops[o].txs))
    ensures o != a.id && NoResult(w.book, w.ops[o]) ==> NoResult(book, w.ops[o])
  {
    var hs := HashesOf(w.ops[o].txs);
    assert Once(w.book, hs);
    forall i: nat ensures EntryAt(book, hs, i) <==> EntryAt(w.book, hs, i) || (i == |w.book| && a.hash in hs) {
    }
    forall i: nat, k: nat ensures LegAt(book, hs, i, k) <==> LegAt(w.book, hs, i, k) {
    }
    assert Staged(w.ops, a.id, a.hash) && (a.hash in hs <==> Staged(w.ops, o, a.hash));
  }

  /** Replacing a position by one with the same id and at least the same history. */
  lemma ReplaceGrows(book: seq<Position>, i: nat, q: Position)
    requires i < |book| && Grew(book[i], q)
    ensures Ahead(book, book[i := q])
    ensures forall id :: Find(book[i := q], id) == Find(book, id)
  {
    var now := book[i := q];
    forall id ensures Find(now, id) == Find(book, id) {
      FindKeeps(book, now, id);
    }
  }

  lemma ReplaceKeepsFirst(ops: map<OpId, Operation>, book: seq<Position>, i: nat, q: Position)
    requires BookInv(ops, book) && i < |book| && Grew(book[i], q) && Find(book, book[i].id) == Some(i) && Known(ops, q)
    ensures var now := book[i := q]; forall j :: 0 <= j < |now| ==> Known(ops, now[j]) && TouchedIsFirst(now, j)
  {
    ReplaceGrows(book, i, q);
    var now := book[i := q];
    forall j | 0 <= j < |now| ensures Known(ops, now[j]) && TouchedIsFirst(now, j) {
      assert TouchedIsFirst(book, j) && Known(ops, book[j]);
    }
  }

  lemma FirstFound(book: seq<Position>, id: PosId)
    requires Find(book, id).Some?
    ensures Find(book, id).value < |book| && book[Find(book, id).value].id == id
    ensures Find(book, book[Find(book, id).value].id) == Find(book, id)
  {
    FindIsFirst(book, id);
  }

  lemma SellKeepsInv(w: World, a: Action)
    requires Inv(w) && a.SellFrom? && Enabled(w, a)
    ensures Inv(Next(w, a))
  {
    var spec := w.ops[a.id].spec;
    var f := Find(w.book, spec.positionId);
    if f.Some? {
      FirstFound(w.book, spec.positionId);
      var i := f.value;
      var p := w.book[i];
      var q := AfterExit(p, a.tokens, a.eth, a.gas, spec.reason, Some(a.hash), a.at);
      if !Sells(p, a.tokens) {
        assert Next(w, a).book == w.book;
      } else {
        SaleKeepsKnown(w, a, i, q);
        ReplaceKeepsFirst(w.ops, w.book, i, q);
        ReplaceGrows(w.book, i, q);
        forall o | o in w.ops
          ensures Once(w.book[i := q], HashesOf(w.ops[o].txs))
          ensures o != a.id && NoResult(w.book, w.ops[o]) ==> NoResult(w.book[i := q], w.ops[o])
        {
          SaleShowsOnce(w, a, i, q, o);
        }
        GrowthKeepsStates(w, w.book[i := q], a.id);
      }
    } else {
      assert Next(w, a).book == w.book;
    }
  }

  lemma SaleKeepsKnown(w: World, a: Action, i: nat, q: Position)
    requires Inv(w) && a.SellFrom? && Enabled(w, a) && i < |w.book| && w.book[i].id == w.ops[a.id].spec.positionId
    requires Sells(w.book[i], a.tokens)
    requires q == AfterExit(w.book[i], a.tokens, a.eth, a.gas, w.ops[a.id].spec.reason, Some(a.hash), a.at)
    ensures Grew(w.book[i], q) && Known(w.ops, q)
  {
    var p := w.book[i];
    assert Known(w.ops, p);
    assert p.exits <= q.exits;
    forall k | 0 <= k < |q.exits| ensures LegKnown(w.ops, q, q.exits[k]) {
      if k < |p.exits| {
        assert LegKnown(w.ops, p, p.exits[k]);
      } else {
        assert Staged(w.ops, a.id, a.hash);
      }
    }
    forall id | id in q.overheadOperations ensures ChargeKnown(w.ops, q, id) {
      assert ChargeKnown(w.ops, p, id);
    }
  }

  lemma SaleShowsOnce(w: World, a: Action, i: nat, q: Position, o: OpId)
    requires Inv(w) && a.SellFrom? && Enabled(w, a) && o in w.ops
    requires i < |w.book| && Sells(w.book[i], a.tokens)
    requires q == AfterExit(w.book[i], a.tokens, a.eth, a.gas, w.ops[a.id].spec.reason, Some(a.hash), a.at)
    ensures Once(w.book[i := q], HashesOf(w.ops[o].txs))
    ensures o != a.id && NoResult(w.book, w.ops[o]) ==> NoResult(w.book[i := q], w.ops[o])
  {
    var hs, book := HashesOf(w.ops[o].txs), w.book[i := q];
    assert Once(w.book, hs);
    forall j: nat ensures EntryAt(book, hs, j) <==> EntryAt(w.book, hs, j) {
    }
    var n := |w.book[i].exits|;
    forall j: nat, k: nat
      ensures LegAt(book, hs, j, k) <==> LegAt(w.book, hs, j, k) || (j == i && k == n && a.hash in hs)
    {
    }
    assert Staged(w.ops, a.id, a.hash) && (a.hash in hs <==> Staged(w.ops, o, a.hash));
  }

  lemma ChargeKeepsInv(w: World, a: Action)
    requires Inv(w) && a.Charge? && Enabled(w, a)
    ensures Inv(Next(w, a))
  {
    var f := Find(w.book, w.ops[a.id].spec.positionId);
    if f.Some? {
      FirstFound(w.book, w.ops[a.id].spec.positionId);
      var i := f.value;
      var p := w.book[i];
      var q := AfterOverhead(p, a.id, a.gas);
      ChargeKeepsKnown(w.ops, p, a.id, a.gas);
      ReplaceKeepsFirst(w.ops, w.book, i, q);
      ReplaceGrows(w.book, i, q);
      forall o | o in w.ops
        ensures Once(w.book[i := q], HashesOf(w.ops[o].txs))
        ensures NoResult(w.book, w.ops[o]) ==> NoResult(w.book[i := q], w.ops[o])
      {
        assert Once(w.book, HashesOf(w.ops[o].txs));
        ChargeShowsSame(w.book, w.book[i := q], HashesOf(w.ops[o].txs));
      }
      GrowthKeepsStates(w, w.book[i := q], a.id);
    } else {
      assert Next(w, a).book == w.book;
    }
  }

  lemma ChargeKeepsKnown(ops: map<OpId, Operation>, p: Position, id: OpId, gas: nat)
    requires Known(ops, p) && id in ops && ops[id].spec.ExitOf? && ops[id].spec.positionId == p.id
    ensures Grew(p, AfterOverhead(p, id, gas)) && Known(ops, AfterOverhead(p, id, gas))
  {
    var q := AfterOverhead(p, id, gas);
    forall k | 0 <= k < |q.exits| ensures LegKnown(ops, q, q.exits[k]) {
      assert LegKnown(ops, p, p.exits[k]);
    }
    forall o | o in q.overheadOperations ensures ChargeKnown(ops, q, o) {
      assert o == id || o in p.overheadOperations;
    }
  }

  lemma ChargeShowsSame(book: seq<Position>, now: seq<Position>, hs: set<Hash>)
    requires |now| == |book| && Once(book, hs)
    requires forall i :: 0 <= i < |book| ==> now[i].entryTx == book[i].entryTx && now[i].exits == book[i].exits
    ensures Once(now, hs)
    ensures HasEntry(now, hs) ==> HasEntry(book, hs)
    ensures HasLeg(now, hs) ==> HasLeg(book, hs)
  {
    assert forall j: nat :: EntryAt(now, hs, j) ==> EntryAt(book, hs, j);
    assert forall j: nat, k: nat :: LegAt(now, hs, j, k) ==> LegAt(book, hs, j, k);
  }

  // ---- Every run ---------------------------------------------------------------------------------

  lemma CommitKeepsInv(w: World)
    requires Inv(w)
    ensures Inv(Next(w, Flush)) && Inv(Next(w, Crash))
  {
    LessKeepsBook(w.ops, w.saved, w.book);
    forall id | id in w.ops ensures StateInv(Next(w, Flush), id) && StateInv(Next(w, Crash), id) {
      assert StateInv(w, id);
      GrowsEvidence(w.saved, w.book, HashesOf(w.ops[id].txs));
      if IsCharged(w.saved, id) {
        var i: nat :| ChargedAt(w.saved, id, i);
        assert Grew(w.saved[i], w.book[i]);
        assert ChargedAt(w.book, id, i);
      }
    }
  }

  lemma SendKeepsInv(w: World, id: OpId, h: Hash)
    requires Inv(w) && Enabled(w, Send(id, h))
    ensures Inv(Next(w, Send(id, h)))
  {
    forall o | o in w.ops ensures StateInv(Next(w, Send(id, h)), o) {
      assert StateInv(w, o);
    }
  }

  lemma StepKeepsInv(w: World, a: Action)
    requires Inv(w) && Enabled(w, a)
    ensures Inv(Next(w, a))
  {
    match a
    case Begin(id, op) => BeginKeepsInv(w, id, op);
    case Record(id, e) => RecordKeepsInv(w, id, e);
    case DropTx(id, h) => DropKeepsInv(w, id, h);
    case Send(id, h) => SendKeepsInv(w, id, h);
    case OpenFrom(_, _, _, _, _, _) => OpenKeepsInv(w, a);
    case SellFrom(_, _, _, _, _, _) => SellKeepsInv(w, a);
    case Charge(_, _) => ChargeKeepsInv(w, a);
    case Flush => CommitKeepsInv(w);
    case Crash => CommitKeepsInv(w);
  }

  /** The invariant holds after every run, crashes included. */
  lemma {:induction false} EveryRunIsSafe(t: Trace)
    requires Legal(t)
    ensures Inv(Replay(t))
  {
    if t.Then? {
      EveryRunIsSafe(t.before);
      StepKeepsInv(Replay(t.before), t.action);
    }
  }
}
