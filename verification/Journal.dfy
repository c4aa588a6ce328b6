/**
 * The write-ahead transaction journal (crates/bodkin/src/trade/journal.rs): records, events and the recovery
 * predicates.
 */
module Journal {
  import opened Common
  import opened Positions

  const CHAIN_ID := 4663
  const CANONICALITY_DEPTH := 64
  const DROP_AFTER_MS := 60_000

  datatype TxState = Prepared | Submitted | Confirmed | Reverted | Rejected | Unresolved | Dropped
  datatype StepName = EntryStep | CurveSell | PoolSell | TokenApproval | Permit2Approval | PlainStep
  datatype OpState = Pending | Applied | Failed

  datatype TxRecord = TxRecord(
    step: StepName,
    nonce: nat,
    hash: Hash,
    state: TxState,
    blockNumber: Option<nat>,
    blockHash: Option<Hash>,
    gasWei: Option<nat>)

  datatype CommandEffect =
    | ReceiptOnly
    | RequiredLog(address: Address, topic: Hash)
    | RuntimeCode(address: Address, codeHash: Hash)

  datatype Spec =
    | Entry(token: Address, curve: Address, value: nat)
    | ExitOf(positionId: PosId, token: Address, curve: Address, reason: string)
    | Command(title: string, effect: CommandEffect)

  datatype Operation = Operation(chainId: nat, wallet: Address, createdAt: nat, state: OpState, spec: Spec,
                                 txs: seq<TxRecord>)

  datatype SignedTx = SignedTx(nonce: nat, hash: Hash)

  datatype Event =
    | Stage(step: StepName, nonce: nat, hash: Hash)
    | StageMany(step: StepName, txs: seq<SignedTx>)
    | MarkSubmitted(hash: Hash)
    | MarkConfirmed(hash: Hash, blockNumber: nat, blockHash: Hash, gasWei: nat)
    | MarkReverted(hash: Hash, blockNumber: nat, blockHash: Hash, gasWei: nat)
    | MarkRejected(hash: Hash)
    | MarkUnresolved(hash: Hash)
    | AllRejected
    | MarkApplied
    | MarkFailed

  function HashesOf(txs: seq<TxRecord>): set<Hash> {
    set t | t in txs :: t.hash
  }

  ghost predicate DistinctHashes(txs: seq<TxRecord>) {
    forall i, j | 0 <= i < j < |txs| :: txs[i].hash != txs[j].hash
  }

  predicate IsAmbiguous(s: TxState) {
    s.Prepared? || s.Submitted? || s.Unresolved?
  }

  predicate IsMined(s: TxState) {
    s.Confirmed? || s.Reverted?
  }

  /** A confirmed approval moves nothing by itself. */
  predicate HasEffect(t: TxRecord) {
    !t.step.TokenApproval? && !t.step.Permit2Approval?
  }

  predicate HasAmbiguous(op: Operation) {
    exists t :: t in op.txs && IsAmbiguous(t.state)
  }

  /** Some transaction confirmed that does something by itself. */
  predicate TookEffect(op: Operation) {
    exists t :: t in op.txs && t.state.Confirmed? && HasEffect(t)
  }

  predicate RequiresRecovery(op: Operation) {
    op.state.Pending? && (HasAmbiguous(op) || TookEffect(op))
  }

  function GasOf(t: TxRecord): nat {
    if t.gasWei.Some? then t.gasWei.value else 0
  }

  function OperationGas(txs: seq<TxRecord>): nat {
    if txs == [] then 0 else OperationGas(txs[..|txs| - 1]) + GasOf(txs[|txs| - 1])
  }

  predicate SameSubject(a: Spec, b: Spec) {
    match (a, b)
    case (Entry(t, _, _), Entry(u, _, _)) => t == u
    case (ExitOf(p, _, _, _), ExitOf(q, _, _, _)) => p == q
    case (Command(l, _), Command(m, _)) => l == m
    case _ => false
  }

  /** Two entries into one token, two exits of one position, two commands of one title. */
  predicate OneSubject(a: Spec, b: Spec) {
    || (a.Entry? && b.Entry? && a.token == b.token)
    || (a.ExitOf? && b.ExitOf? && a.positionId == b.positionId)
    || (a.Command? && b.Command? && a.title == b.title)
  }

  // ---- Applying events -----------------------------------------------------------------------

  function StageOne(txs: seq<TxRecord>, step: StepName, nonce: nat, hash: Hash): seq<TxRecord> {
    if hash in HashesOf(txs) then txs else txs + [TxRecord(step, nonce, hash, Prepared, None, None, None)]
  }

  function StageAll(txs: seq<TxRecord>, step: StepName, more: seq<SignedTx>): seq<TxRecord> {
    if more == [] then txs
    else StageOne(StageAll(txs, step, more[..|more| - 1]), step, more[|more| - 1].nonce, more[|more| - 1].hash)
  }

  /** Rewrites the record of `hash`; distinct hashes make it the only one. */
  function SetRecord(txs: seq<TxRecord>, hash: Hash, state: TxState, bn: Option<nat>, bh: Option<Hash>,
                     gas: Option<nat>)
    : seq<TxRecord>
  {
    seq(|txs|, i requires 0 <= i < |txs| =>
      if txs[i].hash == hash then txs[i].(state := state, blockNumber := bn, blockHash := bh, gasWei := gas)
      else txs[i])
  }

  function RejectOpen(txs: seq<TxRecord>): seq<TxRecord> {
    seq(|txs|, i requires 0 <= i < |txs| => if IsAmbiguous(txs[i].state) then txs[i].(state := Rejected) else txs[i])
  }

  /** `set_tx_state(.., Dropped, None)` clears the block number only: block hash and gas stay as they were. */
  function DropRecord(txs: seq<TxRecord>, hash: Hash): seq<TxRecord> {
    seq(|txs|, i requires 0 <= i < |txs| =>
      if txs[i].hash == hash then txs[i].(state := Dropped, blockNumber := None) else txs[i])
  }

  /** The hash an event needs to find already staged. */
  function Addressee(e: Event): Option<Hash> {
    match e
    case MarkSubmitted(h) => Some(h)
    case MarkConfirmed(h, _, _, _) => Some(h)
    case MarkReverted(h, _, _, _) => Some(h)
    case MarkRejected(h) => Some(h)
    case MarkUnresolved(h) => Some(h)
    case _ => None
  }

  predicate Accepts(op: Operation, e: Event) {
    Addressee(e).None? || Addressee(e).value in HashesOf(op.txs)
  }

  function AfterEvent(op: Operation, e: Event): Operation {
    match e
    case Stage(step, nonce, hash) => op.(txs := StageOne(op.txs, step, nonce, hash))
    case StageMany(step, more) => op.(txs := StageAll(op.txs, step, more))
    case MarkSubmitted(h) => op.(txs := SetRecord(op.txs, h, Submitted, None, None, None))
    case MarkConfirmed(h, bn, bh, gas) => op.(txs := SetRecord(op.txs, h, Confirmed, Some(bn), Some(bh), Some(gas)))
    case MarkReverted(h, bn, bh, gas) => op.(txs := SetRecord(op.txs, h, Reverted, Some(bn), Some(bh), Some(gas)))
    case MarkRejected(h) => op.(txs := SetRecord(op.txs, h, Rejected, None, None, None))
    case MarkUnresolved(h) => op.(txs := SetRecord(op.txs, h, Unresolved, None, None, None))
    case AllRejected => op.(txs := RejectOpen(op.txs))
    case MarkApplied => op.(state := Applied)
    case MarkFailed => op.(state := Failed)
  }

  /** The hashes an event adds to an operation. */
  function NewHashes(e: Event): set<Hash> {
    match e
    case Stage(_, _, h) => {h}
    case StageMany(_, more) => set s | s in more :: s.hash
    case _ => {}
  }

  lemma StageOneHashes(txs: seq<TxRecord>, step: StepName, nonce: nat, hash: Hash)
    requires DistinctHashes(txs)
    ensures DistinctHashes(StageOne(txs, step, nonce, hash))
    ensures HashesOf(StageOne(txs, step, nonce, hash)) == HashesOf(txs) + {hash}
  {
    if hash !in HashesOf(txs) {
      var t := TxRecord(step, nonce, hash, Prepared, None, None, None);
      assert forall u :: u in txs + [t] <==> u in txs || u == t;
      assert forall i | 0 <= i < |txs| :: txs[i] in txs && txs[i].hash in HashesOf(txs);
    }
  }

  lemma {:induction false} StageAllHashes(txs: seq<TxRecord>, step: StepName, more: seq<SignedTx>)
    requires DistinctHashes(txs)
    ensures DistinctHashes(StageAll(txs, step, more))
    ensures HashesOf(StageAll(txs, step, more)) == HashesOf(txs) + set s | s in more :: s.hash
  {
    if more != [] {
      var front, last := more[..|more| - 1], more[|more| - 1];
      StageAllHashes(txs, step, front);
      StageOneHashes(StageAll(txs, step, front), step, last.nonce, last.hash);
      assert more == front + [last];
      assert (set s | s in more :: s.hash) == (set s | s in front :: s.hash) + {last.hash};
    }
  }

  /** A rewrite that leaves every hash in place leaves the hash set in place. */
  lemma SameHashes(a: seq<TxRecord>, b: seq<TxRecord>)
    requires |a| == |b| && forall i | 0 <= i < |a| :: a[i].hash == b[i].hash
    ensures HashesOf(a) == HashesOf(b)
    ensures DistinctHashes(a) ==> DistinctHashes(b)
  {
    forall h | h in HashesOf(a) ensures h in HashesOf(b) {
      var i :| 0 <= i < |a| && a[i].hash == h;
      assert b[i] in b;
    }
    forall h | h in HashesOf(b) ensures h in HashesOf(a) {
      var i :| 0 <= i < |b| && b[i].hash == h;
      assert a[i] in a;
    }
  }

  /** Events never lose a transaction and never record one twice. */
  lemma EventHashes(op: Operation, e: Event)
    requires DistinctHashes(op.txs)
    ensures DistinctHashes(AfterEvent(op, e).txs)
    ensures HashesOf(AfterEvent(op, e).txs) == HashesOf(op.txs) + NewHashes(e)
    ensures AfterEvent(op, e) == op.(txs := AfterEvent(op, e).txs, state := AfterEvent(op, e).state)
  {
    match e
    case Stage(step, nonce, hash) => StageOneHashes(op.txs, step, nonce, hash);
    case StageMany(step, more) => StageAllHashes(op.txs, step, more);
    case _ =>
      SameHashes(op.txs, AfterEvent(op, e).txs);
  }

  /** The record an event about this transaction leaves of it. */
  predicate LeavesOf(e: Event, t: TxRecord, now: TxRecord) {
    && now.step == t.step && now.nonce == t.nonce && now.hash == t.hash
    && match e
       case MarkSubmitted(_) => now.state == Submitted && now.blockNumber == now.blockHash == now.gasWei == None
       case MarkRejected(_) => now.state == Rejected && now.blockNumber == now.blockHash == now.gasWei == None
       case MarkUnresolved(_) => now.state == Unresolved && now.blockNumber == now.blockHash == now.gasWei == None
       case MarkConfirmed(_, bn, bh, gas) =>
         now.state == Confirmed && now.blockNumber == Some(bn) && now.blockHash == Some(bh) && now.gasWei == Some(gas)
       case MarkReverted(_, bn, bh, gas) =>
         now.state == Reverted && now.blockNumber == Some(bn) && now.blockHash == Some(bh) && now.gasWei == Some(gas)
       case AllRejected =>
         now == if t.state == Prepared || t.state == Submitted || t.state == Unresolved then t.(state := Rejected)
         else t
       case _ => now == t
  }

  predicate Speaks(e: Event, hash: Hash) {
    match e
    case MarkSubmitted(h) => h == hash
    case MarkConfirmed(h, _, _, _) => h == hash
    case MarkReverted(h, _, _, _) => h == hash
    case MarkRejected(h) => h == hash
    case MarkUnresolved(h) => h == hash
    case _ => true
  }

  lemma {:induction false} StagedAreBlank(txs: seq<TxRecord>, step: StepName, more: seq<SignedTx>)
    ensures var now := StageAll(txs, step, more);
      && txs <= now
      && forall i :: |txs| <= i < |now| ==>
           now[i] == TxRecord(step, now[i].nonce, now[i].hash, Prepared, None, None, None)
           && SignedTx(now[i].nonce, now[i].hash) in more
  {
    if more != [] {
      StagedAreBlank(txs, step, more[..|more| - 1]);
      assert more == more[..|more| - 1] + [more[|more| - 1]];
    }
  }

  /** An event changes the records it speaks of, each as it says, and adds blank ones at the end only when staging. */
  lemma EventSays(op: Operation, e: Event, i: nat)
    ensures var now := AfterEvent(op, e);
      && |op.txs| <= |now.txs| && (!e.Stage? && !e.StageMany? ==> |now.txs| == |op.txs|)
      && (i < |op.txs| ==> if Speaks(e, op.txs[i].hash) then LeavesOf(e, op.txs[i], now.txs[i])
                           else now.txs[i] == op.txs[i])
      && (|op.txs| <= i < |now.txs| ==> now.txs[i].state == Prepared && now.txs[i].gasWei == None)
      && now.state == (if e.MarkApplied? then Applied else if e.MarkFailed? then Failed else op.state)
  {
    match e
    case StageMany(step, more) => StagedAreBlank(op.txs, step, more);
    case _ =>
  }

  lemma DropHashes(txs: seq<TxRecord>, hash: Hash)
    requires DistinctHashes(txs)
    ensures DistinctHashes(DropRecord(txs, hash)) && HashesOf(DropRecord(txs, hash)) == HashesOf(txs)
  {
    SameHashes(txs, DropRecord(txs, hash));
  }

  // ---- What the chain says ---------------------------------------------------------------------

  datatype PoolFill = PoolFill(tokens: nat, netOut: nat)
  datatype LogId = LogId(address: Address, topic: Hash)

  /** A receipt with the amounts its logs decode to for this wallet. */
  datatype Receipt = Receipt(
    txHash: Option<Hash>,
    status: Option<bool>,
    blockNumber: Option<nat>,
    blockHash: Option<Hash>,
    gasWei: nat,
    boughtTokens: nat,
    refundedEth: nat,
    soldTokens: nat,
    soldForEth: nat,
    poolFill: Option<PoolFill>,
    logs: set<LogId>)

  /** Everything one recovery reads from the network. A hash without an entry has no receipt. */
  datatype ChainView = ChainView(
    head: nat,
    latestNonce: nat,
    pendingNonce: nat,
    nowMs: nat,
    receipts: map<Hash, Receipt>,
    blocks: map<nat, Hash>,
    codeHash: map<Address, Hash>)

  predicate IsCanonical(view: ChainView, r: Receipt) {
    && r.blockNumber.Some? && r.blockHash.Some?
    && r.blockNumber.value in view.blocks && view.blocks[r.blockNumber.value] == r.blockHash.value
  }

  /** The chain has this transaction's own receipt, on a block that is still there. */
  predicate Placed(view: ChainView, hash: Hash) {
    && hash in view.receipts
    && var r := view.receipts[hash];
       && r.txHash == Some(hash) && r.blockNumber.Some? && r.blockHash.Some?
       && r.blockNumber.value in view.blocks && view.blocks[r.blockNumber.value] == r.blockHash.value
  }

  /** And the receipt says that it succeeded. */
  predicate Succeeded(view: ChainView, hash: Hash) {
    Placed(view, hash) && view.receipts[hash].status == Some(true)
  }

  /** No receipt, a minute old, and the wallet's nonce has not moved past it. */
  predicate NeverLanded(view: ChainView, createdAt: nat, nonce: nat) {
    Monus(view.nowMs, createdAt) >= DROP_AFTER_MS && view.latestNonce <= nonce && view.pendingNonce <= nonce
  }

  datatype Verdict = Leave | Say(event: Event) | Drop

  function VerdictOn(t: TxRecord, createdAt: nat, view: ChainView): Verdict {
    if t.state.Rejected? || t.state.Dropped? then Leave
    else if t.hash !in view.receipts then
      (if NeverLanded(view, createdAt, t.nonce) then Drop else Say(MarkUnresolved(t.hash)))
    else
      var r := view.receipts[t.hash];
      if r.txHash != Some(t.hash) || !IsCanonical(view, r) || r.status.None? then Say(MarkUnresolved(t.hash))
      else if r.status.value then Say(MarkConfirmed(t.hash, r.blockNumber.value, r.blockHash.value, r.gasWei))
      else Say(MarkReverted(t.hash, r.blockNumber.value, r.blockHash.value, r.gasWei))
  }

  function Refreshed1(t: TxRecord, createdAt: nat, view: ChainView): TxRecord {
    match VerdictOn(t, createdAt, view)
    case Leave => t
    case Drop => t.(state := Dropped, blockNumber := None)
    case Say(MarkConfirmed(_, bn, bh, gas)) =>
      t.(state := Confirmed, blockNumber := Some(bn), blockHash := Some(bh), gasWei := Some(gas))
    case Say(MarkReverted(_, bn, bh, gas)) =>
      t.(state := Reverted, blockNumber := Some(bn), blockHash := Some(bh), gasWei := Some(gas))
    case Say(_) => t.(state := Unresolved, blockNumber := None, blockHash := None, gasWei := None)
  }

  /** The operation after every transaction has been checked against one view of the chain. */
  function Refreshed(op: Operation, view: ChainView): Operation {
    op.(txs := seq(|op.txs|, i requires 0 <= i < |op.txs| => Refreshed1(op.txs[i], op.createdAt, view)))
  }

  /** After a refresh nothing is merely prepared or submitted, and a confirmed transaction has a canonical receipt. */
  lemma RefreshSettles(op: Operation, view: ChainView, t: TxRecord)
    requires t in Refreshed(op, view).txs
    ensures !t.state.Prepared? && !t.state.Submitted?
    ensures IsMined(t.state) ==>
      && t.hash in view.receipts && IsCanonical(view, view.receipts[t.hash])
      && t.blockNumber == view.receipts[t.hash].blockNumber && t.blockHash == view.receipts[t.hash].blockHash
      && t.gasWei == Some(view.receipts[t.hash].gasWei)
      && view.receipts[t.hash].status == Some(t.state.Confirmed?)
  {
  }

  lemma RefreshHashes(op: Operation, view: ChainView)
    ensures HashesOf(Refreshed(op, view).txs) == HashesOf(op.txs)
    ensures DistinctHashes(op.txs) ==> DistinctHashes(Refreshed(op, view).txs)
  {
    SameHashes(op.txs, Refreshed(op, view).txs);
  }

  /** One refreshed transaction is the journal event the code records for it. */
  lemma RefreshIsOneEvent(txs: seq<TxRecord>, i: nat, createdAt: nat, view: ChainView)
    requires i < |txs| && DistinctHashes(txs)
    ensures var t := txs[i];
      txs[i := Refreshed1(t, createdAt, view)] ==
        match VerdictOn(t, createdAt, view)
        case Leave => txs
        case Drop => DropRecord(txs, t.hash)
        case Say(MarkConfirmed(h, bn, bh, gas)) => SetRecord(txs, h, Confirmed, Some(bn), Some(bh), Some(gas))
        case Say(MarkReverted(h, bn, bh, gas)) => SetRecord(txs, h, Reverted, Some(bn), Some(bh), Some(gas))
        case Say(_) => SetRecord(txs, t.hash, Unresolved, None, None, None)
  {
  }

  // ---- Applied operations and reorganisations --------------------------------------------------

  /** Some mined transaction of an applied operation is recent enough to be checked again. */
  predicate StillWatched(op: Operation, head: nat) {
    exists t :: t in op.txs && IsMined(t.state) && IsRecent(t, head)
  }

  predicate IsRecent(t: TxRecord, head: nat) {
    t.blockNumber.None? || head <= Min(t.blockNumber.value + CANONICALITY_DEPTH, U64 - 1)
  }

  predicate Selected(op: Operation, wallet: Address, head: nat) {
    && op.chainId == CHAIN_ID && op.wallet == wallet
    && (op.state.Pending? || (op.state.Applied? && StillWatched(op, head)))
  }

  function RecordOf(txs: seq<TxRecord>, hash: Hash): Option<TxRecord> {
    if txs == [] then None else if txs[0].hash == hash then Some(txs[0]) else RecordOf(txs[1..], hash)
  }

  predicate ReceiptMoved(before: TxRecord, now: seq<TxRecord>) {
    match RecordOf(now, before.hash)
    case None => true
    case Some(after) =>
      || after.state != before.state
      || after.blockNumber != before.blockNumber
      || after.blockHash.None?
      || (before.blockHash.Some? && after.blockHash != before.blockHash)
  }

  predicate ReceiptsChanged(before: Operation, now: Operation) {
    exists t :: t in before.txs && IsMined(t.state) && ReceiptMoved(t, now.txs)
  }

  lemma {:induction false} RecordOfDistinct(txs: seq<TxRecord>, i: nat)
    requires i < |txs| && DistinctHashes(txs)
    ensures RecordOf(txs, txs[i].hash) == Some(txs[i])
  {
    if i > 0 {
      RecordOfDistinct(txs[1..], i - 1);
    }
  }

  /**
   * Recovery reports an applied operation exactly when a mined transaction no longer has the receipt it was applied
   * on.
   */
  lemma ReorgIsReportedExactly(op: Operation, view: ChainView)
    requires DistinctHashes(op.txs)
    requires forall t :: t in op.txs && IsMined(t.state) ==> t.blockNumber.Some? && t.blockHash.Some?
    ensures ReceiptsChanged(op, Refreshed(op, view)) <==>
      exists t :: t in op.txs && IsMined(t.state) && !StillHas(view, t)
  {
    var now := Refreshed(op, view);
    RefreshHashes(op, view);
    forall i | 0 <= i < |op.txs| && IsMined(op.txs[i].state)
      ensures ReceiptMoved(op.txs[i], now.txs) <==> !StillHas(view, op.txs[i])
    {
      RecordOfDistinct(now.txs, i);
    }
  }

  /** The chain still shows this transaction mined where, and as, the journal has it. */
  predicate StillHas(view: ChainView, t: TxRecord) {
    && t.hash in view.receipts
    && view.receipts[t.hash].txHash == Some(t.hash)
    && IsCanonical(view, view.receipts[t.hash])
    && view.receipts[t.hash].status == Some(t.state.Confirmed?)
    && view.receipts[t.hash].blockNumber == t.blockNumber
    && view.receipts[t.hash].blockHash == t.blockHash
  }

  lemma UnmovedStaysHarmless(t: TxRecord, createdAt: nat, view: ChainView)
    requires !IsAmbiguous(t.state) && (IsMined(t.state) ==> StillHas(view, t))
    ensures var now := Refreshed1(t, createdAt, view); now.state == t.state && now.step == t.step
  {
  }

  /** An attempt that left nothing to recover can only come to need recovery through a reorganisation. */
  lemma HarmlessUntilReorg(op: Operation, view: ChainView)
    requires op.state.Pending? && !RequiresRecovery(op)
    ensures RequiresRecovery(Refreshed(op, view)) ==> exists t :: t in op.txs && IsMined(t.state) && !StillHas(view, t)
  {
    if forall t :: t in op.txs && IsMined(t.state) ==> StillHas(view, t) {
      forall i | 0 <= i < |op.txs|
        ensures var u := Refreshed1(op.txs[i], op.createdAt, view);
          !IsAmbiguous(u.state) && !(u.state.Confirmed? && HasEffect(u))
      {
        assert op.txs[i] in op.txs;
        UnmovedStaysHarmless(op.txs[i], op.createdAt, view);
      }
    }
  }

  /** Checking again against the same chain finds nothing new. */
  lemma RefreshIsIdempotent(op: Operation, view: ChainView)
    ensures Refreshed(Refreshed(op, view), view) == Refreshed(op, view)
  {
    var a, b := Refreshed(Refreshed(op, view), view).txs, Refreshed(op, view).txs;
    assert |a| == |b| && forall i :: 0 <= i < |a| ==> a[i] == b[i];
  }

  /**
   * The report is given once. The refresh that notices a lost receipt also writes over it, so a second recovery
   * against the same chain reports nothing, although nothing has been repaired.
   */
  lemma ReorgIsReportedOnce(op: Operation, view: ChainView)
    requires DistinctHashes(op.txs)
    ensures !ReceiptsChanged(Refreshed(op, view), Refreshed(Refreshed(op, view), view))
  {
    var now := Refreshed(op, view);
    RefreshIsIdempotent(op, view);
    RefreshHashes(op, view);
    forall i | 0 <= i < |now.txs| && IsMined(now.txs[i].state) ensures !ReceiptMoved(now.txs[i], now.txs) {
      RecordOfDistinct(now.txs, i);
      RefreshSettles(op, view, now.txs[i]);
    }
  }

  // ---- The ten-second watch ----------------------------------------------------------------------

  /** `canonical_issues`: a recent mined transaction of an applied operation is no longer where the journal has it. */
  predicate HasIssue(op: Operation, view: ChainView) {
    exists t :: t in op.txs && IsMined(t.state) && IsRecent(t, view.head) && !StillHas(view, t)
  }

  /** The watch never cries out where recovery would not, and misses only what has left its window. */
  lemma WatchAgreesWithRecovery(op: Operation, wallet: Address, view: ChainView)
    requires DistinctHashes(op.txs) && op.state.Applied? && op.chainId == CHAIN_ID && op.wallet == wallet
    requires forall t :: t in op.txs && IsMined(t.state) ==> t.blockNumber.Some? && t.blockHash.Some?
    ensures HasIssue(op, view) ==> Selected(op, wallet, view.head) && ReceiptsChanged(op, Refreshed(op, view))
    ensures (forall t :: t in op.txs && IsMined(t.state) ==> IsRecent(t, view.head)) ==>
      (HasIssue(op, view) <==> ReceiptsChanged(op, Refreshed(op, view)))
  {
    ReorgIsReportedExactly(op, view);
  }

  // ---- Gas -------------------------------------------------------------------------------------

  function MinedGas(txs: seq<TxRecord>): nat {
    if txs == [] then 0 else
      MinedGas(txs[..|txs| - 1]) + (if IsMined(txs[|txs| - 1].state) then GasOf(txs[|txs| - 1]) else 0)
  }

  /** Some transaction that is not mined still carries gas from an earlier life. */
  predicate CarriesStaleGas(txs: seq<TxRecord>) {
    exists t :: t in txs && !IsMined(t.state) && GasOf(t) > 0
  }

  lemma {:induction false} StaleGasSplit(txs: seq<TxRecord>)
    ensures OperationGas(txs) >= MinedGas(txs)
    ensures OperationGas(txs) == MinedGas(txs) <==> !CarriesStaleGas(txs)
  {
    if txs != [] {
      var front, last := txs[..|txs| - 1], txs[|txs| - 1];
      StaleGasSplit(front);
      assert txs == front + [last];
      assert CarriesStaleGas(txs) <==> CarriesStaleGas(front) || (!IsMined(last.state) && GasOf(last) > 0);
    }
  }

  /** The record carries gas and is given up: it was before, or it has no receipt and this refresh takes it for lost. */
  predicate GivenUpWithGas(t: TxRecord, createdAt: nat, view: ChainView) {
    && GasOf(t) > 0
    && (t.state.Rejected? || t.state.Dropped? || (t.hash !in view.receipts && NeverLanded(view, createdAt, t.nonce)))
  }

  /**
   * After a refresh the gas of an operation is the gas of its mined transactions exactly when none with gas was given
   * up. If none was before, that means exactly that the branch that drops a transaction is not taken on one with gas.
   */
  lemma GasIsMinedGas(op: Operation, view: ChainView)
    ensures var now := Refreshed(op, view).txs;
      OperationGas(now) == MinedGas(now) <==> forall t :: t in op.txs ==> !GivenUpWithGas(t, op.createdAt, view)
    ensures var now := Refreshed(op, view).txs;
      !CarriesStaleGas(op.txs) ==>
        (OperationGas(now) == MinedGas(now) <==>
          forall t :: t in op.txs && GasOf(t) > 0 ==>
            t.hash in view.receipts || !NeverLanded(view, op.createdAt, t.nonce))
  {
    var now := Refreshed(op, view).txs;
    StaleGasSplit(now);
    forall i | 0 <= i < |op.txs|
      ensures op.txs[i] in op.txs && now[i] in now
      ensures !IsMined(now[i].state) && GasOf(now[i]) > 0 <==> GivenUpWithGas(op.txs[i], op.createdAt, view)
    {
    }
  }

  lemma {:induction false} StagedCarryNoGas(txs: seq<TxRecord>, step: StepName, more: seq<SignedTx>)
    requires !CarriesStaleGas(txs)
    ensures !CarriesStaleGas(StageAll(txs, step, more))
  {
    if more != [] {
      StagedCarryNoGas(txs, step, more[..|more| - 1]);
    }
  }

  /** No event leaves gas on a record that is not mined; only the drop does. */
  lemma EventsLeaveNoStaleGas(op: Operation, e: Event)
    requires !CarriesStaleGas(op.txs)
    ensures !CarriesStaleGas(AfterEvent(op, e).txs)
  {
    if e.StageMany? {
      StagedCarryNoGas(op.txs, e.step, e.txs);
    } else if e.AllRejected? {
      forall i | 0 <= i < |op.txs| ensures GasOf(RejectOpen(op.txs)[i]) == 0 || IsMined(RejectOpen(op.txs)[i].state) {
        assert op.txs[i] in op.txs;
      }
    } else {
      forall t | t in AfterEvent(op, e).txs ensures IsMined(t.state) || GasOf(t) == 0 {
        assert t in op.txs || GasOf(t) == 0 || IsMined(t.state);
      }
    }
  }

  /** A drop does so exactly when the record it drops has gas. */
  lemma DropLeavesStaleGas(txs: seq<TxRecord>, hash: Hash)
    requires !CarriesStaleGas(txs)
    ensures CarriesStaleGas(DropRecord(txs, hash)) <==> exists t :: t in txs && t.hash == hash && GasOf(t) > 0
  {
    var now := DropRecord(txs, hash);
    forall i | 0 <= i < |txs|
      ensures txs[i] in txs && now[i] in now
      ensures !IsMined(now[i].state) && GasOf(now[i]) > 0 <==> txs[i].hash == hash && GasOf(txs[i]) > 0
    {
    }
  }

  /**
   * It can keep one: a reverted transaction whose receipt vanishes, its nonce unused, is dropped with its gas still
   * written.
   */
  lemma DroppedTransactionKeepsItsGas()
    ensures exists op: Operation, view: ChainView ::
      && DistinctHashes(op.txs) && !CarriesStaleGas(op.txs)
      && MinedGas(Refreshed(op, view).txs) == 0 && OperationGas(Refreshed(op, view).txs) > 0
  {
    var t := TxRecord(CurveSell, 7, 1, Reverted, Some(5), Some(9), Some(21_000));
    var op := Operation(CHAIN_ID, 3, 0, Pending, ExitOf(PosId(1, 1), 1, 2, "manual"), [t]);
    var view := ChainView(5, 7, 7, DROP_AFTER_MS, map[], map[], map[]);
    var now := Refreshed(op, view);
    var u := t.(state := Dropped, blockNumber := None);
    assert now.txs == [u];
    assert now.txs[..0] == [];
    assert OperationGas([]) == 0 && MinedGas([]) == 0;
    assert OperationGas(now.txs) == 21_000 && MinedGas(now.txs) == 0;
  }
}
