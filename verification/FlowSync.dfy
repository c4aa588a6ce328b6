/** `sync_flow` (crates/bodkin/src/run.rs) against a chain that may reorganise between calls. */
module FlowSync {
  import opened Common
  import opened Flow
  import opened Listing
  import opened Stream
  import opened Snapshot

  /** One curve's view of the chain at one moment: block `n` is `chain[n]`. */
  datatype Block = Block(hash: Hash, logs: seq<Delivery>)
  type Chain = seq<Block>

  /** The logs of blocks `from .. to`, `to` excluded, in chain order. */
  function LogsIn(chain: Chain, from: nat, to: nat): seq<Delivery>
    requires to <= |chain|
  {
    if to <= from then [] else LogsIn(chain, from, to - 1) + chain[to - 1].logs
  }

  /** A log query answers with this curve's own logs, each carrying the number of its block, none marked removed. */
  ghost predicate Serves(chain: Chain, curve: Address) {
    && 0 < |chain|
    && (forall n, d | 0 <= n < |chain| && d in chain[n].logs ::
          d.log.address == curve && !d.log.removed && d.log.blockNumber == Some(n))
    && (forall n | 0 <= n < |chain| :: chain[n].hash != 0)
  }

  /** A block hash commits to everything up to its block. */
  ghost predicate HashesAgree(a: Chain, b: Chain) {
    forall n | 0 <= n < |a| && n < |b| && a[n].hash == b[n].hash :: a[..n + 1] == b[..n + 1]
  }

  /** A fresh tracker fed every canonical log of blocks `origin .. upTo`, `upTo` excluded. */
  function Rebuilt(f: CurveFlow, chain: Chain, upTo: nat): CurveFlow
    requires upTo <= |chain|
  {
    Absorb(EmptyFlow(f.launchedAt, f.originBlock, f.insiders), LogsIn(chain, f.originBlock, upTo))
  }

  ghost predicate SameTables(f: CurveFlow, g: CurveFlow) {
    f.events == g.events && f.identities == g.identities
  }

  /** The tracker equals a rebuild on the chain it was last anchored in, up to its own cursor. */
  ghost predicate AnchoredIn(f: CurveFlow, seen: Chain) {
    && f.originBlock <= f.nextBlock <= |seen|
    && (f.anchor.None? ==> f.nextBlock == f.originBlock)
    && (f.anchor.Some? ==>
          f.originBlock < f.nextBlock && f.anchor.value == Anchor(f.nextBlock - 1, seen[f.nextBlock - 1].hash))
    && SameTables(f, Rebuilt(f, seen, f.nextBlock))
  }

  /** A tracker that has just been told to watch a curve, or has just been rewound. */
  predicate Untouched(f: CurveFlow) {
    f.nextBlock == f.originBlock && f.anchor.None? && f.events == map[] && f.identities == map[]
  }

  ghost predicate Tracks(f: CurveFlow, seen: Chain) {
    Untouched(f) || AnchoredIn(f, seen)
  }

  lemma {:induction false} LogsSplit(chain: Chain, from: nat, mid: nat, to: nat)
    requires from <= mid <= to <= |chain|
    ensures LogsIn(chain, from, to) == LogsIn(chain, from, mid) + LogsIn(chain, mid, to)
  {
    if mid < to {
      LogsSplit(chain, from, mid, to - 1);
      assert LogsIn(chain, from, mid) + LogsIn(chain, mid, to)
          == LogsIn(chain, from, mid) + LogsIn(chain, mid, to - 1) + chain[to - 1].logs;
    }
  }

  lemma {:induction false} LogsOfSamePrefix(a: Chain, b: Chain, from: nat, to: nat)
    requires to <= |a| && to <= |b| && a[..to] == b[..to]
    ensures LogsIn(a, from, to) == LogsIn(b, from, to)
  {
    if from < to {
      assert a[..to - 1] == a[..to][..to - 1] && b[..to - 1] == b[..to][..to - 1];
      LogsOfSamePrefix(a, b, from, to - 1);
      assert a[to - 1] == a[..to][to - 1] && b[to - 1] == b[..to][to - 1];
    }
  }

  lemma {:induction false} LogsComeFromTheirBlocks(chain: Chain, curve: Address, from: nat, to: nat)
    requires Serves(chain, curve) && to <= |chain|
    ensures forall d :: d in LogsIn(chain, from, to) ==>
      d.log.address == curve && d.log.blockNumber.Some? && from <= d.log.blockNumber.value < to && !d.log.removed
  {
    if from < to {
      LogsComeFromTheirBlocks(chain, curve, from, to - 1);
    }
  }

  /** Every key in a tracker fed by block-numbered logs lies in the range those logs came from. */
  lemma {:induction false} KeysStayInRange(f: CurveFlow, ds: seq<Delivery>, from: nat)
    requires f.events == map[] && f.identities == map[]
    requires forall d :: d in ds ==> d.log.blockNumber.Some? && from <= d.log.blockNumber.value
    ensures forall k :: k in Absorb(f, ds).events ==> from <= k.blockNumber
    ensures forall id :: id in Absorb(f, ds).identities ==> from <= Absorb(f, ds).identities[id].blockNumber
  {
    if ds != [] {
      assert forall d :: d in ds[..|ds| - 1] ==> d in ds;
      KeysStayInRange(f, ds[..|ds| - 1], from);
      assert ds[|ds| - 1] in ds;
    }
  }

  lemma {:induction false} LogsAreTheBlocks(chain: Chain, from: nat, to: nat, d: Delivery)
    requires to <= |chain|
    ensures d in LogsIn(chain, from, to) <==> exists n :: from <= n < to && d in chain[n].logs
  {
    if from < to {
      LogsAreTheBlocks(chain, from, to - 1, d);
    }
  }

  /**
   * On a chain where no transaction log appears twice, a rebuild holds exactly the curve events of the blocks from the
   * origin to the cursor: every one of them, each under its own key, and nothing else.
   */
  lemma RebuildIsTheCanonicalEvents(f: CurveFlow, chain: Chain, upTo: nat, key: EventKey, stored: StoredEvent)
    requires upTo <= |chain| && Consistent(LogsIn(chain, f.originBlock, upTo))
    ensures var g := Rebuilt(f, chain, upTo);
      (key in g.events && g.events[key] == stored)
      <==> exists n, d :: f.originBlock <= n < upTo && d in chain[n].logs && EffectOf(d) == Put(key, stored)
  {
    var ds := LogsIn(chain, f.originBlock, upTo);
    EventsAreTheLogs(EmptyFlow(f.launchedAt, f.originBlock, f.insiders), ds, key, stored);
    forall d: Delivery
      ensures d in ds <==> exists n :: f.originBlock <= n < upTo && d in chain[n].logs
    {
      LogsAreTheBlocks(chain, f.originBlock, upTo, d);
    }
  }

  /** Going back to the origin really empties the tables. */
  lemma RewindClears(f: CurveFlow, seen: Chain, curve: Address)
    requires AnchoredIn(f, seen) && Serves(seen, curve)
    ensures Untouched(Rewound(f, f.originBlock))
  {
    var start := EmptyFlow(f.launchedAt, f.originBlock, f.insiders);
    LogsComeFromTheirBlocks(seen, curve, f.originBlock, f.nextBlock);
    KeysStayInRange(start, LogsIn(seen, f.originBlock, f.nextBlock), f.originBlock);
    var g := Rewound(f, f.originBlock);
    assert g.events == map[] && g.identities == map[];
  }

  /** An anchor that still matches carries the whole tracker over to the new chain. */
  lemma MatchingAnchorCarriesOver(f: CurveFlow, seen: Chain, now: Chain)
    requires AnchoredIn(f, seen) && f.anchor.Some? && HashesAgree(seen, now)
    requires f.anchor.value.block < |now| && now[f.anchor.value.block].hash == f.anchor.value.hash
    ensures f.nextBlock <= |now| && AnchoredIn(f, now)
  {
    var n := f.anchor.value.block;
    assert seen[..n + 1] == now[..n + 1];
    LogsOfSamePrefix(seen, now, f.originBlock, n + 1);
  }

  /** Continuing from the cursor and starting over from the origin end in the same tables. */
  lemma ContinueEqualsRebuild(f: CurveFlow, now: Chain, g: CurveFlow)
    requires AnchoredIn(f, now)
    requires SameTables(g, Absorb(f, LogsIn(now, f.nextBlock, |now|)))
    requires g.launchedAt == f.launchedAt && g.originBlock == f.originBlock && g.insiders == f.insiders
    ensures SameTables(g, Rebuilt(g, now, |now|))
  {
    var start := EmptyFlow(f.launchedAt, f.originBlock, f.insiders);
    var past, later := LogsIn(now, f.originBlock, f.nextBlock), LogsIn(now, f.nextBlock, |now|);
    LogsSplit(now, f.originBlock, f.nextBlock, |now|);
    AbsorbConcat(start, past, later);
    AbsorbKeepsCursor(start, past);
    TablesDecide(f, Absorb(start, past), later);
  }

  lemma {:induction false} TablesDecide(f: CurveFlow, g: CurveFlow, ds: seq<Delivery>)
    requires SameTables(f, g)
    ensures SameTables(Absorb(f, ds), Absorb(g, ds))
  {
    if ds != [] {
      TablesDecide(f, g, ds[..|ds| - 1]);
    }
  }

  /** An untouched tracker is anchored, vacuously, in any chain that reaches its origin. */
  lemma UntouchedIsAnchored(f: CurveFlow, now: Chain)
    requires Untouched(f) && f.originBlock <= |now|
    ensures AnchoredIn(f, now)
  {
    assert LogsIn(now, f.originBlock, f.originBlock) == [];
  }

  /** The chain still has a block at the height of the anchor, or there is no anchor. */
  predicate AnchorReached(f: CurveFlow, now: Chain) {
    f.anchor.Some? ==> f.anchor.value.block < |now|
  }

  /** Asks the chain for the anchor block; a different hash there sends the tracker back to its origin. */
  method CheckAnchor(tracker: FlowTracker, curve: Address, now: Chain, ghost seen: Chain) returns (known: bool)
    requires tracker.Valid() && curve in tracker.curves
    requires Serves(now, curve) && Serves(seen, curve) && HashesAgree(seen, now)
    requires Tracks(tracker.curves[curve], seen)
    modifies tracker
    ensures tracker.Valid() && tracker.curves.Keys == old(tracker.curves.Keys)
    ensures forall c :: c in tracker.curves && c != curve ==> tracker.curves[c] == old(tracker.curves[c])
    ensures Tracks(tracker.curves[curve], seen)
    ensures known ==> Tracks(tracker.curves[curve], now)
    ensures known <==> AnchorReached(old(tracker.curves[curve]), now)
    ensures tracker.curves[curve].originBlock == old(tracker.curves[curve]).originBlock
  {
    var plan := tracker.curves[curve];
    if plan.anchor.Some? {
      if plan.anchor.value.block >= |now| {
        return false;
      }
      if now[plan.anchor.value.block].hash != plan.anchor.value.hash {
        RewindClears(plan, seen, curve);
        tracker.Rewind(curve, plan.originBlock);
      } else {
        MatchingAnchorCarriesOver(plan, seen, now);
      }
    }
    return true;
  }

  /** A range fetched for one curve holds that curve's logs only, and so changes no other. */
  method ApplyOwn(tracker: FlowTracker, curve: Address, from: nat, to: nat, toHash: Hash, logs: seq<Delivery>)
    returns (ok: bool)
    requires tracker.Valid() && Contiguous(tracker.curves, curve, from, to, toHash)
    requires forall d :: d in logs ==> d.log.address == curve
    modifies tracker
    ensures tracker.Valid() && tracker.curves.Keys == old(tracker.curves.Keys)
    ensures forall c :: c in tracker.curves && c != curve ==> tracker.curves[c] == old(tracker.curves[c])
    ensures ok <==> WellFormed(logs)
    ensures ok ==> tracker.curves[curve] == Moved(Absorb(old(tracker.curves)[curve], logs), to, toHash)
  {
    TakenAreListed(tracker.curves, logs);
    OneCurveRange(tracker.curves, logs, curve);
    OneCurveRange(tracker.curves, Taken(tracker.curves, logs), curve);
    ok := tracker.ApplyRange(curve, from, to, toHash, logs);
  }

  /** Fetches everything from the cursor to the head and applies it as one range. */
  method ExtendTo(tracker: FlowTracker, curve: Address, now: Chain, ghost seen: Chain) returns (ok: bool)
    requires tracker.Valid() && curve in tracker.curves && Serves(now, curve)
    requires AnchoredIn(tracker.curves[curve], now) && tracker.curves[curve].nextBlock < |now|
    requires Tracks(tracker.curves[curve], seen)
    modifies tracker
    ensures tracker.Valid() && tracker.curves.Keys == old(tracker.curves.Keys)
    ensures forall c :: c in tracker.curves && c != curve ==> tracker.curves[c] == old(tracker.curves[c])
    ensures ok ==> AnchoredIn(tracker.curves[curve], now) && tracker.curves[curve].nextBlock == |now|
    ensures WellFormed(LogsIn(now, 0, |now|)) ==> ok
    ensures ok ==> tracker.curves[curve].originBlock == old(tracker.curves)[curve].originBlock
  {
    var plan := tracker.curves[curve];
    var head := |now| - 1;
    var logs := LogsIn(now, plan.nextBlock, head + 1);
    LogsComeFromTheirBlocks(now, curve, plan.nextBlock, head + 1);
    LogsSplit(now, 0, plan.nextBlock, |now|);
    ok := ApplyOwn(tracker, curve, plan.nextBlock, head, now[head].hash, logs);
    if ok {
      AbsorbKeepsCursor(plan, logs);
      ContinueEqualsRebuild(plan, now, tracker.curves[curve]);
    }
  }

  /** Brings a tracker that fits this chain to its head. */
  method CatchUp(tracker: FlowTracker, curve: Address, now: Chain, ghost seen: Chain) returns (ok: bool)
    requires tracker.Valid() && curve in tracker.curves && Serves(now, curve)
    requires Tracks(tracker.curves[curve], now) && Tracks(tracker.curves[curve], seen)
    requires tracker.curves[curve].originBlock < |now|
    modifies tracker
    ensures tracker.Valid() && tracker.curves.Keys == old(tracker.curves.Keys)
    ensures forall c :: c in tracker.curves && c != curve ==> tracker.curves[c] == old(tracker.curves[c])
    ensures ok ==> AnchoredIn(tracker.curves[curve], now) && tracker.curves[curve].nextBlock == |now|
    ensures WellFormed(LogsIn(now, 0, |now|)) ==>
      ok && tracker.curves[curve].originBlock == old(tracker.curves)[curve].originBlock
  {
    var plan := tracker.curves[curve];
    if Untouched(plan) {
      UntouchedIsAnchored(plan, now);
    }
    if |now| - 1 >= plan.nextBlock {
      ok := ExtendTo(tracker, curve, now, seen);
    } else {
      ok := true;
    }
  }

  /** The tables are those of a rebuild on this view, through its head, and the snapshot counts them. */
  ghost predicate Synced(f: CurveFlow, now: Chain, s: FlowSnapshot) {
    f.nextBlock == |now| && SameTables(f, Rebuilt(f, now, |now|)) && Counts(f, f.events.Keys, s)
  }

  /**
   * In the terms of the logs from the origin through the head: the table holds exactly what they tell, each under its
   * own key, and the snapshot counts their buys and sells and adds up their quotes.
   */
  ghost predicate Told(f: CurveFlow, now: Chain, s: FlowSnapshot) {
    var ds := LogsIn(now, f.originBlock, |now|);
    && TellsAll(f, ds)
    && s.buys == Min(SumsOf(ds).buys, U32 - 1) && s.sells == Min(SumsOf(ds).sells, U32 - 1)
    && s.quoteIn == Min(SumsOf(ds).quoteIn, WORD - 1) && s.quoteOut == Min(SumsOf(ds).quoteOut, WORD - 1)
  }

  /** No transaction log is listed twice from the origin on. */
  ghost predicate ListsOnce(now: Chain, origin: nat) {
    Distinct(LogsIn(now, origin, |now|))
  }

  lemma SyncedIsTold(f: CurveFlow, now: Chain, curve: Address, s: FlowSnapshot)
    requires Synced(f, now, s) && Serves(now, curve) && ListsOnce(now, f.originBlock)
    ensures Told(f, now, s)
  {
    var ds := LogsIn(now, f.originBlock, |now|);
    var start := EmptyFlow(f.launchedAt, f.originBlock, f.insiders);
    LogsComeFromTheirBlocks(now, curve, f.originBlock, |now|);
    forall i | 0 <= i < |ds| ensures !ds[i].log.removed {
      assert ds[i] in ds;
    }
    ListingIsTold(start, ds);
    SameEventsAddUp(Absorb(start, ds), f, SumsOf(ds));
    SameEventsTell(Absorb(start, ds), f, ds);
  }

  /** The chain goes as far as the origin and, if there is one, the anchor. */
  predicate Reaches(f: CurveFlow, now: Chain) {
    AnchorReached(f, now) && f.originBlock < |now|
  }

  /**
   * One sync against one atomic view of the chain. `seen` is the view the tracker was last anchored in. On success the
   * tables equal a rebuild from the origin through the head, with no gap. With well-formed logs it succeeds exactly
   * when the chain reaches both the origin and the anchor, and a failure leaves the tracker ready for the next
   * attempt.
   */
  method SyncFlow(tracker: FlowTracker, curve: Address, now: Chain, ghost seen: Chain)
    returns (snapshot: Option<FlowSnapshot>)
    requires tracker.Valid()
    requires Serves(now, curve) && Serves(seen, curve) && HashesAgree(seen, now)
    requires curve in tracker.curves ==> Tracks(tracker.curves[curve], seen)
    modifies tracker
    ensures tracker.Valid() && tracker.curves.Keys == old(tracker.curves.Keys)
    ensures forall c :: c in tracker.curves && c != curve ==> tracker.curves[c] == old(tracker.curves[c])
    ensures snapshot.Some? ==>
      && curve in tracker.curves && AnchoredIn(tracker.curves[curve], now)
      && Synced(tracker.curves[curve], now, snapshot.value)
    ensures snapshot.Some? && ListsOnce(now, tracker.curves[curve].originBlock) ==>
      Told(tracker.curves[curve], now, snapshot.value)
    ensures curve in old(tracker.curves) && WellFormed(LogsIn(now, 0, |now|)) ==>
      && (snapshot.Some? <==> Reaches(old(tracker.curves)[curve], now))
      && (snapshot.None? ==> Tracks(tracker.curves[curve], seen))
      && tracker.curves[curve].originBlock == old(tracker.curves)[curve].originBlock
  {
    if curve !in tracker.curves {
      return None;
    }
    var known := CheckAnchor(tracker, curve, now, seen);
    if !known || |now| - 1 < tracker.curves[curve].originBlock {
      return None;
    }
    var ok := CatchUp(tracker, curve, now, seen);
    if !ok {
      return None;
    }
    var s := TakeSnapshot(tracker, curve);
    if ListsOnce(now, tracker.curves[curve].originBlock) {
      SyncedIsTold(tracker.curves[curve], now, curve, s);
    }
    return Some(s);
  }

  // ---- Many syncs ---------------------------------------------------------------------------------

  /** Views of one reorganising chain, with well-formed logs. */
  ghost predicate OneHistory(views: seq<Chain>, curve: Address) {
    && (forall i :: 0 <= i < |views| ==> Serves(views[i], curve) && WellFormed(LogsIn(views[i], 0, |views[i]|)))
    && (forall i, j :: 0 <= i < |views| && 0 <= j < |views| ==> HashesAgree(views[i], views[j]))
  }

  predicate NeverShorter(views: seq<Chain>, origin: nat) {
    && (forall i :: 0 <= i < |views| ==> origin < |views[i]|)
    && (forall i, j :: 0 <= i < j < |views| ==> |views[i]| <= |views[j]|)
  }

  predicate AllTaken(snapshots: seq<Option<FlowSnapshot>>) {
    forall i :: 0 <= i < |snapshots| ==> snapshots[i].Some?
  }

  /** The next view, if any, still reaches the anchor. */
  predicate ReachedNext(f: CurveFlow, views: seq<Chain>, i: nat) {
    i < |views| ==> AnchorReached(f, views[i])
  }

  lemma LongerChainReachesAnchor(f: CurveFlow, views: seq<Chain>, i: nat)
    requires i < |views| && AnchoredIn(f, views[i]) && f.nextBlock == |views[i]| && NeverShorter(views, f.originBlock)
    ensures ReachedNext(f, views, i + 1)
  {
    if i + 1 < |views| {
      assert |views[i]| <= |views[i + 1]|;
    }
  }

  /** The tracker fits one of the views seen so far. */
  ghost predicate FitsOne(f: CurveFlow, views: seq<Chain>, k: nat) {
    k < |views| && Tracks(f, views[k])
  }

  /** The sync number `i`; `k` is the view of the last one that succeeded. */
  method SyncNext(tracker: FlowTracker, curve: Address, views: seq<Chain>, i: nat, ghost k: nat, ghost steady: bool)
    returns (s: Option<FlowSnapshot>)
    requires steady ==> curve in tracker.curves && NeverShorter(views, tracker.curves[curve].originBlock)
    requires tracker.Valid() && curve in tracker.curves && i < |views|
    requires OneHistory(views, curve) && FitsOne(tracker.curves[curve], views, k)
    modifies tracker
    ensures tracker.Valid() && curve in tracker.curves
    ensures tracker.curves[curve].originBlock == old(tracker.curves)[curve].originBlock
    ensures FitsOne(tracker.curves[curve], views, if s.Some? then i else k)
    ensures s.Some? ==> Synced(tracker.curves[curve], views[i], s.value)
    ensures steady && ReachedNext(old(tracker.curves)[curve], views, i) ==>
      s.Some? && ReachedNext(tracker.curves[curve], views, i + 1)
  {
    s := SyncFlow(tracker, curve, views[i], views[k]);
    if s.Some? && steady {
      LongerChainReachesAnchor(tracker.curves[curve], views, i);
    }
  }

  /** What holds after the first `i` syncs. */
  ghost predicate SyncedSoFar(f: CurveFlow, views: seq<Chain>, snapshots: seq<Option<FlowSnapshot>>, i: nat, k: nat,
                              steady: bool)
  {
    && |snapshots| == i <= |views|
    && FitsOne(f, views, k)
    && (i > 0 && snapshots[i - 1].Some? ==> Synced(f, views[i - 1], snapshots[i - 1].value))
    && (steady ==> AllTaken(snapshots) && ReachedNext(f, views, i))
  }

  lemma OneMoreSync(before: CurveFlow, f: CurveFlow, views: seq<Chain>, snapshots: seq<Option<FlowSnapshot>>, i: nat,
                    k: nat, steady: bool, s: Option<FlowSnapshot>)
    requires i < |views| && SyncedSoFar(before, views, snapshots, i, k, steady)
    requires FitsOne(f, views, if s.Some? then i else k)
    requires s.Some? ==> Synced(f, views[i], s.value)
    requires steady && ReachedNext(before, views, i) ==> s.Some? && ReachedNext(f, views, i + 1)
    ensures SyncedSoFar(f, views, snapshots + [s], i + 1, if s.Some? then i else k, steady)
  {
  }

  /**
   * Any run of syncs over any reorganising chain ends, if it succeeds, in the rebuild on the last view; and while the
   * views reach the origin and never get shorter, every sync succeeds.
   */
  method SyncRun(tracker: FlowTracker, curve: Address, views: seq<Chain>) returns (snapshots: seq<Option<FlowSnapshot>>)
    requires tracker.Valid() && curve in tracker.curves && Untouched(tracker.curves[curve])
    requires OneHistory(views, curve)
    modifies tracker
    ensures tracker.Valid() && curve in tracker.curves && |snapshots| == |views|
    ensures views != [] && snapshots[|views| - 1].Some? ==>
      Synced(tracker.curves[curve], views[|views| - 1], snapshots[|views| - 1].value)
    ensures NeverShorter(views, old(tracker.curves)[curve].originBlock) ==> AllTaken(snapshots)
  {
    snapshots := [];
    if views == [] {
      return;
    }
    ghost var origin, k := tracker.curves[curve].originBlock, 0;
    ghost var steady := NeverShorter(views, origin);
    for i := 0 to |views|
      invariant tracker.Valid() && curve in tracker.curves && tracker.curves[curve].originBlock == origin
      invariant SyncedSoFar(tracker.curves[curve], views, snapshots, i, k, steady)
    {
      ghost var f := tracker.curves[curve];
      var s := SyncNext(tracker, curve, views, i, k, steady);
      OneMoreSync(f, tracker.curves[curve], views, snapshots, i, k, steady, s);
      snapshots := snapshots + [s];
      k := if s.Some? then i else k;
    }
  }
}
