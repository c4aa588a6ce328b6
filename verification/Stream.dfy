/** The reversible flow tracker: `ingest`, `rewind`, `apply_range` and what any sequence of them amounts to. */
module Stream {
  import opened Common
  import opened Flow

  /** `identities` and `events` are two views of one table: every identity has one key, every key one identity. */
  ghost predicate Linked(f: CurveFlow) {
    && (forall id :: id in f.identities ==> f.identities[id] in f.events && IdentityOf(f.identities[id]) == id)
    && (forall key :: key in f.events ==> IdentityOf(key) in f.identities && f.identities[IdentityOf(key)] == key)
  }

  function EmptyFlow(launchedAt: nat, origin: nat, insiders: set<Address>): CurveFlow {
    CurveFlow(launchedAt, origin, origin, None, insiders, map[], map[])
  }

  function Absorb1(f: CurveFlow, e: Effect): CurveFlow {
    match e
    case Malformed => f
    case Ignore => f
    case Remove(id) =>
      if id in f.identities then f.(events := f.events - {f.identities[id]}, identities := f.identities - {id}) else f
    case Put(key, stored) =>
      var kept := if IdentityOf(key) in f.identities then f.events - {f.identities[IdentityOf(key)]} else f.events;
      f.(events := kept[key := stored], identities := f.identities[IdentityOf(key) := key])
  }

  function Absorb(f: CurveFlow, ds: seq<Delivery>): CurveFlow {
    if ds == [] then f else Absorb1(Absorb(f, ds[..|ds| - 1]), EffectOf(ds[|ds| - 1]))
  }

  predicate WellFormed(ds: seq<Delivery>) {
    forall d :: d in ds ==> !EffectOf(d).Malformed?
  }

  function Rewound(f: CurveFlow, fromBlock: nat): CurveFlow {
    f.(events := map k | k in f.events && k.blockNumber < fromBlock :: f.events[k],
       identities := map id | id in f.identities && f.identities[id].blockNumber < fromBlock :: f.identities[id],
       nextBlock := Max(fromBlock, f.originBlock),
       anchor := None)
  }

  // ---- A log in its own terms ------------------------------------------------------------------

  /** The event says what the log's body says, word for word, at the time the log was delivered with. */
  predicate Tells(e: FlowEvent, body: Body, timestamp: nat, hash: Hash) {
    match body
    case BuyBody(recipient, quoteIn, tokensOut, fee, tax) =>
      && e.Buy? && e.recipient == recipient && e.quoteIn == quoteIn && e.tokensOut == tokensOut
      && e.fee == fee && e.tax == tax && e.timestamp == timestamp && e.transactionHash == hash
    case SellBody(seller, recipient, tokensIn, quoteOut, fee, tax) =>
      && e.Sell? && e.seller == seller && e.recipient == recipient && e.tokensIn == tokensIn
      && e.quoteOut == quoteOut && e.fee == fee && e.tax == tax && e.timestamp == timestamp
    case TaxBody(recipient, amount) =>
      e.Tax? && e.transactionHash == hash && e.recipient == recipient && e.amount == amount && e.timestamp == timestamp
    case CompletedBody => e.Completed? && e.timestamp == timestamp
    case _ => false
  }

  /** Block, transaction and log are all known. */
  predicate Located(l: Log) {
    && l.transactionHash.Some? && l.logIndex.Some?
    && l.blockNumber.Some? && l.transactionIndex.Some? && l.blockHash.Some?
  }

  /** One of the four events of a curve, in its place. */
  predicate IsEvent(l: Log) {
    Located(l) && (l.body.BuyBody? || l.body.SellBody? || l.body.TaxBody? || l.body.CompletedBody?)
  }

  /** The key names the log's block, transaction, place and hash. */
  predicate Names(k: EventKey, l: Log) {
    && Located(l) && k.blockNumber == l.blockNumber.value && k.transactionIndex == l.transactionIndex.value
    && k.logIndex == l.logIndex.value && k.transactionHash == l.transactionHash.value
  }

  /** The table has what the log tells under the log's own key. */
  predicate Records(f: CurveFlow, k: EventKey, d: Delivery) {
    && Names(k, d.log) && k in f.events && f.events[k].blockHash == d.log.blockHash.value
    && Tells(f.events[k].event, d.log.body, d.timestamp, d.log.transactionHash.value)
  }

  predicate IsLog(k: EventKey, l: Log) {
    l.transactionHash == Some(k.transactionHash) && l.logIndex == Some(k.logIndex)
  }

  /** What is stored of other transaction logs is the same before and after. */
  ghost predicate OthersKept(f: CurveFlow, g: CurveFlow, l: Log) {
    && g == f.(events := g.events, identities := g.identities)
    && forall k :: !IsLog(k, l) ==>
         (k in g.events <==> k in f.events) && (k in f.events ==> g.events[k] == f.events[k])
  }

  /** A removed log takes its own entry with it, and a curve event becomes the one entry of its log. */
  ghost predicate TakenIn(f: CurveFlow, g: CurveFlow, d: Delivery) {
    var l := d.log;
    && OthersKept(f, g, l)
    && (l.removed ==> forall k :: IsLog(k, l) ==> k !in g.events)
    && (!l.removed && l.body.OtherTopic? ==> g == f)
    && (!l.removed && IsEvent(l) ==>
          && Records(g, EventKey(l.blockNumber.value, l.transactionIndex.value, l.logIndex.value,
                                 l.transactionHash.value), d)
          && forall k :: IsLog(k, l) && k in g.events ==> Names(k, l))
  }

  lemma IngestedAsTold(f: CurveFlow, d: Delivery)
    requires Linked(f) && !EffectOf(d).Malformed?
    ensures TakenIn(f, Absorb1(f, EffectOf(d)), d)
  {
  }

  /** What lies before the block stays, the rest goes, and the next range starts no earlier than the origin. */
  ghost predicate WoundBack(f: CurveFlow, g: CurveFlow, fromBlock: nat) {
    && g == f.(events := g.events, identities := g.identities, nextBlock := g.nextBlock, anchor := None)
    && (forall k :: k in g.events <==> k in f.events && k.blockNumber < fromBlock)
    && (forall k :: k in g.events ==> g.events[k] == f.events[k])
    && g.nextBlock == (if fromBlock < f.originBlock then f.originBlock else fromBlock)
  }

  /** It can be placed and read, or at least found if it was removed: anything else is refused. */
  predicate Readable(l: Log) {
    && l.transactionHash.Some? && l.logIndex.Some?
    && (!l.removed ==> Located(l) && !l.body.Undecodable?)
  }

  lemma OnlyReadableIsTaken(d: Delivery)
    ensures EffectOf(d).Malformed? <==> !Readable(d.log)
  {
  }

  class FlowTracker {
    var curves: map<Address, CurveFlow>

    /** Every watched curve keeps its two tables linked. */
    ghost predicate Valid()
      reads this
    {
      forall c :: c in curves ==> Linked(curves[c])
    }

    constructor ()
      ensures Valid() && curves == map[]
    {
      curves := map[];
    }

    method Watch(curve: Address, launchedAt: nat, origin: nat, insiders: set<Address>)
      requires Valid()
      modifies this
      ensures Valid() && curve in curves && curves.Keys == old(curves.Keys) + {curve}
      ensures forall c :: c in old(curves) && c != curve ==> curves[c] == old(curves[c])
      ensures curve !in old(curves) ==> curves[curve] == EmptyFlow(launchedAt, origin, insiders - {0})
      ensures curve !in old(curves) ==>
        var f := curves[curve];
        && f.launchedAt == launchedAt && f.originBlock == f.nextBlock == origin && f.insiders == insiders - {0}
        && f.anchor.None? && f.events == map[] && f.identities == map[]
      ensures curve in old(curves) ==>
        var f := old(curves[curve]);
        curves[curve] == f.(launchedAt := launchedAt, originBlock := origin, insiders := f.insiders + (insiders - {0}),
                            nextBlock := if f.nextBlock == 0 then origin else f.nextBlock)
    {
      var f := if curve in curves then curves[curve] else EmptyFlow(0, 0, {});
      f := f.(launchedAt := launchedAt, originBlock := origin);
      if f.nextBlock == 0 {
        f := f.(nextBlock := origin);
      }
      f := f.(insiders := f.insiders + (insiders - {0}));
      curves := curves[curve := f];
    }

    method Unwatch(curve: Address)
      requires Valid()
      modifies this
      ensures Valid() && curves == old(curves) - {curve}
    {
      curves := curves - {curve};
    }

    method Rewind(curve: Address, fromBlock: nat)
      requires Valid()
      modifies this
      ensures Valid()
      ensures curves
        == if curve in old(curves) then old(curves)[curve := Rewound(old(curves)[curve], fromBlock)] else old(curves)
      ensures curve in old(curves) ==> WoundBack(old(curves)[curve], curves[curve], fromBlock)
    {
      if curve !in curves {
        return;
      }
      var f := curves[curve];
      f := f.(events := map k | k in f.events && k.blockNumber < fromBlock :: f.events[k]);
      f := f.(identities :=
        map id | id in f.identities && f.identities[id].blockNumber < fromBlock :: f.identities[id]);
      f := f.(nextBlock := Max(fromBlock, f.originBlock), anchor := None);
      curves := curves[curve := f];
    }

    method Ingest(d: Delivery) returns (ok: bool)
      requires Valid()
      modifies this
      ensures Valid() && curves.Keys == old(curves.Keys)
      ensures ok <==> d.log.address in curves && !EffectOf(d).Malformed?
      ensures d.log.address in curves ==>
        curves == old(curves)[d.log.address := Absorb1(old(curves)[d.log.address], EffectOf(d))]
      ensures !ok ==> curves == old(curves)
      ensures ok <==> d.log.address in curves && Readable(d.log)
      ensures ok ==> TakenIn(old(curves)[d.log.address], curves[d.log.address], d)
    {
      OnlyReadableIsTaken(d);
      if d.log.address in curves && !EffectOf(d).Malformed? {
        IngestedAsTold(curves[d.log.address], d);
      }
      var curve := d.log.address;
      if curve !in curves || d.log.transactionHash.None? || d.log.logIndex.None? {
        return false;
      }
      var f := curves[curve];
      ghost var before := f;
      Absorb1StaysLinked(before, EffectOf(d));
      var id := Identity(d.log.transactionHash.value, d.log.logIndex.value);
      if d.log.removed {
        if id in f.identities {
          var key := f.identities[id];
          f := f.(identities := f.identities - {id});
          f := f.(events := f.events - {key});
        }
        assert f == Absorb1(before, EffectOf(d));
        curves := curves[curve := f];
        return true;
      }
      if d.log.blockNumber.None? || d.log.transactionIndex.None? || d.log.blockHash.None? || d.log.body.Undecodable? {
        return false;
      }
      var event := Decode(d.log.body, d.timestamp, id.transactionHash);
      if event.None? {
        return true;
      }
      var key := EventKey(d.log.blockNumber.value, d.log.transactionIndex.value, id.logIndex, id.transactionHash);
      if id in f.identities {
        var previous := f.identities[id];
        f := f.(identities := f.identities[id := key]);
        f := f.(events := f.events - {previous});
      } else {
        f := f.(identities := f.identities[id := key]);
      }
      f := f.(events := f.events[key := StoredEvent(d.log.blockHash.value, event.value)]);
      assert f == Absorb1(before, EffectOf(d));
      curves := curves[curve := f];
      return true;
    }

    /**
     * Takes a contiguous range of logs up to block `to`, each into its own curve. A reversed range, a zero hash or a
     * gap changes nothing; a log that cannot be taken stops half-way with the cursor unmoved.
     */
    method ApplyRange(curve: Address, from: nat, to: nat, toHash: Hash, logs: seq<Delivery>) returns (ok: bool)
      requires Valid()
      modifies this
      ensures Valid() && curves.Keys == old(curves.Keys)
      ensures ok <==>
        Contiguous(old(curves), curve, from, to, toHash) && forall d :: d in logs ==> Takes(old(curves), d)
      ensures !Contiguous(old(curves), curve, from, to, toHash) ==> curves == old(curves)
      ensures Contiguous(old(curves), curve, from, to, toHash) && !ok ==>
        curves == AbsorbAll(old(curves), Taken(old(curves), logs))
      ensures ok ==>
        var now := AbsorbAll(old(curves), logs);
        && curve in now && now.Keys == old(curves).Keys
        && curves == now[curve := Moved(now[curve], to, toHash)]
      ensures ok ==>
        && curve in old(curves) && from <= to && toHash != 0 && from <= old(curves)[curve].nextBlock
        && curves[curve].nextBlock == Max(old(curves)[curve].nextBlock, to + 1)
        && curves[curve].anchor == Some(Anchor(to, toHash))
    {
      if curve !in curves || from > to || toHash == 0 || from > curves[curve].nextBlock {
        return false;
      }
      ghost var before := curves;
      for i := 0 to |logs|
        invariant Valid() && curve in before && curves.Keys == before.Keys
        invariant curves == AbsorbAll(before, logs[..i])
        invariant forall d :: d in logs[..i] ==> Takes(before, d)
      {
        AbsorbStep(before, logs, i);
        var good := Ingest(logs[i]);
        if !good {
          TakenStopsAt(before, logs, i);
          return false;
        }
      }
      assert logs[..|logs|] == logs;
      AbsorbAllAt(before, logs, curve);
      AbsorbKeepsCursor(before[curve], OfCurve(logs, curve));
      var f := curves[curve];
      curves := curves[curve := f.(nextBlock := Max(f.nextBlock, to + 1), anchor := Some(Anchor(to, toHash)))];
      return true;
    }
  }

  /** A range is taken exactly when it leaves no gap and every log of it is of a watched curve and readable. */
  lemma TakenExactly(curves: map<Address, CurveFlow>, curve: Address, from: nat, to: nat, toHash: Hash,
                     ds: seq<Delivery>)
    ensures Contiguous(curves, curve, from, to, toHash) && (forall d :: d in ds ==> Takes(curves, d)) <==>
      && curve in curves && from <= to && toHash != 0 && from <= curves[curve].nextBlock
      && forall d :: d in ds ==> d.log.address in curves && Readable(d.log)
  {
    forall d | d in ds ensures Takes(curves, d) <==> d.log.address in curves && Readable(d.log) {
      OnlyReadableIsTaken(d);
    }
  }

  // ---- A range of logs ---------------------------------------------------------------------

  predicate Contiguous(curves: map<Address, CurveFlow>, curve: Address, from: nat, to: nat, toHash: Hash) {
    curve in curves && from <= to && toHash != 0 && from <= curves[curve].nextBlock
  }

  /** The log belongs to a watched curve and can be read. */
  predicate Takes(curves: map<Address, CurveFlow>, d: Delivery) {
    d.log.address in curves && !EffectOf(d).Malformed?
  }

  /** The logs before the first one that cannot be taken. */
  function Taken(curves: map<Address, CurveFlow>, ds: seq<Delivery>): seq<Delivery> {
    if ds == [] || !Takes(curves, ds[0]) then [] else [ds[0]] + Taken(curves, ds[1..])
  }

  /** The cursor past `to`, and the block it stands on. */
  function Moved(f: CurveFlow, to: nat, toHash: Hash): CurveFlow {
    f.(nextBlock := Max(f.nextBlock, to + 1), anchor := Some(Anchor(to, toHash)))
  }

  /** Every log into its own curve, in order. */
  function AbsorbAll(curves: map<Address, CurveFlow>, ds: seq<Delivery>): (now: map<Address, CurveFlow>)
    ensures now.Keys == curves.Keys
  {
    if ds == [] then curves else
      var m, d := AbsorbAll(curves, ds[..|ds| - 1]), ds[|ds| - 1];
      if d.log.address in m then m[d.log.address := Absorb1(m[d.log.address], EffectOf(d))] else m
  }

  /** The logs of one curve, in order. */
  function OfCurve(ds: seq<Delivery>, curve: Address): seq<Delivery> {
    if ds == [] then [] else
      OfCurve(ds[..|ds| - 1], curve) + (if ds[|ds| - 1].log.address == curve then [ds[|ds| - 1]] else [])
  }

  lemma AbsorbStep(curves: map<Address, CurveFlow>, ds: seq<Delivery>, i: nat)
    requires i < |ds|
    ensures var m, d := AbsorbAll(curves, ds[..i]), ds[i];
      AbsorbAll(curves, ds[..i + 1])
        == if d.log.address in m then m[d.log.address := Absorb1(m[d.log.address], EffectOf(d))] else m
    ensures forall d :: d in ds[..i + 1] <==> d in ds[..i] || d == ds[i]
  {
    assert ds[..i + 1][..i] == ds[..i];
    assert ds[..i + 1] == ds[..i] + [ds[i]];
  }

  lemma {:induction false} TakenStopsAt(curves: map<Address, CurveFlow>, ds: seq<Delivery>, i: nat)
    requires i < |ds| && !Takes(curves, ds[i]) && forall d :: d in ds[..i] ==> Takes(curves, d)
    ensures Taken(curves, ds) == ds[..i]
  {
    if i > 0 {
      assert ds[0] in ds[..i];
      assert ds[1..][..i - 1] == ds[..i][1..];
      forall d | d in ds[1..][..i - 1] ensures d in ds[..i] {
      }
      TakenStopsAt(curves, ds[1..], i - 1);
      assert ds[..i] == [ds[0]] + ds[1..][..i - 1];
    }
  }

  lemma {:induction false} TakenAreListed(curves: map<Address, CurveFlow>, ds: seq<Delivery>)
    ensures forall d :: d in Taken(curves, ds) ==> d in ds
  {
    if ds != [] && Takes(curves, ds[0]) {
      TakenAreListed(curves, ds[1..]);
      assert ds == [ds[0]] + ds[1..];
    }
  }

  /** A range brings each watched curve exactly its own logs. */
  lemma {:induction false} AbsorbAllAt(curves: map<Address, CurveFlow>, ds: seq<Delivery>, curve: Address)
    requires curve in curves
    ensures AbsorbAll(curves, ds)[curve] == Absorb(curves[curve], OfCurve(ds, curve))
  {
    if ds != [] {
      var front, d := ds[..|ds| - 1], ds[|ds| - 1];
      AbsorbAllAt(curves, front, curve);
      if d.log.address == curve {
        assert OfCurve(ds, curve)[..|OfCurve(front, curve)|] == OfCurve(front, curve);
      } else {
        assert OfCurve(ds, curve) == OfCurve(front, curve);
      }
    }
  }

  lemma {:induction false} AllOfOneCurve(ds: seq<Delivery>, curve: Address)
    requires forall d :: d in ds ==> d.log.address == curve
    ensures OfCurve(ds, curve) == ds
  {
    if ds != [] {
      assert ds == ds[..|ds| - 1] + [ds[|ds| - 1]];
      AllOfOneCurve(ds[..|ds| - 1], curve);
    }
  }

  lemma {:induction false} NoneOfOtherCurve(ds: seq<Delivery>, curve: Address, other: Address)
    requires (forall d :: d in ds ==> d.log.address == curve) && other != curve
    ensures OfCurve(ds, other) == []
  {
    if ds != [] {
      assert ds == ds[..|ds| - 1] + [ds[|ds| - 1]];
      NoneOfOtherCurve(ds[..|ds| - 1], curve, other);
    }
  }

  /** In particular a range of one curve's logs changes that curve alone. */
  lemma OneCurveRange(curves: map<Address, CurveFlow>, ds: seq<Delivery>, curve: Address)
    requires curve in curves && forall d :: d in ds ==> d.log.address == curve
    ensures AbsorbAll(curves, ds) == curves[curve := Absorb(curves[curve], ds)]
  {
    AbsorbAllAt(curves, ds, curve);
    AllOfOneCurve(ds, curve);
    forall c | c in curves && c != curve ensures AbsorbAll(curves, ds)[c] == curves[c] {
      AbsorbAllAt(curves, ds, c);
      NoneOfOtherCurve(ds, curve, c);
    }
  }

  // ---- What deliveries amount to -----------------------------------------------------------

  lemma {:induction false} AbsorbKeepsCursor(f: CurveFlow, ds: seq<Delivery>)
    ensures var g := Absorb(f, ds);
      g == f.(events := g.events, identities := g.identities)
  {
    if ds != [] {
      AbsorbKeepsCursor(f, ds[..|ds| - 1]);
    }
  }

  lemma Absorb1StaysLinked(f: CurveFlow, e: Effect)
    requires Linked(f)
    ensures Linked(Absorb1(f, e))
  {
  }

  lemma {:induction false} AbsorbStaysLinked(f: CurveFlow, ds: seq<Delivery>)
    requires Linked(f)
    ensures Linked(Absorb(f, ds))
  {
    if ds != [] {
      AbsorbStaysLinked(f, ds[..|ds| - 1]);
      Absorb1StaysLinked(Absorb(f, ds[..|ds| - 1]), EffectOf(ds[|ds| - 1]));
    }
  }

  lemma {:induction false} AbsorbConcat(f: CurveFlow, a: seq<Delivery>, b: seq<Delivery>)
    ensures Absorb(f, a + b) == Absorb(Absorb(f, a), b)
  {
    if b == [] {
      assert a + b == a;
    } else {
      assert (a + b)[..|a + b| - 1] == a + b[..|b| - 1];
      AbsorbConcat(f, a, b[..|b| - 1]);
    }
  }

  /** The last effect a delivery sequence has on one identity. */
  function LastOn(ds: seq<Delivery>, id: Identity): Option<Effect> {
    if ds == [] then None
    else if Concerns(EffectOf(ds[|ds| - 1]), id) then Some(EffectOf(ds[|ds| - 1]))
    else LastOn(ds[..|ds| - 1], id)
  }

  /** What the tables say about one identity. */
  ghost predicate Shows(f: CurveFlow, id: Identity, last: Option<Effect>) {
    match last
    case Some(Put(key, stored)) =>
      id in f.identities && f.identities[id] == key && key in f.events && f.events[key] == stored
    case _ => id !in f.identities
  }

  /** Last operation wins: after any deliveries each identity shows exactly what its last effect says. */
  lemma {:induction false} LastOperationWins(origin: CurveFlow, ds: seq<Delivery>, id: Identity)
    requires origin.events == map[] && origin.identities == map[]
    ensures Linked(Absorb(origin, ds))
    ensures Shows(Absorb(origin, ds), id, LastOn(ds, id))
  {
    AbsorbStaysLinked(origin, ds);
    if ds != [] {
      var front := ds[..|ds| - 1];
      LastOperationWins(origin, front, id);
    }
  }

  /** So two delivery sequences that agree on every last effect leave the same tracker, whatever the order. */
  lemma OnlyLastOperationsMatter(origin: CurveFlow, a: seq<Delivery>, b: seq<Delivery>)
    requires origin.events == map[] && origin.identities == map[]
    requires forall id :: LastOn(a, id) == LastOn(b, id)
    ensures Absorb(origin, a) == Absorb(origin, b)
  {
    var f, g := Absorb(origin, a), Absorb(origin, b);
    AbsorbKeepsCursor(origin, a);
    AbsorbKeepsCursor(origin, b);
    AbsorbStaysLinked(origin, a);
    AbsorbStaysLinked(origin, b);
    forall id
      ensures Shows(f, id, LastOn(a, id)) && Shows(g, id, LastOn(a, id))
    {
      LastOperationWins(origin, a, id);
      LastOperationWins(origin, b, id);
    }
    SameShowing(f, g, a);
  }

  lemma SameShowing(f: CurveFlow, g: CurveFlow, a: seq<Delivery>)
    requires Linked(f) && Linked(g)
    requires f == g.(events := f.events, identities := f.identities)
    requires forall id :: Shows(f, id, LastOn(a, id)) && Shows(g, id, LastOn(a, id))
    ensures f == g
  {
    forall id: Identity
      ensures id in f.identities <==> id in g.identities
      ensures id in f.identities ==> f.identities[id] == g.identities[id]
    {
      assert Shows(f, id, LastOn(a, id)) && Shows(g, id, LastOn(a, id));
    }
    assert f.identities == g.identities;
    forall key | key in f.events || key in g.events
      ensures key in f.events && key in g.events && f.events[key] == g.events[key]
    {
      var id := IdentityOf(key);
      assert Shows(f, id, LastOn(a, id)) && Shows(g, id, LastOn(a, id));
    }
    assert f.events == g.events;
  }

  /** Deliveries that only insert, and never disagree about an identity. */
  ghost predicate Consistent(ds: seq<Delivery>) {
    && (forall d :: d in ds ==> !EffectOf(d).Remove?)
    && (forall d, e | d in ds && e in ds && EffectOf(d).Put? && Concerns(EffectOf(e), IdentityOf(EffectOf(d).key)) ::
          EffectOf(d) == EffectOf(e))
  }

  lemma {:induction false} LastIsDelivered(ds: seq<Delivery>, id: Identity)
    ensures LastOn(ds, id).Some? ==>
      exists d :: d in ds && EffectOf(d) == LastOn(ds, id).value && Concerns(EffectOf(d), id)
    ensures LastOn(ds, id).None? ==> forall d :: d in ds ==> !Concerns(EffectOf(d), id)
  {
    if ds != [] {
      var last := ds[|ds| - 1];
      assert last in ds;
      LastIsDelivered(ds[..|ds| - 1], id);
      assert ds == ds[..|ds| - 1] + [last];
      if !Concerns(EffectOf(last), id) && LastOn(ds, id).Some? {
        var d :| d in ds[..|ds| - 1] && EffectOf(d) == LastOn(ds, id).value && Concerns(EffectOf(d), id);
        assert d in ds;
      }
    }
  }

  /** Duplicating or reordering consistent logs changes nothing: only the set of logs counts. */
  lemma DuplicatesAndOrderDoNotMatter(origin: CurveFlow, a: seq<Delivery>, b: seq<Delivery>)
    requires origin.events == map[] && origin.identities == map[]
    requires Consistent(a) && (forall d :: d in a <==> d in b)
    ensures Absorb(origin, a) == Absorb(origin, b)
  {
    forall id
      ensures LastOn(a, id) == LastOn(b, id)
    {
      LastIsDelivered(a, id);
      LastIsDelivered(b, id);
    }
    OnlyLastOperationsMatter(origin, a, b);
  }

  /** With consistent logs the event table is exactly the set of delivered events. */
  lemma EventsAreTheLogs(origin: CurveFlow, ds: seq<Delivery>, key: EventKey, stored: StoredEvent)
    requires origin.events == map[] && origin.identities == map[]
    requires Consistent(ds)
    ensures (key in Absorb(origin, ds).events && Absorb(origin, ds).events[key] == stored)
       <==> exists d :: d in ds && EffectOf(d) == Put(key, stored)
  {
    var id := IdentityOf(key);
    LastOperationWins(origin, ds, id);
    LastIsDelivered(ds, id);
  }
}
