/** The flow snapshot as counts over the set of events (crates/bodkin/src/pons/stream.rs, `snapshot`). */
module Snapshot {
  import opened Common
  import opened Flow
  import opened Stream

  datatype FlowSnapshot = FlowSnapshot(
    taxedBuyersS1: nat,
    exemptBuysS0: nat,
    insiderSold: bool,
    readyToGraduate: bool,
    buys: nat,
    sells: nat,
    uniqueBuyers: nat,
    quoteIn: nat,
    quoteOut: nat,
    lastNonInsiderBuyAt: Option<nat>)

  const EMPTY := FlowSnapshot(0, 0, false, false, 0, 0, 0, 0, 0, None)

  // ---- The counted sets, over any part `ks` of the event keys ------------------------------

  function TaxedHashes(f: CurveFlow, ks: set<EventKey>): set<Hash> {
    set k | k in ks && k in f.events && f.events[k].event.Tax? :: f.events[k].event.transactionHash
  }

  predicate IsBuy(f: CurveFlow, k: EventKey) {
    k in f.events && f.events[k].event.Buy?
  }

  predicate IsSell(f: CurveFlow, k: EventKey) {
    k in f.events && f.events[k].event.Sell?
  }

  function Elapsed(f: CurveFlow, k: EventKey): nat
    requires k in f.events
  {
    Monus(Timestamp(f.events[k].event), f.launchedAt)
  }

  /** Whether some tax event, wherever it sits in the order, names this buy's transaction. */
  predicate WasTaxed(f: CurveFlow, k: EventKey)
    requires IsBuy(f, k)
  {
    f.events[k].event.transactionHash in TaxedHashes(f, f.events.Keys)
  }

  predicate IsExemptS0(f: CurveFlow, k: EventKey) {
    IsBuy(f, k) && Elapsed(f, k) == 0 && !WasTaxed(f, k)
  }

  predicate IsTaxedS1(f: CurveFlow, k: EventKey) {
    IsBuy(f, k) && Elapsed(f, k) == 1 && WasTaxed(f, k)
  }

  predicate IsOutsideBuy(f: CurveFlow, k: EventKey) {
    IsBuy(f, k) && f.events[k].event.quoteIn != 0 && f.events[k].event.recipient !in f.insiders
  }

  predicate IsInsiderSale(f: CurveFlow, k: EventKey) {
    IsSell(f, k) && (f.events[k].event.seller in f.insiders || f.events[k].event.recipient in f.insiders)
  }

  ghost function Only(f: CurveFlow, ks: set<EventKey>, p: (CurveFlow, EventKey) -> bool): set<EventKey> {
    set k | k in ks && p(f, k)
  }

  ghost function Recipients(f: CurveFlow, ks: set<EventKey>, p: (CurveFlow, EventKey) -> bool): set<Address>
  {
    set k | k in ks && p(f, k) && IsBuy(f, k) :: f.events[k].event.recipient
  }

  ghost function Amount(f: CurveFlow, k: EventKey): nat {
    if IsBuy(f, k) then f.events[k].event.quoteIn else if IsSell(f, k) then f.events[k].event.quoteOut else 0
  }

  ghost function Total(f: CurveFlow, ks: set<EventKey>): nat {
    if ks == {} then 0 else
      var k :| k in ks;
      Amount(f, k) + Total(f, ks - {k})
  }

  lemma {:induction false} TotalWithout(f: CurveFlow, ks: set<EventKey>, x: EventKey)
    requires x in ks
    ensures Total(f, ks) == Amount(f, x) + Total(f, ks - {x})
  {
    var k :| k in ks && Total(f, ks) == Amount(f, k) + Total(f, ks - {k});
    if k != x {
      TotalWithout(f, ks - {k}, x);
      TotalWithout(f, ks - {x}, k);
      assert ks - {k} - {x} == ks - {x} - {k};
    }
  }

  ghost predicate IsLatest(f: CurveFlow, ks: set<EventKey>, m: Option<nat>) {
    && (m.None? <==> ks == {})
    && (m.Some? ==> exists k :: k in ks && k in f.events && Timestamp(f.events[k].event) == m.value)
    && (m.Some? ==> forall k :: k in ks && k in f.events ==> Timestamp(f.events[k].event) <= m.value)
  }

  ghost predicate Numbers(f: CurveFlow, ks: set<EventKey>, s: FlowSnapshot) {
    && s.buys == Min(|Only(f, ks, IsBuy)|, U32 - 1)
    && s.sells == Min(|Only(f, ks, IsSell)|, U32 - 1)
    && s.exemptBuysS0 == Min(|Only(f, ks, IsExemptS0)|, U32 - 1)
    && s.quoteIn == Min(Total(f, Only(f, ks, IsBuy)), WORD - 1)
    && s.quoteOut == Min(Total(f, Only(f, ks, IsSell)), WORD - 1)
  }

  ghost predicate Marks(f: CurveFlow, ks: set<EventKey>, s: FlowSnapshot) {
    && IsLatest(f, Only(f, ks, IsOutsideBuy), s.lastNonInsiderBuyAt)
    && (s.insiderSold <==> exists k :: k in ks && IsInsiderSale(f, k))
    && (s.readyToGraduate <==> exists k :: k in ks && k in f.events && f.events[k].event.Completed?)
  }

  /** `s` is the snapshot of the events in `ks`: every field is a count, sum, maximum or existence over a set. */
  ghost predicate Counts(f: CurveFlow, ks: set<EventKey>, s: FlowSnapshot) {
    && Numbers(f, ks, s)
    && Marks(f, ks, s)
    && s.uniqueBuyers == |Recipients(f, ks, IsBuy)| % U32
    && s.taxedBuyersS1 == |Recipients(f, ks, IsTaxedS1)| % U32
  }

  /** Those sets leave no freedom: a tracker state has one snapshot. */
  lemma OneSnapshot(f: CurveFlow, s: FlowSnapshot, t: FlowSnapshot)
    requires Counts(f, f.events.Keys, s) && Counts(f, f.events.Keys, t)
    ensures s == t
  {
    var ks := Only(f, f.events.Keys, IsOutsideBuy);
    assert IsLatest(f, ks, s.lastNonInsiderBuyAt) && IsLatest(f, ks, t.lastNonInsiderBuyAt);
  }

  lemma OnlyGrows(f: CurveFlow, done: set<EventKey>, k: EventKey, p: (CurveFlow, EventKey) -> bool)
    requires k !in done
    ensures Only(f, done + {k}, p) == if p(f, k) then Only(f, done, p) + {k} else Only(f, done, p)
    ensures p(f, k) ==> |Only(f, done + {k}, p)| == |Only(f, done, p)| + 1
    ensures p(f, k) ==> Total(f, Only(f, done + {k}, p)) == Total(f, Only(f, done, p)) + Amount(f, k)
  {
    var was, now := Only(f, done, p), Only(f, done + {k}, p);
    if p(f, k) {
      assert now == was + {k};
      TotalWithout(f, now, k);
      assert now - {k} == was;
    } else {
      assert now == was;
    }
  }

  lemma RecipientsGrow(f: CurveFlow, done: set<EventKey>, k: EventKey, p: (CurveFlow, EventKey) -> bool)
    ensures Recipients(f, done + {k}, p)
         == if p(f, k) && IsBuy(f, k) then Recipients(f, done, p) + {f.events[k].event.recipient}
            else Recipients(f, done, p)
  {
  }

  /** The part of `Counts` that the loop keeps in its own hash sets rather than in the snapshot. */
  ghost predicate Tallied(f: CurveFlow, ks: set<EventKey>, s: FlowSnapshot, buyers: set<Address>,
                          taxedS1: set<Address>)
  {
    && Numbers(f, ks, s)
    && Marks(f, ks, s)
    && buyers == Recipients(f, ks, IsBuy)
    && taxedS1 == Recipients(f, ks, IsTaxedS1)
  }

  method TallyBuy(f: CurveFlow, k: EventKey, taxed: set<Hash>, ghost done: set<EventKey>,
                  s0: FlowSnapshot, buyers0: set<Address>, taxedS10: set<Address>)
    returns (s: FlowSnapshot, buyers: set<Address>, taxedS1: set<Address>)
    requires IsBuy(f, k) && k !in done && taxed == TaxedHashes(f, f.events.Keys)
    requires Tallied(f, done, s0, buyers0, taxedS10)
    ensures Tallied(f, done + {k}, s, buyers, taxedS1)
  {
    buyers, taxedS1 := buyers0, taxedS10;
    var buy := f.events[k].event;
    s := s0.(buys := SatAdd(s0.buys, 1, U32), quoteIn := SatAdd(s0.quoteIn, buy.quoteIn, WORD));
    buyers := buyers + {buy.recipient};
    if buy.quoteIn != 0 && buy.recipient !in f.insiders {
      var last := if s.lastNonInsiderBuyAt.Some? then s.lastNonInsiderBuyAt.value else 0;
      s := s.(lastNonInsiderBuyAt := Some(Max(last, buy.timestamp)));
    }
    var wasTaxed := buy.transactionHash in taxed;
    var elapsed := Monus(buy.timestamp, f.launchedAt);
    if elapsed == 1 && wasTaxed {
      taxedS1 := taxedS1 + {buy.recipient};
    }
    if elapsed == 0 && !wasTaxed {
      s := s.(exemptBuysS0 := SatAdd(s.exemptBuysS0, 1, U32));
    }
    NumbersGrow(f, done, k, s0, s);
    LatestGrows(f, done, k, s0.lastNonInsiderBuyAt, s.lastNonInsiderBuyAt);
    ExistenceGrows(f, done, k, s0, s);
    RecipientsGrow(f, done, k, IsBuy);
    RecipientsGrow(f, done, k, IsTaxedS1);
  }

  /** One event's contribution, in the source's order of tests. */
  method Tally(f: CurveFlow, k: EventKey, taxed: set<Hash>, ghost done: set<EventKey>,
               s0: FlowSnapshot, buyers0: set<Address>, taxedS10: set<Address>)
    returns (s: FlowSnapshot, buyers: set<Address>, taxedS1: set<Address>)
    requires k in f.events && k !in done && taxed == TaxedHashes(f, f.events.Keys)
    requires Tallied(f, done, s0, buyers0, taxedS10)
    ensures Tallied(f, done + {k}, s, buyers, taxedS1)
  {
    var event := f.events[k].event;
    if event.Buy? {
      s, buyers, taxedS1 := TallyBuy(f, k, taxed, done, s0, buyers0, taxedS10);
      return;
    }
    s, buyers, taxedS1 := s0, buyers0, taxedS10;
    if event.Sell? {
      s := s.(sells := SatAdd(s.sells, 1, U32), quoteOut := SatAdd(s.quoteOut, event.quoteOut, WORD),
              insiderSold := s.insiderSold || event.seller in f.insiders || event.recipient in f.insiders);
    } else if event.Completed? {
      s := s.(readyToGraduate := true);
    }
    NumbersGrow(f, done, k, s0, s);
    LatestGrows(f, done, k, s0.lastNonInsiderBuyAt, s.lastNonInsiderBuyAt);
    ExistenceGrows(f, done, k, s0, s);
    RecipientsGrow(f, done, k, IsBuy);
    RecipientsGrow(f, done, k, IsTaxedS1);
  }

  function Bump(n: nat, more: bool): nat {
    if more then SatAdd(n, 1, U32) else n
  }

  lemma NumbersGrow(f: CurveFlow, done: set<EventKey>, k: EventKey, s0: FlowSnapshot, s: FlowSnapshot)
    requires k in f.events && k !in done && Numbers(f, done, s0)
    requires s.buys == Bump(s0.buys, IsBuy(f, k)) && s.sells == Bump(s0.sells, IsSell(f, k))
    requires s.exemptBuysS0 == Bump(s0.exemptBuysS0, IsExemptS0(f, k))
    requires s.quoteIn == SatAdd(s0.quoteIn, if IsBuy(f, k) then Amount(f, k) else 0, WORD)
    requires s.quoteOut == SatAdd(s0.quoteOut, if IsSell(f, k) then Amount(f, k) else 0, WORD)
    ensures Numbers(f, done + {k}, s)
  {
    OnlyGrows(f, done, k, IsBuy);
    OnlyGrows(f, done, k, IsSell);
    OnlyGrows(f, done, k, IsExemptS0);
  }

  lemma NothingCounted(f: CurveFlow)
    ensures Tallied(f, {}, EMPTY, {}, {})
  {
    assert Only(f, {}, IsBuy) == {} && Only(f, {}, IsSell) == {} && Only(f, {}, IsExemptS0) == {};
    assert Only(f, {}, IsOutsideBuy) == {};
  }

  lemma LatestGrows(f: CurveFlow, done: set<EventKey>, k: EventKey, was: Option<nat>, now: Option<nat>)
    requires k in f.events && k !in done && IsLatest(f, Only(f, done, IsOutsideBuy), was)
    requires now == if IsOutsideBuy(f, k)
                    then Some(Max(if was.Some? then was.value else 0, Timestamp(f.events[k].event)))
                    else was
    ensures IsLatest(f, Only(f, done + {k}, IsOutsideBuy), now)
  {
    OnlyGrows(f, done, k, IsOutsideBuy);
    var ks := Only(f, done + {k}, IsOutsideBuy);
    if IsOutsideBuy(f, k) {
      assert k in ks;
      if was.Some? {
        var j :| j in Only(f, done, IsOutsideBuy) && j in f.events && Timestamp(f.events[j].event) == was.value;
        assert j in ks;
      }
    }
  }

  lemma ExistenceGrows(f: CurveFlow, done: set<EventKey>, k: EventKey, s0: FlowSnapshot, s: FlowSnapshot)
    requires s0.insiderSold <==> exists j :: j in done && IsInsiderSale(f, j)
    requires s0.readyToGraduate <==> exists j :: j in done && j in f.events && f.events[j].event.Completed?
    requires k in f.events
    requires s.insiderSold <==> s0.insiderSold || IsInsiderSale(f, k)
    requires s.readyToGraduate <==> s0.readyToGraduate || f.events[k].event.Completed?
    ensures s.insiderSold <==> exists j :: j in done + {k} && IsInsiderSale(f, j)
    ensures s.readyToGraduate <==> exists j :: j in done + {k} && j in f.events && f.events[j].event.Completed?
  {
    if s.insiderSold && s0.insiderSold {
      var j :| j in done && IsInsiderSale(f, j);
      assert j in done + {k};
    }
    if s.readyToGraduate && s0.readyToGraduate {
      var j :| j in done && j in f.events && f.events[j].event.Completed?;
      assert j in done + {k};
    }
    assert k in done + {k};
  }

  /** Folds the events in whatever order they come. */
  method FoldEvents(f: CurveFlow) returns (s: FlowSnapshot, buyers: set<Address>, taxedS1: set<Address>)
    ensures Tallied(f, f.events.Keys, s, buyers, taxedS1)
  {
    s, buyers, taxedS1 := EMPTY, {}, {};
    var taxed := TaxedHashes(f, f.events.Keys);
    var rest := f.events.Keys;
    ghost var done: set<EventKey> := {};
    NothingCounted(f);
    while rest != {}
      invariant done !! rest && done + rest == f.events.Keys
      invariant Tallied(f, done, s, buyers, taxedS1)
      decreases rest
    {
      var k :| k in rest;
      s, buyers, taxedS1 := Tally(f, k, taxed, done, s, buyers, taxedS1);
      MoveOver(f.events.Keys, rest, done, k);
      rest, done := rest - {k}, done + {k};
    }
    assert done == f.events.Keys;
  }

  lemma MoveOver(all: set<EventKey>, rest: set<EventKey>, done: set<EventKey>, k: EventKey)
    requires done !! rest && done + rest == all && k in rest
    ensures done + {k} !! rest - {k} && (done + {k}) + (rest - {k}) == all
  {
  }

  lemma SizesFinishTheCount(f: CurveFlow, s: FlowSnapshot, buyers: set<Address>, taxedS1: set<Address>)
    requires Tallied(f, f.events.Keys, s, buyers, taxedS1)
    ensures Counts(f, f.events.Keys, s.(taxedBuyersS1 := |taxedS1| % U32, uniqueBuyers := |buyers| % U32))
  {
  }

  /** The result is the one set-based snapshot, whatever order the events are visited in. */
  method TakeSnapshot(tracker: FlowTracker, curve: Address) returns (s: FlowSnapshot)
    ensures curve !in tracker.curves ==> s == EMPTY
    ensures curve in tracker.curves ==> Counts(tracker.curves[curve], tracker.curves[curve].events.Keys, s)
  {
    if curve !in tracker.curves {
      return EMPTY;
    }
    var f := tracker.curves[curve];
    var tallied, buyers, taxedS1 := FoldEvents(f);
    SizesFinishTheCount(f, tallied, buyers, taxedS1);
    return tallied.(taxedBuyersS1 := |taxedS1| % U32, uniqueBuyers := |buyers| % U32);
  }

  /** Deliveries that are the same set of consistent logs give the same snapshot, tax logs first or last. */
  lemma SnapshotIgnoresDeliveryOrder(origin: CurveFlow, a: seq<Delivery>, b: seq<Delivery>, s: FlowSnapshot,
                                     t: FlowSnapshot)
    requires origin.events == map[] && origin.identities == map[]
    requires Consistent(a) && (forall d :: d in a <==> d in b)
    requires Counts(Absorb(origin, a), Absorb(origin, a).events.Keys, s)
    requires Counts(Absorb(origin, b), Absorb(origin, b).events.Keys, t)
    ensures s == t
  {
    DuplicatesAndOrderDoNotMatter(origin, a, b);
    OneSnapshot(Absorb(origin, a), s, t);
  }
}
