/** What a listing of curve logs amounts to, told by the logs' own fields (crates/bodkin/src/pons/stream.rs). */
module Listing {
  import opened Flow
  import opened Stream
  import opened Snapshot

  /** No two logs of the listing are the same transaction log. */
  ghost predicate Distinct(ds: seq<Delivery>) {
    forall i, j | 0 <= i < j < |ds| && Located(ds[i].log) && Located(ds[j].log) ::
      ds[i].log.transactionHash != ds[j].log.transactionHash || ds[i].log.logIndex != ds[j].log.logIndex
  }

  /** The buys among the logs, and the quote they put in; the sells, and the quote they take out. */
  datatype Sums = Sums(buys: nat, quoteIn: nat, sells: nat, quoteOut: nat)

  function SumsOf(ds: seq<Delivery>): Sums {
    if ds == [] then Sums(0, 0, 0, 0) else
      var t, l := SumsOf(ds[..|ds| - 1]), ds[|ds| - 1].log;
      if !IsEvent(l) then t else match l.body
      case BuyBody(_, quoteIn, _, _, _) => t.(buys := t.buys + 1, quoteIn := t.quoteIn + quoteIn)
      case SellBody(_, _, _, quoteOut, _, _) => t.(sells := t.sells + 1, quoteOut := t.quoteOut + quoteOut)
      case _ => t
  }

  /** The table holds exactly what the logs tell. */
  ghost predicate TellsAll(f: CurveFlow, ds: seq<Delivery>) {
    && (forall i :: 0 <= i < |ds| && IsEvent(ds[i].log) ==> exists k :: Records(f, k, ds[i]))
    && (forall k :: k in f.events ==> exists i :: 0 <= i < |ds| && Records(f, k, ds[i]))
  }

  ghost predicate AddsUp(f: CurveFlow, t: Sums) {
    && |Only(f, f.events.Keys, IsBuy)| == t.buys && Total(f, Only(f, f.events.Keys, IsBuy)) == t.quoteIn
    && |Only(f, f.events.Keys, IsSell)| == t.sells && Total(f, Only(f, f.events.Keys, IsSell)) == t.quoteOut
  }

  lemma {:induction false} TotalOfSame(f: CurveFlow, g: CurveFlow, ks: set<EventKey>)
    requires forall k :: k in ks ==> Amount(f, k) == Amount(g, k)
    ensures Total(f, ks) == Total(g, ks)
  {
    if ks != {} {
      var k :| k in ks;
      TotalWithout(f, ks, k);
      TotalWithout(g, ks, k);
      TotalOfSame(f, g, ks - {k});
    }
  }

  /** A new event under a new key. */
  lemma OneMoreOf(f: CurveFlow, g: CurveFlow, key: EventKey, p: (CurveFlow, EventKey) -> bool)
    requires key !in f.events && key in g.events && g.events == f.events[key := g.events[key]]
    requires forall k :: k in f.events ==> p(f, k) == p(g, k)
    ensures var was, now := Only(f, f.events.Keys, p), Only(g, g.events.Keys, p);
      && |now| == |was| + (if p(g, key) then 1 else 0)
      && Total(g, now) == Total(f, was) + (if p(g, key) then Amount(g, key) else 0)
  {
    var was, now := Only(f, f.events.Keys, p), Only(g, g.events.Keys, p);
    TotalOfSame(f, g, was);
    if p(g, key) {
      assert now == was + {key};
      TotalWithout(g, now, key);
      assert now - {key} == was;
    } else {
      assert now == was;
    }
  }

  lemma NoEntryOfItsOwn(f: CurveFlow, ds: seq<Delivery>, n: nat, k: EventKey)
    requires n < |ds| && Distinct(ds) && Located(ds[n].log) && TellsAll(f, ds[..n])
    ensures k in f.events ==> !IsLog(k, ds[n].log)
  {
    if k in f.events {
      var i :| 0 <= i < n && Records(f, k, ds[..n][i]);
    }
  }

  function KeyOf(l: Log): EventKey
    requires Located(l)
  {
    EventKey(l.blockNumber.value, l.transactionIndex.value, l.logIndex.value, l.transactionHash.value)
  }

  /** A log nobody has seen adds one entry, under its own key. */
  lemma OneEntryMore(f: CurveFlow, g: CurveFlow, d: Delivery)
    requires IsEvent(d.log) && !d.log.removed && TakenIn(f, g, d)
    requires forall k :: k in f.events ==> !IsLog(k, d.log)
    ensures var key := KeyOf(d.log);
      key !in f.events && Records(g, key, d) && g.events == f.events[key := g.events[key]]
  {
    var key := KeyOf(d.log);
    forall k ensures k in g.events <==> k in f.events || k == key {
      if k in g.events && IsLog(k, d.log) {
        assert Names(k, d.log);
      }
    }
  }

  /** The sums with one more entry. */
  function Plus(t: Sums, g: CurveFlow, key: EventKey): Sums {
    if IsBuy(g, key) then t.(buys := t.buys + 1, quoteIn := t.quoteIn + g.events[key].event.quoteIn)
    else if IsSell(g, key) then t.(sells := t.sells + 1, quoteOut := t.quoteOut + g.events[key].event.quoteOut)
    else t
  }

  lemma OneMoreAddsUp(f: CurveFlow, g: CurveFlow, key: EventKey, t: Sums)
    requires AddsUp(f, t) && key !in f.events && key in g.events && g.events == f.events[key := g.events[key]]
    ensures AddsUp(g, Plus(t, g, key))
  {
    OneMoreOf(f, g, key, IsBuy);
    OneMoreOf(f, g, key, IsSell);
  }

  lemma SumsStep(ds: seq<Delivery>, n: nat, g: CurveFlow, key: EventKey)
    requires n < |ds| && IsEvent(ds[n].log) && Records(g, key, ds[n])
    ensures SumsOf(ds[..n + 1]) == Plus(SumsOf(ds[..n]), g, key)
  {
    assert ds[..n + 1][..n] == ds[..n];
  }

  lemma OneMoreLog(f: CurveFlow, g: CurveFlow, ds: seq<Delivery>, n: nat)
    requires n < |ds| && Distinct(ds) && !ds[n].log.removed && IsEvent(ds[n].log)
    requires TellsAll(f, ds[..n]) && AddsUp(f, SumsOf(ds[..n])) && TakenIn(f, g, ds[n])
    ensures TellsAll(g, ds[..n + 1]) && AddsUp(g, SumsOf(ds[..n + 1]))
  {
    forall k | k in f.events ensures !IsLog(k, ds[n].log) {
      NoEntryOfItsOwn(f, ds, n, k);
    }
    OneEntryMore(f, g, ds[n]);
    StillTold(f, g, ds, n, KeyOf(ds[n].log));
    OneMoreAddsUp(f, g, KeyOf(ds[n].log), SumsOf(ds[..n]));
    SumsStep(ds, n, g, KeyOf(ds[n].log));
  }

  lemma StillTold(f: CurveFlow, g: CurveFlow, ds: seq<Delivery>, n: nat, key: EventKey)
    requires n < |ds| && TellsAll(f, ds[..n]) && key !in f.events && Records(g, key, ds[n])
    requires g.events == f.events[key := g.events[key]]
    ensures TellsAll(g, ds[..n + 1])
  {
    var all := ds[..n + 1];
    forall i | 0 <= i < |all| && IsEvent(all[i].log) ensures exists k :: Records(g, k, all[i]) {
      if i < n {
        assert ds[..n][i] == all[i];
        var k :| Records(f, k, all[i]);
        assert Records(g, k, all[i]);
      } else {
        assert Records(g, key, all[i]);
      }
    }
    forall k | k in g.events ensures exists i :: 0 <= i < |all| && Records(g, k, all[i]) {
      if k == key {
        assert Records(g, k, all[n]);
      } else {
        var i :| 0 <= i < n && Records(f, k, ds[..n][i]);
        assert Records(g, k, all[i]);
      }
    }
  }

  /** A log that is no event, or is not in its place, leaves the table and the totals. */
  lemma NothingTold(f: CurveFlow, ds: seq<Delivery>, n: nat)
    requires n < |ds| && !IsEvent(ds[n].log) && TellsAll(f, ds[..n])
    ensures TellsAll(f, ds[..n + 1])
  {
    var all := ds[..n + 1];
    forall i | 0 <= i < |all| && IsEvent(all[i].log) ensures exists k :: Records(f, k, all[i]) {
      assert ds[..n][i] == all[i];
    }
    forall k | k in f.events ensures exists i :: 0 <= i < |all| && Records(f, k, all[i]) {
      var i :| 0 <= i < n && Records(f, k, ds[..n][i]);
      assert Records(f, k, all[i]);
    }
  }

  lemma NothingSummed(ds: seq<Delivery>, n: nat)
    requires n < |ds| && !IsEvent(ds[n].log)
    ensures SumsOf(ds[..n + 1]) == SumsOf(ds[..n])
  {
    assert ds[..n + 1][..n] == ds[..n];
  }

  lemma IgnoredUnlessEvent(f: CurveFlow, d: Delivery)
    requires !d.log.removed && !IsEvent(d.log)
    ensures Absorb1(f, EffectOf(d)) == f
  {
  }

  lemma OneMoreTaken(f: CurveFlow, ds: seq<Delivery>, n: nat)
    requires n < |ds| && Linked(f) && Distinct(ds) && !ds[n].log.removed
    requires TellsAll(f, ds[..n]) && AddsUp(f, SumsOf(ds[..n]))
    ensures var g := Absorb1(f, EffectOf(ds[n])); TellsAll(g, ds[..n + 1]) && AddsUp(g, SumsOf(ds[..n + 1]))
  {
    if IsEvent(ds[n].log) {
      OnlyReadableIsTaken(ds[n]);
      IngestedAsTold(f, ds[n]);
      OneMoreLog(f, Absorb1(f, EffectOf(ds[n])), ds, n);
    } else {
      IgnoredUnlessEvent(f, ds[n]);
      NothingTold(f, ds, n);
      NothingSummed(ds, n);
    }
  }

  lemma DistinctFront(ds: seq<Delivery>, n: nat)
    requires n <= |ds| && Distinct(ds)
    ensures Distinct(ds[..n])
  {
  }

  /** Fed distinct logs, none removed, a tracker holds what they tell, each once, and its totals are theirs. */
  lemma {:induction false} ListingIsTold(f: CurveFlow, ds: seq<Delivery>)
    requires f.events == map[] && f.identities == map[]
    requires Distinct(ds) && forall i :: 0 <= i < |ds| ==> !ds[i].log.removed
    ensures TellsAll(Absorb(f, ds), ds) && AddsUp(Absorb(f, ds), SumsOf(ds))
  {
    if ds == [] {
      NothingListed(f);
    } else {
      var n := |ds| - 1;
      DistinctFront(ds, n);
      ListingIsTold(f, ds[..n]);
      AbsorbStaysLinked(f, ds[..n]);
      OneMoreTaken(Absorb(f, ds[..n]), ds, n);
      assert ds[..n + 1] == ds;
    }
  }

  lemma NothingListed(f: CurveFlow)
    requires f.events == map[]
    ensures AddsUp(f, Sums(0, 0, 0, 0))
  {
    assert Only(f, f.events.Keys, IsBuy) == {} && Only(f, f.events.Keys, IsSell) == {};
  }

  /** Only the events count. */
  lemma SameEventsAddUp(f: CurveFlow, g: CurveFlow, t: Sums)
    requires f.events == g.events && AddsUp(f, t)
    ensures AddsUp(g, t)
  {
    assert Only(f, f.events.Keys, IsBuy) == Only(g, g.events.Keys, IsBuy);
    assert Only(f, f.events.Keys, IsSell) == Only(g, g.events.Keys, IsSell);
    TotalOfSame(f, g, Only(f, f.events.Keys, IsBuy));
    TotalOfSame(f, g, Only(f, f.events.Keys, IsSell));
  }

  lemma SameEventsTell(f: CurveFlow, g: CurveFlow, ds: seq<Delivery>)
    requires f.events == g.events && TellsAll(f, ds)
    ensures TellsAll(g, ds)
  {
    forall i | 0 <= i < |ds| && IsEvent(ds[i].log) ensures exists k :: Records(g, k, ds[i]) {
      var k :| Records(f, k, ds[i]);
      assert Records(g, k, ds[i]);
    }
    forall k | k in g.events ensures exists i :: 0 <= i < |ds| && Records(g, k, ds[i]) {
      var i :| 0 <= i < |ds| && Records(f, k, ds[i]);
      assert Records(g, k, ds[i]);
    }
  }
}
