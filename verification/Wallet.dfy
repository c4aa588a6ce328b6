/**
 * The shared nonce allocator (crates/bodkin/src/trade/wallet.rs): ranges are taken from a counter and may be handed
 * back.
 */
module Wallet {
  import opened Common

  datatype Range = Range(start: nat, count: nat)

  predicate Covers(r: Range, nonce: nat) {
    r.start <= nonce < r.start + r.count
  }

  ghost predicate Apart(a: Range, b: Range) {
    forall x: nat :: Covers(a, x) ==> !Covers(b, x)
  }

  ghost predicate Held(held: seq<Range>, nonce: nat) {
    exists i :: 0 <= i < |held| && Covers(held[i], nonce)
  }

  /** Every nonce from the seed up to the counter belongs to exactly one holder, and no holder has any other. */
  ghost predicate Partition(seed: nat, counter: nat, held: seq<Range>) {
    && seed <= counter
    && (forall i, j | 0 <= i < |held| && 0 <= j < |held| && i != j :: Apart(held[i], held[j]))
    && (forall x: nat :: Held(held, x) <==> seed <= x < counter)
  }

  function Without(held: seq<Range>, k: nat): seq<Range>
    requires k < |held|
  {
    held[..k] + held[k + 1..]
  }

  /** The range just handed out overlaps nobody's. */
  lemma TakeKeepsPartition(seed: nat, counter: nat, held: seq<Range>, n: nat)
    requires Partition(seed, counter, held)
    ensures Partition(seed, counter + n, held + [Range(counter, n)])
  {
    var r := Range(counter, n);
    var now := held + [r];
    forall i | 0 <= i < |held| ensures Apart(held[i], r) && Apart(r, held[i]) {
      forall x: nat | Covers(held[i], x) ensures !Covers(r, x) {
        assert Held(held, x);
      }
    }
    forall x: nat ensures Held(now, x) <==> seed <= x < counter + n {
      assert Covers(now[|held|], x) <==> counter <= x < counter + n;
      if Held(held, x) {
        var i :| 0 <= i < |held| && Covers(held[i], x);
        assert Covers(now[i], x);
      }
    }
  }

  lemma WithoutAt(held: seq<Range>, k: nat, i: nat)
    requires k < |held| && i < |held| && i != k
    ensures var n := if i < k then i else i - 1; n < |Without(held, k)| && Without(held, k)[n] == held[i]
  {
  }

  lemma HeldWithout(held: seq<Range>, k: nat, x: nat)
    requires k < |held| && forall i | 0 <= i < |held| && i != k :: Apart(held[k], held[i])
    ensures Held(Without(held, k), x) <==> Held(held, x) && !Covers(held[k], x)
  {
    var rest := Without(held, k);
    if Held(rest, x) {
      var i :| 0 <= i < |rest| && Covers(rest[i], x);
      var j := if i < k then i else i + 1;
      assert held[j] == rest[i] && Apart(held[k], held[j]);
    }
    if Held(held, x) && !Covers(held[k], x) {
      var i :| 0 <= i < |held| && Covers(held[i], x);
      WithoutAt(held, k, i);
    }
  }

  /** Handing back a range that ends at the counter leaves the rest a partition of what is below it. */
  lemma RewindKeepsPartition(seed: nat, counter: nat, held: seq<Range>, k: nat)
    requires Partition(seed, counter, held) && k < |held| && held[k].start + held[k].count == counter
    ensures Partition(seed, if held[k].count == 0 then counter else held[k].start, Without(held, k))
  {
    var rest, r := Without(held, k), held[k];
    if r.count > 0 {
      assert Covers(r, r.start) && Held(held, r.start);
    }
    forall i, j | 0 <= i < |rest| && 0 <= j < |rest| && i != j ensures Apart(rest[i], rest[j]) {
      assert Apart(held[if i < k then i else i + 1], held[if j < k then j else j + 1]);
    }
    forall x: nat ensures Held(rest, x) <==> seed <= x < r.start {
      HeldWithout(held, k, x);
    }
  }

  /** Every held nonce outside the range is below it. */
  ghost predicate Topmost(held: seq<Range>, r: Range) {
    forall x: nat :: Held(held, x) && !Covers(r, x) ==> x < r.start
  }

  /**
   * A non-empty range ends at the counter exactly when every other held nonce lies below it: only the topmost can go
   * back.
   */
  lemma OnlyTheTopmostGoesBack(seed: nat, counter: nat, held: seq<Range>, k: nat)
    requires Partition(seed, counter, held) && k < |held| && held[k].count > 0
    ensures held[k].start + held[k].count == counter <==> Topmost(held, held[k])
  {
    var r := held[k];
    assert Covers(r, r.start + r.count - 1) && Held(held, r.start + r.count - 1);
    if r.start + r.count < counter {
      assert Covers(r, r.start) && Held(held, r.start);
      assert Held(held, r.start + r.count) && !Covers(r, r.start + r.count);
    }
  }

  class Allocator {
    var nonce: nat
    ghost var seed: nat
    ghost var held: seq<Range>

    ghost predicate Valid()
      reads this
    {
      Partition(seed, nonce, held)
    }

    constructor (n: nat)
      ensures Valid() && nonce == seed == n && held == []
    {
      nonce, seed, held := n, n, [];
    }

    /** `fetch_add`; the counter is assumed to stay below 2^64. */
    method TakeNonces(n: nat) returns (taken: seq<nat>)
      requires Valid() && nonce + n < U64
      modifies this
      ensures Valid() && seed == old(seed) && held == old(held) + [Range(old(nonce), n)] && nonce == old(nonce) + n
      ensures |taken| == n && forall i :: 0 <= i < n ==> taken[i] == old(nonce) + i
      ensures forall x :: x in taken ==> !Held(old(held), x)
    {
      TakeKeepsPartition(seed, nonce, held, n);
      ghost var before := held;
      var start := nonce;
      held := held + [Range(nonce, n)];
      nonce := nonce + n;
      taken := [];
      while |taken| < n
        invariant |taken| <= n && forall i :: 0 <= i < |taken| ==> taken[i] == start + i
      {
        taken := taken + [start + |taken|];
      }
      forall x | x in taken ensures !Held(before, x) {
        assert x >= start;
      }
    }

    method NextNonce() returns (n: nat)
      requires Valid() && nonce + 1 < U64
      modifies this
      ensures Valid() && seed == old(seed) && n == old(nonce) && nonce == n + 1 && held == old(held) + [Range(n, 1)]
      ensures !Held(old(held), n)
    {
      TakeKeepsPartition(seed, nonce, held, 1);
      n := nonce;
      held := held + [Range(nonce, 1)];
      nonce := nonce + 1;
    }

    /** `compare_exchange`: succeeds for the topmost range and changes nothing otherwise. `k` says whose range it is. */
    method RewindNonces(start: nat, count: nat, ghost k: nat) returns (ok: bool)
      requires Valid() && nonce < U64 && k < |held| && held[k] == Range(start, count) && count > 0
      modifies this
      ensures Valid() && seed == old(seed)
      ensures ok <==> Topmost(old(held), Range(start, count))
      ensures ok ==> nonce == start && held == Without(old(held), k)
      ensures !ok ==> nonce == old(nonce) && held == old(held)
    {
      OnlyTheTopmostGoesBack(seed, nonce, held, k);
      assert Covers(held[k], start + count - 1) && Held(held, start + count - 1);
      ok := nonce == SatAdd(start, count, U64);
      if ok {
        RewindKeepsPartition(seed, nonce, held, k);
        nonce := start;
        held := Without(held, k);
      }
    }

    /** A reseed from the chain: ranges taken before it are no longer accounted for. */
    method SetNonce(n: nat)
      modifies this
      ensures Valid() && nonce == seed == n && held == []
    {
      nonce, seed, held := n, n, [];
    }
  }
}
