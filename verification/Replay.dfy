/** Causal replay of ordered reserve transitions (crates/bodkin/src/replay.rs, `state_before`). */
module Replay {
  import opened Common
  import opened Flow
  import opened Curve

  datatype Launch = Launch(
    launchedAt: nat,
    startBps: nat,
    window: nat,
    provenanceComplete: bool,
    curveState: Option<CurveState>,
    flow: seq<FlowRecord>)

  // ---- One event -----------------------------------------------------------------------------

  /** Net quote enters the reserves on a buy. */
  function BuyStep(s: CurveState, net: nat, tokens: nat): Option<CurveState> {
    if s.quoteReserve + net >= WORD || s.realQuoteReserve + net >= WORD
      || tokens > s.tokenReserve || tokens > s.sellableTokens
    then None
    else Some(s.(quoteReserve := s.quoteReserve + net, realQuoteReserve := s.realQuoteReserve + net,
                 tokenReserve := s.tokenReserve - tokens, sellableTokens := s.sellableTokens - tokens))
  }

  /** Gross quote leaves them on a sell. */
  function SellStep(s: CurveState, gross: nat, tokens: nat): Option<CurveState> {
    if gross > s.quoteReserve || gross > s.realQuoteReserve
      || s.tokenReserve + tokens >= WORD || s.sellableTokens + tokens >= WORD
    then None
    else Some(s.(quoteReserve := s.quoteReserve - gross, realQuoteReserve := s.realQuoteReserve - gross,
                 tokenReserve := s.tokenReserve + tokens, sellableTokens := s.sellableTokens + tokens))
  }

  function Step(s: CurveState, event: FlowEvent): Option<CurveState> {
    match event
    case Buy(_, quoteIn, tokensOut, fee, tax, _, _) =>
      if fee > quoteIn || tax > quoteIn - fee then None else BuyStep(s, quoteIn - fee - tax, tokensOut)
    case Sell(_, _, tokensIn, quoteOut, fee, tax, _) =>
      if quoteOut + fee >= WORD || quoteOut + fee + tax >= WORD then None
      else SellStep(s, quoteOut + fee + tax, tokensIn)
    case Completed(_) => Some(s.(readyToGraduate := true))
    case Tax(_, _, _, _) => Some(s)
  }

  function Steps(s: CurveState, rs: seq<FlowRecord>): Option<CurveState> {
    if rs == [] then Some(s) else
      match Steps(s, rs[..|rs| - 1])
      case None => None
      case Some(t) => Step(t, rs[|rs| - 1].event)
  }

  // ---- Canonical order -------------------------------------------------------------------------

  predicate Before(a: EventKey, b: EventKey) {
    a.blockNumber < b.blockNumber
    || (a.blockNumber == b.blockNumber && (a.transactionIndex < b.transactionIndex
    || (a.transactionIndex == b.transactionIndex && (a.logIndex < b.logIndex
    || (a.logIndex == b.logIndex && a.transactionHash < b.transactionHash)))))
  }

  predicate Sorted(rs: seq<FlowRecord>) {
    forall i, j | 0 <= i < j < |rs| :: !Before(rs[j].key, rs[i].key)
  }

  predicate SameKey(a: FlowRecord, b: FlowRecord) {
    a.key == b.key
  }

  /** No two different records share a key; one record may be listed any number of times. */
  ghost predicate OnePerKey(m: multiset<FlowRecord>) {
    forall a, b :: SameKey(a, b) && m[a] > 0 && m[b] > 0 ==> a == b
  }

  function Insert(r: FlowRecord, rs: seq<FlowRecord>): seq<FlowRecord> {
    if rs == [] || !Before(rs[0].key, r.key) then [r] + rs else [rs[0]] + Insert(r, rs[1..])
  }

  /** A stable sort by (block, transaction index, log index, transaction hash). */
  function SortByKey(rs: seq<FlowRecord>): seq<FlowRecord> {
    if rs == [] then [] else Insert(rs[0], SortByKey(rs[1..]))
  }

  lemma {:induction false} InsertKeepsRecords(r: FlowRecord, rs: seq<FlowRecord>)
    ensures multiset(Insert(r, rs)) == multiset(rs) + multiset{r}
  {
    if rs != [] && Before(rs[0].key, r.key) {
      InsertKeepsRecords(r, rs[1..]);
      assert rs == [rs[0]] + rs[1..];
    }
  }

  lemma {:induction false} SortKeepsRecords(rs: seq<FlowRecord>)
    ensures multiset(SortByKey(rs)) == multiset(rs)
  {
    if rs != [] {
      SortKeepsRecords(rs[1..]);
      InsertKeepsRecords(rs[0], SortByKey(rs[1..]));
      assert rs == [rs[0]] + rs[1..];
    }
  }

  lemma {:induction false} InsertKeepsSorted(r: FlowRecord, rs: seq<FlowRecord>)
    requires Sorted(rs)
    ensures Sorted(Insert(r, rs))
  {
    if rs != [] && Before(rs[0].key, r.key) {
      InsertKeepsSorted(r, rs[1..]);
      var tail := Insert(r, rs[1..]);
      InsertKeepsRecords(r, rs[1..]);
      forall x | x in tail ensures !Before(x.key, rs[0].key) {
        assert x in multiset(tail);
        assert x in multiset(rs[1..]) + multiset{r};
        assert x in rs[1..] || x == r;
      }
    }
  }

  lemma {:induction false} SortSorts(rs: seq<FlowRecord>)
    ensures Sorted(SortByKey(rs))
  {
    if rs != [] {
      SortSorts(rs[1..]);
      InsertKeepsSorted(rs[0], SortByKey(rs[1..]));
    }
  }

  lemma SameFirst(a: seq<FlowRecord>, b: seq<FlowRecord>)
    requires a != [] && b != [] && Sorted(a) && Sorted(b) && OnePerKey(multiset(a)) && multiset(a) == multiset(b)
    ensures a[0] == b[0]
  {
    assert a[0] in multiset(b) && b[0] in multiset(a);
    var i :| 0 <= i < |b| && b[i] == a[0];
    var j :| 0 <= j < |a| && a[j] == b[0];
    KeysAreTotal(a[0].key, b[0].key);
    assert multiset(a)[a[0]] > 0 && multiset(a)[b[0]] > 0;
    assert !SameKey(a[0], b[0]) || a[0] == b[0];
  }

  /** Two sorted listings of the same records, one to a key, are the same listing. */
  lemma {:induction false} SortedListingIsUnique(a: seq<FlowRecord>, b: seq<FlowRecord>)
    requires Sorted(a) && Sorted(b) && OnePerKey(multiset(a)) && multiset(a) == multiset(b)
    ensures a == b
  {
    assert |a| == |multiset(a)| == |multiset(b)| == |b|;
    if a != [] {
      SameFirst(a, b);
      SameRest(a, b);
      SortedListingIsUnique(a[1..], b[1..]);
      assert a == [a[0]] + a[1..] && b == [b[0]] + b[1..];
    }
  }

  lemma RestWithoutFirst(a: seq<FlowRecord>)
    requires a != []
    ensures multiset(a[1..]) == multiset(a) - multiset{a[0]} && multiset(a[1..]) <= multiset(a)
  {
    assert a == [a[0]] + a[1..];
    assert multiset(a) == multiset{a[0]} + multiset(a[1..]);
  }

  lemma SameRest(a: seq<FlowRecord>, b: seq<FlowRecord>)
    requires a != [] && b != [] && a[0] == b[0] && multiset(a) == multiset(b) && OnePerKey(multiset(a))
    ensures multiset(a[1..]) == multiset(b[1..]) && OnePerKey(multiset(a[1..]))
  {
    RestWithoutFirst(a);
    RestWithoutFirst(b);
    FewerStayOnePerKey(multiset(a), multiset(a[1..]));
  }

  lemma FewerStayOnePerKey(m: multiset<FlowRecord>, n: multiset<FlowRecord>)
    requires OnePerKey(m) && n <= m
    ensures OnePerKey(n)
  {
  }

  lemma KeysAreTotal(a: EventKey, b: EventKey)
    ensures Before(a, b) || Before(b, a) || a == b
  {
  }

  // ---- The records that count ------------------------------------------------------------------

  predicate Counts(readBlock: nat, target: nat, r: FlowRecord) {
    r.key.blockNumber > readBlock && Timestamp(r.event) < target
  }

  function Relevant(rs: seq<FlowRecord>, readBlock: nat, target: nat): seq<FlowRecord> {
    if rs == [] then [] else
      (if Counts(readBlock, target, rs[0]) then [rs[0]] else []) + Relevant(rs[1..], readBlock, target)
  }

  lemma {:induction false} RelevantConcat(a: seq<FlowRecord>, b: seq<FlowRecord>, readBlock: nat, target: nat)
    ensures Relevant(a + b, readBlock, target) == Relevant(a, readBlock, target) + Relevant(b, readBlock, target)
  {
    if a == [] {
      assert a + b == b;
    } else {
      assert (a + b)[0] == a[0] && (a + b)[1..] == a[1..] + b;
      RelevantConcat(a[1..], b, readBlock, target);
      Regroup(if Counts(readBlock, target, a[0]) then [a[0]] else [], Relevant(a[1..], readBlock, target),
              Relevant(b, readBlock, target));
    }
  }

  lemma Regroup(a: seq<FlowRecord>, b: seq<FlowRecord>, c: seq<FlowRecord>)
    ensures a + (b + c) == (a + b) + c
  {
  }

  lemma {:induction false} RelevantCount(rs: seq<FlowRecord>, readBlock: nat, target: nat, r: FlowRecord)
    ensures multiset(Relevant(rs, readBlock, target))[r] == if Counts(readBlock, target, r) then multiset(rs)[r] else 0
  {
    if rs != [] {
      assert rs == [rs[0]] + rs[1..];
      RelevantCount(rs[1..], readBlock, target, r);
    }
  }

  lemma RelevantOfPermutation(a: seq<FlowRecord>, b: seq<FlowRecord>, readBlock: nat, target: nat)
    requires multiset(a) == multiset(b)
    ensures multiset(Relevant(a, readBlock, target)) == multiset(Relevant(b, readBlock, target))
  {
    forall r: FlowRecord
      ensures multiset(Relevant(a, readBlock, target))[r] == multiset(Relevant(b, readBlock, target))[r]
    {
      RelevantCount(a, readBlock, target, r);
      RelevantCount(b, readBlock, target, r);
    }
  }

  lemma RelevantKeepsOnePerKey(rs: seq<FlowRecord>, readBlock: nat, target: nat)
    requires OnePerKey(multiset(rs))
    ensures OnePerKey(multiset(Relevant(rs, readBlock, target)))
  {
    forall r: FlowRecord
      ensures multiset(Relevant(rs, readBlock, target))[r]
        == if Counts(readBlock, target, r) then multiset(rs)[r] else 0
    {
      RelevantCount(rs, readBlock, target, r);
    }
  }

  /** The records a replay steps through, in order. */
  function Listing(rs: seq<FlowRecord>, readBlock: nat, target: nat): seq<FlowRecord> {
    SortByKey(Relevant(rs, readBlock, target))
  }

  lemma ListingIgnoresOrder(a: seq<FlowRecord>, b: seq<FlowRecord>, readBlock: nat, target: nat)
    requires multiset(a) == multiset(b) && OnePerKey(multiset(b))
    ensures Listing(a, readBlock, target) == Listing(b, readBlock, target)
  {
    var ra, rb := Relevant(a, readBlock, target), Relevant(b, readBlock, target);
    RelevantOfPermutation(a, b, readBlock, target);
    RelevantKeepsOnePerKey(a, readBlock, target);
    SortSorts(ra);
    SortSorts(rb);
    SortKeepsRecords(ra);
    SortKeepsRecords(rb);
    SortedListingIsUnique(SortByKey(ra), SortByKey(rb));
  }

  // ---- The replayed state ----------------------------------------------------------------------

  /** The listing a launch replays before its entry second. */
  function ListingOf(launch: Launch, entrySecond: nat): seq<FlowRecord> {
    if launch.curveState.None? then [] else
      Listing(launch.flow, launch.curveState.value.readBlock, launch.launchedAt + entrySecond)
  }

  /** Refuses without full provenance, without a snapshot, on a 64-bit overflow, or if the snapshot is too late. */
  function StateFrom(complete: bool, snapshot: Option<CurveState>, target: nat, rs: seq<FlowRecord>)
    : Option<CurveState>
  {
    if !complete || snapshot.None? || target >= U64 || snapshot.value.readChainTs >= target then None
    else Steps(snapshot.value, rs)
  }

  function StateAt(launch: Launch, entrySecond: nat): Option<CurveState> {
    StateFrom(launch.provenanceComplete, launch.curveState, launch.launchedAt + entrySecond,
              ListingOf(launch, entrySecond))
  }

  /** One record's checked updates, field by field. */
  method ApplyRecord(s: CurveState, event: FlowEvent) returns (next: Option<CurveState>)
    ensures next == Step(s, event)
  {
    var state := s;
    match event {
      case Buy(_, quoteIn, tokensOut, fee, tax, _, _) =>
        if fee > quoteIn || tax > quoteIn - fee {
          return None;
        }
        var net := quoteIn - fee - tax;
        if CheckedAdd(state.quoteReserve, net).None? || CheckedAdd(state.realQuoteReserve, net).None?
          || CheckedSub(state.tokenReserve, tokensOut).None? || CheckedSub(state.sellableTokens, tokensOut).None? {
          return None;
        }
        state := state.(quoteReserve := state.quoteReserve + net);
        state := state.(realQuoteReserve := state.realQuoteReserve + net);
        state := state.(tokenReserve := state.tokenReserve - tokensOut);
        state := state.(sellableTokens := state.sellableTokens - tokensOut);
      case Sell(_, _, tokensIn, quoteOut, fee, tax, _) =>
        if CheckedAdd(quoteOut, fee).None? || CheckedAdd(quoteOut + fee, tax).None? {
          return None;
        }
        var gross := quoteOut + fee + tax;
        if CheckedSub(state.quoteReserve, gross).None? || CheckedSub(state.realQuoteReserve, gross).None?
          || CheckedAdd(state.tokenReserve, tokensIn).None? || CheckedAdd(state.sellableTokens, tokensIn).None? {
          return None;
        }
        state := state.(quoteReserve := state.quoteReserve - gross);
        state := state.(realQuoteReserve := state.realQuoteReserve - gross);
        state := state.(tokenReserve := state.tokenReserve + tokensIn);
        state := state.(sellableTokens := state.sellableTokens + tokensIn);
      case Completed(_) =>
        state := state.(readyToGraduate := true);
      case Tax(_, _, _, _) =>
    }
    return Some(state);
  }

  method StateBefore(launch: Launch, entrySecond: nat) returns (result: Option<CurveState>)
    ensures result == StateAt(launch, entrySecond)
  {
    if !launch.provenanceComplete || launch.curveState.None? || launch.launchedAt + entrySecond >= U64 {
      return None;
    }
    var state := launch.curveState.value;
    var target := launch.launchedAt + entrySecond;
    if state.readChainTs >= target {
      return None;
    }
    result := StepThrough(state, Listing(launch.flow, state.readBlock, target));
  }

  method StepThrough(start: CurveState, records: seq<FlowRecord>) returns (result: Option<CurveState>)
    ensures result == Steps(start, records)
  {
    var state := start;
    for i := 0 to |records|
      invariant Steps(start, records[..i]) == Some(state)
    {
      assert records[..i + 1][..i] == records[..i];
      var next := ApplyRecord(state, records[i].event);
      if next.None? {
        StopsHere(start, records, i);
        return None;
      }
      state := next.value;
    }
    assert records[..|records|] == records;
    return Some(state);
  }

  lemma {:induction false} StopsHere(s: CurveState, rs: seq<FlowRecord>, i: nat)
    requires i < |rs| && Steps(s, rs[..i + 1]).None?
    ensures Steps(s, rs).None?
    decreases |rs|
  {
    if i + 1 < |rs| {
      assert rs[..|rs| - 1][..i + 1] == rs[..i + 1];
      StopsHere(s, rs[..|rs| - 1], i);
    } else {
      assert rs[..i + 1] == rs;
    }
  }

  /** The replayed state, including its absence, does not depend on the order the records arrived in. */
  lemma ReplayIgnoresRecordOrder(launch: Launch, flow: seq<FlowRecord>, entrySecond: nat)
    requires multiset(launch.flow) == multiset(flow) && OnePerKey(multiset(flow))
    ensures StateAt(launch, entrySecond) == StateAt(launch.(flow := flow), entrySecond)
  {
    if launch.curveState.Some? {
      ListingIgnoresOrder(launch.flow, flow, launch.curveState.value.readBlock, launch.launchedAt + entrySecond);
    }
  }

  /**
   * No lookahead: records at or after the entry second, or from already-read blocks, change nothing wherever they sit.
   */
  lemma ReplayHasNoLookahead(launch: Launch, head: seq<FlowRecord>, extra: seq<FlowRecord>, tail: seq<FlowRecord>,
                             entrySecond: nat)
    requires launch.curveState.Some?
    requires forall r :: r in extra ==> !Counts(launch.curveState.value.readBlock, launch.launchedAt + entrySecond, r)
    ensures StateAt(launch.(flow := head + extra + tail), entrySecond)
      == StateAt(launch.(flow := head + tail), entrySecond)
  {
    IrrelevantRecordsDropOut(head, extra, tail, launch.curveState.value.readBlock, launch.launchedAt + entrySecond);
  }

  lemma IrrelevantRecordsDropOut(head: seq<FlowRecord>, extra: seq<FlowRecord>, tail: seq<FlowRecord>, readBlock: nat,
                                 target: nat)
    requires forall r :: r in extra ==> !Counts(readBlock, target, r)
    ensures Relevant(head + extra + tail, readBlock, target) == Relevant(head + tail, readBlock, target)
  {
    RelevantConcat(head + extra, tail, readBlock, target);
    RelevantConcat(head, extra, readBlock, target);
    RelevantConcat(head, tail, readBlock, target);
    NothingRelevant(extra, readBlock, target);
    assert Relevant(head, readBlock, target) + [] == Relevant(head, readBlock, target);
  }

  lemma {:induction false} NothingRelevant(rs: seq<FlowRecord>, readBlock: nat, target: nat)
    requires forall r :: r in rs ==> !Counts(readBlock, target, r)
    ensures Relevant(rs, readBlock, target) == []
  {
    if rs != [] {
      NothingRelevant(rs[1..], readBlock, target);
    }
  }

  /** Nothing in the listing falls between two moments, so a replay up to either reads the same records. */
  lemma {:induction false} QuietBetween(rs: seq<FlowRecord>, readBlock: nat, target: nat, later: nat)
    requires target <= later
    requires forall r :: r in rs && r.key.blockNumber > readBlock ==> !(target <= Timestamp(r.event) < later)
    ensures Relevant(rs, readBlock, later) == Relevant(rs, readBlock, target)
  {
    if rs != [] {
      assert rs == [rs[0]] + rs[1..];
      QuietBetween(rs[1..], readBlock, target, later);
    }
  }

  /** Replay moves real and virtual reserves together: the phantom quote and the locked tokens never change. */
  lemma {:induction false} ReplayKeepsPhantomReserves(s: CurveState, rs: seq<FlowRecord>)
    requires Steps(s, rs).Some?
    ensures var t := Steps(s, rs).value;
      && t.quoteReserve - t.realQuoteReserve == s.quoteReserve - s.realQuoteReserve
      && t.tokenReserve - t.sellableTokens == s.tokenReserve - s.sellableTokens
      && t == s.(quoteReserve := t.quoteReserve, realQuoteReserve := t.realQuoteReserve, tokenReserve := t.tokenReserve,
                 sellableTokens := t.sellableTokens, readyToGraduate := t.readyToGraduate)
  {
    if rs != [] {
      ReplayKeepsPhantomReserves(s, rs[..|rs| - 1]);
    }
  }

  // ---- The replay in plain terms -----------------------------------------------------------------

  /** Blocks never fall, nor transactions within a block, nor logs within a transaction. */
  ghost predicate Chronological(rs: seq<FlowRecord>) {
    forall i, j | 0 <= i < j < |rs| ::
      var a, b := rs[i].key, rs[j].key;
      && a.blockNumber <= b.blockNumber
      && (a.blockNumber == b.blockNumber ==> a.transactionIndex <= b.transactionIndex)
      && (a.blockNumber == b.blockNumber && a.transactionIndex == b.transactionIndex ==> a.logIndex <= b.logIndex)
  }

  lemma SortedIsChronological(rs: seq<FlowRecord>)
    requires Sorted(rs)
    ensures Chronological(rs)
  {
    forall i, j | 0 <= i < j < |rs| ensures !Before(rs[j].key, rs[i].key) {
    }
  }

  lemma ListedAsOften(rs: seq<FlowRecord>, readBlock: nat, target: nat, r: FlowRecord)
    ensures multiset(Listing(rs, readBlock, target))[r] == if Counts(readBlock, target, r) then multiset(rs)[r] else 0
  {
    SortKeepsRecords(Relevant(rs, readBlock, target));
    RelevantCount(rs, readBlock, target, r);
  }

  /** The listing has every record after the snapshot's block and before the entry second, each as often, in order. */
  lemma ListingIsTheRecordsBetween(launch: Launch, entrySecond: nat, r: FlowRecord)
    requires launch.curveState.Some?
    ensures Chronological(ListingOf(launch, entrySecond))
    ensures multiset(ListingOf(launch, entrySecond))[r]
      == if launch.curveState.value.readBlock < r.key.blockNumber
           && r.event.timestamp < launch.launchedAt + entrySecond
         then multiset(launch.flow)[r] else 0
  {
    var readBlock, target := launch.curveState.value.readBlock, launch.launchedAt + entrySecond;
    SortSorts(Relevant(launch.flow, readBlock, target));
    SortedIsChronological(Listing(launch.flow, readBlock, target));
    ListedAsOften(launch.flow, readBlock, target, r);
  }

  /** A buy's quote less its charges goes in and its tokens come out; a sell's quote and charges come out. */
  predicate Moves(s: CurveState, e: FlowEvent, t: CurveState) {
    match e
    case Buy(_, quoteIn, tokensOut, fee, tax, _, _) =>
      && fee + tax <= quoteIn && t.quoteReserve < WORD && t.realQuoteReserve < WORD
      && tokensOut <= s.tokenReserve && tokensOut <= s.sellableTokens
      && t == s.(quoteReserve := s.quoteReserve + (quoteIn - fee - tax),
                 realQuoteReserve := s.realQuoteReserve + (quoteIn - fee - tax),
                 tokenReserve := s.tokenReserve - tokensOut, sellableTokens := s.sellableTokens - tokensOut)
    case Sell(_, _, tokensIn, quoteOut, fee, tax, _) =>
      && quoteOut + fee + tax < WORD && t.tokenReserve < WORD && t.sellableTokens < WORD
      && quoteOut + fee + tax <= s.quoteReserve && quoteOut + fee + tax <= s.realQuoteReserve
      && t == s.(quoteReserve := s.quoteReserve - (quoteOut + fee + tax),
                 realQuoteReserve := s.realQuoteReserve - (quoteOut + fee + tax),
                 tokenReserve := s.tokenReserve + tokensIn, sellableTokens := s.sellableTokens + tokensIn)
    case Tax(_, _, _, _) => t == s
    case Completed(_) => t == s.(readyToGraduate := true)
  }

  lemma StepMoves(s: CurveState, e: FlowEvent, t: CurveState)
    ensures Step(s, e) == Some(t) <==> Moves(s, e, t)
  {
  }

  /** From `s` through every record, first to last, to `t`. */
  ghost predicate Passes(states: seq<CurveState>, s: CurveState, rs: seq<FlowRecord>, t: CurveState) {
    && |states| == |rs| + 1 && states[0] == s && states[|rs|] == t
    && forall i :: 0 <= i < |rs| ==> Moves(states[i], rs[i].event, states[i + 1])
  }

  lemma {:induction false} StatesOf(s: CurveState, rs: seq<FlowRecord>) returns (states: seq<CurveState>)
    requires Steps(s, rs).Some?
    ensures Passes(states, s, rs, Steps(s, rs).value)
  {
    if rs == [] {
      states := [s];
    } else {
      var n := |rs| - 1;
      var front := StatesOf(s, rs[..n]);
      var last := Steps(s, rs).value;
      StepMoves(Steps(s, rs[..n]).value, rs[n].event, last);
      states := front + [last];
    }
  }

  lemma {:induction false} StatesLead(s: CurveState, rs: seq<FlowRecord>, t: CurveState, states: seq<CurveState>)
    requires Passes(states, s, rs, t)
    ensures Steps(s, rs) == Some(t)
  {
    if rs != [] {
      var n := |rs| - 1;
      StatesLead(s, rs[..n], states[n], states[..n + 1]);
      StepMoves(states[n], rs[n].event, t);
    }
  }

  /**
   * A replay has a result exactly when provenance is complete, the entry second fits a word and comes after the
   * snapshot, and every record of the listing moves the curve, one after the other; and that is where it ends.
   */
  lemma StateIsReachedInOrder(launch: Launch, entrySecond: nat, t: CurveState)
    ensures StateAt(launch, entrySecond) == Some(t) <==>
      && launch.provenanceComplete && launch.curveState.Some? && launch.launchedAt + entrySecond < U64
      && launch.curveState.value.readChainTs < launch.launchedAt + entrySecond
      && exists states :: Passes(states, launch.curveState.value, ListingOf(launch, entrySecond), t)
  {
    if launch.curveState.Some? {
      var s, rs := launch.curveState.value, ListingOf(launch, entrySecond);
      if Steps(s, rs) == Some(t) {
        var states := StatesOf(s, rs);
      }
      forall states | Passes(states, s, rs, t) ensures Steps(s, rs) == Some(t) {
        StatesLead(s, rs, t, states);
      }
    }
  }

  lemma TwoListed(a: FlowRecord, b: FlowRecord, readBlock: nat, target: nat)
    requires a.key == b.key && Counts(readBlock, target, a) && Counts(readBlock, target, b)
    ensures Listing([a, b], readBlock, target) == [a, b]
  {
    assert [a, b][1..] == [b] && [b][1..] == [];
    assert Relevant([], readBlock, target) == [];
    assert Relevant([b], readBlock, target) == [b];
    assert Relevant([a, b], readBlock, target) == [a, b];
    assert SortByKey([]) == [] && SortByKey([b]) == [b];
  }

  lemma TwoSteps(s: CurveState, a: FlowRecord, b: FlowRecord)
    ensures Steps(s, [a, b]) == match Step(s, a.event) case None => None case Some(t) => Step(t, b.event)
  {
    assert [a, b][..1] == [a] && [a][..0] == [];
    assert Steps(s, []) == Some(s);
    assert Steps(s, [a]) == Step(s, a.event);
  }

  /** One record to a key is needed: two under one key replay in arrival order, and one order may run dry. */
  lemma SharedKeyDependsOnArrival()
    ensures exists launch: Launch, flow: seq<FlowRecord>, second: nat ::
      multiset(launch.flow) == multiset(flow) && StateAt(launch, second) != StateAt(launch.(flow := flow), second)
  {
    var sell := FlowRecord(EventKey(1, 0, 0, 0), 1, Sell(0, 0, 5, 0, 0, 0, 0));
    var buy := FlowRecord(EventKey(1, 0, 0, 0), 1, Buy(0, 0, 5, 0, 0, 0, 0));
    var s := CurveState(1, 0, 0, 0, 0, 0, 0, false, 0, 0);
    var launch := Launch(0, 0, 0, true, Some(s), [sell, buy]);
    TwoListed(sell, buy, 0, 1);
    TwoListed(buy, sell, 0, 1);
    TwoSteps(s, sell, buy);
    TwoSteps(s, buy, sell);
    assert multiset([sell, buy]) == multiset([buy, sell]);
    assert StateAt(launch, 1) == Some(s);
    assert StateAt(launch.(flow := [buy, sell]), 1) == None;
  }
}
