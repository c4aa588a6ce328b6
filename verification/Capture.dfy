/**
 * The capture log (crates/bodkin/src/research.rs): an append-only file of newline-terminated records under a rolling
 * hash, a manifest that states the size of both files, and the scanner that reads them back.
 *
 * The JSON encodings and the hash are parameters; `Faithful` says what is relied on.
 */
module Capture {
  import opened Common

  type byte = bv8
  const NEWLINE: byte := 10
  const CHAIN_ID := 4663
  const MANIFEST_RESERVE := 4_096
  const MAX_SECONDS := 86_400
  const MAX_BYTES := 1_073_741_824

  datatype Envelope = Envelope(schema: nat, runId: string, sequence: nat, chainId: nat, version: string,
                               body: seq<byte>)
  datatype Limits = Limits(durationSeconds: nat, maxBytes: nat)
  datatype StopReason = Requested | DurationLimit | SizeLimit | SourceClosed

  datatype Manifest = Manifest(
    schema: nat,
    runId: string,
    chainId: nat,
    version: string,
    startedAt: nat,
    endedAt: nat,
    eventCount: nat,
    eventBytes: nat,
    totalBytes: nat,
    rollingHash: nat,
    limits: Limits,
    stopReason: StopReason,
    eventsFile: string)

  datatype Codec = Codec(
    encode: Envelope -> seq<byte>,
    decode: seq<byte> -> Option<Envelope>,
    encodeManifest: Manifest -> seq<byte>,
    decodeManifest: seq<byte> -> Option<Manifest>,
    hash: (nat, seq<byte>) -> nat)

  predicate ValidLimits(l: Limits) {
    0 < l.durationSeconds <= MAX_SECONDS && MANIFEST_RESERVE < l.maxBytes <= MAX_BYTES
  }

  function Digits(n: nat): nat {
    if n < 10 then 1 else 1 + Digits(n / 10)
  }

  function Line(c: Codec, e: Envelope): seq<byte> {
    c.encode(e) + [NEWLINE]
  }

  /**
   * Records hold no newline and decode with the one that ends them; a manifest decodes, and its total is a plain
   * decimal.
   */
  ghost predicate Faithful(c: Codec) {
    && (forall e: Envelope :: NEWLINE !in c.encode(e))
    && (forall e: Envelope :: c.decode(Line(c, e)) == Some(e))
    && (forall m: Manifest :: c.decodeManifest(c.encodeManifest(m)) == Some(m))
    && (forall m: Manifest, total: nat ::
          |c.encodeManifest(m.(totalBytes := total))| + 1 == |c.encodeManifest(m.(totalBytes := 0))| + Digits(total))
  }

  // ---- The file ----------------------------------------------------------------------------------

  function FileOf(c: Codec, es: seq<Envelope>): seq<byte> {
    if es == [] then [] else FileOf(c, es[..|es| - 1]) + Line(c, es[|es| - 1])
  }

  function HashOf(c: Codec, es: seq<Envelope>): nat {
    if es == [] then 0 else c.hash(HashOf(c, es[..|es| - 1]), Line(c, es[|es| - 1]))
  }

  /** The records of one run, numbered from zero. */
  predicate Numbered(es: seq<Envelope>, runId: string, version: string) {
    forall i | 0 <= i < |es| ::
      && es[i].schema == 1 && es[i].runId == runId && es[i].chainId == CHAIN_ID && es[i].version == version
      && es[i].sequence == i
  }

  // ---- Scanning ----------------------------------------------------------------------------------

  datatype Scan = Scanned(events: seq<Envelope>, bytes: nat, hash: nat) | Mismatch | Malformed

  /** How many bytes there are up to and including the first newline, or in all. */
  function LineEnd(file: seq<byte>): (n: nat)
    ensures n <= |file| && (file != [] ==> n > 0)
  {
    if file == [] then 0 else if file[0] == NEWLINE then 1 else 1 + LineEnd(file[1..])
  }

  function FirstLine(file: seq<byte>): seq<byte> {
    file[..LineEnd(file)]
  }

  predicate Belongs(e: Envelope, m: Manifest, count: nat) {
    e.schema == 1 && e.runId == m.runId && e.chainId == m.chainId && e.version == m.version && e.sequence == count
  }

  /** The rest of the file, given what has been read so far. */
  function ScanFrom(c: Codec, file: seq<byte>, m: Manifest, seen: seq<Envelope>, bytes: nat, hash: nat): Scan
    decreases |file|
  {
    if file == [] then Scanned(seen, bytes, hash) else
      var line := FirstLine(file);
      if line[|line| - 1] != NEWLINE then Mismatch else
        match c.decode(line)
        case None => Malformed
        case Some(e) =>
          if !Belongs(e, m, |seen|) then Mismatch
          else ScanFrom(c, file[LineEnd(file)..], m, seen + [e], bytes + |line|, c.hash(hash, line))
  }

  function ScanCapture(c: Codec, file: seq<byte>, m: Manifest): Scan {
    ScanFrom(c, file, m, [], 0, 0)
  }

  datatype Verdict = Intact(manifest: Manifest) | InvalidManifest | Broken

  function Verify(c: Codec, events: seq<byte>, manifestFile: seq<byte>): Verdict {
    match c.decodeManifest(manifestFile)
    case None => InvalidManifest
    case Some(m) =>
      if m.schema != 1 || m.chainId != CHAIN_ID || m.eventsFile != "events.jsonl" then InvalidManifest
      else match ScanCapture(c, events, m)
        case Scanned(es, bytes, hash) =>
          if |es| == m.eventCount && bytes == m.eventBytes && hash == m.rollingHash
            && bytes + |manifestFile| == m.totalBytes && m.totalBytes <= m.limits.maxBytes
          then Intact(m) else Broken
        case _ => Broken
  }

  lemma {:induction false} LineEndIsTheNewline(file: seq<byte>, n: nat)
    requires n < |file| && file[n] == NEWLINE && forall i :: 0 <= i < n ==> file[i] != NEWLINE
    ensures LineEnd(file) == n + 1
  {
    if n > 0 {
      LineEndIsTheNewline(file[1..], n - 1);
    }
  }

  lemma FirstLineIsTheRecord(record: seq<byte>, rest: seq<byte>)
    requires NEWLINE !in record
    ensures FirstLine(record + [NEWLINE] + rest) == record + [NEWLINE]
  {
    var file := record + [NEWLINE] + rest;
    forall i | 0 <= i < |record| ensures file[i] != NEWLINE {
      assert file[i] == record[i] && record[i] in record;
    }
    LineEndIsTheNewline(file, |record|);
  }

  lemma FileStep(c: Codec, es: seq<Envelope>, n: nat)
    requires n < |es|
    ensures FileOf(c, es[..n + 1]) == FileOf(c, es[..n]) + Line(c, es[n])
    ensures HashOf(c, es[..n + 1]) == c.hash(HashOf(c, es[..n]), Line(c, es[n]))
  {
    assert es[..n + 1][..n] == es[..n];
  }

  lemma OneRecordMore(c: Codec, es: seq<Envelope>, e: Envelope)
    ensures FileOf(c, es + [e]) == FileOf(c, es) + Line(c, e)
    ensures HashOf(c, es + [e]) == c.hash(HashOf(c, es), Line(c, e))
  {
    assert (es + [e])[..|es|] == es;
  }

  /** What is left of the file after its first `n` records. */
  function RestOf(c: Codec, es: seq<Envelope>, n: nat): seq<byte>
    requires n <= |es|
    decreases |es| - n
  {
    if n == |es| then [] else Line(c, es[n]) + RestOf(c, es, n + 1)
  }

  lemma {:induction false} FileIsFrontAndRest(c: Codec, es: seq<Envelope>, n: nat)
    requires n <= |es|
    ensures FileOf(c, es) == FileOf(c, es[..n]) + RestOf(c, es, n)
    decreases |es| - n
  {
    if n == |es| {
      assert es[..n] == es;
    } else {
      FileStep(c, es, n);
      FileIsFrontAndRest(c, es, n + 1);
      JoinLines(FileOf(c, es[..n]), Line(c, es[n]), RestOf(c, es, n + 1));
    }
  }

  lemma JoinLines(a: seq<byte>, b: seq<byte>, rest: seq<byte>)
    ensures (a + b) + rest == a + (b + rest)
  {
  }

  /** One written record is read back as one line. */
  lemma RecordIsALine(c: Codec, e: Envelope, rest: seq<byte>)
    requires Faithful(c)
    ensures var file := Line(c, e) + rest;
      && FirstLine(file) == Line(c, e) && LineEnd(file) == |Line(c, e)| && file[LineEnd(file)..] == rest
      && c.decode(FirstLine(file)) == Some(e)
  {
    FirstLineIsTheRecord(c.encode(e), rest);
    assert |FirstLine(Line(c, e) + rest)| == LineEnd(Line(c, e) + rest);
  }

  lemma ScanOneRecord(c: Codec, e: Envelope, rest: seq<byte>, m: Manifest, seen: seq<Envelope>, bytes: nat, hash: nat)
    requires Faithful(c) && Belongs(e, m, |seen|)
    ensures ScanFrom(c, Line(c, e) + rest, m, seen, bytes, hash)
      == ScanFrom(c, rest, m, seen + [e], bytes + |Line(c, e)|, c.hash(hash, Line(c, e)))
  {
    RecordIsALine(c, e, rest);
  }

  /** Scanning the rest of a written file yields the rest of its records. */
  lemma {:induction false} ScanReadsOn(c: Codec, es: seq<Envelope>, m: Manifest, n: nat)
    requires Faithful(c) && n <= |es| && Numbered(es, m.runId, m.version) && m.chainId == CHAIN_ID
    ensures ScanFrom(c, RestOf(c, es, n), m, es[..n], |FileOf(c, es[..n])|, HashOf(c, es[..n]))
      == Scanned(es, |FileOf(c, es)|, HashOf(c, es))
    decreases |es| - n
  {
    if n == |es| {
      assert es[..n] == es;
    } else {
      FileStep(c, es, n);
      assert es[..n + 1] == es[..n] + [es[n]];
      ScanOneRecord(c, es[n], RestOf(c, es, n + 1), m, es[..n], |FileOf(c, es[..n])|, HashOf(c, es[..n]));
      ScanReadsOn(c, es, m, n + 1);
    }
  }

  /** Scanning what was written gives back exactly the records, their bytes and their rolling hash. */
  lemma ScanInvertsWriting(c: Codec, es: seq<Envelope>, m: Manifest)
    requires Faithful(c) && Numbered(es, m.runId, m.version) && m.chainId == CHAIN_ID
    ensures ScanCapture(c, FileOf(c, es), m) == Scanned(es, |FileOf(c, es)|, HashOf(c, es))
  {
    ScanReadsOn(c, es, m, 0);
    FileIsFrontAndRest(c, es, 0);
    assert es[..0] == [];
    assert FileOf(c, es) == RestOf(c, es, 0);
  }

  /** A file that does not end with a newline, such as one cut off inside a record, is never accepted. */
  lemma {:induction false} TornFileIsRefused(c: Codec, file: seq<byte>, m: Manifest, seen: seq<Envelope>, bytes: nat,
                                             hash: nat)
    requires file != [] && file[|file| - 1] != NEWLINE
    ensures !ScanFrom(c, file, m, seen, bytes, hash).Scanned?
    decreases |file|
  {
    var n := LineEnd(file);
    var line := FirstLine(file);
    if n < |file| && line[n - 1] == NEWLINE && c.decode(line).Some? {
      TornFileIsRefused(c, file[n..], m, seen + [c.decode(line).value], bytes + |line|, c.hash(hash, line));
    }
  }

  /** Whatever is accepted was read to its last byte, and its records are numbered without a gap. */
  lemma {:induction false} AcceptedFileIsWhole(c: Codec, file: seq<byte>, m: Manifest, seen: seq<Envelope>, bytes: nat,
                                               hash: nat)
    requires ScanFrom(c, file, m, seen, bytes, hash).Scanned?
    requires forall i :: 0 <= i < |seen| ==> Belongs(seen[i], m, i)
    ensures var s := ScanFrom(c, file, m, seen, bytes, hash);
      && s.bytes == bytes + |file| && seen <= s.events
      && forall i :: 0 <= i < |s.events| ==> Belongs(s.events[i], m, i)
    decreases |file|
  {
    if file != [] {
      var line := FirstLine(file);
      AcceptedFileIsWhole(c, file[LineEnd(file)..], m, seen + [c.decode(line).value], bytes + |line|,
                          c.hash(hash, line));
    }
  }

  /** The lines one after another. */
  function Flat(lines: seq<seq<byte>>): seq<byte> {
    if lines == [] then [] else lines[0] + Flat(lines[1..])
  }

  /** The rolling hash over them. */
  function Rolled(c: Codec, hash: nat, lines: seq<seq<byte>>): nat
    decreases |lines|
  {
    if lines == [] then hash else Rolled(c, c.hash(hash, lines[0]), lines[1..])
  }

  /** A newline ends it, and it has no other. */
  predicate IsLine(line: seq<byte>) {
    line != [] && line[|line| - 1] == NEWLINE && forall i :: 0 <= i < |line| - 1 ==> line[i] != NEWLINE
  }

  /** The file is these lines, and each decodes to the record of the run that has its number. */
  ghost predicate ReadsAs(c: Codec, file: seq<byte>, m: Manifest, first: nat, lines: seq<seq<byte>>) {
    && Flat(lines) == file
    && forall i :: 0 <= i < |lines| ==>
         && IsLine(lines[i]) && c.decode(lines[i]).Some?
         && var e := c.decode(lines[i]).value;
            e.schema == 1 && e.runId == m.runId && e.chainId == m.chainId && e.version == m.version
            && e.sequence == first + i
  }

  lemma {:induction false} FirstNewline(file: seq<byte>)
    ensures forall i :: 0 <= i < LineEnd(file) - 1 ==> file[i] != NEWLINE
  {
    if file != [] && file[0] != NEWLINE {
      FirstNewline(file[1..]);
      forall i | 0 < i < LineEnd(file) - 1 ensures file[i] != NEWLINE {
        assert file[1..][i - 1] != NEWLINE;
      }
    }
  }

  lemma OneLineMore(c: Codec, file: seq<byte>, m: Manifest, first: nat, line: seq<byte>, rest: seq<seq<byte>>)
    requires IsLine(line) && line <= file && ReadsAs(c, file[|line|..], m, first + 1, rest)
    requires c.decode(line).Some? && Belongs(c.decode(line).value, m, first)
    ensures ReadsAs(c, file, m, first, [line] + rest)
  {
    var lines := [line] + rest;
    assert lines[1..] == rest && file == line + file[|line|..];
  }

  /** What the scanner accepts is a file of such lines, and the hash it ends with is the one rolled over them. */
  lemma {:induction false} ScannedLines(c: Codec, file: seq<byte>, m: Manifest, seen: seq<Envelope>, bytes: nat,
                                        hash: nat)
    returns (lines: seq<seq<byte>>)
    requires ScanFrom(c, file, m, seen, bytes, hash).Scanned?
    ensures var s := ScanFrom(c, file, m, seen, bytes, hash);
      && ReadsAs(c, file, m, |seen|, lines) && |s.events| == |seen| + |lines| && s.hash == Rolled(c, hash, lines)
    decreases |file|
  {
    if file == [] {
      lines := [];
    } else {
      var line, n := FirstLine(file), LineEnd(file);
      var e := c.decode(line).value;
      FirstNewline(file);
      var rest := ScannedLines(c, file[n..], m, seen + [e], bytes + n, c.hash(hash, line));
      OneLineMore(c, file, m, |seen|, line, rest);
      lines := [line] + rest;
      assert lines[1..] == rest;
    }
  }

  /** The file reads as so many lines, with the hash rolled over them from zero, as the manifest states. */
  ghost predicate LinesAgree(c: Codec, events: seq<byte>, m: Manifest) {
    exists lines ::
      && ReadsAs(c, events, m, 0, lines) && |lines| == m.eventCount && Rolled(c, 0, lines) == m.rollingHash
  }

  /**
   * An accepted capture is as its manifest states, to the byte: its size and the size of both files, the number of its
   * records, and the hash rolled over its lines from zero.
   */
  lemma AcceptedIsAsStated(c: Codec, events: seq<byte>, manifestFile: seq<byte>)
    requires Verify(c, events, manifestFile).Intact?
    ensures var m := Verify(c, events, manifestFile).manifest;
      && c.decodeManifest(manifestFile) == Some(m)
      && m.schema == 1 && m.chainId == 4663 && m.eventsFile == "events.jsonl"
      && m.eventBytes == |events| && m.totalBytes == |events| + |manifestFile| <= m.limits.maxBytes
      && LinesAgree(c, events, m)
  {
    var m := Verify(c, events, manifestFile).manifest;
    AcceptedFileIsWhole(c, events, m, [], 0, 0);
    var lines := ScannedLines(c, events, m, [], 0, 0);
  }

  /** The manifest agrees with these records in every number it states. */
  predicate Agrees(c: Codec, es: seq<Envelope>, m: Manifest, manifestBytes: nat) {
    && m.schema == 1 && m.chainId == 4663 && m.eventsFile == "events.jsonl"
    && m.eventCount == |es| && m.eventBytes == |FileOf(c, es)| && m.rollingHash == HashOf(c, es)
    && m.totalBytes == |FileOf(c, es)| + manifestBytes && m.totalBytes <= m.limits.maxBytes
  }

  /** A written capture is accepted exactly with a manifest that decodes and agrees with it: no number may be off. */
  lemma WrittenIsAcceptedExactly(c: Codec, es: seq<Envelope>, m: Manifest, manifestFile: seq<byte>)
    requires Faithful(c) && Numbered(es, m.runId, m.version) && c.decodeManifest(manifestFile) == Some(m)
    ensures Verify(c, FileOf(c, es), manifestFile) == Intact(m) <==> Agrees(c, es, m, |manifestFile|)
  {
    if m.chainId == CHAIN_ID {
      ScanInvertsWriting(c, es, m);
    }
  }

  // ---- The manifest's own size -------------------------------------------------------------------

  lemma {:induction false} DigitsGrow(a: nat, b: nat)
    requires a <= b
    ensures Digits(a) <= Digits(b)
    decreases b
  {
    if a >= 10 {
      DigitsGrow(a / 10, b / 10);
    }
  }

  lemma LargerTotalLongerManifest(c: Codec, m: Manifest, a: nat, b: nat)
    requires Faithful(c) && a <= b
    ensures |c.encodeManifest(m.(totalBytes := a))| <= |c.encodeManifest(m.(totalBytes := b))|
  {
    DigitsGrow(a, b);
  }

  /** A total that accounts for both files. */
  predicate StatesItsSize(c: Codec, m: Manifest) {
    m.totalBytes == m.eventBytes + |c.encodeManifest(m)|
  }

  /** Whatever its total, this manifest fits the bytes set aside for it. */
  ghost predicate FitsReserve(c: Codec, m: Manifest) {
    forall total: nat :: |c.encodeManifest(m.(totalBytes := total))| <= MANIFEST_RESERVE
  }

  /**
   * Writes the total into the manifest until it counts its own digits. A longer total never shortens the manifest, so
   * the total only grows, and the loop ends.
   */
  method SettleTotal(c: Codec, draft: Manifest) returns (m: Option<Manifest>)
    requires Faithful(c) && draft.totalBytes == 0
    ensures m.Some? ==> StatesItsSize(c, m.value) && m.value == draft.(totalBytes := m.value.totalBytes)
    ensures draft.eventBytes + |c.encodeManifest(draft)| + 20 < U64 ==> m.Some?
  {
    var now := draft;
    while true
      invariant now == draft.(totalBytes := now.totalBytes)
      invariant now.totalBytes < U64 && now.totalBytes <= now.eventBytes + |c.encodeManifest(now)|
      decreases U64 - now.totalBytes
    {
      var total := now.eventBytes + |c.encodeManifest(now)|;
      SizeOf(c, draft, now.totalBytes);
      if total >= U64 {
        return None;
      }
      if now.totalBytes == total {
        return Some(now);
      }
      LargerTotalLongerManifest(c, draft, now.totalBytes, total);
      now := now.(totalBytes := total);
    }
    return None;
  }

  lemma {:induction false} DigitsBelow(n: nat, k: nat)
    requires n < Power(k) && k > 0
    ensures Digits(n) <= k
  {
    assert Power(1) == 10;
    if n >= 10 {
      DigitsBelow(n / 10, k - 1);
    }
  }

  function Power(k: nat): nat {
    if k == 0 then 1 else 10 * Power(k - 1)
  }

  lemma SizeOf(c: Codec, draft: Manifest, total: nat)
    requires Faithful(c) && draft.totalBytes == 0 && total < U64
    ensures |c.encodeManifest(draft.(totalBytes := total))| <= |c.encodeManifest(draft)| + 19
  {
    assert draft.(totalBytes := 0) == draft;
    PowerOfTwenty();
    DigitsBelow(total, 20);
  }

  lemma PowerOfTwenty()
    ensures Power(20) == 100_000_000_000_000_000_000 && U64 < Power(20)
  {
    assert Power(5) == 100_000;
    assert Power(10) == 100_000 * Power(5);
    assert Power(15) == 100_000 * Power(10);
    assert Power(20) == 100_000 * Power(15);
  }

  /** The manifest states the size of both files, within the limit, and verification accepts the two. */
  ghost predicate Accounts(c: Codec, events: seq<byte>, m: Manifest) {
    && m.totalBytes == |events| + |c.encodeManifest(m)| <= m.limits.maxBytes
    && Verify(c, events, c.encodeManifest(m)) == Intact(m)
  }

  // ---- The recorder ------------------------------------------------------------------------------

  datatype Status = Written(sequence: nat) | Stopped(manifest: Manifest) | Finished | TooLarge | OutOfRange

  class ResearchRecorder {
    const codec: Codec
    const limits: Limits
    const runId: string
    const version: string
    const startedAt: nat
    var writing: bool
    var sequence: nat
    var eventBytes: nat
    var rollingHash: nat
    var manifest: Option<Manifest>
    /** The two files. */
    var events: seq<byte>
    var manifestFile: Option<seq<byte>>
    ghost var envelopes: seq<Envelope>

    ghost predicate Valid()
      reads this
    {
      && Faithful(codec) && ValidLimits(limits)
      && Numbered(envelopes, runId, version)
      && events == FileOf(codec, envelopes) && rollingHash == HashOf(codec, envelopes)
      && sequence == |envelopes| && eventBytes == |events| && |envelopes| <= |events|
      && eventBytes + MANIFEST_RESERVE <= limits.maxBytes
      && (manifest.Some? ==> !writing && manifestFile == Some(codec.encodeManifest(manifest.value)))
      && (manifest.Some? ==> Accounts(codec, events, manifest.value))
    }

    constructor (codec: Codec, limits: Limits, runId: string, version: string, startedAt: nat)
      requires Faithful(codec) && ValidLimits(limits)
      ensures Valid() && writing && envelopes == [] && manifest.None?
    {
      this.codec, this.limits, this.runId, this.version, this.startedAt := codec, limits, runId, version, startedAt;
      writing, sequence, eventBytes, rollingHash := true, 0, 0, 0;
      manifest, events, manifestFile, envelopes := None, [], None, [];
    }

    /**
     * Appends one record, or stops the capture at its duration or size limit. Nothing already written is ever changed,
     * and a record is written in full or not at all.
     */
    method Record(body: seq<byte>, elapsedSeconds: nat, now: nat) returns (status: Status)
      requires Valid()
      modifies this
      ensures Valid()
      ensures old(events) <= events
      ensures status.Written? ==>
        && status.sequence == old(sequence)
        && envelopes == old(envelopes) + [Envelope(1, runId, old(sequence), CHAIN_ID, version, body)]
        && manifest.None? && elapsedSeconds < limits.durationSeconds
      ensures !status.Written? ==> envelopes == old(envelopes) && events == old(events)
      ensures status.Stopped? ==> manifest == Some(status.manifest)
      ensures old(manifest).Some? ==> status == Stopped(old(manifest).value)
      ensures status.Written? <==>
        && old(manifest).None? && old(writing) && elapsedSeconds < limits.durationSeconds
        && old(eventBytes) + |Line(codec, Envelope(1, runId, old(sequence), CHAIN_ID, version, body))|
          + 4_096 <= limits.maxBytes
      ensures status.Written? ==> elapsedSeconds < 86_400 && |events| < 1_073_741_824
    {
      if manifest.Some? {
        return Stopped(manifest.value);
      }
      if elapsedSeconds >= limits.durationSeconds {
        status := Finish(DurationLimit, now);
        return;
      }
      var envelope := Envelope(1, runId, sequence, CHAIN_ID, version, body);
      var encoded := codec.encode(envelope) + [NEWLINE];
      if eventBytes + |encoded| + MANIFEST_RESERVE >= U64 {
        return OutOfRange;
      }
      if eventBytes + |encoded| + MANIFEST_RESERVE > limits.maxBytes {
        status := Finish(SizeLimit, now);
        return;
      }
      if !writing {
        return Finished;
      }
      Append(envelope, encoded);
      return Written(envelope.sequence);
    }

    /** Writes one encoded record and moves hash, count and size along with it. */
    method Append(envelope: Envelope, encoded: seq<byte>)
      requires Valid() && manifest.None? && encoded == Line(codec, envelope)
      requires envelope.schema == 1 && envelope.runId == runId && envelope.chainId == CHAIN_ID
      requires envelope.version == version
      requires envelope.sequence == sequence && eventBytes + |encoded| + MANIFEST_RESERVE <= limits.maxBytes
      modifies this
      ensures Valid() && manifest.None? && envelopes == old(envelopes) + [envelope] && events == old(events) + encoded
    {
      OneRecordMore(codec, envelopes, envelope);
      events := events + encoded;
      rollingHash := codec.hash(rollingHash, encoded);
      sequence := SatAdd(sequence, 1, U64);
      eventBytes := eventBytes + |encoded|;
      envelopes := envelopes + [envelope];
    }

    /** Closes the capture: the manifest states the size of both files, and verification accepts them. */
    method Finish(reason: StopReason, now: nat) returns (status: Status)
      requires Valid()
      modifies this
      ensures Valid()
      ensures events == old(events) && envelopes == old(envelopes) && !status.Written?
      ensures old(manifest).Some? ==> status == Stopped(old(manifest).value)
      ensures old(manifest).None? && !old(writing) ==> status == Finished
      ensures status.Stopped? ==>
        && manifest == Some(status.manifest) && manifestFile == Some(codec.encodeManifest(status.manifest))
        && Accounts(codec, events, status.manifest)
      ensures status.Stopped? && old(manifest).None? ==>
        var m := status.manifest;
        && m.schema == 1 && m.chainId == 4663 && m.eventsFile == "events.jsonl"
        && m.runId == runId && m.version == version && m.startedAt == startedAt && m.endedAt == now
        && m.eventCount == |envelopes| && m.eventBytes == |events| && m.rollingHash == HashOf(codec, envelopes)
        && m.limits == limits && m.stopReason == reason
      ensures old(writing) && old(manifest).None? && FitsReserve(codec, Draft(reason, now)) ==> status.Stopped?
    {
      if manifest.Some? {
        return Stopped(manifest.value);
      }
      if !writing {
        return Finished;
      }
      writing := false;
      var draft := Draft(reason, now);
      var settled := SettleTotal(codec, draft);
      if settled.None? {
        return OutOfRange;
      }
      var m := settled.value;
      if m.totalBytes > limits.maxBytes {
        return TooLarge;
      }
      ScanInvertsWriting(codec, envelopes, m);
      manifestFile := Some(codec.encodeManifest(m));
      manifest := Some(m);
      return Stopped(m);
    }

    function Draft(reason: StopReason, now: nat): Manifest
      reads this
    {
      Manifest(1, runId, CHAIN_ID, version, startedAt, now, sequence, eventBytes, 0, rollingHash, limits, reason,
               "events.jsonl")
    }
  }

  // ---- Reading back ------------------------------------------------------------------------------

  /** Reads the file line by line, checking each record as it comes. */
  method ScanFile(c: Codec, file: seq<byte>, m: Manifest) returns (result: Scan)
    ensures result == ScanCapture(c, file, m)
  {
    var unread, seen := file, [];
    var bytes: nat, hash: nat := 0, 0;
    while unread != []
      invariant ScanCapture(c, file, m) == ScanFrom(c, unread, m, seen, bytes, hash)
      decreases |unread|
    {
      var n := ReadLine(unread);
      var line := unread[..n];
      if line[n - 1] != NEWLINE {
        return Mismatch;
      }
      var e := c.decode(line);
      if e.None? {
        return Malformed;
      }
      if !Belongs(e.value, m, |seen|) {
        return Mismatch;
      }
      hash := c.hash(hash, line);
      bytes := bytes + n;
      seen := seen + [e.value];
      unread := unread[n..];
    }
    return Scanned(seen, bytes, hash);
  }

  /** `read_until` a newline: the length of the first line. */
  method ReadLine(unread: seq<byte>) returns (n: nat)
    requires unread != []
    ensures n == LineEnd(unread)
  {
    n := 0;
    assert unread[0..] == unread;
    while n < |unread| && unread[n] != NEWLINE
      invariant n <= |unread| && LineEnd(unread) == n + LineEnd(unread[n..])
    {
      assert unread[n..][1..] == unread[n + 1..];
      n := n + 1;
    }
    if n < |unread| {
      n := n + 1;
    }
  }

  /** Accepts a capture only when the manifest, the records and the sizes all agree. */
  method VerifyCapture(c: Codec, events: seq<byte>, manifestFile: seq<byte>) returns (verdict: Verdict)
    ensures verdict == Verify(c, events, manifestFile)
  {
    var decoded := c.decodeManifest(manifestFile);
    if decoded.None? {
      return InvalidManifest;
    }
    var m := decoded.value;
    if m.schema != 1 || m.chainId != CHAIN_ID || m.eventsFile != "events.jsonl" {
      return InvalidManifest;
    }
    var scan := ScanFile(c, events, m);
    if !scan.Scanned? {
      return Broken;
    }
    var total := scan.bytes + |manifestFile|;
    if |scan.events| != m.eventCount || scan.bytes != m.eventBytes || scan.hash != m.rollingHash
      || total != m.totalBytes
      || total > m.limits.maxBytes {
      return Broken;
    }
    return Intact(m);
  }
}
