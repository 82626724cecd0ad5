/**
 The HMAC-chained audit log: a file of entries, any number of handles on it, each with its own
 cache of the last entry, and the verification of the chain.

 The MAC (section 2 of RFC 2104) and the JSON encoding are parameters. Nothing is assumed of
 them globally: a theorem that needs the MAC to be free of collisions says so, and only for
 the finitely many messages it names.
 */
module AuditLog {
  import opened Ascii
  import opened Wrappers
  import opened Sequences

  type byte = x: int | 0 <= x < 256
  type Bytes = seq<byte>

  /** An event; `LogPruned` is the one that retention writes itself. */
  datatype Event = LogPruned(entriesRemoved: nat, oldestRemaining: string) | Other(tag: string, payload: string)

  /** An entry without its HMAC: what the JSON encoding with an empty HMAC determines. */
  datatype Body = Body(sequenceNumber: nat, timestamp: string, event: Event)

  datatype Entry = Entry(body: Body, hmac: string)

  /** A line of the log file. A written entry is assumed to parse back to itself. */
  datatype Line = Blank | Malformed | Record(entry: Entry)

  datatype Suite = Suite(mac: (Bytes, Bytes) -> Bytes, json: Body -> Bytes)

  datatype LogError = MalformedEntry(line: nat) | CorruptHmac

  datatype VerifyResult = VerifyResult(entriesChecked: nat, valid: bool)

  /** The last sequence number and HMAC a handle has written. */
  type Cache = Option<(nat, Bytes)>

  const DIGEST_LENGTH: nat := 32

  function Zeros(n: nat): (z: Bytes)
    ensures |z| == n && forall i :: 0 <= i < n ==> z[i] == 0
  {
    if n == 0 then [] else [0] + Zeros(n - 1)
  }

  /** What the first entry chains from. */
  const ZERO: Bytes := Zeros(DIGEST_LENGTH)

  /** Digests are 32 bytes long. */
  ghost predicate Sized(s: Suite) {
    forall k, m :: |s.mac(k, m)| == DIGEST_LENGTH
  }

  ghost predicate JsonInjective(s: Suite) {
    forall x, y :: s.json(x) == s.json(y) ==> x == y
  }

  /** No two of these messages have the same MAC, and none has the all-zero one. */
  ghost predicate CollisionFree(s: Suite, key: Bytes, messages: set<Bytes>) {
    (forall m, n :: m in messages && n in messages && s.mac(key, m) == s.mac(key, n) ==> m == n) &&
    (forall m :: m in messages ==> s.mac(key, m) != ZERO)
  }

  // ----- hex -----

  function HexDigit(n: int): (c: char)
    requires 0 <= n < 16
  {
    if n < 10 then '0' + n as char else 'a' + (n - 10) as char
  }

  function HexValue(c: char): (r: Option<nat>)
    ensures r.Some? ==> r.value < 16
  {
    if '0' <= c <= '9' then Some((c - '0') as nat)
    else if 'a' <= c <= 'f' then Some((c - 'a') as nat + 10)
    else if 'A' <= c <= 'F' then Some((c - 'A') as nat + 10)
    else None
  }

  function HexEncode(b: Bytes): string {
    if b == [] then "" else [HexDigit(b[0] / 16), HexDigit(b[0] % 16)] + HexEncode(b[1..])
  }

  function HexDecode(s: string): Option<Bytes> {
    if s == "" then Some([])
    else if |s| == 1 then None
    else if HexValue(s[0]).None? || HexValue(s[1]).None? || HexDecode(s[2..]).None? then None
    else Some([16 * HexValue(s[0]).value + HexValue(s[1]).value] + HexDecode(s[2..]).value)
  }

  lemma HexDigitRoundTrip(n: nat)
    requires n < 16
    ensures HexValue(HexDigit(n)) == Some(n) && HexValue("0123456789ABCDEF"[n]) == Some(n)
  {
  }

  lemma {:induction false} HexPair(s: string, high: nat, low: nat, rest: Bytes)
    requires |s| >= 2 && high < 16 && low < 16 && s[0] == HexDigit(high) && s[1] == HexDigit(low)
    requires HexDecode(s[2..]) == Some(rest)
    ensures HexDecode(s) == Some([16 * high + low] + rest)
  {
    HexDigitRoundTrip(high);
    HexDigitRoundTrip(low);
  }

  lemma {:induction false} HexRoundTrip(b: Bytes)
    ensures HexDecode(HexEncode(b)) == Some(b)
  {
    if b != [] {
      var s := HexEncode(b);
      assert s[2..] == HexEncode(b[1..]);
      HexRoundTrip(b[1..]);
      HexPair(s, b[0] / 16, b[0] % 16, b[1..]);
      assert [b[0]] + b[1..] == b;
    }
  }

  /** Two lower-case hex digits per byte, the high half first. */
  lemma {:induction false} HexIsLowerCase(b: Bytes, i: nat)
    requires i < |b|
    ensures |HexEncode(b)| == 2 * |b|
    ensures HexEncode(b)[2 * i] == "0123456789abcdef"[b[i] / 16]
    ensures HexEncode(b)[2 * i + 1] == "0123456789abcdef"[b[i] % 16]
  {
    HexDigitIs(b[0] / 16);
    HexDigitIs(b[0] % 16);
    if i > 0 {
      HexIsLowerCase(b[1..], i - 1);
    } else if |b| > 1 {
      HexIsLowerCase(b[1..], 0);
    }
  }

  predicate IsHex(c: char) {
    '0' <= c <= '9' || 'a' <= c <= 'f' || 'A' <= c <= 'F'
  }

  /** What decodes: an even number of hex digits of any case, to the bytes they encode. */
  lemma {:induction false} HexDecodes(s: string)
    ensures HexDecode(s).Some? <==> |s| % 2 == 0 && forall i :: 0 <= i < |s| ==> IsHex(s[i])
    ensures HexDecode(s).Some? ==> HexEncode(HexDecode(s).value) == Lower(s)
  {
    if |s| >= 2 {
      HexDecodes(s[2..]);
      HexDecodesPair(s, s[2..]);
    }
  }

  lemma {:induction false} HexDecodesPair(s: string, rest: string)
    requires |s| >= 2 && rest == s[2..]
    requires HexDecode(rest).Some? <==> |rest| % 2 == 0 && forall i :: 0 <= i < |rest| ==> IsHex(rest[i])
    requires HexDecode(rest).Some? ==> HexEncode(HexDecode(rest).value) == Lower(rest)
    ensures HexDecode(s).Some? <==> |s| % 2 == 0 && forall i :: 0 <= i < |s| ==> IsHex(s[i])
    ensures HexDecode(s).Some? ==> HexEncode(HexDecode(s).value) == Lower(s)
  {
    HexValueIs(s[0]);
    HexValueIs(s[1]);
    HexDigitsOf(s, rest);
    assert |rest| % 2 == |s| % 2;
    if HexDecode(s).Some? {
      HexEncodesPair(s, rest, HexValue(s[0]).value, HexValue(s[1]).value, HexDecode(rest).value);
    }
  }

  lemma HexDigitsOf(s: string, rest: string)
    requires |s| >= 2 && rest == s[2..]
    ensures (forall i :: 0 <= i < |s| ==> IsHex(s[i])) <==>
            IsHex(s[0]) && IsHex(s[1]) && forall i :: 0 <= i < |rest| ==> IsHex(rest[i])
  {
    assert forall i :: 2 <= i < |s| ==> s[i] == rest[i - 2];
  }

  lemma {:induction false} HexEncodesPair(s: string, rest: string, high: nat, low: nat, b: Bytes)
    requires |s| >= 2 && rest == s[2..] && high < 16 && low < 16 && HexEncode(b) == Lower(rest)
    requires HexDigit(high) == LowerChar(s[0]) && HexDigit(low) == LowerChar(s[1])
    ensures HexEncode([16 * high + low] + b) == Lower(s)
  {
    var all: Bytes := [16 * high + low] + b;
    assert all[0] / 16 == high && all[0] % 16 == low && all[1..] == b;
    assert Lower(s) == [LowerChar(s[0]), LowerChar(s[1])] + Lower(rest);
  }

  lemma HexValueIs(c: char)
    ensures HexValue(c).Some? <==> IsHex(c)
    ensures HexValue(c).Some? ==> HexDigit(HexValue(c).value) == LowerChar(c)
  {
  }

  lemma HexDigitIs(n: int)
    requires 0 <= n < 16
    ensures HexDigit(n) == "0123456789abcdef"[n]
  {
  }

  // ----- the chain -----

  /** What the MAC of an entry is computed over. */
  function Message(s: Suite, prev: Bytes, body: Body): Bytes {
    prev + s.json(body)
  }

  function Digest(s: Suite, key: Bytes, prev: Bytes, body: Body): Bytes {
    s.mac(key, Message(s, prev, body))
  }

  function Sealed(s: Suite, key: Bytes, prev: Bytes, body: Body): Entry {
    Entry(body, HexEncode(Digest(s, key, prev, body)))
  }

  /** The bytes the next entry has to chain from. */
  function Tail(entries: seq<Entry>): Option<Bytes> {
    if entries == [] then Some(ZERO) else HexDecode(entries[|entries| - 1].hmac)
  }

  /** Entry `i` carries the HMAC that chains it to its predecessor. */
  ghost predicate Linked(s: Suite, key: Bytes, entries: seq<Entry>, i: int)
    requires 0 <= i < |entries|
  {
    var prev := Tail(entries[..i]);
    prev.Some? && entries[i] == Sealed(s, key, prev.value, entries[i].body)
  }

  ghost predicate Verified(s: Suite, key: Bytes, entries: seq<Entry>) {
    forall i :: 0 <= i < |entries| ==> Linked(s, key, entries, i)
  }

  /** The HMAC of entry `i` is the hex form of the MAC of the previous entry's decoded HMAC, or of 32
      zero bytes for the first entry, followed by the encoded entry. */
  predicate Chained(s: Suite, key: Bytes, entries: seq<Entry>, i: int)
    requires 0 <= i < |entries|
  {
    var prev := if i == 0 then Some(ZERO) else HexDecode(entries[i - 1].hmac);
    prev.Some? && entries[i].hmac == HexEncode(s.mac(key, prev.value + s.json(entries[i].body)))
  }

  lemma LinkedIsChained(s: Suite, key: Bytes, entries: seq<Entry>, i: int)
    requires 0 <= i < |entries|
    ensures Linked(s, key, entries, i) <==> Chained(s, key, entries, i)
  {
    assert Tail(entries[..i]) == if i == 0 then Some(ZERO) else HexDecode(entries[i - 1].hmac);
  }

  /** A log verifies exactly when every entry is chained to the one before it. */
  lemma VerifiedIsChained(s: Suite, key: Bytes, entries: seq<Entry>)
    ensures Verified(s, key, entries) <==> forall i :: 0 <= i < |entries| ==> Chained(s, key, entries, i)
    ensures |ZERO| == 32 && forall i :: 0 <= i < 32 ==> ZERO[i] == 0
  {
    forall i | 0 <= i < |entries|
      ensures Linked(s, key, entries, i) <==> Chained(s, key, entries, i)
    {
      LinkedIsChained(s, key, entries, i);
    }
  }

  lemma LinkedInPrefix(s: Suite, key: Bytes, entries: seq<Entry>, n: nat, i: int)
    requires 0 <= i < n <= |entries|
    ensures Linked(s, key, entries[..n], i) <==> Linked(s, key, entries, i)
  {
    assert entries[..n][..i] == entries[..i];
  }

  /** Every prefix of a verifying log verifies, so truncation at the end goes unnoticed. */
  lemma PrefixVerifies(s: Suite, key: Bytes, entries: seq<Entry>, n: nat)
    requires n <= |entries| && Verified(s, key, entries)
    ensures Verified(s, key, entries[..n])
  {
    forall i | 0 <= i < n
      ensures Linked(s, key, entries[..n], i)
    {
      LinkedInPrefix(s, key, entries, n, i);
    }
  }

  lemma VerifiedSnoc(s: Suite, key: Bytes, entries: seq<Entry>, e: Entry)
    ensures Verified(s, key, entries + [e]) <==>
            Verified(s, key, entries) && Linked(s, key, entries + [e], |entries|)
  {
    var all := entries + [e];
    assert all[..|entries|] == entries;
    if Verified(s, key, all) {
      PrefixVerifies(s, key, all, |entries|);
    }
    forall i | 0 <= i < |entries|
      ensures Linked(s, key, entries, i) <==> Linked(s, key, all, i)
    {
      LinkedInPrefix(s, key, all, |entries|, i);
    }
  }

  // ----- reading, verifying and appending -----

  /** The entries of a readable file, or the first malformed line. */
  function Parse(lines: seq<Line>, n: nat): (r: Result<seq<Entry>, LogError>)
    requires n <= |lines|
  {
    if n == 0 then Ok([])
    else
      var init :- Parse(lines, n - 1);
      match lines[n - 1]
      case Blank => Ok(init)
      case Malformed => Err(MalformedEntry(n - 1))
      case Record(e) => Ok(init + [e])
  }

  function ReadEntries(lines: seq<Line>): Result<seq<Entry>, LogError> {
    Parse(lines, |lines|)
  }

  /** Reading fails at the first malformed line, and otherwise yields all records, in order. */
  ghost predicate Reads(lines: seq<Line>, n: nat, r: Result<seq<Entry>, LogError>)
    requires n <= |lines|
  {
    match r
    case Err(e) =>
      && e.MalformedEntry? && e.line < n && lines[e.line].Malformed?
      && forall i :: 0 <= i < e.line ==> !lines[i].Malformed?
    case Ok(entries) =>
      && (forall i :: 0 <= i < n ==> !lines[i].Malformed?)
      && Subsequence(Records(entries), lines[..n])
      && |entries| == |RecordPositions(lines, n)|
  }

  ghost function RecordPositions(lines: seq<Line>, n: nat): set<int>
    requires n <= |lines|
  {
    set i | 0 <= i < n && lines[i].Record?
  }

  lemma RecordPositionsSnoc(lines: seq<Line>, n: nat)
    requires 0 < n <= |lines|
    ensures |RecordPositions(lines, n)| == |RecordPositions(lines, n - 1)| + if lines[n - 1].Record? then 1 else 0
  {
    var before, after := RecordPositions(lines, n - 1), RecordPositions(lines, n);
    assert after == if lines[n - 1].Record? then before + {n - 1} else before;
  }

  /** The lines that these entries are written as. */
  function Records(entries: seq<Entry>): (lines: seq<Line>)
    ensures |lines| == |entries| && forall i :: 0 <= i < |lines| ==> lines[i] == Record(entries[i])
  {
    seq(|entries|, i requires 0 <= i < |entries| => Record(entries[i]))
  }

  lemma {:induction false} ParseReads(lines: seq<Line>, n: nat)
    requires n <= |lines|
    ensures Reads(lines, n, Parse(lines, n))
  {
    if n > 0 {
      ParseReads(lines, n - 1);
      if Parse(lines, n - 1).Ok? && !lines[n - 1].Malformed? {
        ParseReadsOn(lines, n, Parse(lines, n - 1).value);
      }
    }
  }

  lemma ParseReadsOn(lines: seq<Line>, n: nat, init: seq<Entry>)
    requires 0 < n <= |lines| && Reads(lines, n - 1, Ok(init)) && !lines[n - 1].Malformed?
    ensures Reads(lines, n, Ok(if lines[n - 1].Record? then init + [lines[n - 1].entry] else init))
  {
    RecordsInOrder(lines, n, init);
    RecordPositionsSnoc(lines, n);
  }

  lemma RecordsInOrder(lines: seq<Line>, n: nat, init: seq<Entry>)
    requires 0 < n <= |lines| && Subsequence(Records(init), lines[..n - 1])
    ensures Subsequence(Records(init), lines[..n])
    ensures lines[n - 1].Record? ==> Subsequence(Records(init + [lines[n - 1].entry]), lines[..n])
  {
    var line := lines[n - 1];
    assert lines[..n] == lines[..n - 1] + [line];
    SubsequenceAppend(Records(init), lines[..n - 1], line);
    if line.Record? {
      assert Records(init + [line.entry]) == Records(init) + [line];
    }
  }

  /** The file all handles share. */
  class LogFile {
    var lines: seq<Line>

    constructor ()
      ensures lines == []
    {
      lines := [];
    }
  }

  /** The cached or re-read position that the next append continues from. */
  function Position(cache: Cache, lines: seq<Line>): Result<(nat, Bytes), LogError> {
    match cache
    case Some((seqNo, hmac)) => Ok((seqNo + 1, hmac))
    case None =>
      var entries :- ReadEntries(lines);
      if entries == [] then Ok((0, ZERO))
      else
        var last := entries[|entries| - 1];
        match HexDecode(last.hmac)
        case None => Err(CorruptHmac)
        case Some(b) => Ok((last.body.sequenceNumber + 1, b))
  }

  datatype Appended = Appended(result: Result<(), LogError>, cache: Cache, lines: seq<Line>)

  /** One append through a handle with this cache on a file with these lines. */
  function AppendTo(s: Suite, key: Bytes, cache: Cache, lines: seq<Line>, event: Event, now: string): Appended {
    match Position(cache, lines)
    case Err(e) => Appended(Err(e), cache, lines)
    case Ok((seqNo, prev)) =>
      var body := Body(seqNo, now, event);
      Appended(Ok(()), Some((seqNo, Digest(s, key, prev, body))), lines + [Record(Sealed(s, key, prev, body))])
  }

  /** What an append does, written out. It fails only when it has no cache and the file is unreadable
      or its last HMAC is no hex text, and then changes nothing. */
  ghost predicate Appends(s: Suite, key: Bytes, cache: Cache, lines: seq<Line>, event: Event, now: string,
      a: Appended)
  {
    if a.result.Err? then
      && cache.None? && a.cache == cache && a.lines == lines
      && (ReadEntries(lines).Ok? ==>
            var entries := ReadEntries(lines).value;
            entries != [] && HexDecode(entries[|entries| - 1].hmac).None?)
    else
      && a.cache.Some?
      && var (n, digest) := a.cache.value;
      && a.lines == lines + [Record(Entry(Body(n, now, event), HexEncode(digest)))]
      && if cache.Some? then
           n == cache.value.0 + 1 && digest == s.mac(key, cache.value.1 + s.json(Body(n, now, event)))
         else
           && ReadEntries(lines).Ok?
           && var entries := ReadEntries(lines).value;
           if entries == [] then n == 0 && digest == s.mac(key, ZERO + s.json(Body(n, now, event)))
           else
             var last := entries[|entries| - 1];
             && n == last.body.sequenceNumber + 1 && HexDecode(last.hmac).Some?
             && digest == s.mac(key, HexDecode(last.hmac).value + s.json(Body(n, now, event)))
  }

  lemma AppendToAppends(s: Suite, key: Bytes, cache: Cache, lines: seq<Line>, event: Event, now: string)
    ensures Appends(s, key, cache, lines, event, now, AppendTo(s, key, cache, lines, event, now))
  {
  }

  class Handle {
    const suite: Suite
    const key: Bytes
    const file: LogFile
    var lastState: Cache

    constructor (suite: Suite, key: Bytes, file: LogFile)
      ensures this.suite == suite && this.key == key && this.file == file && lastState == None
    {
      this.suite, this.key, this.file, lastState := suite, key, file, None;
    }

    method ReadAll() returns (r: Result<seq<Entry>, LogError>)
      ensures r == ReadEntries(file.lines) && Reads(file.lines, |file.lines|, r)
    {
      ParseReads(file.lines, |file.lines|);
      var entries: seq<Entry> := [];
      for i := 0 to |file.lines|
        invariant Parse(file.lines, i) == Ok(entries)
      {
        match file.lines[i]
        case Blank =>
        case Malformed =>
          FirstMalformed(file.lines, i);
          return Err(MalformedEntry(i));
        case Record(e) =>
          entries := entries + [e];
      }
      return Ok(entries);
    }

    /** Appends one sealed entry chained to the cached tail, or to the file's tail when the cache
        is empty; a failure changes neither the file nor the cache. */
    method Append(event: Event, now: string) returns (r: Result<(), LogError>)
      modifies this`lastState, file`lines
      ensures Appended(r, lastState, file.lines) ==
              old(AppendTo(suite, key, lastState, file.lines, event, now))
      ensures Appends(suite, key, old(lastState), old(file.lines), event, now, Appended(r, lastState, file.lines))
    {
      AppendToAppends(suite, key, lastState, file.lines, event, now);
      var seqNo, prev;
      match lastState {
        case Some((lastSeq, lastHmac)) =>
          seqNo, prev := lastSeq + 1, lastHmac;
        case None =>
          var entries :- ReadAll();
          if entries != [] {
            var last := entries[|entries| - 1];
            match HexDecode(last.hmac) {
              case None => return Err(CorruptHmac);
              case Some(b) => seqNo, prev := last.body.sequenceNumber + 1, b;
            }
          } else {
            seqNo, prev := 0, ZERO;
          }
      }
      var body := Body(seqNo, now, event);
      var digest := suite.mac(key, prev + suite.json(body));
      file.lines := file.lines + [Record(Entry(body, HexEncode(digest)))];
      lastState := Some((seqNo, digest));
      return Ok(());
    }

    /** Valid with the number of entries exactly when the whole chain verifies; otherwise invalid
        with the count `k` such that the first `k - 1` entries verify and the first `k` do not. */
    method Verify() returns (r: Result<VerifyResult, LogError>)
      ensures match ReadEntries(file.lines)
        case Err(e) => r == Err(e)
        case Ok(entries) =>
          && r.Ok?
          && (r.value.valid <==> Verified(suite, key, entries))
          && (r.value.valid ==> r.value.entriesChecked == |entries|)
          && (!r.value.valid ==>
                var k := r.value.entriesChecked;
                && 0 < k <= |entries|
                && Verified(suite, key, entries[..k - 1])
                && !Verified(suite, key, entries[..k]))
    {
      var entries :- ReadAll();
      var prev := ZERO;
      for i := 0 to |entries|
        invariant Verified(suite, key, entries[..i])
        invariant Tail(entries[..i]) == Some(prev)
      {
        var digest := suite.mac(key, prev + suite.json(entries[i].body));
        assert entries[..i + 1] == entries[..i] + [entries[i]];
        VerifiedSnoc(suite, key, entries[..i], entries[i]);
        assert entries[..i + 1][..i] == entries[..i];
        if entries[i].hmac != HexEncode(digest) {
          if Verified(suite, key, entries) {
            PrefixVerifies(suite, key, entries, i + 1);
          }
          return Ok(VerifyResult(i + 1, false));
        }
        HexRoundTrip(digest);
        prev := digest;
      }
      assert entries[..|entries|] == entries;
      return Ok(VerifyResult(|entries|, true));
    }
  }

  lemma {:induction false} FirstMalformed(lines: seq<Line>, i: nat)
    requires i < |lines| && lines[i].Malformed? && Parse(lines, i).Ok?
    ensures ReadEntries(lines) == Err(MalformedEntry(i))
  {
    FirstMalformedUpTo(lines, i, |lines|);
  }

  lemma {:induction false} FirstMalformedUpTo(lines: seq<Line>, i: nat, n: nat)
    requires i < n <= |lines| && lines[i].Malformed? && Parse(lines, i).Ok?
    ensures Parse(lines, n) == Err(MalformedEntry(i))
  {
    if n > i + 1 {
      FirstMalformedUpTo(lines, i, n - 1);
    }
  }
}
