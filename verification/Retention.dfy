/** Pruning: old entries are removed and the rest is chained again from scratch. */
module Retention {
  import opened Wrappers
  import opened AuditLog
  import opened Sequences
  import AuditChain

  datatype PruneResult = PruneResult(entriesRemoved: nat, entriesRemaining: nat)

  /** RFC 3339 timestamps as points in time; `None` for text that does not parse. */
  type TimeParser = string -> Option<int>

  /** The timestamp parses and lies before the cutoff. */
  predicate Before(parse: TimeParser, cutoff: int, timestamp: string) {
    parse(timestamp).Some? && parse(timestamp).value < cutoff
  }

  predicate IsOld(parse: TimeParser, cutoff: int, e: Entry) {
    Before(parse, cutoff, e.body.timestamp)
  }

  /** The entries that are kept, in their original order. */
  function Recent(parse: TimeParser, cutoff: int, entries: seq<Entry>): (kept: seq<Entry>)
    ensures |kept| <= |entries|
  {
    if entries == [] then []
    else
      var last := entries[|entries| - 1];
      Recent(parse, cutoff, entries[..|entries| - 1]) + if IsOld(parse, cutoff, last) then [] else [last]
  }

  /** Nothing is removed exactly when no entry is old, and every kept entry is one of the log's. */
  lemma {:induction false} RecentKeepsAll(parse: TimeParser, cutoff: int, entries: seq<Entry>)
    ensures |Recent(parse, cutoff, entries)| == |entries| <==> forall e :: e in entries ==> !IsOld(parse, cutoff, e)
    ensures forall e :: e in Recent(parse, cutoff, entries) <==> e in entries && !IsOld(parse, cutoff, e)
  {
    if entries != [] {
      var n := |entries| - 1;
      assert entries == entries[..n] + [entries[n]];
      RecentKeepsAll(parse, cutoff, entries[..n]);
    }
  }

  /** Which positions of the log hold an entry whose timestamp parses to a time before the cutoff. */
  ghost function OldPositions(parse: TimeParser, cutoff: int, entries: seq<Entry>): set<int> {
    set i | 0 <= i < |entries| && var t := parse(entries[i].body.timestamp); t.Some? && t.value < cutoff
  }

  /** The kept entries are, in their order, those whose timestamp does not parse or is not before the
      cutoff, and as many are missing as there are others. */
  ghost predicate KeptExactly(parse: TimeParser, cutoff: int, entries: seq<Entry>, kept: seq<Entry>) {
    && Subsequence(kept, entries)
    && (forall e :: e in kept <==>
          e in entries && (parse(e.body.timestamp).None? || parse(e.body.timestamp).value >= cutoff))
    && |entries| - |kept| == |OldPositions(parse, cutoff, entries)|
  }

  lemma {:induction false} RecentIsExact(parse: TimeParser, cutoff: int, entries: seq<Entry>)
    ensures KeptExactly(parse, cutoff, entries, Recent(parse, cutoff, entries))
  {
    RecentKeepsAll(parse, cutoff, entries);
    RecentInOrder(parse, cutoff, entries);
    RecentCounts(parse, cutoff, entries);
  }

  lemma {:induction false} RecentInOrder(parse: TimeParser, cutoff: int, entries: seq<Entry>)
    ensures Subsequence(Recent(parse, cutoff, entries), entries)
  {
    if entries != [] {
      var n := |entries| - 1;
      var kept := Recent(parse, cutoff, entries[..n]);
      RecentInOrder(parse, cutoff, entries[..n]);
      SubsequenceAppend(kept, entries[..n], entries[n]);
      assert entries == entries[..n] + [entries[n]] && kept + [] == kept;
    }
  }

  lemma {:induction false} RecentCounts(parse: TimeParser, cutoff: int, entries: seq<Entry>)
    ensures |entries| - |Recent(parse, cutoff, entries)| == |OldPositions(parse, cutoff, entries)|
  {
    if entries != [] {
      var n := |entries| - 1;
      RecentCounts(parse, cutoff, entries[..n]);
      OldPositionsSnoc(parse, cutoff, entries[..n], entries[n]);
      assert entries == entries[..n] + [entries[n]];
    }
  }

  lemma OldPositionsSnoc(parse: TimeParser, cutoff: int, init: seq<Entry>, last: Entry)
    ensures |OldPositions(parse, cutoff, init + [last])| ==
            |OldPositions(parse, cutoff, init)| + if IsOld(parse, cutoff, last) then 1 else 0
  {
    var small, large := OldPositions(parse, cutoff, init), OldPositions(parse, cutoff, init + [last]);
    assert large == if IsOld(parse, cutoff, last) then small + {|init|} else small;
  }

  /** `es` are the given entries, renumbered from zero. */
  ghost predicate Renumbered(es: seq<Entry>, kept: seq<Entry>) {
    |es| == |kept| &&
    forall i :: 0 <= i < |kept| ==> es[i].body == Body(i, kept[i].body.timestamp, kept[i].body.event)
  }

  lemma ExtendVerified(s: Suite, key: Bytes, es: seq<Entry>, prev: Bytes, body: Body)
    requires Verified(s, key, es) && Tail(es) == Some(prev)
    ensures Verified(s, key, es + [Sealed(s, key, prev, body)])
    ensures Tail(es + [Sealed(s, key, prev, body)]) == Some(Digest(s, key, prev, body))
  {
    var e := Sealed(s, key, prev, body);
    assert (es + [e])[..|es|] == es;
    VerifiedSnoc(s, key, es, e);
    HexRoundTrip(Digest(s, key, prev, body));
  }

  /** The given entries chained again from the zero digest and renumbered from zero. */
  function Rechained(s: Suite, key: Bytes, kept: seq<Entry>): (es: seq<Entry>)
    ensures |es| == |kept|
  {
    if kept == [] then []
    else
      var n := |kept| - 1;
      var es := Rechained(s, key, kept[..n]);
      var prev := if Tail(es).Some? then Tail(es).value else [];
      es + [Sealed(s, key, prev, Body(n, kept[n].body.timestamp, kept[n].body.event))]
  }

  lemma {:induction false} RechainedVerifies(s: Suite, key: Bytes, kept: seq<Entry>)
    ensures Renumbered(Rechained(s, key, kept), kept) && Verified(s, key, Rechained(s, key, kept))
    ensures Tail(Rechained(s, key, kept)).Some?
  {
    if kept != [] {
      var n := |kept| - 1;
      RechainedVerifies(s, key, kept[..n]);
      var es := Rechained(s, key, kept[..n]);
      ExtendVerified(s, key, es, Tail(es).value, Body(n, kept[n].body.timestamp, kept[n].body.event));
    }
  }

  lemma {:induction false} RechainedStep(s: Suite, key: Bytes, kept: seq<Entry>, n: nat, prev: Bytes)
    requires n < |kept| && Tail(Rechained(s, key, kept[..n])) == Some(prev)
    ensures var e := Sealed(s, key, prev, Body(n, kept[n].body.timestamp, kept[n].body.event));
      && Rechained(s, key, kept[..n + 1]) == Rechained(s, key, kept[..n]) + [e]
      && Tail(Rechained(s, key, kept[..n]) + [e]) == Some(Digest(s, key, prev, e.body))
  {
    assert kept[..n + 1][..n] == kept[..n];
    HexRoundTrip(Digest(s, key, prev, Body(n, kept[n].body.timestamp, kept[n].body.event)));
  }

  method Rechain(s: Suite, key: Bytes, entries: seq<Entry>) returns (result: seq<Entry>)
    ensures result == Rechained(s, key, entries)
    ensures Renumbered(result, entries) && Verified(s, key, result)
  {
    result := [];
    var prev := ZERO;
    for i := 0 to |entries|
      invariant result == Rechained(s, key, entries[..i])
      invariant Tail(result) == Some(prev)
    {
      var body := Body(i, entries[i].body.timestamp, entries[i].body.event);
      var digest := s.mac(key, prev + s.json(body));
      var entry := Entry(body, HexEncode(digest));
      RechainedStep(s, key, entries, i, prev);
      result := result + [entry];
      prev := digest;
    }
    assert entries[..|entries|] == entries;
    RechainedVerifies(s, key, entries);
  }

  lemma {:induction false} ParseRecords(entries: seq<Entry>, n: nat)
    requires n <= |entries|
    ensures Parse(Records(entries), n) == Ok(entries[..n])
  {
    if n > 0 {
      ParseRecords(entries, n - 1);
      assert entries[..n] == entries[..n - 1] + [entries[n - 1]];
    }
  }

  function OldestOf(entries: seq<Entry>): string {
    if entries == [] then "" else entries[0].body.timestamp
  }

  /** What a pruning that removes something leaves behind: a verifying log, numbered from zero,
      of the kept entries in order and one final `LogPruned`. */
  ghost predicate Pruned(s: Suite, key: Bytes, all: seq<Entry>, kept: seq<Entry>, es: seq<Entry>, now: string) {
    && Verified(s, key, es)
    && |kept| <= |all| && |es| == |kept| + 1
    && Renumbered(es[..|kept|], kept)
    && es[|kept|].body ==
       Body(|kept|, now, LogPruned(|all| - |kept|, OldestOf(kept)))
  }

  predicate Removes(parse: TimeParser, cutoff: int, entries: seq<Entry>) {
    |Recent(parse, cutoff, entries)| < |entries|
  }

  /** The file after pruning. */
  function PruneTo(s: Suite, key: Bytes, parse: TimeParser, cutoff: int, lines: seq<Line>, now: string): seq<Line> {
    match ReadEntries(lines)
    case Err(_) => lines
    case Ok(all) =>
      if Removes(parse, cutoff, all)
      then WithLogPruned(s, key, |all|, Rechained(s, key, Recent(parse, cutoff, all)), now)
      else lines
  }

  /** The file that holds the re-chained entries and, at the end, the record of their pruning. */
  function WithLogPruned(s: Suite, key: Bytes, total: nat, rechained: seq<Entry>, now: string): seq<Line>
    requires |rechained| <= total
  {
    AppendTo(s, key, None, Records(rechained), LogPruned(total - |rechained|, OldestOf(rechained)), now).lines
  }

  lemma {:induction false} PruneToPrunes(s: Suite, key: Bytes, parse: TimeParser, cutoff: int,
      lines: seq<Line>, now: string)
    requires ReadEntries(lines).Ok? && Removes(parse, cutoff, ReadEntries(lines).value)
    ensures var all, after := ReadEntries(lines).value, ReadEntries(PruneTo(s, key, parse, cutoff, lines, now));
      after.Ok? && Pruned(s, key, all, Recent(parse, cutoff, all), after.value, now)
  {
    var all := ReadEntries(lines).value;
    var kept := Recent(parse, cutoff, all);
    RechainedVerifies(s, key, kept);
    AppendLogPruned(s, key, all, kept, Rechained(s, key, kept), now);
  }

  lemma ReadLogPruned(s: Suite, key: Bytes, total: nat, es: seq<Entry>, prev: Bytes, now: string)
    requires |es| <= total && Tail(es) == Some(prev)
    requires es != [] ==> es[|es| - 1].body.sequenceNumber == |es| - 1
    ensures Position(None, Records(es)) == Ok((|es|, prev))
    ensures ReadEntries(WithLogPruned(s, key, total, es, now)) ==
            Ok(es + [Sealed(s, key, prev, Body(|es|, now, LogPruned(total - |es|, OldestOf(es))))])
  {
    ParseRecords(es, |es|);
    assert es[..|es|] == es;
    AuditChain.ReadAppended(Records(es), Sealed(s, key, prev, Body(|es|, now, LogPruned(total - |es|, OldestOf(es)))));
  }

  lemma AppendLogPruned(s: Suite, key: Bytes, all: seq<Entry>, kept: seq<Entry>, rechained: seq<Entry>, now: string)
    requires |kept| <= |all| && Renumbered(rechained, kept) && Verified(s, key, rechained) && Tail(rechained).Some?
    ensures var after := ReadEntries(WithLogPruned(s, key, |all|, rechained, now));
      after.Ok? && Pruned(s, key, all, kept, after.value, now)
  {
    var prev := Tail(rechained).value;
    assert OldestOf(rechained) == OldestOf(kept);
    ReadLogPruned(s, key, |all|, rechained, prev, now);
    EndsPruned(s, key, all, kept, rechained, prev, now);
  }

  lemma EndsPruned(s: Suite, key: Bytes, all: seq<Entry>, kept: seq<Entry>, rechained: seq<Entry>,
      prev: Bytes, now: string)
    requires |kept| <= |all| && Renumbered(rechained, kept)
    requires Verified(s, key, rechained) && Tail(rechained) == Some(prev)
    ensures var body := Body(|kept|, now, LogPruned(|all| - |kept|, OldestOf(kept)));
      Pruned(s, key, all, kept, rechained + [Sealed(s, key, prev, body)], now)
  {
    var body := Body(|kept|, now, LogPruned(|all| - |kept|, OldestOf(kept)));
    ExtendVerified(s, key, rechained, prev, body);
    assert (rechained + [Sealed(s, key, prev, body)])[..|kept|] == rechained;
  }

  /** An unreadable file and one with nothing old stay untouched; otherwise the file is pruned, and
      the counts add up to the original entries and the new `LogPruned`. */
  ghost predicate PruneOutcome(s: Suite, key: Bytes, parse: TimeParser, cutoff: int, before: seq<Line>, now: string,
      after: seq<Line>, r: Result<PruneResult, LogError>)
  {
    match ReadEntries(before)
    case Err(e) => r == Err(e) && after == before
    case Ok(all) =>
      var kept := Recent(parse, cutoff, all);
      && KeptExactly(parse, cutoff, all, kept)
      && r.Ok?
      && r.value.entriesRemoved == |OldPositions(parse, cutoff, all)| == |all| - |kept|
      && if |kept| == |all| then
           r.value.entriesRemaining == |all| && after == before
         else
           && r.value.entriesRemoved + r.value.entriesRemaining == |all| + 1
           && ReadEntries(after).Ok?
           && Pruned(s, key, all, kept, ReadEntries(after).value, now)
           && ReadEntries(after).value[|kept|].body.event ==
              LogPruned(r.value.entriesRemoved, if kept == [] then "" else kept[0].body.timestamp)
  }

  lemma {:induction false} PruneToOutcome(s: Suite, key: Bytes, parse: TimeParser, cutoff: int,
      lines: seq<Line>, now: string)
    requires ReadEntries(lines).Ok?
    ensures var removed := |ReadEntries(lines).value| - |Recent(parse, cutoff, ReadEntries(lines).value)|;
      var remaining := |ReadEntries(lines).value| - removed + if removed == 0 then 0 else 1;
      PruneOutcome(s, key, parse, cutoff, lines, now,
                   PruneTo(s, key, parse, cutoff, lines, now), Ok(PruneResult(removed, remaining)))
  {
    RecentIsExact(parse, cutoff, ReadEntries(lines).value);
    if Removes(parse, cutoff, ReadEntries(lines).value) {
      PruneToPrunes(s, key, parse, cutoff, lines, now);
    }
  }

  lemma {:induction false} RechainedPosition(s: Suite, key: Bytes, kept: seq<Entry>)
    ensures Position(None, Records(Rechained(s, key, kept))).Ok?
  {
    RechainedVerifies(s, key, kept);
    var es := Rechained(s, key, kept);
    ReadLogPruned(s, key, |es|, es, Tail(es).value, "");
  }

  /** Replaces the file by the re-chained entries and records the pruning through a new handle. */
  method Rewrite(log: Handle, total: nat, kept: seq<Entry>, now: string) returns (remaining: nat)
    requires |kept| <= total
    modifies log.file`lines
    ensures remaining == |kept| + 1
    ensures log.file.lines == WithLogPruned(log.suite, log.key, total, Rechained(log.suite, log.key, kept), now)
  {
    var rechained := Rechain(log.suite, log.key, kept);
    RechainedPosition(log.suite, log.key, kept);
    log.file.lines := Records(rechained);
    var reopened := new Handle(log.suite, log.key, log.file);
    var appended := reopened.Append(LogPruned(total - |kept|, OldestOf(rechained)), now);
    assert appended.Ok?;
    return |rechained| + 1;
  }

  /** Prunes the log behind a handle. The handle's own cache stays as it was. */
  method Prune(log: Handle, parse: TimeParser, cutoff: int, now: string) returns (r: Result<PruneResult, LogError>)
    modifies log.file`lines
    ensures log.file.lines == old(PruneTo(log.suite, log.key, parse, cutoff, log.file.lines, now))
    ensures PruneOutcome(log.suite, log.key, parse, cutoff, old(log.file.lines), now, log.file.lines, r)
  {
    var all :- log.ReadAll();
    var kept := Recent(parse, cutoff, all);
    var removed := |all| - |kept|;
    PruneToOutcome(log.suite, log.key, parse, cutoff, log.file.lines, now);
    if removed == 0 {
      return Ok(PruneResult(0, |kept|));
    }
    var remaining := Rewrite(log, |all|, kept, now);
    return Ok(PruneResult(removed, remaining));
  }

  // ----- what pruning does to the handles -----

  /** What re-chaining keeps of the entries. */
  function Contents(entries: seq<Entry>): (c: seq<(string, Event)>)
    ensures |c| == |entries|
  {
    seq(|entries|, i requires 0 <= i < |entries| => (entries[i].body.timestamp, entries[i].body.event))
  }

  ghost predicate AllRecent(parse: TimeParser, cutoff: int, entries: seq<Entry>) {
    forall e :: e in entries ==> !IsOld(parse, cutoff, e)
  }

  /** The contents of the entries that are kept. */
  function RecentContents(parse: TimeParser, cutoff: int, c: seq<(string, Event)>): seq<(string, Event)> {
    if c == [] then []
    else
      var last := c[|c| - 1];
      RecentContents(parse, cutoff, c[..|c| - 1]) + if Before(parse, cutoff, last.0) then [] else [last]
  }

  lemma {:induction false} ContentsOfRecent(parse: TimeParser, cutoff: int, all: seq<Entry>)
    ensures Contents(Recent(parse, cutoff, all)) == RecentContents(parse, cutoff, Contents(all))
  {
    if all != [] {
      var n := |all| - 1;
      ContentsOfRecent(parse, cutoff, all[..n]);
      assert Contents(all)[..n] == Contents(all[..n]);
    }
  }

  /** What lies scattered in a log and has nothing old in it is still there after pruning. */
  lemma {:induction false} RecentKeepsSubsequence(parse: TimeParser, cutoff: int,
      c: seq<(string, Event)>, all: seq<(string, Event)>)
    requires Subsequence(c, all) && forall x :: x in c ==> !Before(parse, cutoff, x.0)
    ensures Subsequence(c, RecentContents(parse, cutoff, all))
    decreases |all|
  {
    if c != [] {
      var m, n := |c| - 1, |all| - 1;
      var kept := RecentContents(parse, cutoff, all[..n]);
      if Subsequence(c, all[..n]) {
        RecentKeepsSubsequence(parse, cutoff, c, all[..n]);
        SubsequenceAppend(c, kept, all[n]);
        assert kept + [] == kept;
      } else {
        RecentKeepsSubsequence(parse, cutoff, c[..m], all[..n]);
        SubsequenceAppend(c[..m], kept, all[n]);
        assert c[m] in c && c == c[..m] + [all[n]];
      }
    }
  }

  /** A log whose entries all survive a pruning is shorter than what the pruning leaves. */
  lemma {:induction false} SurvivorsShorter(s: Suite, key: Bytes, parse: TimeParser, cutoff: int, v: seq<Entry>,
      all: seq<Entry>, es: seq<Entry>, now: string)
    requires Subsequence(Contents(v), Contents(all)) && AllRecent(parse, cutoff, v)
    requires Pruned(s, key, all, Recent(parse, cutoff, all), es, now)
    ensures Subsequence(Contents(v), Contents(es)) && |v| < |es|
  {
    var kept := Recent(parse, cutoff, all);
    forall x | x in Contents(v)
      ensures !Before(parse, cutoff, x.0)
    {
      var i :| 0 <= i < |v| && Contents(v)[i] == x;
      assert v[i] in v;
    }
    RecentKeepsSubsequence(parse, cutoff, Contents(v), Contents(all));
    ContentsOfRecent(parse, cutoff, all);
    SubsequenceLength(Contents(v), Contents(kept));
    PrunedContents(s, key, all, kept, es, now);
    SubsequenceAppend(Contents(v), Contents(kept), Contents(es)[|kept|]);
  }

  lemma PrunedContents(s: Suite, key: Bytes, all: seq<Entry>, kept: seq<Entry>, es: seq<Entry>, now: string)
    requires Pruned(s, key, all, kept, es, now)
    ensures Contents(es) == Contents(kept) + [Contents(es)[|kept|]]
  {
    forall i | 0 <= i < |kept|
      ensures Contents(es)[i] == Contents(kept)[i]
    {
      assert es[..|kept|][i] == es[i];
    }
  }

  /** A pruned log holds nothing that was old, if its `LogPruned` is not. */
  lemma PrunedIsRecent(s: Suite, key: Bytes, parse: TimeParser, cutoff: int,
      all: seq<Entry>, kept: seq<Entry>, es: seq<Entry>, now: string)
    requires AllRecent(parse, cutoff, kept) && Pruned(s, key, all, kept, es, now) && !Before(parse, cutoff, now)
    ensures AllRecent(parse, cutoff, es)
  {
    forall i | 0 <= i < |es|
      ensures !IsOld(parse, cutoff, es[i])
    {
      if i < |kept| {
        assert es[..|kept|][i].body.timestamp == kept[i].body.timestamp;
        assert kept[i] in kept;
      }
    }
  }

  /** What the pruned log and an append to it feed to the MAC. */
  function StaleMessages(s: Suite, key: Bytes, parse: TimeParser, cutoff: int, before: seq<Line>, pruned: string,
      cache: Cache, event: Event, now: string): set<Bytes>
  {
    var after := PruneTo(s, key, parse, cutoff, before, pruned);
    (match ReadEntries(after)
     case Ok(es) => AuditChain.Messages(s, es)
     case Err(_) => {}) +
    AuditChain.AppendMessages(s, cache, after, event, now)
  }

  /** A handle that had written before a pruning that removed something is stale after it, however
      many entries followed its own: its next append breaks the new log. */
  lemma StaleAfterPruneBreaks(s: Suite, key: Bytes, parse: TimeParser, cutoff: int, before: seq<Line>, m: nat,
      pruned: string, cache: Cache, event: Event, now: string)
    requires Sized(s) && JsonInjective(s) && AuditChain.FileVerifies(s, key, before)
    requires Removes(parse, cutoff, ReadEntries(before).value) && !Before(parse, cutoff, pruned)
    requires m <= |ReadEntries(before).value|
    requires cache.Some? && Tail(ReadEntries(before).value[..m]) == Some(cache.value.1)
    requires CollisionFree(s, key, AuditChain.Messages(s, ReadEntries(before).value) +
                                   StaleMessages(s, key, parse, cutoff, before, pruned, cache, event, now))
    ensures var after := PruneTo(s, key, parse, cutoff, before, pruned);
      AuditChain.FileVerifies(s, key, after) &&
      !AuditChain.FileVerifies(s, key, AppendTo(s, key, cache, after, event, now).lines)
  {
    var past, after := ReadEntries(before).value, PruneTo(s, key, parse, cutoff, before, pruned);
    PruneToPrunes(s, key, parse, cutoff, before, pruned);
    var messages := StaleMessages(s, key, parse, cutoff, before, pruned, cache, event, now);
    StaleCacheBreaks(s, key, parse, cutoff, past, m, pruned, cache, after, event, now,
                     AuditChain.Messages(s, past) + messages);
  }

  lemma {:induction false} StaleCacheBreaks(s: Suite, key: Bytes, parse: TimeParser, cutoff: int,
      past: seq<Entry>, m: nat, pruned: string, cache: Cache, after: seq<Line>, event: Event, now: string,
      messages: set<Bytes>)
    requires Sized(s) && JsonInjective(s) && Verified(s, key, past) && m <= |past| && !Before(parse, cutoff, pruned)
    requires ReadEntries(after).Ok?
    requires Pruned(s, key, past, Recent(parse, cutoff, past), ReadEntries(after).value, pruned)
    requires cache.Some? && Tail(past[..m]) == Some(cache.value.1) && CollisionFree(s, key, messages)
    requires AuditChain.Messages(s, past) + AuditChain.Messages(s, ReadEntries(after).value) <= messages
    requires AuditChain.AppendMessages(s, cache, after, event, now) <= messages
    ensures !AuditChain.FileVerifies(s, key, AppendTo(s, key, cache, after, event, now).lines)
  {
    var es := ReadEntries(after).value;
    PrefixDiffersFromPruned(s, key, parse, cutoff, past, m, es, pruned);
    PrefixVerifies(s, key, past, m);
    AuditChain.TailOfVerified(s, key, past[..m]);
    AuditChain.CollisionFreeSubset(s, key, AuditChain.Messages(s, past) + AuditChain.Messages(s, es), messages);
    TailsDiffer(s, key, past, m, es);
    AuditChain.CollisionFreeSubset(s, key, AuditChain.AppendMessages(s, cache, after, event, now), messages);
    AuditChain.AppendCoherence(s, key, cache, after, event, now);
  }

  /** No prefix of a log is what pruning turns the log into. */
  lemma {:induction false} PrefixDiffersFromPruned(s: Suite, key: Bytes, parse: TimeParser, cutoff: int,
      past: seq<Entry>, m: nat, es: seq<Entry>, pruned: string)
    requires m <= |past| && !Before(parse, cutoff, pruned)
    requires Pruned(s, key, past, Recent(parse, cutoff, past), es, pruned)
    ensures past[..m] != es
  {
    var v := past[..m];
    if AllRecent(parse, cutoff, v) {
      PrefixIsSubsequence(past, m);
      SurvivorsShorter(s, key, parse, cutoff, v, past, es, pruned);
    } else {
      RecentKeepsAll(parse, cutoff, past);
      PrunedIsRecent(s, key, parse, cutoff, past, Recent(parse, cutoff, past), es, pruned);
    }
  }

  lemma {:induction false} PrefixIsSubsequence(entries: seq<Entry>, m: nat)
    requires m <= |entries|
    ensures Subsequence(Contents(entries[..m]), Contents(entries))
  {
    var n := |entries|;
    if m == n {
      assert entries[..m] == entries;
      SubsequenceReflexive(Contents(entries));
    } else {
      PrefixIsSubsequence(entries[..n - 1], m);
      assert entries[..n - 1][..m] == entries[..m];
      assert Contents(entries) == Contents(entries[..n - 1]) + [Contents(entries)[n - 1]];
      SubsequenceAppend(Contents(entries[..m]), Contents(entries[..n - 1]), Contents(entries)[n - 1]);
    }
  }

  lemma TailsDiffer(s: Suite, key: Bytes, past: seq<Entry>, m: nat, es: seq<Entry>)
    requires Sized(s) && JsonInjective(s) && m <= |past| && past[..m] != es
    requires Verified(s, key, past) && Verified(s, key, es)
    requires CollisionFree(s, key, AuditChain.Messages(s, past) + AuditChain.Messages(s, es))
    ensures Tail(past[..m]) != Tail(es)
  {
    PrefixVerifies(s, key, past, m);
    AuditChain.MessagesOfPrefix(s, past, m);
    if Tail(past[..m]) == Tail(es) {
      AuditChain.TailDeterminesHistory(s, key, past[..m], es);
    }
  }
}
