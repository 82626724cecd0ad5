/**
 What the chain guarantees: the last HMAC determines the whole log, and one append keeps a file
 verifying exactly when the handle's cache is coherent with it.
 */
module AuditChain {
  import opened Wrappers
  import opened AuditLog

  // ----- the tail determines the history -----

  function MessageAt(s: Suite, entries: seq<Entry>, i: int): Bytes
    requires 0 <= i < |entries|
  {
    var prev := Tail(entries[..i]);
    Message(s, if prev.Some? then prev.value else [], entries[i].body)
  }

  /** Everything that verifying a log feeds to the MAC. */
  function Messages(s: Suite, entries: seq<Entry>): set<Bytes> {
    set i | 0 <= i < |entries| :: MessageAt(s, entries, i)
  }

  /** The tail of a verifying log is the digest of its last entry. */
  lemma TailOfVerified(s: Suite, key: Bytes, entries: seq<Entry>)
    requires Sized(s) && Verified(s, key, entries)
    ensures Tail(entries).Some? && |Tail(entries).value| == DIGEST_LENGTH
    ensures entries != [] ==>
              var n := |entries| - 1;
              && Tail(entries[..n]).Some? && |Tail(entries[..n]).value| == DIGEST_LENGTH
              && entries[n] == Sealed(s, key, Tail(entries[..n]).value, entries[n].body)
              && Tail(entries).value == s.mac(key, MessageAt(s, entries, n))
  {
    if entries != [] {
      var n := |entries| - 1;
      assert Linked(s, key, entries, n);
      HexRoundTrip(Digest(s, key, Tail(entries[..n]).value, entries[n].body));
      if n > 0 {
        assert Linked(s, key, entries, n - 1);
        assert entries[..n][|entries[..n]| - 1] == entries[n - 1];
        HexRoundTrip(Digest(s, key, Tail(entries[..n - 1]).value, entries[n - 1].body));
      }
    }
  }

  lemma MessagesOfPrefix(s: Suite, entries: seq<Entry>, n: nat)
    requires n <= |entries|
    ensures Messages(s, entries[..n]) <= Messages(s, entries)
  {
    forall i | 0 <= i < n
      ensures MessageAt(s, entries[..n], i) == MessageAt(s, entries, i)
    {
      assert entries[..n][..i] == entries[..i];
    }
  }

  lemma SameMessage(s: Suite, p: Bytes, x: Body, q: Bytes, y: Body)
    requires JsonInjective(s) && |p| == |q| && Message(s, p, x) == Message(s, q, y)
    ensures p == q && x == y
  {
    assert p == Message(s, p, x)[..|p|] && s.json(x) == Message(s, p, x)[|p|..];
    assert q == Message(s, q, y)[..|p|] && s.json(y) == Message(s, q, y)[|p|..];
  }

  lemma NonzeroTail(s: Suite, key: Bytes, entries: seq<Entry>, messages: set<Bytes>)
    requires Sized(s) && Verified(s, key, entries) && entries != []
    requires Messages(s, entries) <= messages && CollisionFree(s, key, messages)
    ensures Tail(entries) != Some(ZERO)
  {
    TailOfVerified(s, key, entries);
    assert MessageAt(s, entries, |entries| - 1) in Messages(s, entries);
  }

  lemma SameLastEntry(s: Suite, key: Bytes, x: seq<Entry>, y: seq<Entry>, messages: set<Bytes>)
    requires Sized(s) && JsonInjective(s) && CollisionFree(s, key, messages)
    requires Verified(s, key, x) && Verified(s, key, y) && Tail(x) == Tail(y) && x != [] && y != []
    requires Messages(s, x) <= messages && Messages(s, y) <= messages
    ensures Tail(x[..|x| - 1]) == Tail(y[..|y| - 1]) && x[|x| - 1] == y[|y| - 1]
  {
    var m, n := |x| - 1, |y| - 1;
    TailOfVerified(s, key, x);
    TailOfVerified(s, key, y);
    assert MessageAt(s, x, m) in Messages(s, x) && MessageAt(s, y, n) in Messages(s, y);
    assert s.mac(key, MessageAt(s, x, m)) == s.mac(key, MessageAt(s, y, n));
    SameMessage(s, Tail(x[..m]).value, x[m].body, Tail(y[..n]).value, y[n].body);
  }

  lemma {:induction false} TailDeterminesWithin(s: Suite, key: Bytes, x: seq<Entry>, y: seq<Entry>,
      messages: set<Bytes>)
    requires Sized(s) && JsonInjective(s) && CollisionFree(s, key, messages)
    requires Verified(s, key, x) && Verified(s, key, y) && Tail(x) == Tail(y)
    requires Messages(s, x) <= messages && Messages(s, y) <= messages
    ensures x == y
    decreases |x|
  {
    if x == [] || y == [] {
      if x != [] {
        NonzeroTail(s, key, x, messages);
      } else if y != [] {
        NonzeroTail(s, key, y, messages);
      }
    } else {
      var m, n := |x| - 1, |y| - 1;
      SameLastEntry(s, key, x, y, messages);
      PrefixVerifies(s, key, x, m);
      PrefixVerifies(s, key, y, n);
      MessagesOfPrefix(s, x, m);
      MessagesOfPrefix(s, y, n);
      TailDeterminesWithin(s, key, x[..m], y[..n], messages);
      assert x == x[..m] + [x[m]] && y == y[..n] + [y[n]];
    }
  }

  /** Two logs that verify under one key and end in the same HMAC are equal entry for entry. */
  lemma TailDeterminesHistory(s: Suite, key: Bytes, x: seq<Entry>, y: seq<Entry>)
    requires Sized(s) && JsonInjective(s)
    requires Verified(s, key, x) && Verified(s, key, y) && Tail(x) == Tail(y)
    requires CollisionFree(s, key, Messages(s, x) + Messages(s, y))
    ensures x == y
  {
    TailDeterminesWithin(s, key, x, y, Messages(s, x) + Messages(s, y));
  }

  /** Any edit, insertion, deletion or reordering that keeps the last HMAC breaks verification. */
  lemma TamperingDetected(s: Suite, key: Bytes, original: seq<Entry>, changed: seq<Entry>)
    requires Sized(s) && JsonInjective(s)
    requires Verified(s, key, original) && Tail(changed) == Tail(original) && changed != original
    requires CollisionFree(s, key, Messages(s, original) + Messages(s, changed))
    ensures !Verified(s, key, changed)
  {
    if Verified(s, key, changed) {
      TailDeterminesHistory(s, key, original, changed);
    }
  }

  // ----- one append -----

  lemma ReadAppended(lines: seq<Line>, e: Entry)
    requires ReadEntries(lines).Ok?
    ensures ReadEntries(lines + [Record(e)]) == Ok(ReadEntries(lines).value + [e])
  {
    ParsePrefix(lines, [Record(e)], |lines|);
  }

  lemma {:induction false} ParsePrefix(lines: seq<Line>, more: seq<Line>, n: nat)
    requires n <= |lines|
    ensures Parse(lines + more, n) == Parse(lines, n)
  {
    if n > 0 {
      ParsePrefix(lines, more, n - 1);
    }
  }

  /** An entry sealed over `prev` extends a verifying log to a verifying log exactly when `prev`
      is the log's own tail. */
  lemma ExtensionVerifies(s: Suite, key: Bytes, entries: seq<Entry>, prev: Bytes, body: Body)
    requires Sized(s) && JsonInjective(s) && Verified(s, key, entries) && |prev| == DIGEST_LENGTH
    requires Tail(entries).Some? ==>
               CollisionFree(s, key, {Message(s, prev, body), Message(s, Tail(entries).value, body)})
    ensures Verified(s, key, entries + [Sealed(s, key, prev, body)]) <==> Tail(entries) == Some(prev)
  {
    var e := Sealed(s, key, prev, body);
    var all := entries + [e];
    assert all[..|entries|] == entries;
    TailOfVerified(s, key, entries);
    VerifiedSnoc(s, key, entries, e);
    var t := Tail(entries).value;
    if Linked(s, key, all, |entries|) {
      HexRoundTrip(Digest(s, key, prev, body));
      HexRoundTrip(Digest(s, key, t, body));
      assert s.mac(key, Message(s, prev, body)) == s.mac(key, Message(s, t, body));
      SameMessage(s, prev, body, t, body);
    }
  }

  ghost predicate FileVerifies(s: Suite, key: Bytes, lines: seq<Line>) {
    ReadEntries(lines).Ok? && Verified(s, key, ReadEntries(lines).value)
  }

  /** The messages that one append and its later verification feed to the MAC. */
  function AppendMessages(s: Suite, cache: Cache, lines: seq<Line>, event: Event, now: string): set<Bytes> {
    match Position(cache, lines)
    case Err(_) => {}
    case Ok((seqNo, prev)) =>
      var body := Body(seqNo, now, event);
      {Message(s, prev, body)} +
      if ReadEntries(lines).Ok? && Tail(ReadEntries(lines).value).Some?
      then {Message(s, Tail(ReadEntries(lines).value).value, body)}
      else {}
  }

  /** Appending to a verifying file succeeds, and leaves it verifying if and only if the handle's
      cache is empty or holds the file's last HMAC. */
  lemma AppendCoherence(s: Suite, key: Bytes, cache: Cache, lines: seq<Line>, event: Event, now: string)
    requires Sized(s) && JsonInjective(s) && FileVerifies(s, key, lines)
    requires cache.Some? ==> |cache.value.1| == DIGEST_LENGTH
    requires CollisionFree(s, key, AppendMessages(s, cache, lines, event, now))
    ensures var a, entries := AppendTo(s, key, cache, lines, event, now), ReadEntries(lines).value;
      && a.result.Ok? && a.cache.Some? && |a.cache.value.1| == DIGEST_LENGTH
      && ReadEntries(a.lines).Ok? && |ReadEntries(a.lines).value| == |entries| + 1
      && entries == ReadEntries(a.lines).value[..|entries|]
      && Tail(ReadEntries(a.lines).value) == Some(a.cache.value.1)
      && (FileVerifies(s, key, a.lines) <==> cache.None? || Tail(entries) == Some(cache.value.1))
  {
    var entries := ReadEntries(lines).value;
    TailOfVerified(s, key, entries);
    var (seqNo, prev) := Position(cache, lines).value;
    var body := Body(seqNo, now, event);
    ReadAppended(lines, Sealed(s, key, prev, body));
    HexRoundTrip(Digest(s, key, prev, body));
    assert {Message(s, prev, body), Message(s, Tail(entries).value, body)} ==
           AppendMessages(s, cache, lines, event, now);
    ExtensionVerifies(s, key, entries, prev, body);
  }

  lemma CollisionFreeSubset(s: Suite, key: Bytes, small: set<Bytes>, large: set<Bytes>)
    requires CollisionFree(s, key, large) && small <= large
    ensures CollisionFree(s, key, small)
  {
  }

  lemma MessagesOfAppended(s: Suite, entries: seq<Entry>, e: Entry)
    requires Tail(entries).Some?
    ensures Messages(s, entries + [e]) == Messages(s, entries) + {Message(s, Tail(entries).value, e.body)}
  {
    var all := entries + [e];
    forall i | 0 <= i < |all|
      ensures MessageAt(s, all, i) ==
              if i < |entries| then MessageAt(s, entries, i) else Message(s, Tail(entries).value, e.body)
    {
      assert i < |entries| ==> all[..i] == entries[..i];
      assert all[..|entries|] == entries;
    }
    assert MessageAt(s, all, |entries|) in Messages(s, all);
    forall m | m in Messages(s, entries)
      ensures m in Messages(s, all)
    {
      var i :| 0 <= i < |entries| && m == MessageAt(s, entries, i);
      assert m == MessageAt(s, all, i);
    }
  }
}
