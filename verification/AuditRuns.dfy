/**
 Whole runs on one log file: any number of handles append to it and are re-opened, and the file
 is pruned in between. Whether the file verifies at the end is decided by the caches, and a run
 that simple bookkeeping finds sound leaves it verifying whatever the MAC and the clock.
 */
module AuditRuns {
  import opened Wrappers
  import opened AuditLog
  import opened AuditChain
  import opened Retention

  /** The MAC and the encoding, the key of the log, and how timestamps are read. */
  datatype Context = Context(s: Suite, key: Bytes, parse: TimeParser)

  type HandleId = nat

  /** What the processes do. Re-opening a handle empties its cache; pruning leaves all caches. */
  datatype Step =
    | Append(h: HandleId, event: Event, now: string)
    | Reopen(h: HandleId)
    | Prune(cutoff: int, now: string)

  datatype State = State(lines: seq<Line>, caches: map<HandleId, Cache>)

  function CacheOf(st: State, h: HandleId): Cache {
    if h in st.caches then st.caches[h] else None
  }

  function Next(ctx: Context, st: State, step: Step): State {
    match step
    case Append(h, event, now) =>
      var a := AppendTo(ctx.s, ctx.key, CacheOf(st, h), st.lines, event, now);
      State(a.lines, st.caches[h := a.cache])
    case Reopen(h) => st.(caches := st.caches[h := None])
    case Prune(cutoff, now) => st.(lines := PruneTo(ctx.s, ctx.key, ctx.parse, cutoff, st.lines, now))
  }

  function Run(ctx: Context, st: State, steps: seq<Step>): State
    decreases steps
  {
    if steps == [] then st else Run(ctx, Next(ctx, st, steps[0]), steps[1..])
  }

  /** Everything a step and the verification of what it writes feed to the MAC. */
  function StepMessages(ctx: Context, st: State, step: Step): set<Bytes> {
    match step
    case Append(h, event, now) => AppendMessages(ctx.s, CacheOf(st, h), st.lines, event, now)
    case Reopen(_) => {}
    case Prune(cutoff, now) =>
      var before := ReadEntries(st.lines);
      var after := ReadEntries(PruneTo(ctx.s, ctx.key, ctx.parse, cutoff, st.lines, now));
      if before.Ok? && Removes(ctx.parse, cutoff, before.value) && after.Ok? then Messages(ctx.s, after.value) else {}
  }

  function RunMessages(ctx: Context, st: State, steps: seq<Step>): set<Bytes>
    decreases steps
  {
    if steps == [] then {}
    else
      StepMessages(ctx, st, steps[0]) +
      RunMessages(ctx, Next(ctx, st, steps[0]), steps[1..])
  }

  // ----- the bookkeeping -----

  /** The timestamps in the file, the handles that have written since they were opened, the handle
      that wrote last since the file was last rewritten, and whether the file is sound. */
  datatype Ledger = Ledger(stamps: set<string>, warm: set<HandleId>, writer: Option<HandleId>, sound: bool)

  /** The handle has not written since it was opened, or it wrote last. */
  predicate Current(l: Ledger, h: HandleId) {
    h !in l.warm || l.writer == Some(h)
  }

  /** An append by a handle that is not current makes the file unsound. A pruning that removes
      something makes it sound again, and no warm handle is current after it. */
  function Observe(parse: TimeParser, l: Ledger, step: Step): Ledger {
    match step
    case Append(h, _, now) => Ledger(l.stamps + {now}, l.warm + {h}, Some(h), l.sound && Current(l, h))
    case Reopen(h) => l.(warm := l.warm - {h})
    case Prune(cutoff, now) =>
      var kept := set t | t in l.stamps && !Before(parse, cutoff, t);
      if kept == l.stamps then l else Ledger(kept + {now}, l.warm, None, true)
  }

  function Observed(parse: TimeParser, l: Ledger, steps: seq<Step>): Ledger
    decreases steps
  {
    if steps == [] then l else Observed(parse, Observe(parse, l, steps[0]), steps[1..])
  }

  function Stamps(entries: seq<Entry>): set<string> {
    set e | e in entries :: e.body.timestamp
  }

  /** A verifying file before any handle has written. */
  function Opened(lines: seq<Line>): Ledger
    requires ReadEntries(lines).Ok?
  {
    Ledger(Stamps(ReadEntries(lines).value), {}, None, true)
  }

  // ----- whatever the MAC: sound runs verify -----

  /** Entries carry their own position as sequence number. */
  ghost predicate Numbered(entries: seq<Entry>) {
    forall i :: 0 <= i < |entries| ==> entries[i].body.sequenceNumber == i
  }

  /** Cold handles have no cache, warm ones have one, and the last writer's holds the file's tail. */
  ghost predicate CachesKnown(st: State, l: Ledger, entries: seq<Entry>) {
    (forall h :: h !in l.warm ==> CacheOf(st, h) == None) &&
    (forall h :: h in l.warm ==>
      CacheOf(st, h).Some? && (l.writer == Some(h) ==> Tail(entries) == Some(CacheOf(st, h).value.1)))
  }

  /** The numbers in the file and in the last writer's cache continue each other. */
  ghost predicate Counted(st: State, l: Ledger, entries: seq<Entry>) {
    Numbered(entries) &&
    (forall h :: h in l.warm && l.writer == Some(h) && CacheOf(st, h).Some? ==>
      CacheOf(st, h).value.0 + 1 == |entries|)
  }

  /** The ledger agrees with the state; `numbered` adds that a sound file is numbered 0, 1, 2, ... */
  ghost predicate Agrees(ctx: Context, st: State, l: Ledger, numbered: bool) {
    ReadEntries(st.lines).Ok? &&
    var entries := ReadEntries(st.lines).value;
    && Tail(entries).Some?
    && l.stamps == Stamps(entries)
    && CachesKnown(st, l, entries)
    && (l.sound ==> Verified(ctx.s, ctx.key, entries))
    && (l.sound && numbered ==> Counted(st, l, entries))
  }

  lemma StampsAppend(entries: seq<Entry>, e: Entry)
    ensures Stamps(entries + [e]) == Stamps(entries) + {e.body.timestamp}
  {
    var all := entries + [e];
    assert forall x :: x in all <==> x in entries || x == e;
    forall t | t in Stamps(entries) + {e.body.timestamp}
      ensures t in Stamps(all)
    {
      if t in Stamps(entries) {
        var x :| x in entries && x.body.timestamp == t;
        assert x in all;
      } else {
        assert e in all;
      }
    }
  }

  /** Where an append goes on from, and what it does to the state. */
  lemma AppendStep(ctx: Context, st: State, l: Ledger, step: Step) returns (body: Body, prev: Bytes)
    requires step.Append? && Agrees(ctx, st, l, false)
    ensures Position(CacheOf(st, step.h), st.lines) == Ok((body.sequenceNumber, prev))
    ensures body.timestamp == step.now && body.event == step.event
    ensures if step.h in l.warm then CacheOf(st, step.h) == Some((body.sequenceNumber - 1, prev))
            else Tail(ReadEntries(st.lines).value) == Some(prev)
    ensures var e, next := Sealed(ctx.s, ctx.key, prev, body), Next(ctx, st, step);
      && ReadEntries(next.lines) == Ok(ReadEntries(st.lines).value + [e])
      && Tail(ReadEntries(st.lines).value + [e]) == Some(Digest(ctx.s, ctx.key, prev, body))
      && next.caches == st.caches[step.h := Some((body.sequenceNumber, Digest(ctx.s, ctx.key, prev, body)))]
  {
    var (seqNo, p) := Position(CacheOf(st, step.h), st.lines).value;
    prev := p;
    body := Body(seqNo, step.now, step.event);
    ReadAppended(st.lines, Sealed(ctx.s, ctx.key, prev, body));
    HexRoundTrip(Digest(ctx.s, ctx.key, prev, body));
  }

  lemma CachesAppend(st: State, next: State, l: Ledger, l': Ledger, h: HandleId, cache: (nat, Bytes),
      entries: seq<Entry>, grown: seq<Entry>)
    requires CachesKnown(st, l, entries) && next.caches == st.caches[h := Some(cache)]
    requires Tail(grown) == Some(cache.1) && l'.warm == l.warm + {h} && l'.writer == Some(h)
    ensures CachesKnown(next, l', grown)
  {
    forall k: HandleId
      ensures CacheOf(next, k) == if k == h then Some(cache) else CacheOf(st, k)
    {
    }
  }

  lemma AgreesAppend(ctx: Context, st: State, l: Ledger, step: Step, numbered: bool)
    requires step.Append? && Agrees(ctx, st, l, numbered)
    ensures Agrees(ctx, Next(ctx, st, step), Observe(ctx.parse, l, step), numbered)
  {
    var body, prev := AppendStep(ctx, st, l, step);
    var entries, next, l' := ReadEntries(st.lines).value, Next(ctx, st, step), Observe(ctx.parse, l, step);
    var e := Sealed(ctx.s, ctx.key, prev, body);
    StampsAppend(entries, e);
    CachesAppend(st, next, l, l', step.h, (body.sequenceNumber, Digest(ctx.s, ctx.key, prev, body)),
                 entries, entries + [e]);
    if l'.sound {
      ExtendVerified(ctx.s, ctx.key, entries, prev, body);
      if numbered {
        CountedAppend(st, next, l, l', step.h, entries, e, prev);
      }
    }
  }

  lemma CountedAppend(st: State, next: State, l: Ledger, l': Ledger, h: HandleId,
      entries: seq<Entry>, e: Entry, prev: Bytes)
    requires ReadEntries(st.lines) == Ok(entries) && CachesKnown(st, l, entries)
    requires Counted(st, l, entries) && Current(l, h)
    requires Position(CacheOf(st, h), st.lines) == Ok((e.body.sequenceNumber, prev))
    requires l'.writer == Some(h) && CacheOf(next, h).Some? && CacheOf(next, h).value.0 == e.body.sequenceNumber
    ensures Counted(next, l', entries + [e])
  {
  }

  lemma {:induction false} StampsOfPruned(ctx: Context, cutoff: int, all: seq<Entry>, es: seq<Entry>, now: string)
    requires Pruned(ctx.s, ctx.key, all, Recent(ctx.parse, cutoff, all), es, now)
    ensures Stamps(es) == (set t | t in Stamps(all) && !Before(ctx.parse, cutoff, t)) + {now}
  {
    var kept := Recent(ctx.parse, cutoff, all);
    var n := |kept|;
    RecentKeepsAll(ctx.parse, cutoff, all);
    assert es == es[..n] + [es[n]];
    StampsAppend(es[..n], es[n]);
    StampsOfRenumbered(es[..n], kept);
  }

  lemma StampsOfRenumbered(es: seq<Entry>, kept: seq<Entry>)
    requires Renumbered(es, kept)
    ensures Stamps(es) == Stamps(kept)
  {
    forall t | t in Stamps(kept)
      ensures t in Stamps(es)
    {
      var i :| 0 <= i < |kept| && kept[i].body.timestamp == t;
      assert es[i] in es;
    }
    forall t | t in Stamps(es)
      ensures t in Stamps(kept)
    {
      var i :| 0 <= i < |es| && es[i].body.timestamp == t;
      assert kept[i] in kept;
    }
  }

  /** The ledger sees from the timestamps whether a pruning removes something. */
  lemma RemovesByStamps(parse: TimeParser, cutoff: int, entries: seq<Entry>)
    ensures Removes(parse, cutoff, entries) <==>
            (set t | t in Stamps(entries) && !Before(parse, cutoff, t)) != Stamps(entries)
  {
    RecentKeepsAll(parse, cutoff, entries);
    var kept := set t | t in Stamps(entries) && !Before(parse, cutoff, t);
    if Removes(parse, cutoff, entries) {
      var e :| e in entries && IsOld(parse, cutoff, e);
      assert e.body.timestamp in Stamps(entries) && e.body.timestamp !in kept;
    } else {
      assert kept == Stamps(entries);
    }
  }

  lemma AgreesPrune(ctx: Context, st: State, l: Ledger, step: Step, numbered: bool)
    requires step.Prune? && Agrees(ctx, st, l, numbered)
    ensures Agrees(ctx, Next(ctx, st, step), Observe(ctx.parse, l, step), numbered)
    ensures Removes(ctx.parse, step.cutoff, ReadEntries(st.lines).value) ==>
              Observe(ctx.parse, l, step).sound && Observe(ctx.parse, l, step).writer == None
    ensures !Removes(ctx.parse, step.cutoff, ReadEntries(st.lines).value) ==>
              Observe(ctx.parse, l, step) == l && Next(ctx, st, step) == st
  {
    var entries := ReadEntries(st.lines).value;
    RemovesByStamps(ctx.parse, step.cutoff, entries);
    if Removes(ctx.parse, step.cutoff, entries) {
      PruneToPrunes(ctx.s, ctx.key, ctx.parse, step.cutoff, st.lines, step.now);
      var es := ReadEntries(Next(ctx, st, step).lines).value;
      StampsOfPruned(ctx, step.cutoff, entries, es, step.now);
      PrunedTail(ctx, entries, Recent(ctx.parse, step.cutoff, entries), es, step.now);
    }
  }

  lemma PrunedTail(ctx: Context, all: seq<Entry>, kept: seq<Entry>, es: seq<Entry>, now: string)
    requires Pruned(ctx.s, ctx.key, all, kept, es, now)
    ensures Tail(es).Some? && Numbered(es)
  {
    var n := |kept|;
    assert Linked(ctx.s, ctx.key, es, n);
    HexRoundTrip(Digest(ctx.s, ctx.key, Tail(es[..n]).value, es[n].body));
    forall i | 0 <= i < n
      ensures es[i].body.sequenceNumber == i
    {
      assert es[..n][i] == es[i];
    }
  }

  lemma AgreesStep(ctx: Context, st: State, l: Ledger, step: Step, numbered: bool)
    requires Agrees(ctx, st, l, numbered)
    ensures Agrees(ctx, Next(ctx, st, step), Observe(ctx.parse, l, step), numbered)
  {
    match step
    case Append(_, _, _) => AgreesAppend(ctx, st, l, step, numbered);
    case Reopen(h) =>
    case Prune(_, _) => AgreesPrune(ctx, st, l, step, numbered);
  }

  lemma {:induction false} AgreesRun(ctx: Context, st: State, l: Ledger, steps: seq<Step>, numbered: bool)
    requires Agrees(ctx, st, l, numbered)
    ensures Agrees(ctx, Run(ctx, st, steps), Observed(ctx.parse, l, steps), numbered)
    decreases steps
  {
    if steps != [] {
      AgreesStep(ctx, st, l, steps[0], numbered);
      AgreesRun(ctx, Next(ctx, st, steps[0]), Observe(ctx.parse, l, steps[0]), steps[1..], numbered);
    }
  }

  lemma AgreesOpened(ctx: Context, lines: seq<Line>)
    requires FileVerifies(ctx.s, ctx.key, lines)
    ensures Agrees(ctx, State(lines, map[]), Opened(lines), Numbered(ReadEntries(lines).value))
  {
    var entries := ReadEntries(lines).value;
    if entries != [] {
      var n := |entries| - 1;
      assert Linked(ctx.s, ctx.key, entries, n);
      HexRoundTrip(Digest(ctx.s, ctx.key, Tail(entries[..n]).value, entries[n].body));
    }
  }

  /** Whatever the MAC and the clock: a run that the ledger finds sound leaves the file verifying,
      and numbered 0, 1, 2, ... if it was so at the start. */
  lemma {:induction false} SoundRunVerifies(ctx: Context, lines: seq<Line>, steps: seq<Step>)
    requires FileVerifies(ctx.s, ctx.key, lines) && Observed(ctx.parse, Opened(lines), steps).sound
    ensures var end := Run(ctx, State(lines, map[]), steps).lines;
      && FileVerifies(ctx.s, ctx.key, end)
      && (Numbered(ReadEntries(lines).value) ==> Numbered(ReadEntries(end).value))
  {
    AgreesOpened(ctx, lines);
    AgreesRun(ctx, State(lines, map[]), Opened(lines), steps, Numbered(ReadEntries(lines).value));
  }

  // ----- whatever the clock: the caches decide -----

  /** The handle's cache is empty or holds the file's last HMAC. */
  predicate Fits(cache: Cache, lines: seq<Line>) {
    cache.None? || (ReadEntries(lines).Ok? && Tail(ReadEntries(lines).value) == Some(cache.value.1))
  }

  /** Whether the file is intact after one step, if `intact` says whether it was so before. */
  predicate StaysIntact(ctx: Context, st: State, step: Step, intact: bool) {
    match step
    case Append(h, _, _) => intact && Fits(CacheOf(st, h), st.lines)
    case Reopen(_) => intact
    case Prune(cutoff, _) =>
      intact || (ReadEntries(st.lines).Ok? && Removes(ctx.parse, cutoff, ReadEntries(st.lines).value))
  }

  /** Since the last pruning that removed something, each append's cache fitted the file. */
  predicate Intact(ctx: Context, st: State, steps: seq<Step>, intact: bool)
    decreases steps
  {
    if steps == [] then intact
    else Intact(ctx, Next(ctx, st, steps[0]), steps[1..], StaysIntact(ctx, st, steps[0], intact))
  }

  /** No append of the run has a MAC that is also that of the right message in its place. */
  ghost predicate AppendsFree(ctx: Context, st: State, steps: seq<Step>)
    decreases steps
  {
    steps == [] ||
    ((steps[0].Append? ==> CollisionFree(ctx.s, ctx.key, StepMessages(ctx, st, steps[0]))) &&
     AppendsFree(ctx, Next(ctx, st, steps[0]), steps[1..]))
  }

  /** The caches hold digests. */
  ghost predicate SizedCaches(caches: map<HandleId, Cache>) {
    forall h :: h in caches && caches[h].Some? ==> |caches[h].value.1| == DIGEST_LENGTH
  }

  lemma SizedNext(ctx: Context, st: State, step: Step)
    requires Sized(ctx.s) && SizedCaches(st.caches)
    ensures SizedCaches(Next(ctx, st, step).caches)
  {
  }

  lemma AppendToBroken(ctx: Context, cache: Cache, lines: seq<Line>, event: Event, now: string)
    requires ReadEntries(lines).Ok? && !FileVerifies(ctx.s, ctx.key, lines)
    ensures var after := AppendTo(ctx.s, ctx.key, cache, lines, event, now).lines;
      ReadEntries(after).Ok? && !FileVerifies(ctx.s, ctx.key, after)
  {
    match Position(cache, lines) {
      case Err(_) =>
      case Ok((seqNo, prev)) =>
        var e := Sealed(ctx.s, ctx.key, prev, Body(seqNo, now, event));
        ReadAppended(lines, e);
        VerifiedSnoc(ctx.s, ctx.key, ReadEntries(lines).value, e);
    }
  }

  lemma IntactAppend(ctx: Context, cache: Cache, lines: seq<Line>, event: Event, now: string)
    requires Sized(ctx.s) && JsonInjective(ctx.s) && ReadEntries(lines).Ok?
    requires cache.Some? ==> |cache.value.1| == DIGEST_LENGTH
    requires CollisionFree(ctx.s, ctx.key, AppendMessages(ctx.s, cache, lines, event, now))
    ensures var after := AppendTo(ctx.s, ctx.key, cache, lines, event, now).lines;
      && ReadEntries(after).Ok?
      && (FileVerifies(ctx.s, ctx.key, after) <==> FileVerifies(ctx.s, ctx.key, lines) && Fits(cache, lines))
  {
    if FileVerifies(ctx.s, ctx.key, lines) {
      AppendCoherence(ctx.s, ctx.key, cache, lines, event, now);
    } else {
      AppendToBroken(ctx, cache, lines, event, now);
    }
  }

  lemma IntactPrune(ctx: Context, lines: seq<Line>, cutoff: int, now: string)
    requires ReadEntries(lines).Ok?
    ensures var after := PruneTo(ctx.s, ctx.key, ctx.parse, cutoff, lines, now);
      && ReadEntries(after).Ok?
      && (FileVerifies(ctx.s, ctx.key, after) <==>
            FileVerifies(ctx.s, ctx.key, lines) || Removes(ctx.parse, cutoff, ReadEntries(lines).value))
  {
    if Removes(ctx.parse, cutoff, ReadEntries(lines).value) {
      PruneToPrunes(ctx.s, ctx.key, ctx.parse, cutoff, lines, now);
    }
  }

  lemma IntactStep(ctx: Context, st: State, step: Step, next: State)
    requires Sized(ctx.s) && JsonInjective(ctx.s) && ReadEntries(st.lines).Ok? && SizedCaches(st.caches)
    requires step.Append? ==> CollisionFree(ctx.s, ctx.key, StepMessages(ctx, st, step))
    requires next == Next(ctx, st, step)
    ensures ReadEntries(next.lines).Ok?
    ensures FileVerifies(ctx.s, ctx.key, next.lines) <==>
            StaysIntact(ctx, st, step, FileVerifies(ctx.s, ctx.key, st.lines))
  {
    match step
    case Append(h, event, now) => IntactAppend(ctx, CacheOf(st, h), st.lines, event, now);
    case Reopen(_) =>
    case Prune(cutoff, now) => IntactPrune(ctx, st.lines, cutoff, now);
  }

  /** Whatever the clock and whatever the handles: from any readable file, the file verifies after a
      run if and only if, since the last pruning that removed something, each append was made with an
      empty cache or with the file's last HMAC in it. */
  lemma {:induction false} CachesDecide(ctx: Context, st: State, steps: seq<Step>)
    requires Sized(ctx.s) && JsonInjective(ctx.s) && AppendsFree(ctx, st, steps)
    requires ReadEntries(st.lines).Ok? && SizedCaches(st.caches)
    ensures FileVerifies(ctx.s, ctx.key, Run(ctx, st, steps).lines) <==>
            Intact(ctx, st, steps, FileVerifies(ctx.s, ctx.key, st.lines))
    decreases steps
  {
    if steps != [] {
      var next := Next(ctx, st, steps[0]);
      IntactStep(ctx, st, steps[0], next);
      SizedNext(ctx, st, steps[0]);
      CachesDecide(ctx, next, steps[1..]);
    }
  }
}
