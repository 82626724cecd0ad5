/**
 The ledger decides: whether a log file verifies after a run of appends, re-opens and prunings is
 known from the handles and timestamps alone. The proof follows, for every handle, the log that
 the handle believes in.
 */
module AuditLedger {
  import opened Wrappers
  import opened Numbers
  import opened Sequences
  import opened AuditLog
  import opened AuditChain
  import opened Retention
  import opened AuditRuns

  /** The latest cutoff of the prunings so far. */
  function Raised(floor: Option<int>, cutoff: int): Option<int> {
    Some(if floor.Some? then Max(floor.value, cutoff) else cutoff)
  }

  predicate Expired(parse: TimeParser, floor: Option<int>, timestamp: string) {
    floor.Some? && Before(parse, floor.value, timestamp)
  }

  /** No entry is written with a timestamp before the cutoff of the same or an earlier pruning, as
      for a clock that does not run backwards and cutoffs in the past. */
  predicate Timely(parse: TimeParser, floor: Option<int>, steps: seq<Step>)
    decreases steps
  {
    if steps == [] then true
    else
      match steps[0]
      case Append(_, _, now) => !Expired(parse, floor, now) && Timely(parse, floor, steps[1..])
      case Reopen(_) => Timely(parse, floor, steps[1..])
      case Prune(cutoff, now) =>
        !Expired(parse, Raised(floor, cutoff), now) && Timely(parse, Raised(floor, cutoff), steps[1..])
  }

  ghost predicate HasExpired(parse: TimeParser, floor: Option<int>, v: seq<Entry>) {
    exists e :: e in v && Expired(parse, floor, e.body.timestamp)
  }

  /** `v` is a verifying log that ends in this digest. All its contents are in the file, unless
      some of them have been pruned since. */
  ghost predicate Tracked(ctx: Context, floor: Option<int>, messages: set<Bytes>,
      entries: seq<Entry>, v: seq<Entry>, digest: Bytes)
  {
    Verified(ctx.s, ctx.key, v) && Messages(ctx.s, v) <= messages && Tail(v) == Some(digest) &&
    (HasExpired(ctx.parse, floor, v) || Subsequence(Contents(v), Contents(entries)))
  }

  /** The file has gone on since it was `v`. */
  ghost predicate Behind(parse: TimeParser, floor: Option<int>, entries: seq<Entry>, v: seq<Entry>) {
    HasExpired(parse, floor, v) || |v| < |entries|
  }

  /** What is known of one warm handle: the log it believes in is the one the file's last entry
      belongs to if it wrote last, and otherwise one that the file has left behind. */
  ghost predicate Believes(ctx: Context, floor: Option<int>, messages: set<Bytes>,
      entries: seq<Entry>, spine: seq<Entry>, latest: bool, v: seq<Entry>, digest: Bytes)
  {
    Tracked(ctx, floor, messages, entries, v, digest) &&
    if latest then v == spine else Behind(ctx.parse, floor, entries, v)
  }

  /** The log that the file's last entry belongs to, and the logs that the warm handles believe in. */
  datatype Beliefs = Beliefs(spine: seq<Entry>, views: map<HandleId, seq<Entry>>)

  ghost predicate AllBelieve(ctx: Context, floor: Option<int>, messages: set<Bytes>,
      st: State, l: Ledger, entries: seq<Entry>, b: Beliefs)
  {
    forall h :: h in l.warm ==>
      h in b.views && CacheOf(st, h).Some? &&
      Believes(ctx, floor, messages, entries, b.spine, l.writer == Some(h), b.views[h], CacheOf(st, h).value.1)
  }

  /** The beliefs fit the state, and the spine is the whole file exactly if that is sound. */
  ghost predicate Follows(ctx: Context, floor: Option<int>, messages: set<Bytes>, st: State, l: Ledger, b: Beliefs) {
    Agrees(ctx, st, l, false) &&
    var entries := ReadEntries(st.lines).value;
    && !HasExpired(ctx.parse, floor, entries)
    && (if l.sound then b.spine == entries else !Verified(ctx.s, ctx.key, entries))
    && Tracked(ctx, floor, messages, entries, b.spine, Tail(entries).value)
    && AllBelieve(ctx, floor, messages, st, l, entries, b)
  }

  /** What the converse needs of the MAC and the encoding. */
  ghost predicate Secure(ctx: Context, messages: set<Bytes>) {
    Sized(ctx.s) && JsonInjective(ctx.s) && CollisionFree(ctx.s, ctx.key, messages)
  }

  /** A verifying log whose messages are accounted for and of which nothing has expired. */
  ghost predicate Sound(ctx: Context, floor: Option<int>, messages: set<Bytes>, entries: seq<Entry>) {
    Verified(ctx.s, ctx.key, entries) && Messages(ctx.s, entries) <= messages && !HasExpired(ctx.parse, floor, entries)
  }

  lemma ContentsAppend(entries: seq<Entry>, e: Entry)
    ensures Contents(entries + [e]) == Contents(entries) + [(e.body.timestamp, e.body.event)]
  {
  }

  lemma ExpiredAppend(parse: TimeParser, floor: Option<int>, v: seq<Entry>, e: Entry)
    ensures HasExpired(parse, floor, v + [e]) <==>
            HasExpired(parse, floor, v) || Expired(parse, floor, e.body.timestamp)
  {
    if HasExpired(parse, floor, v) {
      var x :| x in v && Expired(parse, floor, x.body.timestamp);
      assert x in v + [e];
    }
    assert e in v + [e];
  }

  /** The log of the handle that appends grows with the file. */
  lemma TrackedAppend(ctx: Context, floor: Option<int>, messages: set<Bytes>,
      entries: seq<Entry>, v: seq<Entry>, prev: Bytes, body: Body)
    requires Tracked(ctx, floor, messages, entries, v, prev) && Message(ctx.s, prev, body) in messages
    ensures var e := Sealed(ctx.s, ctx.key, prev, body);
      Tracked(ctx, floor, messages, entries + [e], v + [e], Digest(ctx.s, ctx.key, prev, body))
  {
    var e := Sealed(ctx.s, ctx.key, prev, body);
    ExtendVerified(ctx.s, ctx.key, v, prev, body);
    MessagesOfAppended(ctx.s, v, e);
    ExpiredAppend(ctx.parse, floor, v, e);
    ContentsAppend(v, e);
    ContentsAppend(entries, e);
    if Subsequence(Contents(v), Contents(entries)) {
      SubsequenceAppend(Contents(v), Contents(entries), (body.timestamp, body.event));
    }
  }

  /** The logs of all other handles are left behind. */
  lemma TrackedLeftBehind(ctx: Context, floor: Option<int>, messages: set<Bytes>,
      entries: seq<Entry>, v: seq<Entry>, digest: Bytes, e: Entry)
    requires Tracked(ctx, floor, messages, entries, v, digest)
    ensures Tracked(ctx, floor, messages, entries + [e], v, digest)
    ensures Behind(ctx.parse, floor, entries + [e], v)
  {
    ContentsAppend(entries, e);
    if Subsequence(Contents(v), Contents(entries)) {
      SubsequenceAppend(Contents(v), Contents(entries), (e.body.timestamp, e.body.event));
      SubsequenceLength(Contents(v), Contents(entries));
    }
  }

  /** A handle that believes in a log left behind breaks a verifying file. */
  lemma StaleAppendBreaks(ctx: Context, floor: Option<int>, messages: set<Bytes>,
      entries: seq<Entry>, v: seq<Entry>, prev: Bytes, body: Body)
    requires Secure(ctx, messages)
    requires Sound(ctx, floor, messages, entries)
    requires Tracked(ctx, floor, messages, entries, v, prev) && Behind(ctx.parse, floor, entries, v)
    requires Message(ctx.s, prev, body) in messages
    requires Tail(entries).Some? ==> Message(ctx.s, Tail(entries).value, body) in messages
    ensures !Verified(ctx.s, ctx.key, entries + [Sealed(ctx.s, ctx.key, prev, body)])
  {
    BehindTailDiffers(ctx, floor, messages, entries, v);
    TailOfVerified(ctx.s, ctx.key, v);
    TailOfVerified(ctx.s, ctx.key, entries);
    var right := Message(ctx.s, Tail(entries).value, body);
    CollisionFreeSubset(ctx.s, ctx.key, {Message(ctx.s, prev, body), right}, messages);
    ExtensionVerifies(ctx.s, ctx.key, entries, prev, body);
  }

  lemma BehindTailDiffers(ctx: Context, floor: Option<int>, messages: set<Bytes>,
      entries: seq<Entry>, v: seq<Entry>)
    requires Secure(ctx, messages)
    requires Sound(ctx, floor, messages, entries)
    requires Verified(ctx.s, ctx.key, v) && Messages(ctx.s, v) <= messages && Behind(ctx.parse, floor, entries, v)
    ensures Tail(v) != Tail(entries)
  {
    if Tail(v) == Tail(entries) {
      TailDeterminesWithin(ctx.s, ctx.key, v, entries, messages);
    }
  }

  /** What a removing pruning does to the log of any handle. */
  lemma {:induction false} TrackedPrune(ctx: Context, floor: Option<int>, cutoff: int, messages: set<Bytes>,
      all: seq<Entry>, es: seq<Entry>, now: string, v: seq<Entry>, digest: Bytes)
    requires Tracked(ctx, floor, messages, all, v, digest)
    requires Pruned(ctx.s, ctx.key, all, Recent(ctx.parse, cutoff, all), es, now)
    ensures Tracked(ctx, Raised(floor, cutoff), messages, es, v, digest)
    ensures Behind(ctx.parse, Raised(floor, cutoff), es, v)
  {
    ExpiredRaised(ctx.parse, floor, cutoff, v);
    if !HasExpired(ctx.parse, Raised(floor, cutoff), v) {
      SurvivorsShorter(ctx.s, ctx.key, ctx.parse, cutoff, v, all, es, now);
    }
  }

  lemma ExpiredRaised(parse: TimeParser, floor: Option<int>, cutoff: int, v: seq<Entry>)
    ensures HasExpired(parse, Raised(floor, cutoff), v) <==>
            HasExpired(parse, floor, v) || !AllRecent(parse, cutoff, v)
  {
    forall e | e in v
      ensures Expired(parse, Raised(floor, cutoff), e.body.timestamp) <==>
              Expired(parse, floor, e.body.timestamp) || IsOld(parse, cutoff, e)
    {
    }
  }

  lemma FollowsAppend(ctx: Context, floor: Option<int>, messages: set<Bytes>,
      st: State, l: Ledger, step: Step, b: Beliefs)
      returns (b': Beliefs)
    requires Secure(ctx, messages) && Follows(ctx, floor, messages, st, l, b)
    requires step.Append? && !Expired(ctx.parse, floor, step.now) && StepMessages(ctx, st, step) <= messages
    ensures Follows(ctx, floor, messages, Next(ctx, st, step), Observe(ctx.parse, l, step), b')
  {
    AgreesAppend(ctx, st, l, step, false);
    var body, prev := AppendStep(ctx, st, l, step);
    var entries, h := ReadEntries(st.lines).value, step.h;
    var base := if h in l.warm then b.views[h] else b.spine;
    var e := Sealed(ctx.s, ctx.key, prev, body);
    assert Tracked(ctx, floor, messages, entries, base, prev);
    b' := Beliefs(base + [e], b.views[h := base + [e]]);
    ExpiredAppend(ctx.parse, floor, entries, e);
    TrackedAppend(ctx, floor, messages, entries, base, prev, body);
    SoundAfterAppend(ctx, floor, messages, l, h, entries, b.spine, base, prev, body);
    BelieveAppend(ctx, floor, messages, st, Next(ctx, st, step), l, step, entries, b, e, base,
                  (body.sequenceNumber, Digest(ctx.s, ctx.key, prev, body)));
  }

  lemma BelieveAppend(ctx: Context, floor: Option<int>, messages: set<Bytes>,
      st: State, next: State, l: Ledger, step: Step, entries: seq<Entry>, b: Beliefs,
      e: Entry, base: seq<Entry>, cache: (nat, Bytes))
    requires AllBelieve(ctx, floor, messages, st, l, entries, b)
    requires step.Append? && next.caches == st.caches[step.h := Some(cache)]
    requires Tracked(ctx, floor, messages, entries + [e], base + [e], cache.1)
    ensures AllBelieve(ctx, floor, messages, next, Observe(ctx.parse, l, step), entries + [e],
                       Beliefs(base + [e], b.views[step.h := base + [e]]))
  {
    forall k: HandleId | k in l.warm && k != step.h
      ensures k in b.views && CacheOf(next, k).Some?
      ensures Believes(ctx, floor, messages, entries + [e], base + [e], false, b.views[k], CacheOf(next, k).value.1)
    {
      assert CacheOf(next, k) == CacheOf(st, k);
      TrackedLeftBehind(ctx, floor, messages, entries, b.views[k], CacheOf(st, k).value.1, e);
    }
  }

  /** The ledger judges an append rightly. */
  lemma SoundAfterAppend(ctx: Context, floor: Option<int>, messages: set<Bytes>, l: Ledger, h: HandleId,
      entries: seq<Entry>, spine: seq<Entry>, base: seq<Entry>, prev: Bytes, body: Body)
    requires Secure(ctx, messages) && !HasExpired(ctx.parse, floor, entries)
    requires if l.sound then spine == entries else !Verified(ctx.s, ctx.key, entries)
    requires Verified(ctx.s, ctx.key, spine) && Messages(ctx.s, spine) <= messages
    requires Tracked(ctx, floor, messages, entries, base, prev)
    requires if Current(l, h) then base == spine else Behind(ctx.parse, floor, entries, base)
    requires Message(ctx.s, prev, body) in messages
    requires Tail(entries).Some? ==> Message(ctx.s, Tail(entries).value, body) in messages
    ensures var e := Sealed(ctx.s, ctx.key, prev, body);
      if l.sound && Current(l, h) then base + [e] == entries + [e] else !Verified(ctx.s, ctx.key, entries + [e])
  {
    var e := Sealed(ctx.s, ctx.key, prev, body);
    if !l.sound {
      VerifiedSnoc(ctx.s, ctx.key, entries, e);
    } else if !Current(l, h) {
      StaleAppendBreaks(ctx, floor, messages, entries, base, prev, body);
    }
  }

  lemma FollowsPrune(ctx: Context, floor: Option<int>, messages: set<Bytes>,
      st: State, l: Ledger, step: Step, b: Beliefs)
      returns (b': Beliefs)
    requires step.Prune? && !Expired(ctx.parse, Raised(floor, step.cutoff), step.now)
    requires StepMessages(ctx, st, step) <= messages && Follows(ctx, floor, messages, st, l, b)
    ensures Follows(ctx, Raised(floor, step.cutoff), messages, Next(ctx, st, step), Observe(ctx.parse, l, step), b')
  {
    AgreesPrune(ctx, st, l, step, false);
    if Removes(ctx.parse, step.cutoff, ReadEntries(st.lines).value) {
      b' := FollowsRemoval(ctx, floor, messages, st, l, step, b);
    } else {
      FollowsNoRemoval(ctx, floor, step.cutoff, messages, st, l, b);
      b' := b;
    }
  }

  lemma FollowsNoRemoval(ctx: Context, floor: Option<int>, cutoff: int, messages: set<Bytes>,
      st: State, l: Ledger, b: Beliefs)
    requires Follows(ctx, floor, messages, st, l, b)
    requires !Removes(ctx.parse, cutoff, ReadEntries(st.lines).value)
    ensures Follows(ctx, Raised(floor, cutoff), messages, st, l, b)
  {
    var entries := ReadEntries(st.lines).value;
    RecentKeepsAll(ctx.parse, cutoff, entries);
    ExpiredRaised(ctx.parse, floor, cutoff, entries);
    ExpiredRaised(ctx.parse, floor, cutoff, b.spine);
    forall h | h in l.warm
      ensures Believes(ctx, Raised(floor, cutoff), messages, entries, b.spine, l.writer == Some(h), b.views[h],
                       CacheOf(st, h).value.1)
    {
      ExpiredRaised(ctx.parse, floor, cutoff, b.views[h]);
    }
  }

  lemma FollowsRemoval(ctx: Context, floor: Option<int>, messages: set<Bytes>,
      st: State, l: Ledger, step: Step, b: Beliefs)
      returns (b': Beliefs)
    requires step.Prune? && !Expired(ctx.parse, Raised(floor, step.cutoff), step.now)
    requires StepMessages(ctx, st, step) <= messages && Follows(ctx, floor, messages, st, l, b)
    requires Removes(ctx.parse, step.cutoff, ReadEntries(st.lines).value)
    requires Agrees(ctx, Next(ctx, st, step), Observe(ctx.parse, l, step), false)
    requires Observe(ctx.parse, l, step).sound && Observe(ctx.parse, l, step).writer == None
    ensures Follows(ctx, Raised(floor, step.cutoff), messages, Next(ctx, st, step), Observe(ctx.parse, l, step), b')
  {
    var entries, next := ReadEntries(st.lines).value, Next(ctx, st, step);
    PruneToPrunes(ctx.s, ctx.key, ctx.parse, step.cutoff, st.lines, step.now);
    var es := ReadEntries(next.lines).value;
    b' := Beliefs(es, b.views);
    PrunedUnexpired(ctx, floor, step.cutoff, entries, es, step.now);
    SubsequenceReflexive(Contents(es));
    forall h | h in l.warm
      ensures Believes(ctx, Raised(floor, step.cutoff), messages, es, es, false, b.views[h], CacheOf(next, h).value.1)
    {
      TrackedPrune(ctx, floor, step.cutoff, messages, entries, es, step.now, b.views[h], CacheOf(st, h).value.1);
    }
  }

  lemma {:induction false} PrunedUnexpired(ctx: Context, floor: Option<int>, cutoff: int,
      all: seq<Entry>, es: seq<Entry>, now: string)
    requires !HasExpired(ctx.parse, floor, all) && !Expired(ctx.parse, Raised(floor, cutoff), now)
    requires Pruned(ctx.s, ctx.key, all, Recent(ctx.parse, cutoff, all), es, now)
    ensures !HasExpired(ctx.parse, Raised(floor, cutoff), es)
  {
    var kept, highest := Recent(ctx.parse, cutoff, all), Raised(floor, cutoff).value;
    RecentKeepsAll(ctx.parse, cutoff, all);
    forall e | e in kept
      ensures !IsOld(ctx.parse, highest, e)
    {
      assert e in all && !Expired(ctx.parse, floor, e.body.timestamp);
    }
    PrunedIsRecent(ctx.s, ctx.key, ctx.parse, highest, all, kept, es, now);
  }

  /** From any state that the ledger follows: the file verifies at the end of a run if and only if
      the ledger finds it sound. */
  lemma {:induction false} LedgerDecides(ctx: Context, floor: Option<int>, messages: set<Bytes>,
      st: State, l: Ledger, steps: seq<Step>, b: Beliefs)
    requires Secure(ctx, messages) && RunMessages(ctx, st, steps) <= messages && Timely(ctx.parse, floor, steps)
    requires Follows(ctx, floor, messages, st, l, b)
    ensures FileVerifies(ctx.s, ctx.key, Run(ctx, st, steps).lines) <==> Observed(ctx.parse, l, steps).sound
    decreases steps
  {
    if steps != [] {
      var step := steps[0];
      var next, l' := Next(ctx, st, step), Observe(ctx.parse, l, step);
      assert StepMessages(ctx, st, step) <= messages;
      assert RunMessages(ctx, next, steps[1..]) <= messages;
      match step {
        case Append(_, _, _) =>
          var b' := FollowsAppend(ctx, floor, messages, st, l, step, b);
          LedgerDecides(ctx, floor, messages, next, l', steps[1..], b');
        case Reopen(_) =>
          LedgerDecides(ctx, floor, messages, next, l', steps[1..], b);
        case Prune(cutoff, _) =>
          var b' := FollowsPrune(ctx, floor, messages, st, l, step, b);
          LedgerDecides(ctx, Raised(floor, cutoff), messages, next, l', steps[1..], b');
      }
    }
  }

  /** Freshly opened handles on a verifying file, with appends, re-opens and prunings in any order:
      the file verifies after the run if and only if, since the last pruning that removed
      something, every append was made through a handle that had not written since it was opened
      or that made the latest append since that pruning. */
  lemma {:induction false} RunVerifiesIffSound(ctx: Context, lines: seq<Line>, steps: seq<Step>)
    requires FileVerifies(ctx.s, ctx.key, lines) && Timely(ctx.parse, None, steps)
    requires Secure(ctx, Messages(ctx.s, ReadEntries(lines).value) + RunMessages(ctx, State(lines, map[]), steps))
    ensures FileVerifies(ctx.s, ctx.key, Run(ctx, State(lines, map[]), steps).lines) <==>
            Observed(ctx.parse, Opened(lines), steps).sound
  {
    var entries, st := ReadEntries(lines).value, State(lines, map[]);
    var messages := Messages(ctx.s, entries) + RunMessages(ctx, st, steps);
    AgreesOpened(ctx, lines);
    SubsequenceReflexive(Contents(entries));
    LedgerDecides(ctx, None, messages, st, Opened(lines), steps, Beliefs(entries, map[]));
  }

  // ----- instances -----

  lemma {:induction false} SingleHandleSound(parse: TimeParser, l: Ledger, steps: seq<Step>, h: HandleId)
    requires forall i :: 0 <= i < |steps| ==> !steps[i].Prune? && steps[i].h == h
    requires l.sound && (l.warm == {} || (l.warm == {h} && l.writer == Some(h)))
    ensures Observed(parse, l, steps).sound
    decreases steps
  {
    if steps != [] {
      assert l.warm + {h} == {h} && l.warm - {h} == {};
      SingleHandleSound(parse, Observe(parse, l, steps[0]), steps[1..], h);
    }
  }

  /** Any run of appends and re-opens through a single handle verifies, whatever the MAC. */
  lemma {:induction false} SingleHandleVerifies(ctx: Context, lines: seq<Line>, steps: seq<Step>, h: HandleId)
    requires FileVerifies(ctx.s, ctx.key, lines)
    requires forall i :: 0 <= i < |steps| ==> !steps[i].Prune? && steps[i].h == h
    ensures FileVerifies(ctx.s, ctx.key, Run(ctx, State(lines, map[]), steps).lines)
  {
    SingleHandleSound(ctx.parse, Opened(lines), steps, h);
    SoundRunVerifies(ctx, lines, steps);
  }

  /** A second handle that appends between two appends of the first breaks the chain. */
  lemma {:induction false} InterleavedHandlesBreak(ctx: Context, lines: seq<Line>, x: Step, y: Step, z: Step)
    requires FileVerifies(ctx.s, ctx.key, lines)
    requires x.Append? && y.Append? && z.Append? && x.h == z.h && x.h != y.h
    requires Secure(ctx, Messages(ctx.s, ReadEntries(lines).value) + RunMessages(ctx, State(lines, map[]), [x, y, z]))
    ensures !FileVerifies(ctx.s, ctx.key, Run(ctx, State(lines, map[]), [x, y, z]).lines)
  {
    assert [x, y, z][1..] == [y, z] && [y, z][1..] == [z] && [z][1..] == [];
    assert Timely(ctx.parse, None, [z]) && Timely(ctx.parse, None, [y, z]);
    RunVerifiesIffSound(ctx, lines, [x, y, z]);
    var l := Observe(ctx.parse, Observe(ctx.parse, Opened(lines), x), y);
    assert !Observed(ctx.parse, l, [z]).sound;
    assert Observed(ctx.parse, Opened(lines), [x, y, z]) ==
           Observed(ctx.parse, Observe(ctx.parse, Opened(lines), x), [y, z]);
  }

  lemma {:induction false} ObservedConcat(parse: TimeParser, l: Ledger, steps: seq<Step>, more: seq<Step>)
    ensures Observed(parse, l, steps + more) == Observed(parse, Observed(parse, l, steps), more)
    decreases steps
  {
    if steps == [] {
      assert steps + more == more;
    } else {
      assert (steps + more)[1..] == steps[1..] + more;
      ObservedConcat(parse, Observe(parse, l, steps[0]), steps[1..], more);
    }
  }

  /** After any run, a pruning that removes something makes every warm handle stale: its next append
      breaks the file, whether it wrote last or not. */
  lemma {:induction false} PruneMakesStale(ctx: Context, lines: seq<Line>, steps: seq<Step>, prune: Step, append: Step)
    requires FileVerifies(ctx.s, ctx.key, lines)
    requires prune.Prune? && append.Append? && Timely(ctx.parse, None, steps + [prune, append])
    requires var l := Observed(ctx.parse, Opened(lines), steps);
      append.h in l.warm && exists t :: t in l.stamps && Before(ctx.parse, prune.cutoff, t)
    requires Secure(ctx, Messages(ctx.s, ReadEntries(lines).value) +
                         RunMessages(ctx, State(lines, map[]), steps + [prune, append]))
    ensures !FileVerifies(ctx.s, ctx.key, Run(ctx, State(lines, map[]), steps + [prune, append]).lines)
  {
    RunVerifiesIffSound(ctx, lines, steps + [prune, append]);
    ObservedConcat(ctx.parse, Opened(lines), steps, [prune, append]);
    var l := Observed(ctx.parse, Opened(lines), steps);
    assert [prune, append][1..] == [append] && [append][1..] == [];
    assert Observed(ctx.parse, l, [prune, append]) == Observed(ctx.parse, Observe(ctx.parse, l, prune), [append]);
  }

  /** A broken file verifies again after a pruning that removes something, whatever the run was. */
  lemma {:induction false} PruneRepairs(ctx: Context, lines: seq<Line>, steps: seq<Step>, cutoff: int, now: string)
    requires FileVerifies(ctx.s, ctx.key, lines)
    requires exists t :: t in Observed(ctx.parse, Opened(lines), steps).stamps && Before(ctx.parse, cutoff, t)
    ensures FileVerifies(ctx.s, ctx.key, Next(ctx, Run(ctx, State(lines, map[]), steps), Prune(cutoff, now)).lines)
  {
    AgreesOpened(ctx, lines);
    AgreesRun(ctx, State(lines, map[]), Opened(lines), steps, Numbered(ReadEntries(lines).value));
    var st, l := Run(ctx, State(lines, map[]), steps), Observed(ctx.parse, Opened(lines), steps);
    AgreesPrune(ctx, st, l, Prune(cutoff, now), Numbered(ReadEntries(lines).value));
  }

  // ----- why the clock must not run behind a cutoff -----

  lemma ReadShort(a: Entry, b: Entry)
    ensures ReadEntries([Record(a)]) == Ok([a])
    ensures ReadEntries([Record(a), Record(b)]) == Ok([a, b])
  {
    var one := [Record(a)];
    assert Parse(one, 0) == Ok([]);
    ReadAppended([], a);
    assert [] + one == one && [] + [a] == [a];
    ReadAppended(one, b);
    assert one + [Record(b)] == [Record(a), Record(b)] && [a] + [b] == [a, b];
  }

  /** Pruning with a cutoff that makes every entry old leaves one `LogPruned`. */
  lemma PruneEverything(ctx: Context, cutoff: int, lines: seq<Line>, all: seq<Entry>, now: string)
    requires ReadEntries(lines) == Ok(all) && all != [] && forall e :: e in all ==> IsOld(ctx.parse, cutoff, e)
    ensures PruneTo(ctx.s, ctx.key, ctx.parse, cutoff, lines, now) == [Record(Marker(ctx, |all|, now))]
  {
    NothingRecent(ctx.parse, cutoff, all);
    MarkerAlone(ctx, |all|, now);
    assert Rechained(ctx.s, ctx.key, []) == [];
  }

  lemma {:induction false} NothingRecent(parse: TimeParser, cutoff: int, all: seq<Entry>)
    requires forall e :: e in all ==> IsOld(parse, cutoff, e)
    ensures Recent(parse, cutoff, all) == []
  {
    if all != [] {
      NothingRecent(parse, cutoff, all[..|all| - 1]);
      assert all[|all| - 1] in all;
    }
  }

  lemma MarkerAlone(ctx: Context, n: nat, now: string)
    ensures WithLogPruned(ctx.s, ctx.key, n, [], now) == [Record(Marker(ctx, n, now))]
  {
    assert Records([]) == [];
    assert Position(None, []) == Ok((0, ZERO));
  }

  /** The first entry after a pruning of `n` entries, and one that follows it. */
  function Marker(ctx: Context, n: nat, t: string): Entry {
    Sealed(ctx.s, ctx.key, ZERO, Body(0, t, LogPruned(n, "")))
  }

  function Follower(ctx: Context, event: Event, t: string): Entry {
    Sealed(ctx.s, ctx.key, Digest(ctx.s, ctx.key, ZERO, Body(0, t, LogPruned(1, ""))), Body(1, t, event))
  }

  lemma AppendAfterMarker(ctx: Context, event: Event, t: string)
    ensures var prev := Digest(ctx.s, ctx.key, ZERO, Marker(ctx, 1, t).body);
      AppendTo(ctx.s, ctx.key, None, [Record(Marker(ctx, 1, t))], event, t) ==
      Appended(Ok(()), Some((1, Digest(ctx.s, ctx.key, prev, Body(1, t, event)))),
               [Record(Marker(ctx, 1, t)), Record(Follower(ctx, event, t))])
  {
    var m := Marker(ctx, 1, t);
    ReadShort(m, m);
    HexRoundTrip(Digest(ctx.s, ctx.key, ZERO, m.body));
    assert [Record(m)] + [Record(Follower(ctx, event, t))] == [Record(m), Record(Follower(ctx, event, t))];
  }

  lemma MarkerLogVerifies(ctx: Context, b: Event, c: Event, t: string, m: Entry, f: Entry, d: Bytes)
    requires m == Marker(ctx, 1, t) && f == Follower(ctx, b, t)
    requires d == Digest(ctx.s, ctx.key, Digest(ctx.s, ctx.key, ZERO, m.body), f.body)
    ensures FileVerifies(ctx.s, ctx.key, [Record(m)])
    ensures FileVerifies(ctx.s, ctx.key, [Record(m), Record(f)] + [Record(Sealed(ctx.s, ctx.key, d, Body(2, t, c)))])
  {
    ExtendVerified(ctx.s, ctx.key, [], ZERO, m.body);
    assert [] + [m] == [m] && [m] + [f] == [m, f];
    ExtendVerified(ctx.s, ctx.key, [m], Digest(ctx.s, ctx.key, ZERO, m.body), f.body);
    ExtendVerified(ctx.s, ctx.key, [m, f], d, Body(2, t, c));
    ReadShort(m, f);
    ReadAppended([Record(m), Record(f)], Sealed(ctx.s, ctx.key, d, Body(2, t, c)));
  }

  /** Two prunings of everything lead back to the marker alone. */
  lemma PruneTwice(ctx: Context, cutoff: int, b: Event, t: string)
    requires Before(ctx.parse, cutoff, t)
    ensures var lines := [Record(Marker(ctx, 1, t)), Record(Follower(ctx, b, t))];
      var once := PruneTo(ctx.s, ctx.key, ctx.parse, cutoff, lines, t);
      PruneTo(ctx.s, ctx.key, ctx.parse, cutoff, once, t) == [Record(Marker(ctx, 1, t))]
  {
    var m, f, two := Marker(ctx, 1, t), Follower(ctx, b, t), Marker(ctx, 2, t);
    ReadShort(m, f);
    PruneEverything(ctx, cutoff, [Record(m), Record(f)], [m, f], t);
    ReadShort(two, two);
    PruneEverything(ctx, cutoff, [Record(two)], [two], t);
  }

  lemma {:induction false} RunCons(ctx: Context, st: State, l: Ledger, steps: seq<Step>, step: Step, rest: seq<Step>)
    requires steps == [step] + rest
    ensures Run(ctx, st, steps) == Run(ctx, Next(ctx, st, step), rest)
    ensures Observed(ctx.parse, l, steps) == Observed(ctx.parse, Observe(ctx.parse, l, step), rest)
  {
    assert steps[1..] == rest;
  }

  lemma {:induction false} RunFive(ctx: Context, st: State, l: Ledger, v: Step, w: Step, x: Step, y: Step, z: Step)
    ensures var st2, l2 := Next(ctx, Next(ctx, st, v), w), Observe(ctx.parse, Observe(ctx.parse, l, v), w);
      var st4, l4 := Next(ctx, Next(ctx, st2, x), y), Observe(ctx.parse, Observe(ctx.parse, l2, x), y);
      && Run(ctx, st, [v, w, x, y, z]) == Next(ctx, st4, z)
      && Observed(ctx.parse, l, [v, w, x, y, z]) == Observe(ctx.parse, l4, z)
  {
    var st1, l1 := Next(ctx, st, v), Observe(ctx.parse, l, v);
    RunCons(ctx, st, l, [v, w, x, y, z], v, [w, x, y, z]);
    var st2, l2 := Next(ctx, st1, w), Observe(ctx.parse, l1, w);
    RunCons(ctx, st1, l1, [w, x, y, z], w, [x, y, z]);
    var st3, l3 := Next(ctx, st2, x), Observe(ctx.parse, l2, x);
    RunCons(ctx, st2, l2, [x, y, z], x, [y, z]);
    var st4, l4 := Next(ctx, st3, y), Observe(ctx.parse, l3, y);
    RunCons(ctx, st3, l3, [y, z], y, [z]);
    RunCons(ctx, st4, l4, [z], z, []);
  }

  /** The ledger finds the last of these appends stale. */
  lemma LedgerMisjudges(parse: TimeParser, cutoff: int, l: Ledger, b: Event, c: Event, t: string)
    requires Before(parse, cutoff, t) && l.warm == {}
    ensures var l2 := Observe(parse, Observe(parse, l, Append(0, b, t)), Prune(cutoff, t));
      var l4 := Observe(parse, Observe(parse, l2, Prune(cutoff, t)), Append(2, b, t));
      !Observe(parse, l4, Append(0, c, t)).sound
  {
  }

  /** The same steps on a file that holds the marker alone. */
  lemma MarkerRun(ctx: Context, cutoff: int, b: Event, c: Event, t: string, m: Entry, f: Entry, d: Bytes)
    requires Before(ctx.parse, cutoff, t) && m == Marker(ctx, 1, t) && f == Follower(ctx, b, t)
    requires d == Digest(ctx.s, ctx.key, Digest(ctx.s, ctx.key, ZERO, m.body), f.body)
    ensures var st2 := Next(ctx, Next(ctx, State([Record(m)], map[]), Append(0, b, t)), Prune(cutoff, t));
      var st4 := Next(ctx, Next(ctx, st2, Prune(cutoff, t)), Append(2, b, t));
      Next(ctx, st4, Append(0, c, t)).lines ==
      [Record(m), Record(f)] + [Record(Sealed(ctx.s, ctx.key, d, Body(2, t, c)))]
  {
    AppendAfterMarker(ctx, b, t);
    PruneTwice(ctx, cutoff, b, t);
    var st1 := Next(ctx, State([Record(m)], map[]), Append(0, b, t));
    assert st1 == State([Record(m), Record(f)], map[0 := Some((1, d))]);
    var st3 := Next(ctx, Next(ctx, st1, Prune(cutoff, t)), Prune(cutoff, t));
    assert st3 == State([Record(m)], map[0 := Some((1, d))]);
    var st4 := Next(ctx, st3, Append(2, b, t));
    assert st4 == State([Record(m), Record(f)], map[0 := Some((1, d)), 2 := Some((1, d))]);
  }

  /** With a cutoff after the clock, prunings can bring the file back to what it was when handle 0
      last saw it: the handle is stale for the ledger, and yet its append verifies. */
  lemma {:induction false} FutureCutoffMisjudged(ctx: Context, cutoff: int, b: Event, c: Event, t: string)
    requires Before(ctx.parse, cutoff, t)
    ensures var lines := [Record(Marker(ctx, 1, t))];
      var steps := [Append(0, b, t), Prune(cutoff, t), Prune(cutoff, t), Append(2, b, t), Append(0, c, t)];
      && FileVerifies(ctx.s, ctx.key, lines)
      && FileVerifies(ctx.s, ctx.key, Run(ctx, State(lines, map[]), steps).lines)
      && !Observed(ctx.parse, Opened(lines), steps).sound
  {
    var m, f := Marker(ctx, 1, t), Follower(ctx, b, t);
    var d := Digest(ctx.s, ctx.key, Digest(ctx.s, ctx.key, ZERO, m.body), f.body);
    MarkerLogVerifies(ctx, b, c, t, m, f, d);
    var st, l := State([Record(m)], map[]), Opened([Record(m)]);
    RunFive(ctx, st, l, Append(0, b, t), Prune(cutoff, t), Prune(cutoff, t), Append(2, b, t), Append(0, c, t));
    LedgerMisjudges(ctx.parse, cutoff, l, b, c, t);
    MarkerRun(ctx, cutoff, b, c, t, m, f, d);
  }
}
