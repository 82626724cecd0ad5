/** The audit metrics: one summary, and one bucket per hour, of the entries in a time range. */
module Metrics {
  import opened Wrappers
  import opened Numbers

  /** Points in time are integers in nanoseconds. */
  type Time = int

  const HOUR: int := 3_600_000_000_000
  const MAX_BUCKETS: nat := 8760

  datatype Event =
    | LlmResponseReceived(provider: string, inputTokens: nat, outputTokens: nat)
    | AgentTurnCompleted(agentId: string)
    | ToolExecuted
    | ToolDenied
    | HttpAuthFailed
    | RateLimitExceeded
    | OtherEvent

  /** An entry, with its timestamp parsed if it parses. */
  datatype Entry = Entry(timestamp: Option<Time>, event: Event)

  type CostFn = (nat, nat, string) -> real

  datatype Summary = Summary(
    from: Time,
    to: Time,
    totalCostUsd: real,
    totalInputTokens: nat,
    totalOutputTokens: nat,
    llmRequests: nat,
    agentTurns: nat,
    toolExecutions: nat,
    toolDenials: nat,
    uniqueAgents: nat,
    authFailures: nat,
    rateLimitEvents: nat)

  datatype Bucket = Bucket(
    hour: Time,
    costUsd: real,
    inputTokens: nat,
    outputTokens: nat,
    llmRequests: nat,
    agentTurns: nat,
    toolExecutions: nat,
    errors: nat)

  // ----- what entries add up to -----

  /** The quantities that the summary and the timeline both count. */
  datatype Tally = Tally(cost: real, input: nat, output: nat, requests: nat, turns: nat, executions: nat, errors: nat) {
    function Plus(that: Tally): Tally {
      Tally(cost + that.cost, input + that.input, output + that.output, requests + that.requests,
            turns + that.turns, executions + that.executions, errors + that.errors)
    }
  }

  const NOTHING := Tally(0.0, 0, 0, 0, 0, 0, 0)

  function Worth(costFn: CostFn, e: Event): Tally {
    match e
    case LlmResponseReceived(p, i, o) => Tally(costFn(i, o, p), i, o, 1, 0, 0, 0)
    case AgentTurnCompleted(_) => NOTHING.(turns := 1)
    case ToolExecuted => NOTHING.(executions := 1)
    case ToolDenied | HttpAuthFailed | RateLimitExceeded => NOTHING.(errors := 1)
    case OtherEvent => NOTHING
  }

  predicate InRange(e: Entry, from: Time, to: Time) {
    Between(e.timestamp, from, to)
  }

  /** An entry as what it counts for, and when. */
  datatype Weighed = Weighed(timestamp: Option<Time>, worth: Tally)

  function Weigh(costFn: CostFn, entries: seq<Entry>): (ws: seq<Weighed>)
    ensures |ws| == |entries|
    ensures forall i :: 0 <= i < |ws| ==> ws[i] == Weighed(entries[i].timestamp, Worth(costFn, entries[i].event))
  {
    seq(|entries|, i requires 0 <= i < |entries| => Weighed(entries[i].timestamp, Worth(costFn, entries[i].event)))
  }

  predicate Between(t: Option<Time>, lo: Time, hi: Time) {
    t.Some? && lo <= t.value <= hi
  }

  /** The total of what lies between two points in time, both included. */
  function Total(ws: seq<Weighed>, lo: Time, hi: Time): Tally {
    if ws == [] then NOTHING
    else
      var w := ws[|ws| - 1];
      var rest := Total(ws[..|ws| - 1], lo, hi);
      if Between(w.timestamp, lo, hi) then rest.Plus(w.worth) else rest
  }

  lemma {:induction false} TotalStep(costFn: CostFn, entries: seq<Entry>, e: Entry, lo: Time, hi: Time)
    ensures Total(Weigh(costFn, entries + [e]), lo, hi) ==
            var rest := Total(Weigh(costFn, entries), lo, hi);
            if InRange(e, lo, hi) then rest.Plus(Worth(costFn, e.event)) else rest
  {
    var ws := Weigh(costFn, entries + [e]);
    assert ws[..|entries|] == Weigh(costFn, entries);
  }

  /** The agents that completed a turn in the range. */
  function Agents(entries: seq<Entry>, from: Time, to: Time): set<string> {
    set e | e in entries && InRange(e, from, to) && e.event.AgentTurnCompleted? :: e.event.agentId
  }

  function SummaryTally(s: Summary): Tally {
    Tally(s.totalCostUsd, s.totalInputTokens, s.totalOutputTokens, s.llmRequests, s.agentTurns,
          s.toolExecutions, s.toolDenials + s.authFailures + s.rateLimitEvents)
  }

  function BucketTally(b: Bucket): Tally {
    Tally(b.costUsd, b.inputTokens, b.outputTokens, b.llmRequests, b.agentTurns, b.toolExecutions, b.errors)
  }

  /** How many entries of the range have this event. */
  function Count(entries: seq<Entry>, from: Time, to: Time, event: Event): nat {
    if entries == [] then 0
    else
      var e := entries[|entries| - 1];
      Count(entries[..|entries| - 1], from, to, event) + if InRange(e, from, to) && e.event == event then 1 else 0
  }

  // ----- the summary -----

  /** The three kinds of errors are told apart. */
  ghost predicate ErrorsCounted(s: Summary, entries: seq<Entry>, from: Time, to: Time) {
    && s.toolDenials == Count(entries, from, to, ToolDenied)
    && s.authFailures == Count(entries, from, to, HttpAuthFailed)
    && s.rateLimitEvents == Count(entries, from, to, RateLimitExceeded)
  }

  /** The summary's fields are the totals and counts of the entries. */
  ghost predicate Sums(s: Summary, costFn: CostFn, entries: seq<Entry>) {
    SummaryTally(s) == Total(Weigh(costFn, entries), s.from, s.to) && ErrorsCounted(s, entries, s.from, s.to)
  }

  /** Counts an event in the fields it belongs to. */
  function Add(s: Summary, costFn: CostFn, e: Event): Summary {
    match e
    case LlmResponseReceived(p, i, o) =>
      s.(llmRequests := s.llmRequests + 1, totalInputTokens := s.totalInputTokens + i,
         totalOutputTokens := s.totalOutputTokens + o, totalCostUsd := s.totalCostUsd + costFn(i, o, p))
    case AgentTurnCompleted(_) => s.(agentTurns := s.agentTurns + 1)
    case ToolExecuted => s.(toolExecutions := s.toolExecutions + 1)
    case ToolDenied => s.(toolDenials := s.toolDenials + 1)
    case HttpAuthFailed => s.(authFailures := s.authFailures + 1)
    case RateLimitExceeded => s.(rateLimitEvents := s.rateLimitEvents + 1)
    case OtherEvent => s
  }

  lemma {:induction false} CountStep(entries: seq<Entry>, e: Entry, from: Time, to: Time, event: Event)
    ensures Count(entries + [e], from, to, event) ==
            Count(entries, from, to, event) + if InRange(e, from, to) && e.event == event then 1 else 0
  {
    assert (entries + [e])[..|entries|] == entries;
  }

  lemma AddTally(s: Summary, costFn: CostFn, e: Event)
    ensures SummaryTally(Add(s, costFn, e)) == SummaryTally(s).Plus(Worth(costFn, e))
    ensures Add(s, costFn, e).from == s.from && Add(s, costFn, e).to == s.to
    ensures Add(s, costFn, e).toolDenials == s.toolDenials + if e == ToolDenied then 1 else 0
    ensures Add(s, costFn, e).authFailures == s.authFailures + if e == HttpAuthFailed then 1 else 0
    ensures Add(s, costFn, e).rateLimitEvents == s.rateLimitEvents + if e == RateLimitExceeded then 1 else 0
  {
  }

  lemma TallyStep(s: Summary, costFn: CostFn, entries: seq<Entry>, e: Entry, next: Summary)
    requires SummaryTally(s) == Total(Weigh(costFn, entries), s.from, s.to)
    requires next == if InRange(e, s.from, s.to) then Add(s, costFn, e.event) else s
    ensures next.from == s.from && next.to == s.to
    ensures SummaryTally(next) == Total(Weigh(costFn, entries + [e]), s.from, s.to)
  {
    AddTally(s, costFn, e.event);
    TotalStep(costFn, entries, e, s.from, s.to);
  }

  lemma CountsStep(s: Summary, costFn: CostFn, entries: seq<Entry>, e: Entry, next: Summary)
    requires ErrorsCounted(s, entries, s.from, s.to)
    requires next == if InRange(e, s.from, s.to) then Add(s, costFn, e.event) else s
    ensures ErrorsCounted(next, entries + [e], s.from, s.to)
  {
    AddTally(s, costFn, e.event);
    CountStep(entries, e, s.from, s.to, ToolDenied);
    CountStep(entries, e, s.from, s.to, HttpAuthFailed);
    CountStep(entries, e, s.from, s.to, RateLimitExceeded);
  }

  lemma SumsStep(s: Summary, costFn: CostFn, entries: seq<Entry>, e: Entry, next: Summary)
    requires Sums(s, costFn, entries) && next == if InRange(e, s.from, s.to) then Add(s, costFn, e.event) else s
    ensures Sums(next, costFn, entries + [e])
  {
    TallyStep(s, costFn, entries, e, next);
    CountsStep(s, costFn, entries, e, next);
  }

  lemma AgentsStep(entries: seq<Entry>, e: Entry, from: Time, to: Time)
    ensures Agents(entries + [e], from, to) ==
            Agents(entries, from, to) +
            if InRange(e, from, to) && e.event.AgentTurnCompleted? then {e.event.agentId} else {}
  {
    var all := entries + [e];
    assert forall x :: x in all <==> x in entries || x == e;
    forall a | a in Agents(entries, from, to)
      ensures a in Agents(all, from, to)
    {
      var x :| x in entries && InRange(x, from, to) && x.event.AgentTurnCompleted? && x.event.agentId == a;
      assert x in all;
    }
    assert e in all;
  }

  /** The summary totals exactly the entries of the range, tells the three kinds of errors apart,
      and counts each agent once. */
  method ComputeSummary(entries: seq<Entry>, from: Time, to: Time, costFn: CostFn) returns (s: Summary)
    ensures s.from == from && s.to == to && Sums(s, costFn, entries)
    ensures s.uniqueAgents == |set e | e in entries && e.timestamp.Some? && from <= e.timestamp.value <= to &&
                                       e.event.AgentTurnCompleted? :: e.event.agentId|
  {
    s := Summary(from, to, 0.0, 0, 0, 0, 0, 0, 0, 0, 0, 0);
    var agents: set<string> := {};
    for k := 0 to |entries|
      invariant s.from == from && s.to == to && Sums(s, costFn, entries[..k])
      invariant agents == Agents(entries[..k], from, to)
    {
      var entry := entries[k];
      assert entries[..k + 1] == entries[..k] + [entry];
      SumsStep(s, costFn, entries[..k], entry, if InRange(entry, from, to) then Add(s, costFn, entry.event) else s);
      AgentsStep(entries[..k], entry, from, to);
      if InRange(entry, from, to) {
        s := Add(s, costFn, entry.event);
        if entry.event.AgentTurnCompleted? {
          agents := agents + {entry.event.agentId};
        }
      }
    }
    assert entries[..|entries|] == entries;
    assert agents == set e | e in entries && e.timestamp.Some? && from <= e.timestamp.value <= to &&
                             e.event.AgentTurnCompleted? :: e.event.agentId;
    s := s.(uniqueAgents := |agents|);
  }

  // ----- the timeline -----

  /** `Duration::num_hours`: whole hours, truncated towards zero. */
  function NumHours(d: int): int {
    if d >= 0 then d / HOUR else -(-d / HOUR)
  }

  /** At least one bucket, and at most a year of them. */
  function BucketCount(from: Time, to: Time): (n: nat)
    ensures 1 <= n <= MAX_BUCKETS
  {
    Min(Max(NumHours(to - from), 1), MAX_BUCKETS)
  }

  /** The first and last point in time of bucket `i` of `n`; the last bucket runs to the end of the range. */
  function SlotStart(from: Time, i: nat): Time {
    from + i * HOUR
  }

  function SlotEnd(from: Time, to: Time, n: nat, i: nat): Time {
    if i == n - 1 then to else from + (i + 1) * HOUR - 1
  }

  function Index(ts: Time, from: Time, n: nat): (i: nat)
    requires n > 0
    ensures i < n
  {
    Min(Max(NumHours(ts - from), 0), n - 1)
  }

  /** A point of the range lies in the slot of its index and in no other; other points in none. */
  lemma SlotOfIndex(ts: Time, from: Time, to: Time, n: nat, i: nat)
    requires n == BucketCount(from, to) && i < n
    ensures SlotStart(from, i) <= ts <= SlotEnd(from, to, n, i) <==> from <= ts <= to && i == Index(ts, from, n)
  {
    HourBounds(to - from);
    if ts >= from {
      HourBounds(ts - from);
    }
  }

  lemma HourBounds(d: int)
    ensures d >= 0 ==> NumHours(d) * HOUR <= d < (NumHours(d) + 1) * HOUR
    ensures d < 0 ==> NumHours(d) <= 0
  {
  }

  /** Counts an event in one bucket. */
  function AddTo(b: Bucket, costFn: CostFn, e: Event): (r: Bucket)
    ensures r.hour == b.hour && BucketTally(r) == BucketTally(b).Plus(Worth(costFn, e))
  {
    match e
    case LlmResponseReceived(p, i, o) =>
      b.(llmRequests := b.llmRequests + 1, inputTokens := b.inputTokens + i,
         outputTokens := b.outputTokens + o, costUsd := b.costUsd + costFn(i, o, p))
    case AgentTurnCompleted(_) => b.(agentTurns := b.agentTurns + 1)
    case ToolExecuted => b.(toolExecutions := b.toolExecutions + 1)
    case ToolDenied | HttpAuthFailed | RateLimitExceeded => b.(errors := b.errors + 1)
    case OtherEvent => b
  }

  /** Bucket `i` holds exactly the entries of its own slot. */
  ghost predicate Holds(b: Bucket, costFn: CostFn, entries: seq<Entry>, from: Time, to: Time, n: nat, i: nat) {
    b.hour == SlotStart(from, i) &&
    BucketTally(b) == Total(Weigh(costFn, entries), SlotStart(from, i), SlotEnd(from, to, n, i))
  }

  /** Bucket `i` after an entry, which counts if it lies in that bucket. */
  function Updated(b: Bucket, costFn: CostFn, e: Entry, from: Time, to: Time, n: nat, i: nat): Bucket
    requires n > 0
  {
    if InRange(e, from, to) && i == Index(e.timestamp.value, from, n) then AddTo(b, costFn, e.event) else b
  }

  lemma HoldsStep(b: Bucket, costFn: CostFn, entries: seq<Entry>, e: Entry, from: Time, to: Time, n: nat, i: nat)
    requires n == BucketCount(from, to) && i < n && Holds(b, costFn, entries, from, to, n, i)
    ensures Holds(Updated(b, costFn, e, from, to, n, i), costFn, entries + [e], from, to, n, i)
  {
    TotalStep(costFn, entries, e, SlotStart(from, i), SlotEnd(from, to, n, i));
    if e.timestamp.Some? {
      SlotOfIndex(e.timestamp.value, from, to, n, i);
    }
  }

  ghost predicate AllHold(bs: seq<Bucket>, costFn: CostFn, entries: seq<Entry>, from: Time, to: Time, n: nat) {
    |bs| == n && forall i :: 0 <= i < n ==> Holds(bs[i], costFn, entries, from, to, n, i)
  }

  lemma AllHoldStep(bs: seq<Bucket>, costFn: CostFn, entries: seq<Entry>, e: Entry, from: Time, to: Time, n: nat)
    requires n == BucketCount(from, to) && AllHold(bs, costFn, entries, from, to, n)
    ensures !InRange(e, from, to) ==> AllHold(bs, costFn, entries + [e], from, to, n)
    ensures InRange(e, from, to) ==>
              var k := Index(e.timestamp.value, from, n);
              AllHold(bs[k := AddTo(bs[k], costFn, e.event)], costFn, entries + [e], from, to, n)
  {
    forall i | 0 <= i < n
      ensures Holds(Updated(bs[i], costFn, e, from, to, n, i), costFn, entries + [e], from, to, n, i)
    {
      HoldsStep(bs[i], costFn, entries, e, from, to, n, i);
    }
  }

  /** One bucket per hour, the first starting at `from`: each but the last counts exactly the
      entries of its hour, and the last one all later entries of the range. */
  method ComputeTimeline(entries: seq<Entry>, from: Time, to: Time, costFn: CostFn) returns (result: seq<Bucket>)
    ensures |result| == BucketCount(from, to)
    ensures forall i :: 0 <= i < |result| ==> Holds(result[i], costFn, entries, from, to, |result|, i)
  {
    var n := BucketCount(from, to);
    var buckets := new Bucket[n](i => Bucket(SlotStart(from, i), 0.0, 0, 0, 0, 0, 0, 0));
    for k := 0 to |entries|
      invariant AllHold(buckets[..], costFn, entries[..k], from, to, n)
    {
      var entry := entries[k];
      assert entries[..k + 1] == entries[..k] + [entry];
      AllHoldStep(buckets[..], costFn, entries[..k], entry, from, to, n);
      if InRange(entry, from, to) {
        var idx := Index(entry.timestamp.value, from, n);
        ghost var counted := buckets[..][idx := AddTo(buckets[idx], costFn, entry.event)];
        buckets[idx] := AddTo(buckets[idx], costFn, entry.event);
        assert buckets[..] == counted;
      }
    }
    assert entries[..|entries|] == entries;
    result := buckets[..];
  }

  // ----- what one more entry changes, written out -----

  /** One more entry counts exactly if its timestamp parses and lies in the range, ends included, and
      then in the fields of its own kind. */
  lemma SummaryGrows(s: Summary, next: Summary, costFn: CostFn, entries: seq<Entry>, e: Entry)
    requires Sums(s, costFn, entries) && Sums(next, costFn, entries + [e]) && next.from == s.from && next.to == s.to
    ensures var counts := e.timestamp.Some? && s.from <= e.timestamp.value <= s.to;
      var one := if counts then 1 else 0;
      && next.llmRequests == s.llmRequests + (if e.event.LlmResponseReceived? then one else 0)
      && next.totalInputTokens ==
         s.totalInputTokens + (if e.event.LlmResponseReceived? then one * e.event.inputTokens else 0)
      && next.totalOutputTokens ==
         s.totalOutputTokens + (if e.event.LlmResponseReceived? then one * e.event.outputTokens else 0)
      && next.totalCostUsd == s.totalCostUsd +
         (if counts && e.event.LlmResponseReceived?
          then costFn(e.event.inputTokens, e.event.outputTokens, e.event.provider) else 0.0)
      && next.agentTurns == s.agentTurns + (if e.event.AgentTurnCompleted? then one else 0)
      && next.toolExecutions == s.toolExecutions + (if e.event.ToolExecuted? then one else 0)
      && next.toolDenials == s.toolDenials + (if e.event.ToolDenied? then one else 0)
      && next.authFailures == s.authFailures + (if e.event.HttpAuthFailed? then one else 0)
      && next.rateLimitEvents == s.rateLimitEvents + (if e.event.RateLimitExceeded? then one else 0)
  {
    TotalStep(costFn, entries, e, s.from, s.to);
    CountStep(entries, e, s.from, s.to, ToolDenied);
    CountStep(entries, e, s.from, s.to, HttpAuthFailed);
    CountStep(entries, e, s.from, s.to, RateLimitExceeded);
  }

  /** Without entries everything is zero. */
  lemma SummaryStarts(s: Summary, costFn: CostFn)
    requires Sums(s, costFn, [])
    ensures s.totalCostUsd == 0.0 && s.totalInputTokens == s.totalOutputTokens == s.llmRequests == 0
    ensures s.agentTurns == s.toolExecutions == s.toolDenials == s.authFailures == s.rateLimitEvents == 0
  {
  }

  /** One more entry counts in bucket `i` exactly if it lies in the hour that starts `i` hours after
      the start of the range, or after that and the bucket is the last one. */
  lemma BucketGrows(b: Bucket, next: Bucket, costFn: CostFn, entries: seq<Entry>, e: Entry,
      from: Time, to: Time, n: nat, i: nat)
    requires Holds(b, costFn, entries, from, to, n, i) && Holds(next, costFn, entries + [e], from, to, n, i) && i < n
    ensures var start := from + i * 3_600_000_000_000;
      var counts := e.timestamp.Some? && start <= e.timestamp.value &&
                    if i == n - 1 then e.timestamp.value <= to else e.timestamp.value < start + 3_600_000_000_000;
      var one := if counts then 1 else 0;
      && next.hour == b.hour == start
      && next.llmRequests == b.llmRequests + (if e.event.LlmResponseReceived? then one else 0)
      && next.inputTokens == b.inputTokens + (if e.event.LlmResponseReceived? then one * e.event.inputTokens else 0)
      && next.outputTokens == b.outputTokens + (if e.event.LlmResponseReceived? then one * e.event.outputTokens else 0)
      && next.costUsd == b.costUsd +
         (if counts && e.event.LlmResponseReceived?
          then costFn(e.event.inputTokens, e.event.outputTokens, e.event.provider) else 0.0)
      && next.agentTurns == b.agentTurns + (if e.event.AgentTurnCompleted? then one else 0)
      && next.toolExecutions == b.toolExecutions + (if e.event.ToolExecuted? then one else 0)
      && next.errors == b.errors +
         (if e.event.ToolDenied? || e.event.HttpAuthFailed? || e.event.RateLimitExceeded? then one else 0)
  {
    TotalStep(costFn, entries, e, SlotStart(from, i), SlotEnd(from, to, n, i));
  }

  /** There are as many buckets as whole hours in the range, at least one and at most 8760. */
  lemma BucketCountIsHours(from: Time, to: Time)
    ensures var n := BucketCount(from, to);
      && 1 <= n <= 8760
      && (1 < n ==> n * 3_600_000_000_000 <= to - from)
      && (n < 8760 ==> to - from < (n + 1) * 3_600_000_000_000)
  {
    HourBounds(to - from);
  }

  // ----- conservation -----

  function SumBuckets(bs: seq<Bucket>): Tally {
    if bs == [] then NOTHING else SumBuckets(bs[..|bs| - 1]).Plus(BucketTally(bs[|bs| - 1]))
  }

  /** Adding `w` to one part of a sum adds it to the sum. */
  lemma PlusOnePart(x: Tally, y: Tally, w: Tally)
    ensures x.Plus(y).Plus(w) == x.Plus(w).Plus(y) == x.Plus(y.Plus(w))
  {
  }

  lemma {:induction false} TotalOfLast(ws: seq<Weighed>, lo: Time, hi: Time)
    requires ws != []
    ensures var rest, w := Total(ws[..|ws| - 1], lo, hi), ws[|ws| - 1];
      Total(ws, lo, hi) == if Between(w.timestamp, lo, hi) then rest.Plus(w.worth) else rest
  {
  }

  /** The total of a range is that of its two parts. */
  lemma {:induction false} TotalSplits(ws: seq<Weighed>, lo: Time, mid: Time, hi: Time)
    requires lo <= mid <= hi + 1
    ensures Total(ws, lo, hi) == Total(ws, lo, mid - 1).Plus(Total(ws, mid, hi))
  {
    if ws == [] {
      NothingPlus(NOTHING);
    } else {
      var init, w := ws[..|ws| - 1], ws[|ws| - 1];
      TotalSplits(init, lo, mid, hi);
      PlusOnePart(Total(init, lo, mid - 1), Total(init, mid, hi), w.worth);
      TotalOfLast(ws, lo, hi);
      TotalOfLast(ws, lo, mid - 1);
      TotalOfLast(ws, mid, hi);
      assert Between(w.timestamp, lo, hi) <==> Between(w.timestamp, lo, mid - 1) || Between(w.timestamp, mid, hi);
    }
  }

  lemma {:induction false} TotalOfNothing(ws: seq<Weighed>, lo: Time, hi: Time)
    requires hi < lo
    ensures Total(ws, lo, hi) == NOTHING
  {
    if ws != [] {
      TotalOfNothing(ws[..|ws| - 1], lo, hi);
    }
  }

  lemma {:induction false} BucketsAddUp(bs: seq<Bucket>, costFn: CostFn, entries: seq<Entry>,
      from: Time, to: Time, n: nat)
    requires n == BucketCount(from, to) && |bs| <= n
    requires forall i :: 0 <= i < |bs| ==> Holds(bs[i], costFn, entries, from, to, n, i)
    ensures SumBuckets(bs) == Total(Weigh(costFn, entries), from, if |bs| == n then to else SlotStart(from, |bs|) - 1)
  {
    if bs == [] {
      TotalOfNothing(Weigh(costFn, entries), from, from - 1);
    } else {
      var m := |bs| - 1;
      BucketsAddUp(bs[..m], costFn, entries, from, to, n);
      assert Holds(bs[m], costFn, entries, from, to, n, m);
      SlotsFollow(from, to, n, m);
      var ws := Weigh(costFn, entries);
      if n > 1 {
        TotalSplits(ws, from, SlotStart(from, m), SlotEnd(from, to, n, m));
      } else {
        NothingPlus(BucketTally(bs[m]));
      }
    }
  }

  lemma SlotsFollow(from: Time, to: Time, n: nat, m: nat)
    requires n == BucketCount(from, to) && m < n
    ensures n > 1 ==> from <= SlotStart(from, m) <= SlotEnd(from, to, n, m) + 1
    ensures m + 1 < n ==> SlotEnd(from, to, n, m) == SlotStart(from, m + 1) - 1
  {
    HourBounds(to - from);
  }

  lemma NothingPlus(t: Tally)
    ensures NOTHING.Plus(t) == t
  {
  }

  /** For all entries and ranges, the buckets of the timeline add up to the summary. */
  lemma {:induction false} TimelineConservesSummary(s: Summary, bs: seq<Bucket>, costFn: CostFn, entries: seq<Entry>)
    requires Sums(s, costFn, entries)
    requires |bs| == BucketCount(s.from, s.to)
    requires forall i :: 0 <= i < |bs| ==> Holds(bs[i], costFn, entries, s.from, s.to, |bs|, i)
    ensures SumBuckets(bs) == SummaryTally(s)
  {
    BucketsAddUp(bs, costFn, entries, s.from, s.to, |bs|);
  }
}
