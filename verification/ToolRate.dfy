/**
 Tool calls against the rate limit: every call passes the limiter's check some time before it starts,
 because an approval may be awaited in between. What a run of calls leads to is a function of the
 time that passes, and the bounds on executions are about that function.
 */
module ToolRate {
  import opened Wrappers
  import opened Sequences
  import opened RateLimiter

  /** No interval holds more of some of the instants than of all of them. */
  lemma {:induction false} CountSubsequence(s: seq<int>, t: seq<int>, lo: int, hi: int)
    requires Subsequence(s, t)
    ensures CountIn(s, lo, hi) <= CountIn(t, lo, hi)
    decreases |t|
  {
    if s != [] {
      var m, n := |s| - 1, |t| - 1;
      assert s == s[..m] + [s[m]] && t == t[..n] + [t[n]];
      CountSnoc(s[..m], s[m], lo, hi);
      CountSnoc(t[..n], t[n], lo, hi);
      if Subsequence(s, t[..n]) {
        CountSubsequence(s, t[..n], lo, hi);
      } else {
        CountSubsequence(s[..m], t[..n], lo, hi);
      }
    }
  }

  /** An executed tool call: when it passed the rate check, and when its execution started. */
  datatype Execution = Execution(gate: int, start: int)

  function Gates(executed: seq<Execution>): seq<int> {
    if executed == [] then [] else Gates(executed[..|executed| - 1]) + [executed[|executed| - 1].gate]
  }

  function Starts(executed: seq<Execution>): seq<int> {
    if executed == [] then [] else Starts(executed[..|executed| - 1]) + [executed[|executed| - 1].start]
  }

  /** Calls are executed one after the other, the last one started by `latest`. */
  ghost predicate Sequential(executed: seq<Execution>, latest: int) {
    executed == [] ||
    var last := executed[|executed| - 1];
    last.gate <= last.start <= latest && Sequential(executed[..|executed| - 1], last.gate)
  }

  lemma {:induction false} PushExecution(executed: seq<Execution>, gate: int, start: int)
    requires Sequential(executed, gate) && gate <= start
    ensures Sequential(executed + [Execution(gate, start)], start)
    ensures Gates(executed + [Execution(gate, start)]) == Gates(executed) + [gate]
  {
    assert (executed + [Execution(gate, start)])[..|executed|] == executed;
  }

  /** Some call passed the rate check before `t` and started at `t` or later. */
  ghost predicate Straddles(executed: seq<Execution>, t: int) {
    exists i :: 0 <= i < |executed| && executed[i].gate < t <= executed[i].start
  }

  lemma {:induction false} NoStartsAfter(executed: seq<Execution>, latest: int, lo: int, hi: int)
    requires Sequential(executed, latest) && latest < lo
    ensures CountIn(Starts(executed), lo, hi) == 0
  {
    if executed != [] {
      var n := |executed| - 1;
      NoStartsAfter(executed[..n], executed[n].gate, lo, hi);
      CountSnoc(Starts(executed[..n]), executed[n].start, lo, hi);
    }
  }

  /** Of the starts in an interval, at most one belongs to a call that passed the rate check before it. */
  lemma {:induction false} StartsFollowGates(executed: seq<Execution>, latest: int, lo: int, hi: int)
    requires Sequential(executed, latest)
    ensures CountIn(Starts(executed), lo, hi) <=
            CountIn(Gates(executed), lo, hi) + if Straddles(executed, lo) then 1 else 0
  {
    if executed != [] {
      var n := |executed| - 1;
      var init, last := executed[..n], executed[n];
      CountSnoc(Starts(init), last.start, lo, hi);
      CountSnoc(Gates(init), last.gate, lo, hi);
      if last.gate < lo {
        NoStartsAfter(init, last.gate, lo, hi);
      } else {
        StartsFollowGates(init, last.gate, lo, hi);
      }
    }
  }

  // ----- runs of tool calls -----

  /** One tool call as the rate limit sees it: how much time passes before and inside the check,
      and, if the other gates let the call through, between the check and its start. */
  datatype Attempt = Attempt(wait: nat, lag: nat, delay: Option<nat>)

  /** The clock readings of all rate checks, the limiter's deque, the executed calls and the time. */
  datatype Activity = Activity(readings: seq<(int, int)>, timestamps: seq<int>, executed: seq<Execution>, clock: int)

  function Attempted(max: nat, a: Activity, x: Attempt): Activity {
    var now := a.clock + x.wait;
    var later := now + x.lag;
    var (left, ok) := Checked(max, a.timestamps, now, later);
    var readings := a.readings + [(now, later)];
    if ok && x.delay.Some?
    then Activity(readings, left, a.executed + [Execution(later, later + x.delay.value)], later + x.delay.value)
    else Activity(readings, left, a.executed, later)
  }

  /** What a run of tool calls from an agent's creation leads to. */
  function Replay(max: nat, created: int, attempts: seq<Attempt>): Activity {
    if attempts == [] then Activity([], [], [], created)
    else Attempted(max, Replay(max, created, attempts[..|attempts| - 1]), attempts[|attempts| - 1])
  }

  ghost predicate Replayed(max: nat, created: int, attempts: seq<Attempt>,
      timestamps: seq<int>, executed: seq<Execution>, clock: int)
  {
    var a := Replay(max, created, attempts);
    a.timestamps == timestamps && a.executed == executed && a.clock == clock
  }

  lemma ReplayedStep(max: nat, created: int, attempts: seq<Attempt>,
      timestamps: seq<int>, executed: seq<Execution>, clock: int,
      x: Attempt, timestamps': seq<int>, executed': seq<Execution>, clock': int)
    requires Replayed(max, created, attempts, timestamps, executed, clock)
    requires var gate := clock + x.wait + x.lag;
      var (left, passed) := Checked(max, timestamps, clock + x.wait, gate);
      && timestamps' == left
      && (passed && x.delay.Some? ==>
            clock' == gate + x.delay.value && executed' == executed + [Execution(gate, clock')])
      && (!passed || x.delay.None? ==> clock' == gate && executed' == executed)
    ensures Replayed(max, created, attempts + [x], timestamps', executed', clock')
  {
    assert (attempts + [x])[..|attempts|] == attempts;
  }

  // ----- the bound on checks and starts -----

  /** The deque is what the rate checks so far have left of it, each executed call passed one of
      them, and the clock has not run backwards. */
  ghost predicate Gated(max: nat, a: Activity) {
    && Monotone(a.readings) && (a.readings != [] ==> a.readings[|a.readings| - 1].1 <= a.clock)
    && a.timestamps == RunChecks(max, a.readings).1
    && Subsequence(Gates(a.executed), RunChecks(max, a.readings).0)
    && Sequential(a.executed, a.clock)
  }

  lemma {:induction false} GatedCheck(max: nat, a: Activity, now: int, later: int, b: Activity)
    requires Gated(max, a) && a.clock <= now <= later
    requires b == Activity(a.readings + [(now, later)], Checked(max, a.timestamps, now, later).0, a.executed, later)
    ensures Gated(max, b)
    ensures Checked(max, a.timestamps, now, later).1 ==>
              Subsequence(Gates(a.executed) + [later], RunChecks(max, b.readings).0)
  {
    assert b.readings[..|a.readings|] == a.readings;
    SubsequenceAppend(Gates(a.executed), RunChecks(max, a.readings).0, later);
  }

  lemma GatedExecution(max: nat, a: Activity, now: int, later: int, start: int, b: Activity)
    requires Gated(max, a) && a.clock <= now <= later <= start && Checked(max, a.timestamps, now, later).1
    requires b == Activity(a.readings + [(now, later)], Checked(max, a.timestamps, now, later).0,
                           a.executed + [Execution(later, start)], start)
    ensures Gated(max, b)
  {
    GatedCheck(max, a, now, later, Activity(b.readings, b.timestamps, a.executed, later));
    PushExecution(a.executed, later, start);
  }

  lemma AttemptGated(max: nat, a: Activity, x: Attempt, b: Activity)
    requires Gated(max, a) && b == Attempted(max, a, x)
    ensures Gated(max, b)
  {
    var now := a.clock + x.wait;
    var later := now + x.lag;
    var (left, ok) := Checked(max, a.timestamps, now, later);
    assert b.readings == a.readings + [(now, later)] && b.timestamps == left;
    if b.executed == a.executed {
      GatedCheck(max, a, now, later, b);
    } else {
      GatedExecution(max, a, now, later, b.clock, b);
    }
  }

  lemma {:induction false} ReplayGated(max: nat, created: int, attempts: seq<Attempt>)
    ensures Gated(max, Replay(max, created, attempts))
  {
    if attempts != [] {
      var n := |attempts| - 1;
      ReplayGated(max, created, attempts[..n]);
      AttemptGated(max, Replay(max, created, attempts[..n]), attempts[n], Replay(max, created, attempts));
    }
  }

  /** How many calls of a run start in the closed minute from `lo` on. */
  function StartsIn(max: nat, created: int, attempts: seq<Attempt>, lo: int): nat {
    CountIn(Starts(Replay(max, created, attempts).executed), lo, lo + WINDOW)
  }

  /** Over every run of tool calls: in every closed minute at most `max` executed calls passed the
      rate check, and at most as many started, plus one if a call that passed it before the minute
      started in it. */
  lemma {:induction false} StartRateBound(max: nat, created: int, attempts: seq<Attempt>, lo: int)
    ensures var executed := Replay(max, created, attempts).executed;
      && CountIn(Gates(executed), lo, lo + WINDOW) <= max
      && StartsIn(max, created, attempts, lo) <= max + if Straddles(executed, lo) then 1 else 0
  {
    var a := Replay(max, created, attempts);
    ReplayGated(max, created, attempts);
    RateBound(max, a.readings, a.clock, a.clock, lo);
    CountSubsequence(Gates(a.executed), RunChecks(max, a.readings).0, lo, lo + WINDOW);
    StartsFollowGates(a.executed, a.clock, lo, lo + WINDOW);
  }

  // ----- which delays the limit survives -----

  /** No call waits longer than `d` between its rate check and its start. */
  ghost predicate DelaysWithin(attempts: seq<Attempt>, d: nat) {
    forall x :: x in attempts && x.delay.Some? ==> x.delay.value <= d
  }

  /** With waits of at most `d`, the limit holds for starts too: in every run and closed minute. */
  ghost predicate StartsBounded(max: nat, d: nat) {
    forall created, attempts, lo ::
      DelaysWithin(attempts, d) ==> StartsIn(max, created, attempts, lo) <= max
  }

  /** Calls that never wait start when they pass the rate check. */
  ghost predicate Immediate(executed: seq<Execution>) {
    forall x :: x in executed ==> x.gate == x.start
  }

  lemma {:induction false} NoDelaysImmediate(max: nat, created: int, attempts: seq<Attempt>)
    requires DelaysWithin(attempts, 0)
    ensures Immediate(Replay(max, created, attempts).executed)
  {
    if attempts != [] {
      var n := |attempts| - 1;
      NoDelaysImmediate(max, created, attempts[..n]);
      assert attempts[n] in attempts;
    }
  }

  lemma {:induction false} NothingPassesZero(created: int, attempts: seq<Attempt>)
    ensures Replay(0, created, attempts).executed == []
  {
    if attempts != [] {
      NothingPassesZero(created, attempts[..|attempts| - 1]);
    }
  }

  /** A call that passes the rate check and waits for a nanosecond, and `n` - 1 calls that follow it
      at once. */
  function Burst(n: nat): (b: seq<Attempt>)
    requires n > 0
    ensures |b| == n && DelaysWithin(b, 1)
  {
    if n == 1 then [Attempt(0, 0, Some(1))] else Burst(n - 1) + [Attempt(0, 0, Some(0))]
  }

  ghost predicate AfterBurst(n: nat, a: Activity) {
    && a.clock == 1
    && |a.timestamps| == n && n > 0 && a.timestamps[0] == 0 && (n > 1 ==> a.timestamps[1] == 1)
    && CountIn(Starts(a.executed), 1, WINDOW + 1) == n
  }

  lemma {:induction false} StartCounts(executed: seq<Execution>, x: Execution, hi: int)
    requires 1 <= x.start <= hi
    ensures CountIn(Starts(executed + [x]), 1, hi) == CountIn(Starts(executed), 1, hi) + 1
  {
    assert (executed + [x])[..|executed|] == executed;
    CountSnoc(Starts(executed), x.start, 1, hi);
  }

  lemma {:induction false} BurstPasses(max: nat, n: nat)
    requires 0 < n <= max
    ensures AfterBurst(n, Replay(max, 0, Burst(n)))
  {
    var init := Burst(n)[..n - 1];
    if n == 1 {
      assert Replay(max, 0, init) == Activity([], [], [], 0);
      StartCounts([], Execution(0, 1), WINDOW + 1);
    } else {
      assert init == Burst(n - 1);
      BurstPasses(max, n - 1);
      BurstStep(max, n - 1, Replay(max, 0, init), Replay(max, 0, Burst(n)));
    }
  }

  lemma BurstStep(max: nat, n: nat, a: Activity, b: Activity)
    requires AfterBurst(n, a) && n < max && b == Attempted(max, a, Attempt(0, 0, Some(0)))
    ensures AfterBurst(n + 1, b)
  {
    assert Prune(a.timestamps, 1 - WINDOW) == a.timestamps;
    StartCounts(a.executed, Execution(1, 1), WINDOW + 1);
  }

  /** A minute later the first call is out of the limiter's window, and its start is not. */
  lemma LateCall(max: nat, a: Activity, b: Activity)
    requires AfterBurst(max, a) && b == Attempted(max, a, Attempt(WINDOW, 0, Some(0)))
    ensures CountIn(Starts(b.executed), 1, WINDOW + 1) == max + 1
  {
    assert Prune(a.timestamps, 1) == Prune(a.timestamps[1..], 1) == a.timestamps[1..];
    StartCounts(a.executed, Execution(WINDOW + 1, WINDOW + 1), WINDOW + 1);
  }

  /** The bound on starts is attained for every limit, with one wait of a single nanosecond. */
  lemma {:induction false} DelayExceedsLimit(max: nat)
    requires max > 0
    ensures var attempts := Burst(max) + [Attempt(WINDOW, 0, Some(0))];
      DelaysWithin(attempts, 1) && StartsIn(max, 0, attempts, 1) == max + 1
  {
    var attempts := Burst(max) + [Attempt(WINDOW, 0, Some(0))];
    assert attempts[..max] == Burst(max);
    BurstPasses(max, max);
    LateCall(max, Replay(max, 0, Burst(max)), Replay(max, 0, attempts));
  }

  /** Every minute holds at most `max` starts, in all runs with waits of at most `d`, if and only if
      no call may wait at all, or none is allowed. */
  lemma StartsBoundedIff(max: nat, d: nat)
    ensures StartsBounded(max, d) <==> max == 0 || d == 0
  {
    if max == 0 || d == 0 {
      forall created, attempts, lo | DelaysWithin(attempts, d)
        ensures StartsIn(max, created, attempts, lo) <= max
      {
        if max == 0 {
          NothingPassesZero(created, attempts);
        } else {
          NoDelaysImmediate(max, created, attempts);
          StartRateBound(max, created, attempts, lo);
        }
      }
    } else {
      DelayExceedsLimit(max);
      var attempts := Burst(max) + [Attempt(WINDOW, 0, Some(0))];
      assert DelaysWithin(attempts, d) && StartsIn(max, 0, attempts, 1) > max;
    }
  }
}
