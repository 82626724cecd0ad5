/** The sliding-window rate limiter. Instants are integers in nanoseconds. */
module RateLimiter {
  const WINDOW: int := 60_000_000_000

  /** `prune`: drops instants from the front while they lie before the cutoff. */
  function Prune(timestamps: seq<int>, cutoff: int): seq<int> {
    if timestamps != [] && timestamps[0] < cutoff then Prune(timestamps[1..], cutoff) else timestamps
  }

  /** A check, in terms of the deque: the deque after it, and whether it was accepted. */
  function Checked(max: nat, timestamps: seq<int>, now: int, later: int): (seq<int>, bool) {
    var left := Prune(timestamps, now - WINDOW);
    if |left| >= max then (left, false) else (left + [later], true)
  }

  class Limiter {
    const maxPerMinute: nat
    var timestamps: seq<int>

    constructor (maxPerMinute: nat)
      ensures this.maxPerMinute == maxPerMinute && timestamps == []
    {
      this.maxPerMinute, timestamps := maxPerMinute, [];
    }

    method PruneOld(now: int)
      modifies this`timestamps
      ensures timestamps == Prune(old(timestamps), now - WINDOW)
    {
      var cutoff := now - WINDOW;
      while timestamps != [] && timestamps[0] < cutoff
        invariant Prune(timestamps, cutoff) == Prune(old(timestamps), cutoff)
        decreases |timestamps|
      {
        timestamps := timestamps[1..];
      }
    }

    /** `check`: the clock is read once to prune and once more to record the operation. */
    method Check(now: int, later: int) returns (ok: bool)
      modifies this`timestamps
      ensures (timestamps, ok) == Checked(maxPerMinute, old(timestamps), now, later)
    {
      PruneOld(now);
      if |timestamps| >= maxPerMinute {
        return false;
      }
      timestamps := timestamps + [later];
      return true;
    }

    method CurrentCount(now: int) returns (n: nat)
      modifies this`timestamps
      ensures timestamps == Prune(old(timestamps), now - WINDOW) && n == |timestamps|
    {
      PruneOld(now);
      n := |timestamps|;
    }
  }

  // ----- the limiter against the full history of accepted operations -----

  /** How many instants lie in the closed interval from `lo` to `hi`. */
  function CountIn(s: seq<int>, lo: int, hi: int): nat {
    if s == [] then 0 else (if lo <= s[0] <= hi then 1 else 0) + CountIn(s[1..], lo, hi)
  }

  ghost predicate AllAtMost(s: seq<int>, t: int) {
    forall i :: 0 <= i < |s| ==> s[i] <= t
  }

  ghost predicate AllAtLeast(s: seq<int>, t: int) {
    forall i :: 0 <= i < |s| ==> t <= s[i]
  }

  ghost predicate Ascending(s: seq<int>) {
    s == [] || (AllAtLeast(s, s[0]) && Ascending(s[1..]))
  }

  /** At each acceptance, the closed window that ends there holds at most `max` accepted ones. */
  ghost predicate Bounded(max: nat, accepted: seq<int>) {
    accepted == [] ||
    var last := accepted[|accepted| - 1];
    AllAtMost(accepted, last) && CountIn(accepted, last - WINDOW, last) <= max &&
    Bounded(max, accepted[..|accepted| - 1])
  }

  lemma {:induction false} PruneTwice(s: seq<int>, c: int, d: int)
    requires c <= d
    ensures Prune(Prune(s, c), d) == Prune(s, d)
  {
    if s != [] && s[0] < c {
      PruneTwice(s[1..], c, d);
    }
  }

  lemma {:induction false} PruneSnoc(s: seq<int>, c: int, t: int)
    requires c <= t
    ensures Prune(s + [t], c) == Prune(s, c) + [t]
  {
    if s != [] && s[0] < c {
      assert (s + [t])[1..] == s[1..] + [t];
      PruneSnoc(s[1..], c, t);
    }
  }

  lemma {:induction false} CountAll(s: seq<int>, lo: int, hi: int)
    requires AllAtLeast(s, lo) && AllAtMost(s, hi)
    ensures CountIn(s, lo, hi) == |s|
  {
    if s != [] {
      CountAll(s[1..], lo, hi);
    }
  }

  /** In an ascending history the deque's length is the count in the window. */
  lemma {:induction false} PruneCounts(s: seq<int>, lo: int, hi: int)
    requires Ascending(s) && AllAtMost(s, hi)
    ensures |Prune(s, lo)| == CountIn(s, lo, hi)
  {
    if s != [] && s[0] < lo {
      PruneCounts(s[1..], lo, hi);
    } else if s != [] {
      CountAll(s, lo, hi);
    }
  }

  lemma {:induction false} CountSnoc(s: seq<int>, t: int, lo: int, hi: int)
    ensures CountIn(s + [t], lo, hi) == CountIn(s, lo, hi) + if lo <= t <= hi then 1 else 0
  {
    if s != [] {
      assert (s + [t])[1..] == s[1..] + [t];
      CountSnoc(s[1..], t, lo, hi);
    }
  }

  /** Of instants up to `last`, those in one interval all lie in a wider one. */
  lemma {:induction false} CountWidens(s: seq<int>, lo: int, hi: int, lo': int, hi': int, last: int)
    requires AllAtMost(s, last) && lo' <= lo && (hi <= hi' || last <= hi')
    ensures CountIn(s, lo, hi) <= CountIn(s, lo', hi')
  {
    if s != [] {
      CountWidens(s[1..], lo, hi, lo', hi', last);
    }
  }

  lemma {:induction false} AscendingSnoc(s: seq<int>, t: int)
    requires Ascending(s) && AllAtMost(s, t)
    ensures Ascending(s + [t])
  {
    if s != [] {
      assert (s + [t])[1..] == s[1..] + [t];
      AscendingSnoc(s[1..], t);
    }
  }

  /** Every closed window holds at most `max` accepted operations. */
  lemma {:induction false} AnyWindowBound(max: nat, accepted: seq<int>, lo: int)
    requires Bounded(max, accepted)
    ensures CountIn(accepted, lo, lo + WINDOW) <= max
  {
    if accepted != [] {
      var init, last := accepted[..|accepted| - 1], accepted[|accepted| - 1];
      assert accepted == init + [last];
      if lo <= last <= lo + WINDOW {
        CountWidens(accepted, lo, lo + WINDOW, last - WINDOW, last, last);
      } else {
        CountSnoc(init, last, lo, lo + WINDOW);
        AnyWindowBound(max, init, lo);
      }
    }
  }

  /** What a limiter's deque says about all operations accepted so far, the last of them no later
      than `latest`: it is the accepted ones without those before `cutoff`. */
  ghost predicate Accounts(max: nat, accepted: seq<int>, timestamps: seq<int>, cutoff: int, latest: int) {
    timestamps == Prune(accepted, cutoff) && Ascending(accepted) && AllAtMost(accepted, latest) &&
    Bounded(max, accepted)
  }

  /** A check keeps the account, and is refused exactly when `max` accepted operations lie in the
      window that ends now. */
  lemma {:induction false} CheckAccounts(max: nat, accepted: seq<int>, timestamps: seq<int>, cutoff: int, latest: int,
      now: int, later: int)
    requires Accounts(max, accepted, timestamps, cutoff, latest)
    requires cutoff <= now - WINDOW && latest <= now <= later
    ensures var (left, ok) := Checked(max, timestamps, now, later);
      && Accounts(max, if ok then accepted + [later] else accepted, left, now - WINDOW, later)
      && (ok <==> CountIn(accepted, now - WINDOW, now) < max)
  {
    PruneTwice(accepted, cutoff, now - WINDOW);
    PruneCounts(accepted, now - WINDOW, now);
    if Checked(max, timestamps, now, later).1 {
      PruneSnoc(accepted, now - WINDOW, later);
      AscendingSnoc(accepted, later);
      BoundedSnoc(max, accepted, now, later);
    }
  }

  lemma {:induction false} BoundedSnoc(max: nat, accepted: seq<int>, now: int, later: int)
    requires Bounded(max, accepted) && AllAtMost(accepted, now) && now <= later
    requires CountIn(accepted, now - WINDOW, now) < max
    ensures Bounded(max, accepted + [later])
  {
    var more := accepted + [later];
    assert more[..|more| - 1] == accepted;
    CountSnoc(accepted, later, later - WINDOW, later);
    CountWidens(accepted, later - WINDOW, later, now - WINDOW, now, now);
  }

  /** A run of checks from an empty deque: the accepted instants, and the deque. */
  function RunChecks(max: nat, clock: seq<(int, int)>): (seq<int>, seq<int>) {
    if clock == [] then ([], [])
    else
      var (accepted, timestamps) := RunChecks(max, clock[..|clock| - 1]);
      var (now, later) := clock[|clock| - 1];
      var (left, ok) := Checked(max, timestamps, now, later);
      (if ok then accepted + [later] else accepted, left)
  }

  /** The two readings of each check, and the readings of successive checks, never decrease. */
  ghost predicate Monotone(clock: seq<(int, int)>) {
    clock == [] ||
    var n := |clock| - 1;
    clock[n].0 <= clock[n].1 && (n > 0 ==> clock[n - 1].1 <= clock[n].0) && Monotone(clock[..n])
  }

  lemma {:induction false} RunAccounts(max: nat, clock: seq<(int, int)>)
    requires Monotone(clock)
    ensures var (accepted, timestamps) := RunChecks(max, clock);
      if clock == [] then accepted == timestamps == []
      else Accounts(max, accepted, timestamps, clock[|clock| - 1].0 - WINDOW, clock[|clock| - 1].1)
  {
    if clock != [] {
      var n := |clock| - 1;
      RunAccounts(max, clock[..n]);
      var (accepted, timestamps) := RunChecks(max, clock[..n]);
      var (now, later) := clock[n];
      if n == 0 {
        CheckAccounts(max, accepted, timestamps, now - WINDOW, now, now, later);
      } else {
        CheckAccounts(max, accepted, timestamps, clock[n - 1].0 - WINDOW, clock[n - 1].1, now, later);
      }
    }
  }

  /** Over every run with a non-decreasing clock, every closed 60-second interval contains at
      most `max` accepted checks, and the next check is refused exactly when that many accepted
      ones lie in the window that ends with it. */
  lemma RateBound(max: nat, clock: seq<(int, int)>, now: int, later: int, lo: int)
    requires Monotone(clock) && now <= later && (clock != [] ==> clock[|clock| - 1].1 <= now)
    ensures var (accepted, timestamps) := RunChecks(max, clock);
      && CountIn(accepted, lo, lo + 60_000_000_000) <= max
      && (Checked(max, timestamps, now, later).1 <==> CountIn(accepted, now - 60_000_000_000, now) < max)
  {
    RunAccounts(max, clock);
    var (accepted, timestamps) := RunChecks(max, clock);
    if clock != [] {
      AnyWindowBound(max, accepted, lo);
      var last := clock[|clock| - 1];
      CheckAccounts(max, accepted, timestamps, last.0 - WINDOW, last.1, now, later);
    }
  }
}
