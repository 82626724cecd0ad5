/** The sliding-window tool abuse detector. Times are integers in nanoseconds. */
module AbuseDetector {
  const SECOND: int := 1_000_000_000

  datatype Config = Config(
    windowSecs: nat,
    maxCalls: nat,
    maxDenials: nat,
    maxUniqueTools: nat,
    enabled: bool) {
    /** The length of the window in nanoseconds. */
    function Window(): int {
      windowSecs * SECOND
    }
  }

  datatype ToolEvent = ToolEvent(timestamp: int, tool: string, denied: bool)

  datatype Alert =
    | HighFrequency(agent: string, count: nat, windowSecs: nat)
    | RepeatedDenials(agent: string, count: nat, windowSecs: nat)
    | ScopeEscalation(agent: string, count: nat, windowSecs: nat)

  type Windows = map<string, seq<ToolEvent>>

  function Drop(events: seq<ToolEvent>, cutoff: int): seq<ToolEvent> {
    if events != [] && events[0].timestamp < cutoff then Drop(events[1..], cutoff) else events
  }

  function Denials(events: seq<ToolEvent>): nat {
    if events == [] then 0 else (if events[0].denied then 1 else 0) + Denials(events[1..])
  }

  function Tools(events: seq<ToolEvent>): set<string> {
    set e | e in events :: e.tool
  }

  /** The alerts that a window of events raises: each threshold that it reaches, with the count. */
  function Alerts(c: Config, agent: string, events: seq<ToolEvent>): seq<Alert> {
    (if |events| >= c.maxCalls then [HighFrequency(agent, |events|, c.windowSecs)] else []) +
    (if Denials(events) >= c.maxDenials then [RepeatedDenials(agent, Denials(events), c.windowSecs)] else []) +
    (if |Tools(events)| >= c.maxUniqueTools then [ScopeEscalation(agent, |Tools(events)|, c.windowSecs)] else [])
  }

  function WindowOf(w: Windows, agent: string): seq<ToolEvent> {
    if agent in w then w[agent] else []
  }

  datatype Call = Call(agent: string, event: ToolEvent)

  /** The windows after one recorded call. */
  function Record(c: Config, w: Windows, call: Call): Windows {
    if !c.enabled then w
    else w[call.agent := Drop(WindowOf(w, call.agent) + [call.event], call.event.timestamp - c.Window())]
  }

  class Detector {
    const config: Config
    var windows: Windows

    constructor (config: Config)
      ensures this.config == config && windows == map[]
    {
      this.config, windows := config, map[];
    }

    method RecordToolCall(agent: string, tool: string, denied: bool, now: int) returns (alerts: seq<Alert>)
      modifies this`windows
      ensures windows == Record(config, old(windows), Call(agent, ToolEvent(now, tool, denied)))
      ensures alerts == if config.enabled then Alerts(config, agent, WindowOf(windows, agent)) else []
    {
      alerts := [];
      if !config.enabled {
        return;
      }
      var events := if agent in windows then windows[agent] else [];
      events := events + [ToolEvent(now, tool, denied)];
      var cutoff := now - config.Window();
      ghost var pushed := events;
      while events != [] && events[0].timestamp < cutoff
        invariant Drop(events, cutoff) == Drop(pushed, cutoff)
        decreases |events|
      {
        events := events[1..];
      }
      windows := windows[agent := events];
      if |events| >= config.maxCalls {
        alerts := alerts + [HighFrequency(agent, |events|, config.windowSecs)];
      }
      if Denials(events) >= config.maxDenials {
        alerts := alerts + [RepeatedDenials(agent, Denials(events), config.windowSecs)];
      }
      if |Tools(events)| >= config.maxUniqueTools {
        alerts := alerts + [ScopeEscalation(agent, |Tools(events)|, config.windowSecs)];
      }
    }
  }

  // ----- the detector against the full history -----

  function Run(c: Config, calls: seq<Call>): Windows {
    if calls == [] then map[] else Record(c, Run(c, calls[..|calls| - 1]), calls[|calls| - 1])
  }

  /** All events of one agent, in order. */
  function HistoryOf(calls: seq<Call>, agent: string): seq<ToolEvent> {
    if calls == [] then []
    else
      var last := calls[|calls| - 1];
      HistoryOf(calls[..|calls| - 1], agent) + if last.agent == agent then [last.event] else []
  }

  /** The events at or after a point in time. */
  function Since(events: seq<ToolEvent>, cutoff: int): seq<ToolEvent> {
    if events == [] then []
    else (if events[0].timestamp >= cutoff then [events[0]] else []) + Since(events[1..], cutoff)
  }

  function Latest(h: seq<ToolEvent>): int {
    if h == [] then 0 else h[|h| - 1].timestamp
  }

  /** Timestamps never decrease. */
  ghost predicate Ascending(events: seq<ToolEvent>) {
    |events| <= 1 || (events[0].timestamp <= events[1].timestamp && Ascending(events[1..]))
  }

  lemma {:induction false} SinceAll(events: seq<ToolEvent>, cutoff: int)
    requires Ascending(events) && (events != [] ==> cutoff <= events[0].timestamp)
    ensures Since(events, cutoff) == events
  {
    if events != [] {
      SinceAll(events[1..], cutoff);
    }
  }

  lemma {:induction false} DropIsSince(events: seq<ToolEvent>, cutoff: int)
    requires Ascending(events)
    ensures Drop(events, cutoff) == Since(events, cutoff)
  {
    if events != [] && events[0].timestamp < cutoff {
      DropIsSince(events[1..], cutoff);
    } else if events != [] {
      SinceAll(events, cutoff);
    }
  }

  lemma {:induction false} DropSnoc(events: seq<ToolEvent>, e: ToolEvent, c: int, d: int)
    requires c <= d <= e.timestamp
    ensures Drop(Drop(events, c) + [e], d) == Drop(events + [e], d)
  {
    if events != [] && events[0].timestamp < c {
      assert (events + [e])[1..] == events[1..] + [e];
      DropSnoc(events[1..], e, c, d);
    }
  }

  lemma {:induction false} AscendingSnoc(events: seq<ToolEvent>, e: ToolEvent)
    requires Ascending(events) && (events != [] ==> Latest(events) <= e.timestamp)
    ensures Ascending(events + [e])
  {
    if |events| > 1 {
      assert (events + [e])[1..] == events[1..] + [e];
      AscendingSnoc(events[1..], e);
    }
  }

  /** A deque that holds the history since `c` holds, after one more event, the history since `d`. */
  lemma {:induction false} DropStep(h: seq<ToolEvent>, e: ToolEvent, c: int, d: int)
    requires Ascending(h) && (h != [] ==> Latest(h) <= e.timestamp) && c <= d <= e.timestamp
    ensures Drop(Since(h, c) + [e], d) == Since(h + [e], d)
  {
    DropIsSince(h, c);
    DropSnoc(h, e, c, d);
    AscendingSnoc(h, e);
    DropIsSince(h + [e], d);
  }

  /** One recorded call of an agent, in terms of its history `h`. */
  lemma {:induction false} RecordStep(c: Config, w: Windows, h: seq<ToolEvent>, call: Call)
    requires c.enabled && Ascending(h) && (h != [] ==> Latest(h) <= call.event.timestamp)
    requires WindowOf(w, call.agent) == Since(h, Latest(h) - c.Window())
    ensures WindowOf(Record(c, w, call), call.agent) ==
            Since(h + [call.event], call.event.timestamp - c.Window())
  {
    var d := call.event.timestamp - c.Window();
    var before := if h == [] then d else Latest(h) - c.Window();
    assert Since(h, Latest(h) - c.Window()) == Since(h, before);
    DropStep(h, call.event, before, d);
  }

  /** Each call is no earlier than the previous call of the same agent. */
  ghost predicate Monotone(calls: seq<Call>) {
    calls == [] ||
    (NotBefore(calls[|calls| - 1], calls[..|calls| - 1]) && Monotone(calls[..|calls| - 1]))
  }

  ghost predicate NotBefore(call: Call, calls: seq<Call>) {
    var h := HistoryOf(calls, call.agent);
    h != [] ==> Latest(h) <= call.event.timestamp
  }

  lemma OthersUntouched(c: Config, w: Windows, call: Call, other: string)
    requires other != call.agent
    ensures WindowOf(Record(c, w, call), other) == WindowOf(w, other)
  {
  }

  /** What is known of an agent's window: it holds the events of the agent's history since the
      start of the window that ends with the latest of them. */
  ghost predicate Mirrors(c: Config, window: seq<ToolEvent>, h: seq<ToolEvent>) {
    Ascending(h) && window == Since(h, Latest(h) - c.Window())
  }

  lemma MirrorStep(c: Config, w: Windows, h: seq<ToolEvent>, call: Call)
    requires c.enabled && Mirrors(c, WindowOf(w, call.agent), h)
    requires h != [] ==> Latest(h) <= call.event.timestamp
    ensures Mirrors(c, WindowOf(Record(c, w, call), call.agent), h + [call.event])
  {
    AscendingSnoc(h, call.event);
    RecordStep(c, w, h, call);
    assert Latest(h + [call.event]) == call.event.timestamp;
  }

  /** After every run with non-decreasing times per agent, an agent's deque is exactly those of
      its events that lie in the window ending with its own latest call; other agents' calls
      leave no trace in it. */
  lemma {:induction false} WindowIsHistory(c: Config, calls: seq<Call>, agent: string)
    requires c.enabled && Monotone(calls)
    ensures Mirrors(c, WindowOf(Run(c, calls), agent), HistoryOf(calls, agent))
  {
    if calls != [] {
      var init, last := calls[..|calls| - 1], calls[|calls| - 1];
      WindowIsHistory(c, init, agent);
      if last.agent == agent {
        MirrorStep(c, Run(c, init), HistoryOf(init, agent), last);
      } else {
        OthersUntouched(c, Run(c, init), last, agent);
        assert HistoryOf(calls, agent) == HistoryOf(init, agent);
      }
    }
  }

  /** The alert is due for an agent with these counts: its own count reaches its own threshold, and
      it carries that count. */
  predicate Due(c: Config, agent: string, calls: nat, denials: nat, tools: nat, a: Alert) {
    a.agent == agent && a.windowSecs == c.windowSecs &&
    match a
    case HighFrequency(_, n, _) => n == calls >= c.maxCalls
    case RepeatedDenials(_, n, _) => n == denials >= c.maxDenials
    case ScopeEscalation(_, n, _) => n == tools >= c.maxUniqueTools
  }

  lemma {:induction false} AlertsOf(c: Config, agent: string, events: seq<ToolEvent>, a: Alert)
    ensures a in Alerts(c, agent, events) <==> Due(c, agent, |events|, Denials(events), |Tools(events)|, a)
  {
  }

  lemma {:induction false} WindowOfLast(c: Config, calls: seq<Call>)
    requires c.enabled && Monotone(calls) && calls != []
    ensures var last := calls[|calls| - 1];
      WindowOf(Run(c, calls), last.agent) == Since(HistoryOf(calls, last.agent), last.event.timestamp - c.Window())
  {
    WindowIsHistory(c, calls, calls[|calls| - 1].agent);
  }

  // ----- the window in terms of the recorded calls -----

  /** The positions of an agent's calls at or after a point in time. */
  ghost function Positions(calls: seq<Call>, agent: string, cutoff: int): set<int> {
    set i | 0 <= i < |calls| && calls[i].agent == agent && calls[i].event.timestamp >= cutoff
  }

  /** Those of them that were denied. */
  ghost function DeniedPositions(calls: seq<Call>, agent: string, cutoff: int): set<int> {
    set i | 0 <= i < |calls| && calls[i].agent == agent && calls[i].event.timestamp >= cutoff && calls[i].event.denied
  }

  /** The tools of these calls. */
  ghost function ToolsCalled(calls: seq<Call>, agent: string, cutoff: int): set<string> {
    set i | 0 <= i < |calls| && calls[i].agent == agent && calls[i].event.timestamp >= cutoff :: calls[i].event.tool
  }

  lemma {:induction false} SinceSnoc(events: seq<ToolEvent>, e: ToolEvent, cutoff: int)
    ensures Since(events + [e], cutoff) == Since(events, cutoff) + if e.timestamp >= cutoff then [e] else []
  {
    if events != [] {
      assert (events + [e])[1..] == events[1..] + [e];
      SinceSnoc(events[1..], e, cutoff);
    }
  }

  lemma {:induction false} DenialsSnoc(events: seq<ToolEvent>, e: ToolEvent)
    ensures Denials(events + [e]) == Denials(events) + if e.denied then 1 else 0
  {
    if events != [] {
      assert (events + [e])[1..] == events[1..] + [e];
      DenialsSnoc(events[1..], e);
    }
  }

  lemma ToolsSnoc(events: seq<ToolEvent>, e: ToolEvent)
    ensures Tools(events + [e]) == Tools(events) + {e.tool}
  {
    assert forall x :: x in events + [e] <==> x in events || x == e;
    assert e in events + [e];
    forall x | x in events
      ensures x.tool in Tools(events + [e])
    {
      assert x in events + [e];
    }
  }

  /** One more call counts if it is the agent's and not too early. */
  lemma PositionsSnoc(calls: seq<Call>, call: Call, agent: string, cutoff: int)
    ensures |Positions(calls + [call], agent, cutoff)| ==
            |Positions(calls, agent, cutoff)| + if call.agent == agent && call.event.timestamp >= cutoff then 1 else 0
  {
    var before, after := Positions(calls, agent, cutoff), Positions(calls + [call], agent, cutoff);
    assert after == if call.agent == agent && call.event.timestamp >= cutoff then before + {|calls|} else before;
  }

  lemma DeniedSnoc(calls: seq<Call>, call: Call, agent: string, cutoff: int)
    ensures |DeniedPositions(calls + [call], agent, cutoff)| == |DeniedPositions(calls, agent, cutoff)| +
            if call.agent == agent && call.event.timestamp >= cutoff && call.event.denied then 1 else 0
  {
    var before, after := DeniedPositions(calls, agent, cutoff), DeniedPositions(calls + [call], agent, cutoff);
    assert after == if call.agent == agent && call.event.timestamp >= cutoff && call.event.denied
                    then before + {|calls|} else before;
  }

  lemma ToolsCalledSnoc(calls: seq<Call>, call: Call, agent: string, cutoff: int)
    ensures ToolsCalled(calls + [call], agent, cutoff) == ToolsCalled(calls, agent, cutoff) +
            if call.agent == agent && call.event.timestamp >= cutoff then {call.event.tool} else {}
  {
    var all := calls + [call];
    forall i | 0 <= i < |calls|
      ensures all[i] == calls[i]
    {
    }
    assert all[|calls|] == call;
    forall t | t in ToolsCalled(calls, agent, cutoff)
      ensures t in ToolsCalled(all, agent, cutoff)
    {
      var i :| 0 <= i < |calls| && calls[i].agent == agent && calls[i].event.timestamp >= cutoff &&
               calls[i].event.tool == t;
      assert all[i].event.tool == t;
    }
  }

  /** What the filtered history counts, in terms of the calls themselves. */
  ghost predicate CountsCalls(calls: seq<Call>, agent: string, cutoff: int, events: seq<ToolEvent>) {
    && |events| == |Positions(calls, agent, cutoff)|
    && Denials(events) == |DeniedPositions(calls, agent, cutoff)|
    && Tools(events) == ToolsCalled(calls, agent, cutoff)
  }

  lemma CountsStep(calls: seq<Call>, call: Call, agent: string, cutoff: int,
      events: seq<ToolEvent>, next: seq<ToolEvent>)
    requires CountsCalls(calls, agent, cutoff, events)
    requires next == if call.agent == agent && call.event.timestamp >= cutoff then events + [call.event] else events
    ensures CountsCalls(calls + [call], agent, cutoff, next)
  {
    PositionsSnoc(calls, call, agent, cutoff);
    DeniedSnoc(calls, call, agent, cutoff);
    ToolsCalledSnoc(calls, call, agent, cutoff);
    DenialsSnoc(events, call.event);
    ToolsSnoc(events, call.event);
  }

  lemma {:induction false} HistoryCounts(calls: seq<Call>, agent: string, cutoff: int)
    ensures CountsCalls(calls, agent, cutoff, Since(HistoryOf(calls, agent), cutoff))
  {
    if calls != [] {
      var init, last := calls[..|calls| - 1], calls[|calls| - 1];
      var h := HistoryOf(init, agent);
      assert calls == init + [last];
      HistoryCounts(init, agent, cutoff);
      SinceSnoc(h, last.event, cutoff);
      assert last.agent != agent ==> HistoryOf(calls, agent) == h;
      assert Since(h, cutoff) + [] == Since(h, cutoff);
      CountsStep(init, last, agent, cutoff, Since(h, cutoff), Since(HistoryOf(calls, agent), cutoff));
    }
  }

  /** After every run, an alert is raised for the last call if and only if its count over all of the
      agent's calls in the window of `windowSecs` seconds that ends with it, the first instant
      included, reaches its own threshold; it carries that count. */
  lemma {:induction false} AlertsOverHistory(c: Config, calls: seq<Call>, window: seq<ToolEvent>, a: Alert)
    requires c.enabled && Monotone(calls) && calls != []
    requires window == WindowOf(Run(c, calls), calls[|calls| - 1].agent)
    ensures var last := calls[|calls| - 1];
      var cutoff := last.event.timestamp - c.windowSecs * 1_000_000_000;
      a in Alerts(c, last.agent, window) <==>
      Due(c, last.agent, |Positions(calls, last.agent, cutoff)|, |DeniedPositions(calls, last.agent, cutoff)|,
          |ToolsCalled(calls, last.agent, cutoff)|, a)
  {
    var last := calls[|calls| - 1];
    var cutoff := last.event.timestamp - c.windowSecs * 1_000_000_000;
    LastWindowCounts(c, calls, cutoff);
    AlertsOfCalls(c, calls, last.agent, cutoff, window, a);
  }

  lemma {:induction false} LastWindowCounts(c: Config, calls: seq<Call>, cutoff: int)
    requires c.enabled && Monotone(calls) && calls != []
    requires cutoff == calls[|calls| - 1].event.timestamp - c.windowSecs * 1_000_000_000
    ensures var agent := calls[|calls| - 1].agent; CountsCalls(calls, agent, cutoff, WindowOf(Run(c, calls), agent))
  {
    WindowOfLast(c, calls);
    HistoryCounts(calls, calls[|calls| - 1].agent, cutoff);
  }

  lemma AlertsOfCalls(c: Config, calls: seq<Call>, agent: string, cutoff: int, window: seq<ToolEvent>, a: Alert)
    requires CountsCalls(calls, agent, cutoff, window)
    ensures a in Alerts(c, agent, window) <==>
            Due(c, agent, |Positions(calls, agent, cutoff)|, |DeniedPositions(calls, agent, cutoff)|,
                |ToolsCalled(calls, agent, cutoff)|, a)
  {
    AlertsOf(c, agent, window, a);
  }
}
