/**
 The turn loop of an agent: at most twenty rounds of asking the provider and executing the tools
 it asks for, behind a cost cap, a rate limit and the autonomy tier.

 Everything the loop cannot control is an input: provider attempts and streams, cancellation,
 approvals, capability verdicts, tool outcomes, and how much time passes.
 */
module AgentTurn {
  import opened Wrappers
  import opened Numbers
  import opened RateLimiter
  import opened ToolRate
  import opened CostTracker

  const MAX_TOOL_LOOPS: nat := 20

  datatype ToolCall = ToolCall(id: string, name: string)

  datatype Message =
    | User(text: string)
    | Assistant(text: string, calls: seq<ToolCall>)
    | ToolResult(callId: string, tool: string, outcome: ToolOutcome)

  /** What a tool message reports: a refusal before execution, or the outcome of the execution. */
  datatype ToolOutcome = Refused(reason: Refusal) | Succeeded(output: string) | Failed(error: string)

  datatype Refusal = RateLimited | LockedTier | NoChannel | DeniedByUser | UnknownTool | NotCapable | InputNotAllowed

  datatype StopReason = EndTurn | MaxTokens | ToolUse

  datatype Response = Response(text: string, calls: seq<ToolCall>, usage: Usage, stop: StopReason) {
    function Reply(): Message {
      Assistant(text, calls)
    }
  }

  datatype TurnError = ProviderFailed | CostCapExceeded | Cancelled | LoopLimit

  // ----- asking the provider -----

  datatype ChatOutcome = Replied(response: Response) | ChatFailed(retryable: bool)

  const U64_MAX: nat := 0xFFFF_FFFF_FFFF_FFFF
  const MAX_DELAY_MS: nat := 300_000

  function Pow2(n: nat): nat {
    if n == 0 then 1 else 2 * Pow2(n - 1)
  }

  /** The backoff before retry `attempt`, with the saturating arithmetic of the source. */
  function Backoff(baseMs: nat, attempt: nat): nat
    requires attempt > 0
  {
    Min(Min(baseMs * Min(Pow2(attempt - 1), U64_MAX), U64_MAX), MAX_DELAY_MS)
  }

  /** The base delay doubled `n` times, capped at five minutes. */
  function Doubled(baseMs: nat, n: nat): nat {
    Min(baseMs * Pow2(n), MAX_DELAY_MS)
  }

  lemma ProductAtLeast(x: nat, y: nat)
    ensures x > 0 ==> x * y >= y
  {
    if x > 0 {
      assert x * y == y + (x - 1) * y;
    }
  }

  lemma SaturationHidden(x: nat, p: nat)
    ensures Min(Min(x * Min(p, U64_MAX), U64_MAX), MAX_DELAY_MS) == Min(x * p, MAX_DELAY_MS)
  {
    ProductAtLeast(x, p);
    ProductAtLeast(x, U64_MAX);
  }

  /** Saturation never shows: the delay is the doubled base, capped at five minutes. */
  lemma BackoffIsCappedDoubling(baseMs: nat, attempt: nat)
    requires attempt > 0
    ensures Backoff(baseMs, attempt) == Doubled(baseMs, attempt - 1)
  {
    SaturationHidden(baseMs, Pow2(attempt - 1));
  }

  /** The first delay is the base and each later one twice the one before it, five minutes at most. */
  lemma BackoffDoubles(baseMs: nat, attempt: nat)
    requires attempt > 0
    ensures Backoff(baseMs, 1) == Min(baseMs, 300_000)
    ensures Backoff(baseMs, attempt + 1) == Min(2 * Backoff(baseMs, attempt), 300_000)
  {
    BackoffIsCappedDoubling(baseMs, 1);
    BackoffIsCappedDoubling(baseMs, attempt);
    BackoffIsCappedDoubling(baseMs, attempt + 1);
    assert Pow2(0) == 1;
    DoubledAgain(baseMs, attempt - 1);
  }

  lemma DoubledAgain(baseMs: nat, n: nat)
    ensures Doubled(baseMs, n + 1) == Min(2 * Doubled(baseMs, n), MAX_DELAY_MS)
  {
    assert baseMs * Pow2(n + 1) == 2 * (baseMs * Pow2(n));
  }

  /** The first outcome that is not retried. */
  function Settled(attempts: nat -> ChatOutcome, maxRetries: nat, attempt: nat): ChatOutcome
    requires attempt <= maxRetries
    decreases maxRetries - attempt
  {
    if attempts(attempt).ChatFailed? && attempts(attempt).retryable && attempt < maxRetries
    then Settled(attempts, maxRetries, attempt + 1)
    else attempts(attempt)
  }

  /** Asks again after each retryable failure, `maxRetries` times at most. */
  method ChatWithRetry(attempts: nat -> ChatOutcome, maxRetries: nat, baseMs: nat)
    returns (outcome: ChatOutcome, delays: seq<nat>)
    ensures outcome == Settled(attempts, maxRetries, 0)
    ensures |delays| <= maxRetries && outcome == attempts(|delays|)
    ensures outcome.ChatFailed? && outcome.retryable ==> |delays| == maxRetries
    ensures forall i :: 0 <= i < |delays| ==> attempts(i).ChatFailed? && attempts(i).retryable
    ensures |delays| > 0 ==> delays[0] == Min(baseMs, 300_000)
    ensures forall i :: 0 < i < |delays| ==> delays[i] == Min(2 * delays[i - 1], 300_000)
  {
    var attempt := 0;
    delays := [];
    while true
      invariant attempt == |delays| <= maxRetries
      invariant Settled(attempts, maxRetries, 0) == Settled(attempts, maxRetries, attempt)
      invariant forall i :: 0 <= i < attempt ==> attempts(i).ChatFailed? && attempts(i).retryable
      invariant attempt > 0 ==> delays[0] == Min(baseMs, 300_000) && delays[attempt - 1] == Backoff(baseMs, attempt)
      invariant forall i :: 0 < i < attempt ==> delays[i] == Min(2 * delays[i - 1], 300_000)
      decreases maxRetries - attempt
    {
      outcome := attempts(attempt);
      if outcome.ChatFailed? && outcome.retryable && attempt < maxRetries {
        attempt := attempt + 1;
        BackoffDoubles(baseMs, if attempt > 1 then attempt - 1 else 1);
        delays := delays + [Backoff(baseMs, attempt)];
      } else {
        return;
      }
    }
  }

  datatype StreamEvent = TextDelta(text: string) | Done(response: Response) | StreamError

  datatype Fetched = Got(response: Response) | FetchFailed | FetchCancelled

  /** The result of reading a stream from its event `i` on, given the last `Done` seen so far. */
  function StreamResult(events: seq<StreamEvent>, cancelled: nat -> bool, i: nat, last: Option<Response>): Fetched
    requires i <= |events|
    decreases |events| - i
  {
    if i == |events| then if last.Some? then Got(last.value) else FetchFailed
    else if cancelled(i) then FetchCancelled
    else
      match events[i]
      case TextDelta(_) => StreamResult(events, cancelled, i + 1, last)
      case Done(r) => StreamResult(events, cancelled, i + 1, Some(r))
      case StreamError => FetchFailed
  }

  /** Before event `n` the stream was neither cancelled nor did it fail. */
  ghost predicate Undisturbed(events: seq<StreamEvent>, cancelled: nat -> bool, n: nat)
    requires n <= |events|
  {
    forall j :: 0 <= j < n ==> !cancelled(j) && !events[j].StreamError?
  }

  /** Reads a stream to its end: the last `Done` wins, a cancellation or an error stops it. */
  method CollectStream(events: seq<StreamEvent>, cancelled: nat -> bool) returns (f: Fetched)
    ensures f == StreamResult(events, cancelled, 0, None)
    ensures f.Got? <==>
      && (forall i :: 0 <= i < |events| ==> !cancelled(i) && !events[i].StreamError?)
      && (exists i :: 0 <= i < |events| && events[i].Done?)
    ensures f.Got? ==> exists i ::
      && 0 <= i < |events| && events[i] == Done(f.response)
      && forall j :: i < j < |events| ==> !events[j].Done?
    ensures f.FetchCancelled? <==> exists i :: 0 <= i < |events| && cancelled(i) && Undisturbed(events, cancelled, i)
    ensures f.FetchFailed? <==>
      || (exists i :: 0 <= i < |events| && !cancelled(i) && events[i].StreamError? && Undisturbed(events, cancelled, i))
      || (Undisturbed(events, cancelled, |events|) && forall i :: 0 <= i < |events| ==> !events[i].Done?)
  {
    var last: Option<Response> := None;
    ghost var at := 0;
    for i := 0 to |events|
      invariant StreamResult(events, cancelled, 0, None) == StreamResult(events, cancelled, i, last)
      invariant forall j :: 0 <= j < i ==> !cancelled(j) && !events[j].StreamError?
      invariant last.Some? ==> 0 <= at < i && events[at] == Done(last.value)
      invariant forall j :: (if last.Some? then at else -1) < j < i ==> !events[j].Done?
    {
      if cancelled(i) {
        return FetchCancelled;
      }
      match events[i]
      case TextDelta(_) =>
      case Done(r) => last, at := Some(r), i;
      case StreamError => return FetchFailed;
    }
    return if last.Some? then Got(last.value) else FetchFailed;
  }

  // ----- the world outside the loop -----

  datatype Tier = Locked | Leash | Trust | Free

  /** How one tool call meets the outside: the time that passes before the rate check, inside it,
      and between it and the execution (an approval is awaited there), the answer of a channel if
      there is one, the registry and capability verdicts, the outcome. */
  datatype ToolEnv = ToolEnv(
    wait: nat,
    lag: nat,
    delay: nat,
    approval: Option<bool>,
    known: bool,
    capable: bool,
    inputAllowed: bool,
    outcome: Result<string, string>)

  datatype Round = Round(
    cancelledAtTop: bool,
    streamOpens: bool,
    events: seq<StreamEvent>,
    cancelledAt: nat -> bool,
    attempts: nat -> ChatOutcome,
    tools: nat -> ToolEnv)

  datatype CompressionOutcome = BelowThreshold | SummaryFailed | Summary(text: string, usage: Usage)

  datatype TurnInput = TurnInput(
    content: string,
    compression: CompressionOutcome,
    rounds: nat -> Round,
    extraction: Option<Usage>)

  /** What asking the provider in one round yields. */
  function Fetch(streaming: bool, maxRetries: nat, round: Round): Fetched {
    if streaming then
      if !round.streamOpens then FetchFailed else StreamResult(round.events, round.cancelledAt, 0, None)
    else
      match Settled(round.attempts, maxRetries, 0)
      case Replied(r) => Got(r)
      case ChatFailed(_) => FetchFailed
  }

  /** Without streaming, attempt `n` is the one that counts: all before it failed and could be retried,
      and it is answered, or it failed for good or without retries left. */
  ghost predicate Asked(attempts: nat -> ChatOutcome, maxRetries: nat, n: nat, fetched: Fetched) {
    && (forall i :: 0 <= i < n ==> attempts(i).ChatFailed? && attempts(i).retryable)
    && match attempts(n)
       case Replied(r) => fetched == Got(r)
       case ChatFailed(retryable) => fetched == FetchFailed && (retryable ==> n == maxRetries)
  }

  // ----- compression -----

  /** The conversation after `maybe_compress_conversation`: the older three fifths of a long
      conversation become one summary message. */
  function Compressed(conversation: seq<Message>, outcome: CompressionOutcome): seq<Message> {
    if |conversation| <= 10 || !outcome.Summary? then conversation
    else [User("[Conversation summary]\n" + outcome.text)] + conversation[|conversation| * 3 / 5..]
  }

  /** The tokens spent on the summary. */
  function CompressionUsage(conversation: seq<Message>, outcome: CompressionOutcome): Option<Usage> {
    if |conversation| > 10 && outcome.Summary? then Some(outcome.usage) else None
  }

  /** Compression keeps the newest two fifths, the last message included, and never grows. */
  lemma CompressedKeepsRecent(conversation: seq<Message>, outcome: CompressionOutcome)
    requires conversation != []
    ensures var c := Compressed(conversation, outcome);
      && c != [] && |c| <= |conversation| && c[|c| - 1] == conversation[|conversation| - 1]
      && (c != conversation ==> |c| < |conversation| && 5 * (|c| - 1) >= 2 * |conversation|)
      && (c != conversation ==> c[1..] == conversation[|conversation| - |c| + 1..])
  {
  }

  // ----- the transcript of a turn -----

  /** One round that used tools: the reply, and the results of its calls. */
  datatype Group = Group(reply: Message, results: seq<Message>)

  /** Exactly one tool message per call, with the same ids in the same order. */
  ghost predicate Whole(g: Group) {
    g.reply.Assistant? && |g.results| == |g.reply.calls| &&
    forall i :: 0 <= i < |g.results| ==> Reports(g.results[i], g.reply.calls[i])
  }

  predicate Reports(m: Message, call: ToolCall) {
    m.ToolResult? && m.callId == call.id && m.tool == call.name
  }

  /** How many of these messages report an execution rather than a refusal. */
  function Executions(results: seq<Message>): nat {
    if results == [] then 0
    else
      var last := results[|results| - 1];
      Executions(results[..|results| - 1]) + if last.ToolResult? && !last.outcome.Refused? then 1 else 0
  }

  function Flatten(groups: seq<Group>): seq<Message> {
    if groups == [] then []
    else
      var last := groups[|groups| - 1];
      Flatten(groups[..|groups| - 1]) + ([last.reply] + last.results)
  }

  /** What a turn works with. */
  datatype Exchange = Exchange(input: TurnInput, streaming: bool, maxRetries: nat, cap: real, rates: Rates) {
    /** What asking the provider in round `i` yields. */
    function Reply(i: nat): Fetched {
      Fetch(streaming, maxRetries, input.rounds(i))
    }

    predicate CancelledAtTop(i: nat) {
      streaming && input.rounds(i).cancelledAtTop
    }

    /** The books after the responses of the first `n` rounds have been billed. */
    function Billed(books: Ledger, n: nat): Ledger {
      if n == 0 then books
      else
        var before := Billed(books, n - 1);
        if Reply(n - 1).Got? then CostTracker.Track(before, rates, Reply(n - 1).response.usage, "turn") else before
    }

    /** The response of round `i`, once billed, keeps the session within its cap. */
    predicate Affordable(books: Ledger, i: nat) {
      !OverCap(cap, Billed(books, i + 1))
    }

    /** Round `i` is not cancelled and yields an affordable response that asks for tools. */
    predicate GoesOn(books: Ledger, i: nat) {
      !CancelledAtTop(i) && Reply(i).Got? && Reply(i).response.stop == ToolUse && Affordable(books, i)
    }
  }

  /** A whole group that answers the provider's response of one round. */
  ghost predicate Answers(g: Group, f: Fetched) {
    Whole(g) && f.Got? && g.reply == f.response.Reply()
  }

  /** The groups of a turn are those of its first rounds, one by one, and each of them goes on. */
  ghost predicate FromRounds(x: Exchange, books: Ledger, groups: seq<Group>) {
    groups == [] ||
    var n := |groups| - 1;
    x.GoesOn(books, n) && Answers(groups[n], x.Reply(n)) && FromRounds(x, books, groups[..n])
  }

  /** The messages were added to the history, and as many calls executed as they report executions. */
  ghost predicate Grown(history: seq<Message>, done: seq<Execution>, added: seq<Message>,
      conversation: seq<Message>, executed: seq<Execution>)
  {
    conversation == history + added && done <= executed && |executed| == |done| + Executions(added)
  }

  /** What a turn returns, adds and has billed that ends in round `n`, the first one that does not go on:
      a cancellation comes first, then a failing provider, then the cap. */
  ghost predicate Ended(x: Exchange, books: Ledger, n: nat,
      r: Result<string, TurnError>, final: seq<Message>, billed: Ledger)
  {
    if n >= MAX_TOOL_LOOPS then Stops(LoopLimit, r, final) && billed == x.Billed(books, n)
    else if x.CancelledAtTop(n) then Stops(Cancelled, r, final) && billed == x.Billed(books, n)
    else
      match x.Reply(n)
      case FetchFailed => Stops(ProviderFailed, r, final) && billed == x.Billed(books, n)
      case FetchCancelled => Stops(Cancelled, r, final) && billed == x.Billed(books, n)
      case Got(response) =>
        if !x.Affordable(books, n) then Stops(CostCapExceeded, r, final) && billed == x.Billed(books, n + 1)
        else
          && response.stop != ToolUse && r == Ok(response.text) && final == [response.Reply()]
          && billed == Charged(x.Billed(books, n + 1), x.rates, x.input.extraction, "extraction")
  }

  lemma LimitIsTwenty(x: Exchange, books: Ledger, n: nat, r: Result<string, TurnError>, final: seq<Message>,
      billed: Ledger)
    requires n <= MAX_TOOL_LOOPS && Ended(x, books, n, r, final, billed)
    ensures n <= 20 && (r == Err(LoopLimit) <==> n == 20)
  {
  }

  ghost predicate Stops(e: TurnError, r: Result<string, TurnError>, final: seq<Message>) {
    r == Err(e) && final == []
  }

  // ----- the gates of a tool call -----

  /** The refusal that a call meets after the rate check, if any. */
  function Gate(tier: Tier, env: ToolEnv): Option<Refusal> {
    if tier == Locked then Some(LockedTier)
    else if tier == Leash && env.approval == None then Some(NoChannel)
    else if tier == Leash && env.approval == Some(false) then Some(DeniedByUser)
    else if !env.known then Some(UnknownTool)
    else if !env.capable then Some(NotCapable)
    else if !env.inputAllowed then Some(InputNotAllowed)
    else None
  }

  /** What the tool message of a call reports, given whether the rate check let it through. */
  function Outcome(tier: Tier, env: ToolEnv, passed: bool): ToolOutcome {
    if !passed then Refused(RateLimited)
    else if Gate(tier, env).Some? then Refused(Gate(tier, env).value)
    else if env.outcome.Ok? then Succeeded(env.outcome.value)
    else Failed(env.outcome.error)
  }

  /** What a tool call changes of an agent: the limiter's deque, the executed calls and the clock. */
  datatype Metering = Reading(timestamps: seq<int>, executed: seq<Execution>, clock: int) {
    function Check(max: nat, env: ToolEnv): (seq<int>, bool) {
      Checked(max, timestamps, clock + env.wait, clock + env.wait + env.lag)
    }

    predicate Passes(max: nat, env: ToolEnv) {
      Check(max, env).1
    }
  }

  /** A call meets the first refusal of the rate check and the gates; without one it starts after its delay. */
  ghost predicate Admitted(max: nat, tier: Tier, env: ToolEnv, before: Metering,
      refusal: Option<Refusal>, after: Metering)
  {
    var gate := before.clock + env.wait + env.lag;
    && after.timestamps == before.Check(max, env).0
    && refusal == (if before.Passes(max, env) then Gate(tier, env) else Some(RateLimited))
    && (refusal.Some? ==> after.clock == gate && after.executed == before.executed)
    && (refusal.None? ==>
          after.clock == gate + env.delay && after.executed == before.executed + [Execution(gate, gate + env.delay)])
  }

  /** A call as the rate limit sees it. */
  function AttemptOf(tier: Tier, env: ToolEnv): Attempt {
    Attempt(env.wait, env.lag, if Gate(tier, env).None? then Some(env.delay) else None)
  }

  lemma AdmittedReplays(max: nat, created: int, attempts: seq<Attempt>, tier: Tier, env: ToolEnv,
      before: Metering, refusal: Option<Refusal>, after: Metering)
    requires Replayed(max, created, attempts, before.timestamps, before.executed, before.clock)
    requires Admitted(max, tier, env, before, refusal, after)
    ensures Replayed(max, created, attempts + [AttemptOf(tier, env)], after.timestamps, after.executed, after.clock)
  {
    ReplayedStep(max, created, attempts, before.timestamps, before.executed, before.clock, AttemptOf(tier, env),
                 after.timestamps, after.executed, after.clock);
  }

  /** When each outcome is reported. A call runs if and only if it passed the rate check, the tier is
      not Locked, a Leash call was approved, the tool is known, the agent capable and the input allowed. */
  predicate Reported(tier: Tier, env: ToolEnv, passed: bool, outcome: ToolOutcome) {
    var allowed := tier != Locked && (tier == Leash ==> env.approval == Some(true));
    var runs := passed && allowed && env.known && env.capable && env.inputAllowed;
    match outcome
    case Refused(RateLimited) => !passed
    case Refused(LockedTier) => passed && tier == Locked
    case Refused(NoChannel) => passed && tier == Leash && env.approval == None
    case Refused(DeniedByUser) => passed && tier == Leash && env.approval == Some(false)
    case Refused(UnknownTool) => passed && allowed && !env.known
    case Refused(NotCapable) => passed && allowed && env.known && !env.capable
    case Refused(InputNotAllowed) => passed && allowed && env.known && env.capable && !env.inputAllowed
    case Succeeded(output) => runs && env.outcome == Ok(output)
    case Failed(error) => runs && env.outcome == Err(error)
  }

  lemma OutcomeReported(tier: Tier, env: ToolEnv, passed: bool)
    ensures Reported(tier, env, passed, Outcome(tier, env, passed))
    ensures Gate(tier, env).None? ==> MayRun(tier, env)
  {
    match env.approval
    case None =>
    case Some(approved) => assert approved == true || approved == false;
  }

  /** The conditions exclude each other, so each outcome is reported exactly under its own. */
  lemma ReportedOnce(tier: Tier, env: ToolEnv, passed: bool, x: ToolOutcome, y: ToolOutcome)
    requires Reported(tier, env, passed, x) && Reported(tier, env, passed, y)
    ensures x == y
  {
  }

  // ----- the agent -----

  /** What a session is made of between two turns. */
  datatype Session = Session(conversation: seq<Message>, books: Ledger, executed: seq<Execution>)

  /** What one round of a turn that started with `books` comes to: it ends the turn, or adds one whole group. */
  ghost predicate RoundDone(x: Exchange, books: Ledger, i: nat, before: Session,
      end: Option<Result<string, TurnError>>, group: Group, final: seq<Message>, after: Session)
  {
    match end
    case None =>
      && x.GoesOn(books, i) && Answers(group, x.Reply(i)) && after.books == x.Billed(books, i + 1)
      && Grown(before.conversation, before.executed, [group.reply] + group.results, after.conversation, after.executed)
    case Some(r) =>
      && Ended(x, books, i, r, final, after.books)
      && Grown(before.conversation, before.executed, final, after.conversation, after.executed)
  }

  /** What handling one response comes to: its cost is tracked first, and over the cap nothing else
      changes; tool use adds one whole group, any other stop one final message. */
  ghost predicate Handled(cap: real, rates: Rates, before: Session, response: Response, extraction: Option<Usage>,
      r: Result<Option<string>, TurnError>, group: Group, after: Session)
  {
    var books := CostTracker.Track(before.books, rates, response.usage, "turn");
    if OverCap(cap, books) then
      r == Err(CostCapExceeded) && after == Session(before.conversation, books, before.executed)
    else if response.stop == ToolUse then
      && r == Ok(None) && after.books == books && Whole(group) && group.reply == response.Reply()
      && Grown(before.conversation, before.executed, [group.reply] + group.results, after.conversation, after.executed)
    else
      && r == Ok(Some(response.text))
      && after == Session(before.conversation + [response.Reply()],
                          Charged(books, rates, extraction, "extraction"), before.executed)
  }

  /** Whether a handled response ends the turn, and with which message. */
  function EndOf(r: Result<Option<string>, TurnError>): Option<Result<string, TurnError>> {
    match r
    case Err(e) => Some(Err(e))
    case Ok(None) => None
    case Ok(Some(text)) => Some(Ok(text))
  }

  function FinalOf(response: Response, r: Result<Option<string>, TurnError>): seq<Message> {
    if r.Ok? && r.value.Some? then [response.Reply()] else []
  }

  lemma {:induction false} HandledRound(x: Exchange, books: Ledger, i: nat, before: Session, response: Response,
      r: Result<Option<string>, TurnError>, group: Group, after: Session)
    requires i < MAX_TOOL_LOOPS && !x.CancelledAtTop(i) && x.Reply(i) == Got(response)
    requires before.books == x.Billed(books, i)
    requires Handled(x.cap, x.rates, before, response, x.input.extraction, r, group, after)
    ensures RoundDone(x, books, i, before, EndOf(r), group, FinalOf(response, r), after)
  {
    assert x.Billed(books, i + 1) == CostTracker.Track(before.books, x.rates, response.usage, "turn");
  }

  /** What an executed call met: the tier is not Locked, a Leash call was approved, the tool is known,
      the agent capable and the input allowed. */
  predicate MayRun(tier: Tier, env: ToolEnv) {
    && tier != Locked && (tier == Leash ==> env.approval == Some(true))
    && env.known && env.capable && env.inputAllowed
  }

  /** Every call executed since then might run. */
  ghost predicate Permits(tier: Tier, before: seq<ToolEnv>, done: seq<Execution>,
      admitted: seq<ToolEnv>, executed: seq<Execution>)
  {
    && before <= admitted && done <= executed && |admitted| - |before| == |executed| - |done|
    && forall k :: |before| <= k < |admitted| ==> MayRun(tier, admitted[k])
  }

  lemma PermitsOn(tier: Tier, before: seq<ToolEnv>, done: seq<Execution>, admitted: seq<ToolEnv>,
      executed: seq<Execution>, admitted': seq<ToolEnv>, executed': seq<Execution>)
    requires Permits(tier, before, done, admitted, executed)
    requires Permits(tier, admitted, executed, admitted', executed')
    ensures Permits(tier, before, done, admitted', executed')
  {
    forall k | |before| <= k < |admitted'|
      ensures MayRun(tier, admitted'[k])
    {
      assert k < |admitted| ==> admitted'[k] == admitted[k];
    }
  }

  lemma LockedRunsNothing(before: seq<ToolEnv>, done: seq<Execution>, admitted: seq<ToolEnv>, executed: seq<Execution>)
    requires Permits(Locked, before, done, admitted, executed)
    ensures executed == done
  {
    assert forall k :: |before| <= k < |admitted| ==> MayRun(Locked, admitted[k]);
    assert |before| < |admitted| ==> MayRun(Locked, admitted[|before|]);
  }

  class Agent {
    const maxRetries: nat
    const retryBaseDelayMs: nat
    var tier: Tier
    const limiter: Limiter
    const tracker: Tracker
    var conversation: seq<Message>
    var clock: int

    /** All tool calls so far as the rate limit saw them, and those that were executed. */
    ghost const created: int
    ghost var attempts: seq<Attempt>
    ghost var executed: seq<Execution>

    /** What the executed calls met. */
    ghost var admitted: seq<ToolEnv>

    /** The limiter's deque and the executed calls are what the tool calls so far lead to. */
    ghost predicate Metered()
      reads this, limiter
    {
      Replayed(limiter.maxPerMinute, created, attempts, limiter.timestamps, executed, clock)
    }

    ghost function Meter(): Metering
      reads this, limiter
    {
      Reading(limiter.timestamps, executed, clock)
    }

    ghost predicate Valid()
      reads this, limiter, tracker
    {
      && Metered()
      && Balanced(tracker.Books())
      && Priced(tracker.Books(), tracker.rates)
    }

    ghost function Now(): Session
      reads this, tracker
    {
      Session(conversation, tracker.Books(), executed)
    }

    constructor (maxRetries: nat, retryBaseDelayMs: nat, tier: Tier, limit: nat, cap: real, rates: Rates, clock: int)
      ensures Valid() && fresh(limiter) && fresh(tracker) && Now() == Session([], OPENED, [])
      ensures limiter.maxPerMinute == limit && tracker.maxCostUsd == cap && tracker.rates == rates
    {
      this.maxRetries, this.retryBaseDelayMs, this.tier, this.clock := maxRetries, retryBaseDelayMs, tier, clock;
      limiter := new Limiter(limit);
      tracker := new Tracker(cap, rates);
      conversation, attempts, executed, admitted, created := [], [], [], [], clock;
    }

    /** In every closed minute at most `maxPerMinute` executed calls passed the rate check, and at
        most one more started. */
    lemma {:induction false} ExecutionRateBound(lo: int)
      requires Metered()
      ensures CountIn(Gates(executed), lo, lo + WINDOW) <= limiter.maxPerMinute
      ensures CountIn(Starts(executed), lo, lo + WINDOW) <=
              limiter.maxPerMinute + if Straddles(executed, lo) then 1 else 0
    {
      StartRateBound(limiter.maxPerMinute, created, attempts, lo);
    }

    /** The rate check of a call, at the agent's clock. */
    method PassRateLimit(wait: nat, lag: nat) returns (passed: bool)
      modifies this`clock, limiter
      ensures clock == old(clock) + wait + lag
      ensures (limiter.timestamps, passed) ==
              Checked(limiter.maxPerMinute, old(limiter.timestamps), old(clock) + wait, clock)
    {
      var now := clock + wait;
      clock := now + lag;
      passed := limiter.Check(now, clock);
    }

    /** The gates between the rate check and the execution: the autonomy tier, the registry and the
        capability check. */
    method PassGates(env: ToolEnv) returns (refusal: Option<Refusal>)
      ensures refusal == Gate(tier, env)
    {
      match tier {
        case Locked =>
          return Some(LockedTier);
        case Leash =>
          match env.approval {
            case Some(approved) =>
              if !approved {
                return Some(DeniedByUser);
              }
            case None =>
              return Some(NoChannel);
          }
        case Trust | Free =>
      }
      if !env.known {
        return Some(UnknownTool);
      }
      if !env.capable {
        return Some(NotCapable);
      }
      if !env.inputAllowed {
        return Some(InputNotAllowed);
      }
      return None;
    }

    /** Every gate a call has to pass; a call that passes them all starts after its delay. */
    method Admit(env: ToolEnv) returns (refusal: Option<Refusal>)
      modifies this`clock, this`executed, this`admitted, limiter
      ensures Admitted(limiter.maxPerMinute, tier, env, old(Meter()), refusal, Meter())
      ensures admitted == if refusal.None? then old(admitted) + [env] else old(admitted)
    {
      var passed := PassRateLimit(env.wait, env.lag);
      if !passed {
        return Some(RateLimited);
      }
      refusal := PassGates(env);
      if refusal.None? {
        executed, admitted := executed + [Execution(clock, clock + env.delay)], admitted + [env];
        clock := clock + env.delay;
      }
    }

    /** The same, with the account of all tool calls kept. */
    method AdmitMetered(env: ToolEnv) returns (refusal: Option<Refusal>)
      requires Metered()
      modifies this`clock, this`attempts, this`executed, this`admitted, limiter
      ensures Metered() && Admitted(limiter.maxPerMinute, tier, env, old(Meter()), refusal, Meter())
      ensures admitted == if refusal.None? then old(admitted) + [env] else old(admitted)
    {
      refusal := Admit(env);
      AdmittedReplays(limiter.maxPerMinute, created, attempts, tier, env, old(Meter()), refusal, Meter());
      attempts := attempts + [AttemptOf(tier, env)];
    }

    /** One tool call: it is executed only if it passes the rate check, the autonomy tier, the
        registry and the capability check, and it always yields one message with its own id. */
    method ExecuteSingleTool(call: ToolCall, env: ToolEnv) returns (m: Message)
      requires Metered()
      modifies this`clock, this`attempts, this`executed, this`admitted, limiter
      ensures Metered()
      ensures m == ToolResult(call.id, call.name, Outcome(tier, env, old(Meter()).Passes(limiter.maxPerMinute, env)))
      ensures Admitted(limiter.maxPerMinute, tier, env, old(Meter()),
                       if m.outcome.Refused? then Some(m.outcome.reason) else None, Meter())
      ensures Reported(tier, env, old(Meter()).Passes(limiter.maxPerMinute, env), m.outcome)
      ensures |executed| == |old(executed)| + if m.outcome.Refused? then 0 else 1
      ensures Permits(tier, old(admitted), old(executed), admitted, executed)
    {
      OutcomeReported(tier, env, Meter().Passes(limiter.maxPerMinute, env));
      var refusal := AdmitMetered(env);
      if refusal.Some? {
        return ToolResult(call.id, call.name, Refused(refusal.value));
      }
      match env.outcome {
        case Ok(output) => return ToolResult(call.id, call.name, Succeeded(output));
        case Err(e) => return ToolResult(call.id, call.name, Failed(e));
      }
    }

    method ExecuteToolCalls(response: Response, tools: nat -> ToolEnv) returns (results: seq<Message>)
      requires Metered()
      modifies this`clock, this`attempts, this`executed, this`admitted, limiter
      ensures Metered() && Whole(Group(response.Reply(), results))
      ensures old(executed) <= executed && |executed| == |old(executed)| + Executions(results)
      ensures Permits(tier, old(admitted), old(executed), admitted, executed)
    {
      results := [];
      for i := 0 to |response.calls|
        invariant Metered() && |results| == i
        invariant forall k :: 0 <= k < i ==> Reports(results[k], response.calls[k])
        invariant old(executed) <= executed && |executed| == |old(executed)| + Executions(results)
        invariant Permits(tier, old(admitted), old(executed), admitted, executed)
      {
        ghost var admitted0, executed0 := admitted, executed;
        var m := ExecuteSingleTool(response.calls[i], tools(i));
        PermitsOn(tier, old(admitted), old(executed), admitted0, executed0, admitted, executed);
        assert (results + [m])[..i] == results;
        results := results + [m];
      }
    }

    method Track(usage: Usage, category: string) returns (ok: bool)
      requires Valid()
      modifies tracker
      ensures Valid() && tracker.Books() == CostTracker.Track(old(tracker.Books()), tracker.rates, usage, category)
      ensures ok == !OverCap(tracker.maxCostUsd, tracker.Books())
    {
      TrackPriced(tracker.Books(), tracker.rates, usage, category);
      TrackBalanced(tracker.Books(), tracker.rates, usage, category);
      ok := tracker.TrackWithCategory(usage, category);
    }

    method MaybeCompress(outcome: CompressionOutcome)
      requires Valid()
      modifies this`conversation, tracker
      ensures Valid() && conversation == Compressed(old(conversation), outcome)
      ensures executed == old(executed)
      ensures tracker.Books() ==
              Charged(old(tracker.Books()), tracker.rates, CompressionUsage(old(conversation), outcome), "compression")
      ensures |old(conversation)| > 10 && outcome.Summary? ==>
        && conversation == [User("[Conversation summary]\n" + outcome.text)] +
                           old(conversation)[|old(conversation)| * 3 / 5..]
        && tracker.Books() == CostTracker.Track(old(tracker.Books()), tracker.rates, outcome.usage, "compression")
      ensures |old(conversation)| <= 10 || !outcome.Summary? ==>
        conversation == old(conversation) && tracker.Books() == old(tracker.Books())
    {
      if |conversation| <= 10 {
        return;
      }
      if outcome.Summary? {
        var split := |conversation| * 3 / 5;
        var compressed := [User("[Conversation summary]\n" + outcome.text)];
        compressed := compressed + conversation[split..];
        if |compressed| < |conversation| {
          var _ := Track(outcome.usage, "compression");
          conversation := compressed;
        }
      }
    }

    /** Tracks the cost first; only a response within the cap adds messages or executes tools. */
    method HandleResponse(response: Response, tools: nat -> ToolEnv, extraction: Option<Usage>)
      returns (r: Result<Option<string>, TurnError>, ghost group: Group)
      requires Valid()
      modifies this`conversation, this`clock, this`attempts, this`executed, this`admitted, limiter, tracker
      ensures Valid()
      ensures Handled(tracker.maxCostUsd, tracker.rates, old(Now()), response, extraction, r, group, Now())
      ensures Permits(tier, old(admitted), old(executed), admitted, executed)
    {
      group := Group(response.Reply(), []);
      var ok := Track(response.usage, "turn");
      if !ok {
        return Err(CostCapExceeded), group;
      }
      match response.stop {
        case EndTurn | MaxTokens =>
          conversation := conversation + [response.Reply()];
          if extraction.Some? {
            var _ := Track(extraction.value, "extraction");
          }
          return Ok(Some(response.text)), group;
        case ToolUse =>
          var results := ExecuteToolCalls(response, tools);
          group := Group(response.Reply(), results);
          conversation := conversation + [response.Reply()];
          conversation := conversation + results;
          ExecutionsConcat([group.reply], group.results);
          return Ok(None), group;
      }
    }

    /** One request of a round: a stream, or a chat with retries. */
    method FetchRound(streaming: bool, round: Round) returns (fetched: Fetched)
      ensures fetched == Fetch(streaming, maxRetries, round)
      ensures streaming && !round.streamOpens ==> fetched.FetchFailed?
      ensures streaming && round.streamOpens ==> fetched == StreamResult(round.events, round.cancelledAt, 0, None)
      ensures !streaming ==> exists n :: 0 <= n <= maxRetries && Asked(round.attempts, maxRetries, n, fetched)
    {
      if streaming {
        if !round.streamOpens {
          return FetchFailed;
        }
        fetched := CollectStream(round.events, round.cancelledAt);
      } else {
        var outcome, delays := ChatWithRetry(round.attempts, maxRetries, retryBaseDelayMs);
        fetched := if outcome.Replied? then Got(outcome.response) else FetchFailed;
        assert Asked(round.attempts, maxRetries, |delays|, fetched);
      }
    }

    /** What a turn of this agent works with. */
    ghost function Terms(input: TurnInput, streaming: bool): Exchange {
      Exchange(input, streaming, maxRetries, tracker.maxCostUsd, tracker.rates)
    }

    /** Round `i` once the provider has answered. */
    method AnswerRound(input: TurnInput, streaming: bool, i: nat, response: Response, ghost books: Ledger)
      returns (end: Option<Result<string, TurnError>>, ghost group: Group, ghost final: seq<Message>)
      requires Valid() && i < MAX_TOOL_LOOPS && tracker.Books() == Terms(input, streaming).Billed(books, i)
      requires !Terms(input, streaming).CancelledAtTop(i) && Terms(input, streaming).Reply(i) == Got(response)
      modifies this`conversation, this`clock, this`attempts, this`executed, this`admitted, limiter, tracker
      ensures Valid() && RoundDone(Terms(input, streaming), books, i, old(Now()), end, group, final, Now())
      ensures Permits(tier, old(admitted), old(executed), admitted, executed)
    {
      ghost var before := Now();
      var handled;
      handled, group := HandleResponse(response, input.rounds(i).tools, input.extraction);
      HandledRound(Terms(input, streaming), books, i, before, response, handled, group, Now());
      end := EndOf(handled);
      final := FinalOf(response, handled);
    }

    method OneRound(input: TurnInput, streaming: bool, i: nat, ghost books: Ledger)
      returns (end: Option<Result<string, TurnError>>, ghost group: Group, ghost final: seq<Message>)
      requires Valid() && i < MAX_TOOL_LOOPS && tracker.Books() == Terms(input, streaming).Billed(books, i)
      modifies this`conversation, this`clock, this`attempts, this`executed, this`admitted, limiter, tracker
      ensures Valid() && RoundDone(Terms(input, streaming), books, i, old(Now()), end, group, final, Now())
      ensures Permits(tier, old(admitted), old(executed), admitted, executed)
    {
      group, final := Group(User(""), []), [];
      var round := input.rounds(i);
      if streaming && round.cancelledAtTop {
        return Some(Err(Cancelled)), group, final;
      }
      var fetched := FetchRound(streaming, round);
      match fetched {
        case FetchFailed => return Some(Err(ProviderFailed)), group, final;
        case FetchCancelled => return Some(Err(Cancelled)), group, final;
        case Got(response) => end, group, final := AnswerRound(input, streaming, i, response, books);
      }
    }

    /** The rounds of a turn, after the user message is in place. */
    method Rounds(input: TurnInput, streaming: bool)
      returns (r: Result<string, TurnError>, ghost groups: seq<Group>, ghost final: seq<Message>)
      requires Valid()
      modifies this`conversation, this`clock, this`attempts, this`executed, this`admitted, limiter, tracker
      ensures Valid() && |groups| <= MAX_TOOL_LOOPS
      ensures FromRounds(Terms(input, streaming), old(tracker.Books()), groups)
      ensures Ended(Terms(input, streaming), old(tracker.Books()), |groups|, r, final, tracker.Books())
      ensures Grown(old(conversation), old(executed), Flatten(groups) + final, conversation, executed)
      ensures Permits(tier, old(admitted), old(executed), admitted, executed)
    {
      groups, final := [], [];
      ghost var x := Terms(input, streaming);
      for i := 0 to MAX_TOOL_LOOPS
        invariant Valid() && |groups| == i && FromRounds(x, old(tracker.Books()), groups)
        invariant tracker.Books() == x.Billed(old(tracker.Books()), i)
        invariant Grown(old(conversation), old(executed), Flatten(groups), conversation, executed)
        invariant Permits(tier, old(admitted), old(executed), admitted, executed)
      {
        var end;
        ghost var group;
        ghost var before, admitted0 := Now(), admitted;
        end, group, final := OneRound(input, streaming, i, old(tracker.Books()));
        PermitsOn(tier, old(admitted), old(executed), admitted0, before.executed, admitted, executed);
        if end.Some? {
          GrownStep(old(conversation), old(executed), Flatten(groups), before, final, Now());
          return end.value, groups, final;
        }
        NextGroup(x, old(tracker.Books()), groups, group);
        GrownStep(old(conversation), old(executed), Flatten(groups), before, [group.reply] + group.results, Now());
        groups := groups + [group];
      }
      assert Flatten(groups) + [] == Flatten(groups);
      return Err(LoopLimit), groups, [];
    }

    /** One turn, streaming or not. On every exit the conversation is the compressed history that
        ends in the new user message, then whole tool groups, one for each round that goes on and at
        most twenty, then a final assistant message exactly when the turn succeeds. The books are
        those before the turn, with the compression, every response and the extraction billed. */
    method Turn(input: TurnInput, streaming: bool)
      returns (r: Result<string, TurnError>, ghost groups: seq<Group>, ghost final: seq<Message>)
      requires Valid()
      modifies this`conversation, this`clock, this`attempts, this`executed, this`admitted, limiter, tracker
      ensures Valid() && |groups| <= 20 && (r == Err(LoopLimit) <==> |groups| == 20)
      ensures var books := AfterCompression(tracker.rates, old(Now()), input);
        && FromRounds(Terms(input, streaming), books, groups)
        && Ended(Terms(input, streaming), books, |groups|, r, final, tracker.Books())
      ensures Grown(Compressed(old(conversation) + [User(input.content)], input.compression), old(executed),
                    Flatten(groups) + final, conversation, executed)
      ensures Absorbs(tracker.maxCostUsd, tracker.rates, old(Now()), input, r, Now())
      ensures ReportsCap(tracker.maxCostUsd, r, Now())
      ensures Permits(tier, old(admitted), old(executed), admitted, executed)
      ensures tier == Locked ==> executed == old(executed)
    {
      conversation := conversation + [User(input.content)];
      MaybeCompress(input.compression);
      ghost var books := tracker.Books();
      r, groups, final := Rounds(input, streaming);
      LimitIsTwenty(Terms(input, streaming), books, |groups|, r, final, tracker.Books());
      OverCapTurn(Terms(input, streaming), old(Now()), books, groups, final, r, Now());
      if tier == Locked {
        LockedRunsNothing(old(admitted), old(executed), admitted, executed);
      }
    }

    /** A conversation of any number of turns. Once the session is over its cap, or a turn failed
        for that reason, every later turn fails, executes nothing and adds no assistant message. */
    method Converse(inputs: seq<TurnInput>, streaming: nat -> bool)
      returns (results: seq<Result<string, TurnError>>, ghost sessions: seq<Session>)
      requires Valid()
      modifies this`conversation, this`clock, this`attempts, this`executed, this`admitted, limiter, tracker
      ensures Valid() && |results| == |inputs| && |sessions| == |inputs| + 1
      ensures sessions[0] == old(Now()) && sessions[|inputs|] == Now()
      ensures forall k :: 0 <= k < |inputs| ==> ReportsCap(tracker.maxCostUsd, results[k], sessions[k + 1])
      ensures NonNegative(tracker.rates) ==>
                forall i, j :: 0 <= i <= j < |inputs| && OverCap(tracker.maxCostUsd, sessions[i].books) ==>
                  SilentTurn(tracker.maxCostUsd, sessions[i], sessions[j], inputs[j], results[j], sessions[j + 1])
      ensures Permits(tier, old(admitted), old(executed), admitted, executed)
      ensures tier == Locked ==> executed == old(executed)
    {
      results, sessions := [], [Now()];
      for k := 0 to |inputs|
        invariant Valid() && |results| == k && |sessions| == k + 1
        invariant sessions[0] == old(Now()) && sessions[k] == Now()
        invariant AllAbsorb(tracker.maxCostUsd, tracker.rates, sessions, inputs, results)
        invariant Permits(tier, old(admitted), old(executed), admitted, executed)
      {
        ghost var admitted0, executed0 := admitted, executed;
        var r, _, _ := Turn(inputs[k], streaming(k));
        PermitsOn(tier, old(admitted), old(executed), admitted0, executed0, admitted, executed);
        AbsorbsNext(tracker.maxCostUsd, tracker.rates, sessions, inputs, results, r, Now());
        results, sessions := results + [r], sessions + [Now()];
      }
      SilentAfterCap(tracker.maxCostUsd, tracker.rates, sessions, inputs, results);
      if tier == Locked {
        LockedRunsNothing(old(admitted), old(executed), admitted, executed);
      }
    }
  }

  lemma {:induction false} NextGroup(x: Exchange, books: Ledger, groups: seq<Group>, g: Group)
    requires FromRounds(x, books, groups) && x.GoesOn(books, |groups|) && Answers(g, x.Reply(|groups|))
    ensures FromRounds(x, books, groups + [g])
    ensures Flatten(groups + [g]) == Flatten(groups) + ([g.reply] + g.results)
  {
    assert (groups + [g])[..|groups|] == groups;
  }

  lemma GrownStep(history: seq<Message>, done: seq<Execution>, added: seq<Message>, before: Session,
      more: seq<Message>, after: Session)
    requires Grown(history, done, added, before.conversation, before.executed)
    requires Grown(before.conversation, before.executed, more, after.conversation, after.executed)
    ensures Grown(history, done, added + more, after.conversation, after.executed)
  {
    ExecutionsConcat(added, more);
    assert history + added + more == history + (added + more);
  }

  lemma {:induction false} ExecutionsConcat(a: seq<Message>, b: seq<Message>)
    ensures Executions(a + b) == Executions(a) + Executions(b)
  {
    if b == [] {
      assert a + b == a;
    } else {
      var n := |b| - 1;
      assert (a + b)[..|a| + n] == a + b[..n];
      ExecutionsConcat(a, b[..n]);
    }
  }

  // ----- the cost cap over a whole session -----

  function Charged(l: Ledger, rates: Rates, usage: Option<Usage>, category: string): Ledger {
    if usage.Some? then CostTracker.Track(l, rates, usage.value, category) else l
  }

  predicate NonNegative(rates: Rates) {
    rates.input >= 0.0 && rates.output >= 0.0
  }

  lemma ChargedAbsorbs(cap: real, l: Ledger, rates: Rates, usage: Option<Usage>, category: string)
    requires NonNegative(rates) && OverCap(cap, l)
    ensures OverCap(cap, Charged(l, rates, usage, category))
  {
    if usage.Some? {
      CapAbsorbs(cap, l, rates, usage.value, category);
    }
  }

  lemma {:induction false} BilledAbsorbs(x: Exchange, books: Ledger, n: nat)
    requires NonNegative(x.rates) && OverCap(x.cap, books)
    ensures OverCap(x.cap, x.Billed(books, n))
  {
    if n > 0 {
      BilledAbsorbs(x, books, n - 1);
      if x.Reply(n - 1).Got? {
        CapAbsorbs(x.cap, x.Billed(books, n - 1), x.rates, x.Reply(n - 1).response.usage, "turn");
      }
    }
  }

  /** The books of a session when the rounds of its next turn start. */
  function AfterCompression(rates: Rates, before: Session, input: TurnInput): Ledger {
    Charged(before.books, rates,
            CompressionUsage(before.conversation + [User(input.content)], input.compression), "compression")
  }

  /** Rounds that start over the cap yield no group and no answer, and leave the session over it. */
  lemma {:induction false} OverCapRounds(x: Exchange, books: Ledger, groups: seq<Group>,
      r: Result<string, TurnError>, final: seq<Message>, billed: Ledger)
    requires FromRounds(x, books, groups) && Ended(x, books, |groups|, r, final, billed)
    requires NonNegative(x.rates) && OverCap(x.cap, books)
    ensures groups == [] && final == [] && r.Err? && OverCap(x.cap, billed)
  {
    BilledAbsorbs(x, books, |groups|);
    BilledAbsorbs(x, books, |groups| + 1);
  }

  lemma {:induction false} OverCapTurn(x: Exchange, before: Session, books: Ledger,
      groups: seq<Group>, final: seq<Message>, r: Result<string, TurnError>, after: Session)
    requires books == AfterCompression(x.rates, before, x.input)
    requires FromRounds(x, books, groups) && Ended(x, books, |groups|, r, final, after.books)
    requires Grown(Compressed(before.conversation + [User(x.input.content)], x.input.compression), before.executed,
                   Flatten(groups) + final, after.conversation, after.executed)
    ensures Absorbs(x.cap, x.rates, before, x.input, r, after)
  {
    if NonNegative(x.rates) && OverCap(x.cap, books) {
      OverCapRounds(x, books, groups, r, final, after.books);
      assert Flatten(groups) + final == [];
    }
  }

  /** A turn whose rounds start over the cap, be it by its own compression, fails, executes no tool,
      adds no assistant message, and leaves the session over the cap. */
  ghost predicate Absorbs(cap: real, rates: Rates, before: Session, input: TurnInput,
      r: Result<string, TurnError>, after: Session)
  {
    NonNegative(rates) && OverCap(cap, AfterCompression(rates, before, input)) ==>
      SilentTurn(cap, before, before, input, r, after)
  }

  /** A failed turn that leaves the session over the cap, with nothing executed since `start` and
      only the user message added. */
  ghost predicate SilentTurn(cap: real, start: Session, before: Session, input: TurnInput,
      r: Result<string, TurnError>, after: Session)
  {
    && r.Err?
    && OverCap(cap, after.books)
    && after.executed == before.executed == start.executed
    && after.conversation == Compressed(before.conversation + [User(input.content)], input.compression)
  }

  /** A turn that fails for the cap leaves the session over it. */
  ghost predicate ReportsCap(cap: real, r: Result<string, TurnError>, after: Session) {
    r == Err(CostCapExceeded) ==> OverCap(cap, after.books)
  }

  /** The turns so far, between one session and the next. */
  ghost predicate AllAbsorb(cap: real, rates: Rates, sessions: seq<Session>, inputs: seq<TurnInput>,
      results: seq<Result<string, TurnError>>)
  {
    |results| <= |inputs| && |sessions| == |results| + 1 &&
    forall k :: 0 <= k < |results| ==>
      Absorbs(cap, rates, sessions[k], inputs[k], results[k], sessions[k + 1]) &&
      ReportsCap(cap, results[k], sessions[k + 1])
  }

  lemma AbsorbsNext(cap: real, rates: Rates, sessions: seq<Session>, inputs: seq<TurnInput>,
      results: seq<Result<string, TurnError>>, r: Result<string, TurnError>, after: Session)
    requires AllAbsorb(cap, rates, sessions, inputs, results) && |results| < |inputs|
    requires Absorbs(cap, rates, sessions[|results|], inputs[|results|], r, after) && ReportsCap(cap, r, after)
    ensures AllAbsorb(cap, rates, sessions + [after], inputs, results + [r])
  {
    var n, ss, rs := |results|, sessions + [after], results + [r];
    forall k | 0 <= k < n + 1
      ensures Absorbs(cap, rates, ss[k], inputs[k], rs[k], ss[k + 1]) && ReportsCap(cap, rs[k], ss[k + 1])
    {
      assert k < n ==> ss[k] == sessions[k] && ss[k + 1] == sessions[k + 1] && rs[k] == results[k];
    }
  }

  /** Once a session is over its cap, however it got there, every later turn of it fails, executes
      no tool and appends no assistant message. */
  lemma {:induction false} CapIsAbsorbing(cap: real, rates: Rates, sessions: seq<Session>, inputs: seq<TurnInput>,
      results: seq<Result<string, TurnError>>, i: nat, j: nat)
    requires AllAbsorb(cap, rates, sessions, inputs, results) && i <= j < |results|
    requires NonNegative(rates) && OverCap(cap, sessions[i].books)
    ensures SilentTurn(cap, sessions[i], sessions[j], inputs[j], results[j], sessions[j + 1])
    decreases j
  {
    assert Absorbs(cap, rates, sessions[j], inputs[j], results[j], sessions[j + 1]);
    if i < j {
      CapIsAbsorbing(cap, rates, sessions, inputs, results, i, j - 1);
    }
    var message := User(inputs[j].content);
    ChargedAbsorbs(cap, sessions[j].books, rates,
                   CompressionUsage(sessions[j].conversation + [message], inputs[j].compression), "compression");
  }

  lemma SilentAfterCap(cap: real, rates: Rates, sessions: seq<Session>, inputs: seq<TurnInput>,
      results: seq<Result<string, TurnError>>)
    requires AllAbsorb(cap, rates, sessions, inputs, results)
    ensures NonNegative(rates) ==>
              forall i, j :: 0 <= i <= j < |results| && OverCap(cap, sessions[i].books) ==>
                SilentTurn(cap, sessions[i], sessions[j], inputs[j], results[j], sessions[j + 1])
  {
    if NonNegative(rates) {
      forall i, j | 0 <= i <= j < |results| && OverCap(cap, sessions[i].books)
        ensures SilentTurn(cap, sessions[i], sessions[j], inputs[j], results[j], sessions[j + 1])
      {
        CapIsAbsorbing(cap, rates, sessions, inputs, results, i, j);
      }
    }
  }
}
