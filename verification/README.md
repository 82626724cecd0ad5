# Verified models of the Aivyx core algorithms

Aivyx is an agent runtime: agents hold conversations, call tools behind several gates, and write
every step to an HMAC-chained audit log. This project models the parts of it that are algorithms
or state machines rather than I/O, and proves what they promise for all inputs and all runs.

| file | models |
|---|---|
| `TextDiff.dfy` | the line diff of the `text_diff` tool: the LCS table filled in place, the backtrace, the joined text |
| `MathEval.dfy`, `MathGrammar.dfy` | the expression evaluator of `math_eval` and its number grammar |
| `MathPrinter.dfy`, `MathExponent.dfy` | a printer that the evaluator inverts, and exactly when it does |
| `AuditLog.dfy`, `AuditChain.dfy` | the audit log file, its handles and the chain |
| `Retention.dfy`, `AuditRuns.dfy`, `AuditLedger.dfy` | pruning, whole runs of several handles and prunings on one file, and which of them leave it verifying |
| `AgentTurn.dfy` | the turn loop, its retries and streams, the tool gates and conversation compression |
| `CostTracker.dfy`, `RateLimiter.dfy` | the session cost cap and the per-minute rate limit, which the turn loop uses |
| `ToolRate.dfy` | runs of tool calls against the rate limit |
| `AbuseDetector.dfy` | the per-agent sliding windows and their alerts |
| `Metrics.dfy` | the metrics summary and the hourly timeline |
| `Sanitize.dfy` | the prompt-delimiter sanitizer |
| `Luhn.dfy`, `CsvExport.dfy` | the Luhn check of the PII tool, and the CSV export of the audit log |
| `Wrappers.dfy`, `Ascii.dfy`, `Numbers.dfy`, `Sequences.dfy` | `Option`, `Result`, ASCII characters, minimum and maximum, subsequences |

`dafny verify dfyconfig.toml` checks everything.

## How the models are built

- Objects that the source mutates are classes (`LogFile`, `Handle`, `Limiter`, `Detector`,
  `Tracker`, `Agent`); loops are methods with loops. Each is tied to a function of the old state,
  and the theorems over whole runs are about those functions.
- The six parsers of the evaluator are functions whose measure is (length, precedence), so they
  terminate and slice in range on every string; their scanning loops are methods that compute the
  positions the functions use.
- `Agent.Turn` models both turn loops of the source, which differ only in how a round asks the
  provider (`FetchRound`) and in the cancellation check of the streaming one.
- A run on one log file is a sequence of steps on the file and the caches of its handles. The steps
  are the functions `AppendTo` and `PruneTo` that `Handle.Append` and `Prune` are proved to compute.
- Every tool call that an agent makes is an `Attempt` with the time that passes before and inside the
  rate check and between it and the execution; the agent is proved to be where `Replay` of all its
  attempts leads, and the rate bounds are about `Replay`.
- Proofs by induction are written out; automatic induction is off for all of them.
- What the code cannot control is an input: clock readings, provider answers, approvals,
  capability verdicts, tool outcomes.
- The MAC (section 2 of RFC 2104) and the JSON encoding are parameters. A 32-byte MAC cannot be
  injective, so no theorem assumes that. Where one is needed, `CollisionFree` says that the
  finitely many messages of *that* log or run have different MACs, none of them all zero.
- Numbers in the evaluator are an abstract type with abstract operations; only the grammar that
  `str::parse::<f64>` accepts is concrete. Money is `real`, counters are unbounded.

Where the documentation and the code disagree, the model follows the code: `csv_escape` prefixes
formula-like text with a tab (its comment says a single quote), the rate limiter called a token
bucket is a sliding window, and the audit log's promise that tampering is detectable does not
cover cutting entries off the end (`PrefixVerifies`).

Four promises hold only under a condition:

- A file shared by several handles is verifiable after a run if and only if, since the last pruning
  that removed something, each append went through a handle that had not written since it was opened
  or that wrote last (`RunVerifiesIffSound`). A removing prune repairs a broken file and makes every
  handle that has written stale. The theorem takes clocks that do not run behind a cutoff already
  used, without which it fails (`FutureCutoffMisjudged`). Whatever the clock, the caches decide: each
  append since that pruning found its cache empty or equal to the file's last HMAC (`CachesDecide`).
  That sound runs verify needs nothing of the MAC or the clock (`SoundRunVerifies`).
- The rate limit bounds the checks, not the executions: a call may wait for its approval after its
  check. At most `max_per_minute` executed calls were checked in any closed minute, and at most one
  more started in it (`StartRateBound`). Starts keep the limit if and only if no call ever waits, or
  none is allowed (`StartsBoundedIff`): a wait of one nanosecond is enough (`DelayExceedsLimit`).
- The text of an expression evaluates to its value if and only if, apart from a zero divisor, no `+` or
  `-` directly follows the constant `e`, where it is taken for the sign of an exponent (`EvaluatesIff`).
  A negative operand needs its parentheses (`NegativeOperandRejected`).
- The CSV export reads back if and only if no HMAC column, which is written unescaped, has a special
  character and no unquoted column has a carriage return (`CsvReadsBack`, with `CommaInHmacLost` as
  the failing family).

## Model

| member | source | states |
|---|---|---|
| `TextDiff.FillRow` | crates/aivyx-agent/src/web_tools.rs:291-299 | one pass of the inner loop fills row `i` with LCS lengths and leaves all other rows alone |
| `TextDiff.FillTable` | crates/aivyx-agent/src/web_tools.rs:289-300 | every entry of the table is the LCS length of the two prefixes |
| `TextDiff.LcsIsUpperBound` | crates/aivyx-agent/src/web_tools.rs:289-300 | no common subsequence of two prefixes is longer than the table entry |
| `TextDiff.OrderStep` | crates/aivyx-agent/src/web_tools.rs:307-321 | the tie-break of the table never puts an insertion directly before a deletion |
| `TextDiff.Backtrace` | crates/aivyx-agent/src/web_tools.rs:302-325 | every iteration takes a branch and decreases `i + j`; the result is an edit script that turns one text into the other, keeps as many lines as the last table entry, and has the deletions of each run of changes first |
| `TextDiff.ScriptIsMinimal` | crates/aivyx-agent/src/web_tools.rs:302-322 | a script that keeps that many lines changes no more lines than any other script between the same texts |
| `TextDiff.LinesOfWritten` | crates/aivyx-agent/src/web_tools.rs:284-285 | lines written with `\n` or `\r\n` after each, and a last line without a break unless it is empty, are the lines that are read |
| `TextDiff.EveryTextWritten` | crates/aivyx-agent/src/web_tools.rs:284-285 | every text is lines with such breaks and a rest, so the row above says what the lines of any text are |
| `TextDiff.MarkedRendered` | crates/aivyx-agent/src/web_tools.rs:302-322 | the `+`, `-` and blank marks count the insertions, deletions and kept lines |
| `TextDiff.SplitJoin` | crates/aivyx-agent/src/web_tools.rs:324-325 | splitting the joined diff at line breaks gives back its lines |
| `TextDiff.DiffReadsBack` | crates/aivyx-agent/src/web_tools.rs:302-325 | dropping `+` lines of the joined diff gives the first text's lines, dropping `-` lines the second's |
| `TextDiff.ComputeDiff` | crates/aivyx-agent/src/web_tools.rs:283-326 | for all texts: the diff reads back as both, additions and deletions are its `+` and `-` lines and together minimal, context lines form a longest common subsequence, no `+` line stands directly before a `-` line, and changes are reported exactly when the lines differ |
| `MathEval.ScanAdditive` | crates/aivyx-agent/src/analysis_tools.rs:385-403 | the scan finds the last `+` or `-` outside parentheses, not in front and not after an exponent mark |
| `MathEval.ScanMultiplicative` | crates/aivyx-agent/src/analysis_tools.rs:416-429 | the scan finds the last `*`, `/` or `%` outside parentheses |
| `MathEval.ScanPower` | crates/aivyx-agent/src/analysis_tools.rs:449-464 | the scan finds the first `^` outside parentheses |
| `MathEval.LastOp` | crates/aivyx-agent/src/analysis_tools.rs:385-429 | the position the two scans agree on is the last splitting operator, or there is none |
| `MathEval.FirstOp` | crates/aivyx-agent/src/analysis_tools.rs:449-464 | the position is the first splitting operator, or there is none |
| `MathPrinter.ParseInfix` | crates/aivyx-agent/src/analysis_tools.rs:404-447 | a printed operation splits at its own operator, and its operands are evaluated by the parsers of their own precedence |
| `MathPrinter.ParseSigned` | crates/aivyx-agent/src/analysis_tools.rs:468-477 | a minus directly before an atom negates it, a plus leaves it as it is |
| `MathPrinter.ParseParens` | crates/aivyx-agent/src/analysis_tools.rs:479-485 | parenthesised balanced text means its content, at every precedence |
| `MathPrinter.PrintParse` | crates/aivyx-agent/src/analysis_tools.rs:385-539 | each parser inverts the printer at its own precedence |
| `MathPrinter.EvaluateRoundTrip` | crates/aivyx-agent/src/analysis_tools.rs:354-539 | for every tree of literals, constants, signs, `log10` calls and operators, printed with minimal parentheses and any blanks around it and its operators, evaluation returns the tree's value, and fails exactly when some divisor is zero |
| `MathPrinter.EvaluateLiteral` | crates/aivyx-agent/src/analysis_tools.rs:366-369 | every text that `str::parse::<f64>` accepts, signs and words included, evaluates to its own number, whatever blanks surround it |
| `MathPrinter.EvaluateSigned` | crates/aivyx-agent/src/analysis_tools.rs:468-477 | a sign in front of an atom that does not form a number with it negates the atom or leaves it as it is |
| `MathPrinter.PlainEvaluates` | crates/aivyx-agent/src/analysis_tools.rs:354-382 | a text without operators and parentheses is a number, `pi`, `e` or `tau` in any case, or rejected with itself as the reason |
| `MathPrinter.EvaluateCall` | crates/aivyx-agent/src/analysis_tools.rs:358-364 | a name with arguments goes to the named functions with its own name and arguments, by itself and as an operand |
| `MathPrinter.PrimaryOfCall` | crates/aivyx-agent/src/analysis_tools.rs:502-507 | `log10`, whose name the pattern does not match, is applied to what its argument evaluates to |
| `MathPrinter.PrimaryOfSingle` | crates/aivyx-agent/src/analysis_tools.rs:493-525 | so are the other six one-argument functions where the pattern fails: without an argument, or with a line break in it |
| `MathExponent.EvaluatesIff` | crates/aivyx-agent/src/analysis_tools.rs:354-539 | for every tree whatever its blanks: its text evaluates if and only if no `+` or `-` directly follows a constant `e` and no divisor is zero, and then to the value of the tree |
| `MathExponent.Rejected` | crates/aivyx-agent/src/analysis_tools.rs:385-477 | where an operand starts with `e` and a sign, outside parentheses, each parser rejects the text, whatever follows |
| `MathExponent.ExponentLookalikeRejected` | crates/aivyx-agent/src/analysis_tools.rs:393-399 | any text that starts with `e` and a sign is rejected |
| `MathGrammar.NumeralAccepted` | crates/aivyx-agent/src/analysis_tools.rs:367 | digits with at most one point and an optional exponent, in any of their forms, are a number |
| `MathGrammar.AcceptedIsNumeral` | crates/aivyx-agent/src/analysis_tools.rs:367 | every accepted number has that form |
| `MathGrammar.FloatGrammar` | crates/aivyx-agent/src/analysis_tools.rs:367 | a text is accepted if and only if, after at most one sign, it is a numeral or `inf`, `infinity` or `nan` in any case |
| `MathPrinter.NegativeOperandRejected` | crates/aivyx-agent/src/analysis_tools.rs:385-464 | an unparenthesised minus directly after any operator outside parentheses is rejected, whatever text follows it |
| `AuditLog.HexRoundTrip` | crates/aivyx-audit/src/log.rs:144-155 | decoding a hex-encoded digest gives it back |
| `AuditLog.HexIsLowerCase` | crates/aivyx-audit/src/log.rs:100 | two lower-case hex digits per byte, the high half first |
| `AuditLog.HexDecodes` | crates/aivyx-audit/src/log.rs:73-75 | a text decodes if and only if it is an even number of hex digits, and it is then, but for case, the encoding of what it decodes to |
| `AuditLog.ParseReads` | crates/aivyx-audit/src/log.rs:203-226 | the entries read are the records of the lines in order, or the error names the first malformed line |
| `AuditLog.VerifiedIsChained` | crates/aivyx-audit/src/log.rs:119-162 | a log verifies if and only if each HMAC is the MAC of the one before it, or of 32 zero bytes, followed by the JSON of its own entry |
| `AuditLog.AppendToAppends` | crates/aivyx-audit/src/log.rs:61-115 | which number, predecessor and HMAC an appended entry gets, and when an append fails, over the cache and the file |
| `AuditLog.Handle.ReadAll` | crates/aivyx-audit/src/log.rs:203-226 | the entries in order without blank lines, or the first malformed line |
| `AuditLog.Handle.Append` | crates/aivyx-audit/src/log.rs:61-115 | one sealed entry chained to the cached tail, or to the file's tail when the cache is empty; a failure changes nothing |
| `AuditLog.Handle.Verify` | crates/aivyx-audit/src/log.rs:119-162 | valid exactly when the whole chain verifies; otherwise the count `k` such that the first `k - 1` entries verify and the first `k` do not |
| `AuditLog.PrefixVerifies` | crates/aivyx-audit/src/log.rs:119-162 | every prefix of a verifying log verifies |
| `AuditChain.TailDeterminesHistory` | crates/aivyx-audit/src/log.rs:119-162 | two logs that verify under one key and end in the same HMAC are equal entry for entry |
| `AuditChain.TamperingDetected` | crates/aivyx-audit/src/log.rs:119-162 | any other sequence of entries with the last HMAC of a verifying log does not verify |
| `AuditChain.AppendCoherence` | crates/aivyx-audit/src/log.rs:61-115 | appending to a verifying file leaves it verifying if and only if the cache is empty or holds the file's last HMAC |
| `AuditRuns.SoundRunVerifies` | crates/aivyx-audit/src/log.rs:61-115 | whatever the MAC and the clock, a run of appends, re-opens and prunings that the ledger finds sound leaves the file verifying, and numbered 0, 1, 2, ... if it was so before |
| `AuditRuns.CachesDecide` | crates/aivyx-audit/src/log.rs:61-115 | from any readable file, with any handles and any clock: the file verifies after a run if and only if, since the last pruning that removed something, each append was made with an empty cache or with the file's last HMAC in it |
| `AuditLedger.LedgerDecides` | crates/aivyx-audit/src/retention.rs:37-101 | from any reachable state, with any handles open on a sound or broken file: the file verifies after a run if and only if the ledger, which sees only handles and timestamps, finds it sound |
| `AuditLedger.PruneRepairs` | crates/aivyx-audit/src/retention.rs:37-101 | after any run, a pruning that removes something leaves a verifying file, broken before or not |
| `AuditLedger.RunVerifiesIffSound` | crates/aivyx-agent/src/session.rs:519-553 | for every run of appends, re-opens and prunings on a verifying file, the file verifies at the end if and only if, since the last pruning that removed something, each append was by a handle that had not written since it was opened or that wrote last since then |
| `AuditLedger.PruneMakesStale` | crates/aivyx-audit/src/retention.rs:79-95 | after any run, a pruning that removes something makes every handle that has written since it was opened stale: its next append breaks the file |
| `AuditLedger.FutureCutoffMisjudged` | crates/aivyx-audit/src/retention.rs:37-101 | prunings with a cutoff after the clock can restore what a stale handle last saw, so that its append verifies |
| `AuditLedger.SingleHandleVerifies` | crates/aivyx-audit/src/log.rs:61-115 | any run of appends and re-opens through one handle verifies |
| `AuditLedger.InterleavedHandlesBreak` | crates/aivyx-agent/src/session.rs:519-553 | an append by a second handle between two appends of the first breaks the chain |
| `Retention.RecentIsExact` | crates/aivyx-audit/src/retention.rs:42-50 | an entry is kept if and only if its timestamp does not parse or parses to a time not before the cutoff; the kept ones stay in order, and as many are gone as the others were |
| `Retention.Rechain` | crates/aivyx-audit/src/retention.rs:104-130 | the given entries, renumbered from zero, as a verifying log |
| `Retention.Prune` | crates/aivyx-audit/src/retention.rs:37-101 | from any readable log: untouched if nothing is old; otherwise a verifying log numbered from zero of exactly the entries without a time before the cutoff, in order, and one `LogPruned` with the number removed and the first kept timestamp; removed + remaining = original + 1 |
| `Retention.StaleAfterPruneBreaks` | crates/aivyx-audit/src/retention.rs:79-95 | an append through any handle that had written before a removing prune, however many entries followed its own, breaks the new log |
| `AgentTurn.BackoffIsCappedDoubling` | crates/aivyx-agent/src/agent.rs:788-791 | the saturating backoff is the doubled base delay capped at five minutes |
| `AgentTurn.BackoffDoubles` | crates/aivyx-agent/src/agent.rs:788-791 | the first delay is the base and each later one twice the one before, five minutes at most |
| `AgentTurn.ChatWithRetry` | crates/aivyx-agent/src/agent.rs:776-801 | the outcome is the first one that is not a retryable failure; a retryable failure is returned only after `max_retries` retries; the delays start with the base and double up to five minutes |
| `AgentTurn.CollectStream` | crates/aivyx-agent/src/agent.rs:566-599 | a response is had exactly when no event is cancelled or an error and some event is `Done`, and it is the last one; the stream is cancelled or failed exactly when its first disturbance is of that kind, or it ends without a `Done` |
| `AgentTurn.CompressedKeepsRecent` | crates/aivyx-agent/src/compression.rs:33-88 | compression keeps the last message and the newest two fifths, and never grows the conversation |
| `AgentTurn.Agent.MaybeCompress` | crates/aivyx-agent/src/agent.rs:718-765 | exactly with more than ten messages and a summary, the conversation becomes the summary message and the newest two fifths, and the summary is charged to its own category, whatever the cap says |
| `AgentTurn.Agent.AdmitMetered` | crates/aivyx-agent/src/agent.rs:829-952 | a call meets the first refusal of rate check, tier, approval, registry, capability and input, in this order; without one it starts after its delay and is noted as admitted; the agent stays where the replay of all its calls leads |
| `AgentTurn.OutcomeReported` | crates/aivyx-agent/src/agent.rs:835-944 | each of the seven refusals and the execution, with its exact condition on rate check, tier, approval, registry, capability and input |
| `AgentTurn.ReportedOnce` | crates/aivyx-agent/src/agent.rs:835-944 | these conditions exclude each other, so each outcome is reported if and only if its own holds |
| `AgentTurn.Agent.ExecuteSingleTool` | crates/aivyx-agent/src/agent.rs:829-1025 | one message with the call's id; it is executed if and only if the rate check passed, the tier is not Locked, a Leash agent has an approval, and the tool is known, capable and given allowed input; otherwise the first of these that fails is reported |
| `AgentTurn.Agent.ExecuteToolCalls` | crates/aivyx-agent/src/agent.rs:804-818 | one message per call, same ids, same order; as many executions as messages that are not refusals |
| `AgentTurn.Agent.HandleResponse` | crates/aivyx-agent/src/agent.rs:652-712 | the cost is tracked first, and over the cap nothing else changes; tool use adds one whole group and as many executions as it reports, any other stop one final message |
| `AgentTurn.Agent.Rounds` | crates/aivyx-agent/src/agent.rs:462-488 | at most twenty rounds; each one before the last was not cancelled, answered with tool use and within the cap, and added one whole group; the last one decides result, message and books |
| `AgentTurn.Agent.Turn` | crates/aivyx-agent/src/agent.rs:443-619 | on every exit: compressed history ending in the user message, one whole group for each round that goes on, at most twenty with the loop limit as the error exactly then, and a final assistant message exactly on success; a cancelled round, a failing provider or a response over the cap ends the turn with that error; as many calls were executed as the groups report, none by a Locked agent and none unapproved by a Leash one; the books are the old ones with the compression, every fetched response and the extraction billed; if the rounds start over the cap, be it by the turn's own compression, nothing is executed or answered |
| `AgentTurn.Agent.Converse` | crates/aivyx-agent/src/agent.rs:443-619 | over any number of turns of an agent: once the session is over its cap, or a turn failed for that reason, every later turn fails, executes nothing and adds no assistant message; no turn executes a call that its tier forbids |
| `ToolRate.StartRateBound` | crates/aivyx-agent/src/agent.rs:835-951 | over every run of tool calls: in every closed minute at most `max_per_minute` executed calls passed the rate check, and at most as many started, plus one if some call was checked before the minute and started later |
| `ToolRate.DelayExceedsLimit` | crates/aivyx-agent/src/agent.rs:835-951 | for every limit there is a run, with one wait of a single nanosecond, in which one more call than the limit starts in one closed minute |
| `ToolRate.StartsBoundedIff` | crates/aivyx-agent/src/agent.rs:835-951 | every closed minute of every run with waits of at most `d` holds at most `max_per_minute` starts if and only if `d` or the limit is zero |
| `AgentTurn.Agent.ExecutionRateBound` | crates/aivyx-agent/src/agent.rs:835-951 | the same bounds for the calls an agent has executed |
| `AgentTurn.OverCapRounds` | crates/aivyx-agent/src/agent.rs:652-712 | rounds that start over the cap yield no group, no answer and an error, and leave the session over it |
| `AgentTurn.CapIsAbsorbing` | crates/aivyx-agent/src/agent.rs:652-712 | once a session is over its cap, every later turn fails, executes no tool and appends no assistant message |
| `CostTracker.Tracker.TrackWithCategory` | crates/aivyx-agent/src/cost_tracker.rs:61-83 | input tokens at the input rate plus output tokens at the output rate are added to the totals and to the named category, which counts one call more, while all other categories stay; only then the cap decides |
| `CostTracker.ChargeSum` | crates/aivyx-agent/src/cost_tracker.rs:69-73 | charging one category raises the sum over all categories by exactly that charge |
| `CostTracker.TrackBalanced` | crates/aivyx-agent/src/cost_tracker.rs:61-83 | tokens and cost always equal the sums over categories, rejected calls included |
| `CostTracker.TrackPriced` | crates/aivyx-agent/src/cost_tracker.rs:62-67 | the accumulated cost is the accumulated input tokens at the input rate plus the accumulated output tokens at the output rate |
| `CostTracker.CapAbsorbs` | crates/aivyx-agent/src/cost_tracker.rs:75-80 | with non-negative rates, a session over its cap stays over it |
| `RateLimiter.Limiter.Check` | crates/aivyx-agent/src/rate_limiter.rs:24-36 | the deque is pruned at the first clock reading, and the second is recorded if fewer than the maximum are left |
| `RateLimiter.CheckAccounts` | crates/aivyx-agent/src/rate_limiter.rs:24-50 | the deque is the full history of accepted checks without the expired ones, and a check is refused exactly when the maximum lies in the window that ends with it |
| `RateLimiter.AnyWindowBound` | crates/aivyx-agent/src/rate_limiter.rs:24-50 | every closed 60-second interval, not only those that end with a check, holds at most the maximum |
| `RateLimiter.RateBound` | crates/aivyx-agent/src/rate_limiter.rs:24-50 | both, over every run with a non-decreasing clock, for 60_000_000_000 ns |
| `AbuseDetector.Detector.RecordToolCall` | crates/aivyx-audit/src/abuse.rs:85-145 | the caller's deque gets the event and loses the expired ones, other agents' deques stay, and the alerts are those of the new deque |
| `AbuseDetector.WindowIsHistory` | crates/aivyx-audit/src/abuse.rs:102-110 | after every run with non-decreasing times per agent, an agent's deque is its whole history filtered by the window that ends with its latest call |
| `AbuseDetector.HistoryCounts` | crates/aivyx-audit/src/abuse.rs:111-143 | the three counts over a window are the numbers of the agent's call positions, denied positions and different tools in the whole run since the cutoff |
| `AbuseDetector.AlertsOverHistory` | crates/aivyx-audit/src/abuse.rs:85-145 | after every run, an alert is raised for the last call if and only if the number of the agent's calls, denied calls or different tools among all calls of the run in the last `window_secs` seconds reaches its threshold, and it carries that number |
| `Metrics.ComputeSummary` | crates/aivyx-audit/src/metrics.rs:69-136 | the totals, error counts and distinct agents of exactly the entries in range |
| `Metrics.SummaryGrows` | crates/aivyx-audit/src/metrics.rs:69-136 | one more entry raises exactly the fields of its own kind, and only if its timestamp parses and lies in the closed range |
| `Metrics.SummaryStarts` | crates/aivyx-audit/src/metrics.rs:75-90 | without entries everything is zero |
| `Metrics.ComputeTimeline` | crates/aivyx-audit/src/metrics.rs:141-215 | each bucket but the last counts exactly the entries of its hour, the last one all later entries in range |
| `Metrics.BucketGrows` | crates/aivyx-audit/src/metrics.rs:170-215 | one more entry raises the fields of its kind in the bucket of its hour, or in the last bucket after that |
| `Metrics.BucketCountIsHours` | crates/aivyx-audit/src/metrics.rs:147-149 | as many buckets as whole hours in the range, at least one and at most 8760 |
| `Metrics.SlotOfIndex` | crates/aivyx-audit/src/metrics.rs:183-184 | the clamped index names the one slot a timestamp lies in |
| `Metrics.TimelineConservesSummary` | crates/aivyx-audit/src/metrics.rs:69-215 | for all entries and ranges, the buckets add up to the summary, despite clamping and the 8760 cap |
| `Sanitize.InjectionPatternsGood` | crates/aivyx-agent/src/sanitize.rs:12-26 | no delimiter can start inside another or inside an escaped form |
| `Sanitize.InjectionPatternsLegible` | crates/aivyx-agent/src/sanitize.rs:12-26 | each replacement is its delimiter with backslashes added |
| `Sanitize.OccurrencesDisjoint` | crates/aivyx-agent/src/sanitize.rs:12-26 | two delimiter occurrences that share a position are the same one |
| `Sanitize.EscapeOne` | crates/aivyx-agent/src/sanitize.rs:38-41 | escaping any one occurrence leaves one fewer and does not change the final text |
| `Sanitize.EscapeSays` | crates/aivyx-agent/src/sanitize.rs:38-41 | escaping one occurrence adds backslashes and changes nothing else but case |
| `Sanitize.SanitizeWith` | crates/aivyx-agent/src/sanitize.rs:33-44 | the nested loops terminate, and the result is the simultaneous replacement |
| `Sanitize.SanitizeUserInput` | crates/aivyx-agent/src/sanitize.rs:33-44 | for ASCII input, the result is the simultaneous replacement of all occurrences of the ten delimiters; none is left in any case of its letters, and but for backslashes and case the text says what the input said |
| `Sanitize.ReplaceIdempotent` | crates/aivyx-agent/src/sanitize.rs:33-44 | a second pass changes nothing |
| `Luhn.LuhnCheck` | crates/aivyx-agent/src/analysis_tools.rs:1334-1354 | accepted exactly for 13 to 19 digits whose sum, with every second digit from the last but one doubled and cast out of nines, is a multiple of ten |
| `Luhn.SumIsTotal` | crates/aivyx-agent/src/analysis_tools.rs:1334-1354 | the sum of the loop, position by position from the right |
| `Luhn.CheckDigit` | crates/aivyx-agent/src/analysis_tools.rs:1334-1354 | each prefix of 12 to 18 digits has exactly one accepted check digit, given by the formula |
| `Luhn.SingleErrorDetected` | crates/aivyx-agent/src/analysis_tools.rs:1334-1354 | changing any one digit of an accepted number makes it rejected |
| `Luhn.TranspositionDetected` | crates/aivyx-agent/src/analysis_tools.rs:1334-1354 | swapping two different neighbours keeps it accepted if and only if they are 0 and 9 |
| `CsvExport.ExportCsv` | crates/aivyx-audit/src/export.rs:26-46 | the header and one row per entry, in order |
| `CsvExport.ColumnsLabelled` | crates/aivyx-audit/src/export.rs:31-43 | which column each name of the header labels |
| `CsvExport.GuardedNeutral` | crates/aivyx-audit/src/export.rs:65-75 | a guarded column never starts with `=`, `+`, `-` or `@`, and a tab is all that is added, exactly if the original did |
| `CsvExport.QuotedExactly` | crates/aivyx-audit/src/export.rs:76-81 | a column is quoted if and only if its guarded text holds a comma, a quote, a line break or a tab |
| `CsvExport.DecimalDenotes` | crates/aivyx-audit/src/export.rs:38-40 | the first column denotes the sequence number |
| `CsvExport.EscapeEncodes` | crates/aivyx-audit/src/export.rs:65-81 | an escaped column reads as the original with its tab, exactly unless it is unquoted with a carriage return |
| `CsvExport.CsvReadsBack` | crates/aivyx-audit/src/export.rs:26-81 | a reader recovers the header and one four-field record per entry, in order, if and only if every entry is readable |
| `CsvExport.CommaInHmacLost` | crates/aivyx-audit/src/export.rs:36-43 | no log with a comma in an HMAC column reads back |

## Left out

- The values of the named functions of `math_eval`: they are opaque parameters, because they are floating point; which function is called with what is modelled.
- IEEE-754 rounding, NaN and transcendental functions: values are abstract or real.
- Fixed-width integers: sequence numbers, token counts and the rate limiter's length are unbounded.
- `Duration` and `Instant` underflow: clock arithmetic is over unbounded integers.
- Non-ASCII text in the sanitizer: `str::to_lowercase` can change byte offsets there, so `SanitizeUserInput` requires ASCII.
- Sanitize.SanitizeUserInput: states nothing about non-ASCII input, where lower-casing can shift offsets.
- The size guard and the output truncation of `text_diff`, and its file reading.
- JSON and the file system: a written entry is taken to parse back to itself; partial writes, failing writes and missing files other than the empty one are not modelled.
- HMAC-SHA256 itself: the MAC is a parameter.
- Lock poisoning and the locking of one handle between threads: each append is one step.
- The audit events that a turn emits, and that a failing audit write turns a capability denial into another error.
- The abuse detector's place in the turn loop: it sees executed calls only, and its alerts only add audit events.
- Prompt assembly, memory recall and outcome records of a turn; memory extraction is only its cost.
- The text of tool messages: a message reports a refusal or the outcome, without the `[TOOL_OUTPUT]` wrapping.
- Forwarding stream tokens to the client.
- Token estimation: whether a conversation reaches the compression threshold is an input.
- Capability sets, attenuation and the encrypted store: their verdicts are inputs.
- The JSON export, search and the other tools: I/O, wrappers over other crates, or easy.
