# Verified model of the agent service's stateful core

This project models, in Dafny, the parts of the service that keep state, and proves
what their callers rely on over whole runs rather than for single calls. The clock,
the language model, the tools and the string foldings are inputs, quantified over; all
else follows the code branch by branch, also where the code's own comments say
something different.

`dafny verify dfyconfig.toml` checks everything. Each file holds one module.

| file | models |
|---|---|
| `SlidingWindow.dfy`, `FixedWindow.dfy`, `TokenBucket.dfy` | the three rate limiters of `internal/transport/ratelimit.go` |
| `CircuitBreaker.dfy` | the breaker of `internal/resilience/circuitbreaker.go` and its interleaved callers |
| `BufferMemory.dfy`, `TokenWindow.dfy` | the two conversation memories of `internal/domain/agent` |
| `ReActEngine.dfy` | the agent loop of `internal/domain/agent/engine.go`, over either memory |
| `TraceSummary.dfy`, `LineReport.dfy`, `Pattern.dfy`, `Text.dfy` | the trace printer of the engine, and the parser in `internal/domain/tool/query_api.go` |
| `RagStore.dfy`, `Ranking.dfy` | the in-memory document store of `internal/domain/rag/memory_store.go` |
| `LimiterCalls.dfy`, `Conversation.dfy`, `Division.dfy`, `Options.dfy` | shared definitions |

How it is put together. A component that the code updates in place is a class with
the same fields, updated by methods with the same branches and loops. A pure step
function (`After`, `Next`, `Append`, ...) says what one call does, `Run` folds it over a
history, and the methods are proved equal to the step. The theorems are about `Run`.
They compare it with something written independently of the code: a log that forgets
nothing, a bucket that ticks at every interval, a window cut once from the whole
history, a monitor of events, the definition of a pattern match, or the history read
backwards for the last write of an id.

Time is an integer number of nanoseconds, a parameter wherever the code reads a clock.
The fixed and the sliding limiter and the breaker read it before they take their lock,
so an early reading may enter late. The breaker's readings may come in any order; while
it is open, whoever gets in first has read past the expiry
(`FirstAdmissionPastExpiry`). The limiters' bounds can fail. Both have an exact condition
on the readings of one key since its last reset, under which the bound holds whatever
the calls ask for, and without which some amounts break it:
`SlidingWindow.BoundedExactly` (no call is less than a window away from one that a call
in between has already dropped, `NoneLate`) and `FixedWindow.BoundedExactly` (no call
returns to an aligned window that a call in between has left, `NoReturn`). Readings in
lock order meet both (`OrderedNoneLate`, `OrderedNoReturn`). No order is needed for the
other half: a call for which the full log has room is admitted (`MeetsHistory` in both).
The token bucket, one for all keys, reads the clock under the lock. A `Wait` takes two
readings, as in the code: one for the attempt and one from which the remaining time is
measured.

## Where the code and what is said about it differ

The model follows the code in each case.

- The breaker's header says that half-open admits maxRequests requests and reopens on
  a failure (`circuitbreaker.go:26-36`). The limit counts completed requests, it never
  turns anyone away, and it takes maxRequests failures to reopen
  (`RejectsExactlyWhileOpen`, `HalfOpenCounts`, `HalfOpenOutcome`, `Recovery`).
- `Interval` is described as the window of the statistics (`circuitbreaker.go:94-95`).
  It has no effect on any decision (`IntervalHasNoEffect`): a closed breaker judges
  everything since its last reset (`ClosedCountsEverything`).
- `RecordSuccess` and `RecordFailure` read the generation themselves, so a recorded
  outcome counts even while the breaker is open. `RecordedWhileOpen` says exactly when
  it moves the generation and the expiry; `ExpiryCanMoveBack` that it does so in some
  run of every configuration under which the breaker can open at all.
- A token bucket's `Stats`, `Wait` and `WaitN` refill the bucket. Later requests never
  notice, exactly if a reading was taken before or an interval does not last two
  nanoseconds (`InvisibleExactly`).
- The sliding limiter's and the token bucket's constructors replace an interval of
  zero but keep a negative one. The sliding theorems cover that, and for the bucket the
  tokens then never come (`TokenBucket.NeverEnough`), whatever `WaitN` answers.
- Attached traces can be read back if and only if all are printable
  (`RoundTripExactly`); a tool name with a blank, a negative number or a preview that ends
  in white space is lost or changed. Previews made by the engine qualify
  (`PreviewIsPrintable`).

## Model

| member | source | states |
|---|---|---|
| SlidingWindow.AdmissionBound | internal/transport/ratelimit.go:220-253 | at every instant a, at most `limit` requests of a key are admitted with a time in (a, a + window], in every run in which no reading of the key is late |
| SlidingWindow.BoundedExactly | internal/transport/ratelimit.go:221-252 | that bound holds for all amounts the calls may ask for if and only if no reading of the key since its last reset is late |
| SlidingWindow.OrderedNoneLate | internal/transport/ratelimit.go:221-226 | readings in lock order are never late |
| SlidingWindow.BucketWithinLimit | internal/transport/ratelimit.go:238-251 | a bucket never holds more than the limit, in any order of readings |
| SlidingWindow.NothingDropped | internal/transport/ratelimit.go:229-236 | around a reading that is not late the pruned bucket counts what the full log counts |
| SlidingWindow.DecisionMatchesHistory | internal/transport/ratelimit.go:220-253 | while the readings of the key come in order, a call is admitted exactly when the never-pruned log has room in (now - window, now]; what is left is never negative |
| SlidingWindow.VerdictMeetsHistory | internal/transport/ratelimit.go:220-253 | for readings in any order: room in the full log means admitted, and the other way round unless a later reading has dropped something still live at this one; in order that is the log in (now - window, now] |
| SlidingWindow.NothingForgotten | internal/transport/ratelimit.go:229-236 | then the pruned bucket and the log hold the same live times |
| SlidingWindow.BucketWithinLog | internal/transport/ratelimit.go:229-236 | in any order the bucket has no more live than the log |
| SlidingWindow.BucketTracksLog | internal/transport/ratelimit.go:229-251 | while the readings of the key come in order the pruned bucket is sorted, at most `limit` long, and agrees with the full log on everything still live |
| SlidingWindow.FirstAdmission | internal/transport/ratelimit.go:255-274 | when one request is rejected the oldest stored time is live and fixes the exact first instant of the next admission |
| SlidingWindow.KeysAreIndependent | internal/transport/ratelimit.go:226-252 | a key's bucket and log are those of the run with all other keys' calls removed |
| SlidingWindow.OutOfOrderReadingsBreakBound | internal/transport/ratelimit.go:221-226 | wherever a reading taken before the lock enters late, the same calls with other amounts admit twice the limit within one window |
| SlidingWindow.LiveIsSublist | internal/transport/ratelimit.go:229-236 | pruning keeps exactly the entries after the cutoff, and all of them only if all are live |
| SlidingWindow.SlidingWindowLimiter.constructor | internal/transport/ratelimit.go:202-214 | defaults for a limit that is not positive and for a zero window |
| SlidingWindow.SlidingWindowLimiter.AllowN | internal/transport/ratelimit.go:220-253 | in any order a call is admitted if all logged times after now - window leave room for it, and only then unless a later reading has dropped one of them; a rejection changes nothing |
| SlidingWindow.SlidingWindowLimiter.Wait | internal/transport/ratelimit.go:255-274 | a rejected caller is told the exact time left until the first instant at which one request is admitted |
| SlidingWindow.SlidingWindowLimiter.Reset | internal/transport/ratelimit.go:283-287 | forgets the key and only the key |
| SlidingWindow.SlidingWindowLimiter.Stats | internal/transport/ratelimit.go:289-310 | availability is in 0..limit for any readings, and for ordered ones the limit less the logged admissions in the window, although nothing was pruned |
| FixedWindow.AdmissionBound | internal/transport/ratelimit.go:116-145 | in every run in which no reading of the key returns to a window it has left, a closed span of k windows is granted at most (k + 1) limits |
| FixedWindow.SpanBound | internal/transport/ratelimit.go:116-145 | in such a run any closed span is granted at most one limit for each aligned window it touches |
| FixedWindow.BoundedExactly | internal/transport/ratelimit.go:117-143 | the span bound holds for all amounts that leave the same calls reading the clock if and only if no reading of the key since its last reset returns |
| FixedWindow.ReturnsBreakBound | internal/transport/ratelimit.go:123-143 | wherever one returns, the same calls asking for the whole limit are granted at least two limits in one window |
| FixedWindow.OrderedNoReturn | internal/transport/ratelimit.go:123-125 | readings in lock order never return |
| FixedWindow.CountWithinLimit | internal/transport/ratelimit.go:131-143 | a counter holds between one unit and the limit, in any order of readings |
| FixedWindow.CounterIsLast | internal/transport/ratelimit.go:131-143 | in any order the counter is for the window read last |
| FixedWindow.CounterTracksLog | internal/transport/ratelimit.go:131-143 | in such a run the one counter kept for a key accounts exactly for what was granted and refused in the window of the last grant, and no aligned window ever exceeds the limit |
| FixedWindow.DecisionMatchesHistory | internal/transport/ratelimit.go:116-145 | for 0 < n <= limit: granted if the total logged in its window and n stay within the limit, in any order of readings, and if and only if they do when no reading returns |
| FixedWindow.GrantAdds | internal/transport/ratelimit.go:131-143 | a granted call adds its n to the total of its own key and window; every other total, and all of them after a refusal, stay |
| FixedWindow.CountAtMostLogged | internal/transport/ratelimit.go:131-143 | in any order a counter never exceeds what was logged in its window |
| FixedWindow.BoundaryDoubleBurst | internal/transport/ratelimit.go:78-80 | for every configuration two full bursts one instant apart, on both sides of a boundary, are granted |
| FixedWindow.TwoBursts | internal/transport/ratelimit.go:131-143 | bursts of a full limit in two different windows are both granted in full |
| FixedWindow.FirstAdmission | internal/transport/ratelimit.go:147-160 | in any state a rejected single request is admitted again exactly from the end of the current window on |
| FixedWindow.FixedWindowLimiter.constructor | internal/transport/ratelimit.go:98-110 | defaults for a limit or window that is not positive |
| FixedWindow.FixedWindowLimiter.AllowN | internal/transport/ratelimit.go:116-145 | a call for no more than the limit is granted if its aligned window has room for it in the log, and only then unless a reading returned; a grant adds its n to that window and nothing else changes; the new counters, rejections counted |
| FixedWindow.FixedWindowLimiter.Wait | internal/transport/ratelimit.go:147-160 | a rejected caller gets the exact distance to the first instant at which one request is admitted, whatever the order of the readings |
| FixedWindow.FixedWindowLimiter.Reset | internal/transport/ratelimit.go:169-173 | forgets the key and only the key |
| FixedWindow.FixedWindowLimiter.GetStats | internal/transport/ratelimit.go:175-191 | availability is in 0..limit for any readings, and unless a reading returns the figures are those of the log and the refusals in the window of the last grant, over or not |
| TokenBucket.ArrivalCurve | internal/transport/ratelimit.go:351-397 | from any state, calls with readings in [s, t] are granted at most max + refill * ceil((t - s) / interval) tokens |
| TokenBucket.RunArrivalCurve | internal/transport/ratelimit.go:351-397 | the same for any later stretch of any run, whatever came before it |
| TokenBucket.TokensInRange | internal/transport/ratelimit.go:373-397 | 0 <= tokens <= max after every run, whatever the clock does, and a bucket without a first reading is full |
| TokenBucket.RefillTwice | internal/transport/ratelimit.go:373-397 | refilling at t and then at u is refilling once at u |
| TokenBucket.LazyIsEager | internal/transport/ratelimit.go:373-397 | one lazy refill is a tick at every interval boundary, capped each time |
| TokenBucket.LazyRefinesEager | internal/transport/ratelimit.go:351-445 | once a reading was taken, the verdicts of every Reset-free run are those of a limiter that ticks eagerly before every call |
| TokenBucket.NewRefinesEager | internal/transport/ratelimit.go:323-445 | a new limiter answers as the eager one whose ticks start at the first reading |
| TokenBucket.ObserversInvisible | internal/transport/ratelimit.go:399-445 | after a first reading, Stats, Wait and WaitN calls change no later verdict |
| TokenBucket.FirstStatsIsVisible | internal/transport/ratelimit.go:374-378 | before the first reading, with intervals of two instants or more, a Stats call at any time gets a later request granted that would be turned away |
| TokenBucket.InvisibleExactly | internal/transport/ratelimit.go:373-445 | observers change no verdict of any ordered Reset-free run if and only if a reading was taken before or an interval does not last two instants |
| TokenBucket.EnoughFrom | internal/transport/ratelimit.go:403-428 | with no other consumer n tokens are there from the first instant on and not before (ceiling division) |
| TokenBucket.WaitReaches | internal/transport/ratelimit.go:419-427 | the wait that is answered ends at that instant, plus exactly the time by which the second reading is past the next interval boundary |
| TokenBucket.NeverEnough | internal/transport/ratelimit.go:334-343 | with a negative interval the tokens never come |
| TokenBucket.TokenBucketLimiter.constructor | internal/transport/ratelimit.go:323-344 | defaults, and a burst never below the refill |
| TokenBucket.TokenBucketLimiter.RefillNow | internal/transport/ratelimit.go:373-397 | credits whole intervals, caps, and moves to the last boundary |
| TokenBucket.TokenBucketLimiter.AllowN | internal/transport/ratelimit.go:351-371 | the verdict and the new bucket, including the calls that never touch it |
| TokenBucket.TokenBucketLimiter.WaitN | internal/transport/ratelimit.go:403-428 | the answered time reaches the first instant at which AllowN would succeed, later by exactly what the second reading is past the boundary after the first; takes no token |
| TokenBucket.TokenBucketLimiter.Wait | internal/transport/ratelimit.go:399-401 | WaitN for one token |
| TokenBucket.TokenBucketLimiter.Reset | internal/transport/ratelimit.go:430-435 | a full bucket without a reading |
| TokenBucket.TokenBucketLimiter.Stats | internal/transport/ratelimit.go:437-445 | refills and reports the tokens, within 0..max |
| CircuitBreaker.RejectsExactlyWhileOpen | internal/resilience/circuitbreaker.go:222-309 | after any interleaving a request is turned away exactly when the breaker is open and not past its expiry: it never wedges, and the half-open rejection at line 245 is unreachable |
| CircuitBreaker.RunKeeps | internal/resilience/circuitbreaker.go:193-346 | what every interleaving keeps: half-open has no success and room left, no token is from the future, and while open every Execute caller's token is out of date |
| CircuitBreaker.HalfOpenOutcome | internal/resilience/circuitbreaker.go:262-309 | over any Reset-free stretch of steps from half-open, whatever comes between the reports, the first success closes, and the failure that brings the count to maxRequests reopens, with its own reading plus the timeout as expiry |
| CircuitBreaker.HalfOpenCounts | internal/resilience/circuitbreaker.go:262-309 | up to then the breaker stays half-open, counts the reported failures and changes nothing else |
| CircuitBreaker.OpenIsQuiet | internal/resilience/circuitbreaker.go:222-286 | over a stretch whose requests all read at or before the expiry, late completions and requests change no field of an open breaker and no one is admitted |
| CircuitBreaker.FirstAdmissionPastExpiry | internal/resilience/circuitbreaker.go:222-259 | over any Reset-free stretch, in any order of readings, the first one admitted has read past the expiry, also with recorded outcomes that do not shorten it; up to then the breaker is open |
| CircuitBreaker.FirstAdmissionHalfOpens | internal/resilience/circuitbreaker.go:247-256 | from any open state, over any Reset-free stretch, the first one let in leaves the breaker half-open, without counts or expiry, under the generation it had |
| CircuitBreaker.Recovery | internal/resilience/circuitbreaker.go:222-309 | the whole cycle, whatever comes between: open until the first admission, half-open from there, closed with clear counts by the first success reported, or reopened, one generation on, by the maxRequests-th failure |
| CircuitBreaker.OpenWhileNoneAdmitted | internal/resilience/circuitbreaker.go:222-309 | without a reset nothing but an admission ends the open state |
| CircuitBreaker.NoAdmissionNoChange | internal/resilience/circuitbreaker.go:222-286 | without recorded outcomes no field of an open breaker changes before the first admission |
| CircuitBreaker.OpenUntilExpiry | internal/resilience/circuitbreaker.go:222-286 | the same in any run from the start |
| CircuitBreaker.RecordingOnlyExtends | internal/resilience/circuitbreaker.go:211-219 | recorded outcomes while open can only push the expiry back; still no one is admitted before the first expiry |
| CircuitBreaker.RecordedWhileOpen | internal/resilience/circuitbreaker.go:211-219 | in every run, a recorded outcome while open moves the generation exactly if it is current, a failure, and reaches the thresholds again, and then sets the expiry to its reading plus the timeout |
| CircuitBreaker.ExpiryCanMoveBack | internal/resilience/circuitbreaker.go:216-219 | some run pushes the expiry of an open breaker back if and only if ReadyToTrip is at most 1 |
| CircuitBreaker.TripStalesEveryCaller | internal/resilience/circuitbreaker.go:289-309 | a trip is caused by a failure, moves one generation on, sets the expiry to the trip time plus timeout, and makes every caller inside powerless |
| CircuitBreaker.ClosedCountsEverything | internal/resilience/circuitbreaker.go:262-309 | over any Reset-free stretch of steps from a closed, cleared breaker it stays closed while no prefix of the reported outcomes trips it, and has counted every one, whatever comes between them |
| CircuitBreaker.ClosedOpensAtFirstTrip | internal/resilience/circuitbreaker.go:289-309 | in such a stretch it opens with the first outcome whose prefix reaches the thresholds, not before, with the expiry counted from that outcome's reading |
| CircuitBreaker.IntervalHasNoEffect | internal/resilience/circuitbreaker.go:232-238 | breakers that differ only in the statistics interval make the same decisions on every interleaving |
| CircuitBreaker.ResetStartsAnew | internal/resilience/circuitbreaker.go:339-346 | a reset at any point of any run closes and clears the breaker, lets the next request in, and makes every caller inside and every outcome read but not yet recorded powerless |
| CircuitBreaker.TripsExactly | internal/resilience/circuitbreaker.go:289-303 | the tripping condition without a division: at least maxRequests counted, and the failures at least ReadyToTrip times as many |
| CircuitBreaker.CircuitBreaker.constructor | internal/resilience/circuitbreaker.go:150-177 | defaults, closed and empty |
| CircuitBreaker.CircuitBreaker.Before | internal/resilience/circuitbreaker.go:222-259 | refuses only while open and unexpired; an expired breaker becomes half-open with clear counts and no expiry, under its generation; half-open or refusing it changes nothing, and closed it stays closed with its counts |
| CircuitBreaker.CircuitBreaker.After | internal/resilience/circuitbreaker.go:262-286 | stale tokens change nothing; else counts, closes or evaluates |
| CircuitBreaker.CircuitBreaker.Evaluate | internal/resilience/circuitbreaker.go:289-309 | trips exactly from enough requests and a high enough failure rate |
| CircuitBreaker.CircuitBreaker.ResetCounts | internal/resilience/circuitbreaker.go:326-336 | clears the counts and sets or clears the expiry |
| CircuitBreaker.CircuitBreaker.Allow | internal/resilience/circuitbreaker.go:206-209 | the admission check without a function to run |
| CircuitBreaker.CircuitBreaker.Record | internal/resilience/circuitbreaker.go:212-219 | an undisturbed recorded outcome always counts |
| CircuitBreaker.CircuitBreaker.Reset | internal/resilience/circuitbreaker.go:339-346 | closed, empty, one generation on |
| BufferMemory.AppendIsWindow | internal/domain/agent/memory.go:30-70 | trimming at every append is one window over the whole history |
| BufferMemory.FeedIsWindow | internal/domain/agent/memory.go:30-70 | feeding any history message by message leaves its window |
| BufferMemory.WindowOfConversation | internal/domain/agent/memory.go:12-13 | led by a system message: that one and the last max - 1; without any: the last max |
| BufferMemory.FirstSystemHeld | internal/domain/agent/memory.go:12-13 | the first system message of any history is held |
| BufferMemory.BufferMemory.constructor | internal/domain/agent/memory.go:20-28 | default size, empty |
| BufferMemory.BufferMemory.Add | internal/domain/agent/memory.go:30-35 | appends and trims; the content stays the window of the history |
| BufferMemory.BufferMemory.TrimNow | internal/domain/agent/memory.go:51-70 | the head, if it is a system message, and the newest messages |
| BufferMemory.BufferMemory.Messages | internal/domain/agent/memory.go:37-43 | the window of everything since the last Reset, never over the size, the first system message among it |
| BufferMemory.BufferMemory.Reset | internal/domain/agent/memory.go:45-49 | empty |
| TokenWindow.EvictsLeast | internal/domain/agent/memory_token.go:94-116 | evicting one at a time deletes the first k evictable messages for the least k that meets the budget, or all of them; the protected ones stay, for any estimator |
| TokenWindow.TrimCharacterised | internal/domain/agent/memory_token.go:75-117 | the same for trim itself, with the system head and the last user message protected |
| TokenWindow.TagExactly | internal/domain/agent/memory_token.go:83-92 | protected are exactly a system message at the head and the user message that no other follows |
| TokenWindow.RemovalIsDeletion | internal/domain/agent/memory_token.go:96-112 | the renumbered protected positions always denote the messages first protected |
| TokenWindow.TrimConversation | internal/domain/agent/memory_token.go:75-117 | behind a system prompt and a query, trimming drops the least number of oldest replies |
| TokenWindow.PromptBudget | internal/domain/agent/memory_token.go:35-51 | after any replies the memory is the prompt, the whole query and a suffix of the capped replies, within budget if those two are |
| TokenWindow.FirstPromptBudget | internal/domain/agent/memory_token.go:35-51 | that condition is necessary already for the first prompt |
| TokenWindow.WindowIsLongestSuffix | internal/domain/agent/memory_token.go:35-117 | with a nonnegative estimator the step-by-step memory holds the longest suffix of the replies that fits |
| TokenWindow.TokenWindowMemory.constructor | internal/domain/agent/memory_token.go:21-33 | default budget, empty |
| TokenWindow.CapKeeps | internal/domain/agent/memory_token.go:36-49 | what is stored differs in its content only, which is a prefix; it is shorter if and only if the message is a tool message whose estimate and length both exceed max/4 > 0, and then it is max/4 long |
| TokenWindow.KeptOfOne | internal/domain/agent/memory_token.go:36-49 | no other message meets that description |
| TokenWindow.TokenWindowMemory.Add | internal/domain/agent/memory_token.go:35-51 | stores the message with all fields as they are, its content whole or, of an overlong tool message, its first max/4 characters; then trims; the content stays that of the history |
| TokenWindow.TokenWindowMemory.TotalTokens | internal/domain/agent/memory_token.go:67-73 | the sum of the estimates |
| TokenWindow.TotalIsSum | internal/domain/agent/memory_token.go:67-73 | the total is that of the estimates of the contents, message by message, zero for none, and adds up over concatenation |
| TokenWindow.TokenWindowMemory.TrimNow | internal/domain/agent/memory_token.go:75-117 | splicing with renumbered indices is evicting tagged messages, and terminates |
| TokenWindow.TokenWindowMemory.RemoveFirst | internal/domain/agent/memory_token.go:94-115 | one round removes the first unprotected message, or reports that there is none |
| TokenWindow.TokenWindowMemory.FindProtected | internal/domain/agent/memory_token.go:83-92 | the protected positions are those of the system head and the last user message |
| TokenWindow.TokenWindowMemory.Messages | internal/domain/agent/memory_token.go:53-59 | of a conversation since the last Reset: prompt, whole query and a suffix of the replies, each whole or cut to its first max/4 characters, within budget if those two are, and the longest that fits if no estimate is negative |
| TokenWindow.TokenWindowMemory.Reset | internal/domain/agent/memory_token.go:61-65 | empty |
| ReActEngine.RunAccepted | internal/domain/agent/engine.go:266-332 | the event stream of every run is accepted by a monitor that knows the tools: consecutive steps up to maxSteps, one model call each, tools announced and reported in order, and an error instead if the reply names an unknown one |
| ReActEngine.OneTerminalEvent | internal/domain/agent/engine.go:296-331 | an accepted stream has exactly one Complete or Error event, its last |
| ReActEngine.StepsConsecutive | internal/domain/agent/engine.go:276-277 | the steps it starts are numbered one after the other |
| ReActEngine.RunConcludes | internal/domain/agent/engine.go:283-331 | the last reply of the model decides how a run ends: its content, or the sentence for an empty one, if it calls no tool; the wrapped error; the first unknown tool by name; and the stop message if and only if the last of maxSteps steps called tools. The last event announces just that, and the replies reported are those given, in order |
| ReActEngine.RunShowsProperly | internal/domain/agent/engine.go:271-327 | at most maxSteps model calls, the k-th in step k, and before it were appended the system prompt, the query and k - 1 blocks: m calls, then exactly their m answers, with the IDs in order; each block holds the calls the model replied with |
| ReActEngine.TokenWindowRun | internal/domain/agent/engine.go:271-281 | on a token-window memory every prompt starts with the system prompt and the whole query, and all are within budget if and only if those two are |
| ReActEngine.TokenWindowPrompt | internal/domain/agent/engine.go:271-281 | each prompt is those two and the longest suffix the budget allows of the replies, each whole or cut to a quarter of the budget |
| ReActEngine.BufferMemoryRun | internal/domain/agent/engine.go:271-281 | on a buffer memory the prompt is the transcript while it fits, then the head and the newest; the query is seen exactly as long as it fits |
| ReActEngine.LoopDispatches | internal/domain/agent/engine.go:313-323 | a tool call is dispatched if and only if a reply of the run asks for it together with known tools only, and then once |
| ReActEngine.LoopTraces | internal/domain/agent/engine.go:424-426 | the traces reported are those of the dispatched calls, in order: each has the step and tool of its call, whether it succeeded, its duration and a preview of its content |
| ReActEngine.RunThenParse | internal/domain/agent/engine.go:190-196 | parsing the text of a run yields what the answer was read as, then one item for every dispatched call in order, with what that call came to, if and only if all their names are free of white space and their numbers fit in 64 bits |
| ReActEngine.PlainToolsPlainTraces | internal/domain/agent/engine.go:376-388 | tools registered under such names, called for no longer than that, leave only such traces |
| ReActEngine.RunWorkers | internal/domain/agent/engine.go:392-423 | for every schedule of the workers each call is dispatched once and slot i holds call i's outcome, failed or not |
| ReActEngine.DispatchTools | internal/domain/agent/engine.go:361-428 | results and events equal those of one call after the other in list order |
| ReActEngine.AgentEngine.constructor | internal/domain/agent/engine.go:130-146 | defaults of the step limit and the system prompt |
| ReActEngine.AgentEngine.RunCore | internal/domain/agent/engine.go:266-332 | the loop produces the log of the run, and dispatches exactly the calls in it |
| ReActEngine.AgentEngine.RunStep | internal/domain/agent/engine.go:277-326 | one step ends the run with the verdict its reply leads to, or remembers one block |
| ReActEngine.AgentEngine.Remember | internal/domain/agent/engine.go:313-326 | the assistant message and the tool messages, in order |
| ReActEngine.AgentEngine.Run | internal/domain/agent/engine.go:190-196 | returns what the last reply of the model leads to: its content, the sentence for an empty one or the stop message, with the traces attached, or the failure |
| TraceSummary.AttachThenParse | internal/domain/agent/engine.go:470-489 | parsing after attaching gives what the summary was read as, then exactly the printable traces in order |
| TraceSummary.RoundTripExactly | internal/domain/tool/query_api.go:56-87 | the traces come back if and only if all are printable, for any summary |
| TraceSummary.MarkerFreeRoundTrip | internal/domain/tool/query_api.go:56-87 | without the marker in the summary nothing but the traces comes back |
| TraceSummary.PrintedLineReadsBack | internal/domain/agent/engine.go:485-486 | a printed line yields its own item, decimals included, with status ok or error |
| TraceSummary.LineIsText | internal/domain/agent/engine.go:485-486 | a printed line in full, every field after its name |
| TraceSummary.AttachedSummary | internal/domain/agent/engine.go:470-489 | printable traces are attached as the trimmed summary and a blank line, unless it is blank, the marker, and one such line each, numbered from 1 |
| TraceSummary.ParsedIsReadable | internal/domain/tool/query_api.go:64-84 | every item parsed from any text has a blank-free tool, numbers in range and a one-line preview |
| TraceSummary.PreviewIsPrintable | internal/domain/agent/engine.go:503-509 | a preview is one line that does not end in white space, wherever it is cut |
| TraceSummary.PreviewIs | internal/domain/agent/engine.go:503-509 | a preview is the trimmed text with spaces for line ends, or, if that is too long, as many of its characters as fit, the stray bytes of the next one, and three dots |
| TraceSummary.ByteTakeIsPrefix | internal/domain/agent/engine.go:508 | a cut preview is as many whole characters as fit and fewer than four stray bytes |
| TraceSummary.AttachToolTraceSummary | internal/domain/agent/engine.go:470-489 | the builder loop writes the attached text |
| TraceSummary.ParseTraceFromSummary | internal/domain/tool/query_api.go:56-87 | the line loop collects the parsed items |
| TraceSummary.ReadLine | internal/domain/tool/query_api.go:65-84 | one trimmed line gives one item or none |
| LineReport.AttachAppends | internal/domain/agent/engine.go:470-489 | for any reader of lines, attaching a report appends exactly its lines to what a text is read as |
| LineReport.ParseTrimmed | internal/domain/tool/query_api.go:56-66 | white space around a summary, line ends included, changes nothing that is read from it |
| Pattern.MatchDecidesPattern | internal/domain/tool/query_api.go:54 | on patterns like the trace line's the greedy matcher finds the one way to match, or there is none |
| RagStore.HoldsLastWrites | internal/domain/rag/memory_store.go:71-132 | after any operations ids are unique and each id holds its last write that no later deletion covers |
| RagStore.HeldIsLastWrite | internal/domain/rag/memory_store.go:71-132 | the chunks held are exactly the live last writes |
| RagStore.SearchOverRun | internal/domain/rag/memory_store.go:24-68 | after any operations a search lists relevant live last writes only, each once with its weight, higher scores first and equal scores by endpoint; no more than topK if that is positive, and a relevant one is missing only for topK others, none with a lower score, nor with its score and a later endpoint |
| RagStore.ResultsAreRelevant | internal/domain/rag/memory_store.go:40-55 | every result is a stored chunk of the service in which a query word occurs, with its score |
| RagStore.OmittedRankLower | internal/domain/rag/memory_store.go:57-67 | an omitted relevant chunk means that topK results came back and it outranks none of them |
| RagStore.AnswersAgree | internal/domain/rag/memory_store.go:57-67 | two answers to one query list the same scores and endpoints in the same places, although the sort is not stable |
| RagStore.RelevantIsHit | internal/domain/rag/memory_store.go:41-48 | a positive score means that some query word occurs in the content, the endpoint or the type |
| RagStore.ScoreCounts | internal/domain/rag/memory_store.go:156-180 | a score is twice the words in the content, three times those in the endpoint and once those in the type, repeated words counted again |
| RagStore.FieldsSplit | internal/domain/rag/memory_store.go:141-143 | a query is cut at separators and nowhere else |
| RagStore.WordsAre | internal/domain/rag/memory_store.go:145-152 | the words are the nonempty trimmed fields |
| RagStore.WordsOfEach | internal/domain/rag/memory_store.go:145-152 | field by field, in order, repeated ones again |
| RagStore.QueryWords | internal/domain/rag/memory_store.go:135-153 | the words of a query are those of its trimmed, lower-cased text, cut at the five separators and nowhere else |
| RagStore.FindKeep | internal/domain/rag/memory_store.go:108-131 | a deletion removes what it covers, keeps the rest and the uniqueness of ids |
| RagStore.FindPutAll | internal/domain/rag/memory_store.go:83-90 | a batch overwrites by id, the last of equal ids wins |
| RagStore.Tokenize | internal/domain/rag/memory_store.go:135-153 | the words of a query |
| RagStore.ScoreChunk | internal/domain/rag/memory_store.go:156-180 | two, three and one points for each word in content, endpoint and type |
| RagStore.MemoryStore.constructor | internal/domain/rag/memory_store.go:19-21 | empty |
| RagStore.MemoryStore.Push | internal/domain/rag/memory_store.go:89 | append, in place or into a larger array |
| RagStore.MemoryStore.BuildIndex | internal/domain/rag/memory_store.go:78-81 | every id held, with its position |
| RagStore.MemoryStore.UpsertOne | internal/domain/rag/memory_store.go:83-90 | one chunk is put over its id or at the end, and the index follows |
| RagStore.MemoryStore.Upsert | internal/domain/rag/memory_store.go:71-92 | the batch is put in order, duplicates inside it included |
| RagStore.MemoryStore.Compact | internal/domain/rag/memory_store.go:108-115 | compaction in place, writing behind its reading, is filtering |
| RagStore.MemoryStore.Delete | internal/domain/rag/memory_store.go:95-117 | keeps exactly the chunks with other ids |
| RagStore.MemoryStore.DeleteByService | internal/domain/rag/memory_store.go:120-132 | keeps exactly the chunks of other services, up to case |
| RagStore.MemoryStore.Search | internal/domain/rag/memory_store.go:24-68 | the first topK of some sort of the hits, all of them if topK is not positive or too large; in terms of the history, best first as above, and nothing better is missed |
| Ranking.OutranksIsStrictOrder | internal/domain/rag/memory_store.go:57-62 | the comparison is a strict total order on score and endpoint, as sorting demands |
| Ranking.OutranksExactly | internal/domain/rag/memory_store.go:57-62 | the higher score comes first, and among equal scores the endpoint that is before the other |
| Ranking.LessExactly | internal/domain/rag/memory_store.go:57-62 | one endpoint is before another if at the first difference it ends or has the smaller character |
| Ranking.SortsAgree | internal/domain/rag/memory_store.go:57-62 | any two sorts of the same results agree on scores and endpoints |
| Ranking.SortExists | internal/domain/rag/memory_store.go:57-62 | every list of results has a sort |

## Left out

- `WaitN` of the fixed and the sliding limiter: after refusing n it falls through to `Wait`, which may admit a single request, so there is no wait-then-admitted contract to state.
- The factory `NewRateLimiter`, the algorithm names and the middleware around the limiters: selection and plumbing.
- Real clocks, mutexes, atomics, goroutines and channels: readings are parameters, critical sections are atomic steps, interleavings are explicit. Between the two readings of a limiter's `Wait` no other call is interleaved.
- FixedWindow.AdmissionBound: its condition on the readings is exact for the tighter bound of `SpanBound`, from which it follows; for the looser one itself it is only sufficient, since what breaks that depends on the limit too.
- Overflow of 64-bit times and tokens and of the 32-bit counts, and rounding of the failure rate and the score, which are an unbounded integer, a real and a natural number here. The parser's 64-bit range check is modelled.
- CircuitBreaker.Record: assumes nothing comes between reading the generation and taking the lock; the two are separate steps in `Step`, which the run theorems use.
- `Execute` as one call: it is a `Begin` and an `End` step with the caller's token between them. The state-change callback, names and metrics of the breaker are not modelled, nor are `Do` and `Retry`.
- `encodeToolResult`: the encoded outcome of a tool is an arbitrary string. Raw arguments are never looked into.
- Handlers other than the event stream and the trace collector, cancellation of the context by the caller, metrics, dispatch middleware, the tool catalogue, and the planner, reflector and adaptive engine.
- Strings are sequences of characters; bytes appear only where a preview is cut, and bytes of a cut character read as the replacement character. Lower-casing and case folding are arbitrary functions.
- `DefaultTokenEstimator`: the estimator is an arbitrary function, and a missing one is not replaced.
- Regular expressions in general: only sequences of literals, repeated classes and a final `.*`.
- Embeddings, which the in-memory store ignores, the spare capacity of its slice, and the other stores, ingestors and remote clients.
