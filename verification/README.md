# Verified model of httpx

httpx is a retrying HTTP toolkit: one retry loop behind three doors (`Do`, `GetBytes` and a
retrying `http.RoundTripper`), an algebra of error verdicts over wrapped and joined errors, a
redirect policy, bounded 64-bit waiting, bounded body reading, literal redaction and a conditional
GET. This project models those parts in Dafny and proves what their documentation promises, for
every input, every run and every chain.

`dafny verify dfyconfig.toml` checks all of it.

## How it is built

| module | models |
|---|---|
| `Prelude`, `Text`, `Messages` | int64 with wrap-around, ASCII text, headers, requests, responses |
| `Errors` | error trees, `errors.Is`, `errors.AsType`, `unwrapsTo` |
| `Verdicts`, `VerdictFields` | `IsTransient`, `isCallerContextError`, `CauseOf`, the marks, the client's `*url.Error`; the same verdicts read off the fields of the nodes |
| `URLErrors` | `reduceURLErrors`, `LogSafeError` |
| `RetryAfter`, `Backoff`, `Bodies` | Retry-After, statuses; doubling, jitter, sleeping, the ceiling; response bodies |
| `Loop` | the loop and the three doors as functions of what a run meets |
| `LoopOptions`, `LoopTiming`, `LoopWaits`, `LoopContext`, `LoopBodies`, `LoopEligibility`, `LoopBudget`, `LoopReturns`, `LoopAgreement`, `LoopNesting`, `LoopInterleaving` | what every run is configured to do, keeps and hands back, and how the doors relate |
| `Doors`, `DoorsInterleaving` | the same loop and doors as methods over request, stream, response and call objects; many calls on one transport object |
| `Origins`, `Redirects` | host and origin keys, the compiled allowlist, the policy over whole chains |
| `Redaction`, `Conditional` | literal redaction; the conditional GET and the cache built on it |

The retry loop exists twice on purpose. `Doors` is written as the source is: one object per call
holds the variables the closures of `Do`, `GetBytes` and `RoundTrip` capture, a `while` loop updates
the backoff, bodies are objects that know what was read of them and how often they were closed. Each
of its methods is proved to compute a function of `Loop`, and the properties of whole runs are lemmas
about those functions.
Everything a run does not decide itself is a field of `Loop.Env`: the outcome and duration of each
attempt, how late its own bound fires, the time between any two reads of a context, the time hooks
take, jitter draws, how late a timer wakes, which branch a `select` takes when both are ready, and
when the context ends. The lemmas hold for all of them.

Where a main result compares what the code does with what was promised, the promise is written over
the fields of requests, responses, errors and configurations, with the numbers spelled out, and not over
the functions the code uses.

A run keeps a record: when each attempt started, each wait, each event on a request or a response
body, and each look `Do` takes at its caller's context. The record is specification only.

## Results worth reading first

- `LoopBodies.BodiesAreSettled` and `Doors.RetryRoundTripper.RoundTrip`: every response body is
  drained and closed exactly once or is the single one handed back open, however a run ends.
- `LoopAgreement.GetBytesSimulatesTransport`: the two doors make the same run exactly when every error
  they meet is judged alike through the client's envelope, which `Verdicts.EnvelopeKeepsVerdictExactly`
  decides for every error.
- `LoopReturns.GetBytesReturnsExactly` and `LoopReturns.RoundTripReturnsTheLastOutcome`: what the two
  doors hand back, by the outcome of the last attempt alone; `LoopEligibility.SentAgainExactly` and
  `LoopWaits.EveryWaitExactly`: what is sent again, and after which wait.
- `LoopReturns.ExhaustionKeepsVerdictAndHint` and `LoopNesting.NestedBudgetsMultiply`: what the error of
  an exhausted `GetBytes` tells an enclosing `Do`, and what the two budgets come to together.
- `LoopBudget.CallerBudgetIsSafe`: what `Do` may return once its caller's budget is gone.
- `VerdictFields.IsTransientExactly` and `Verdicts.CauseIsRule`: both verdicts over the nodes of a tree.
- `Redirects.DecidedExactly`: every decision of the redirect policy, over host, scheme and port.
- `DoorsInterleaving.RoundTripsInterleave`: interleaved call objects on one transport object each make
  the run they would make alone, proved from what a turn may write.
- `LoopContext.DoStartsLiveExactly` and its siblings: which configurations never start a retry after
  the caller's context has ended.
- `Redaction.RedactionIsCleanExactly`: for which secrets literal redaction never leaks.
- `Conditional.CacheAgreesWithPlainGet`: a polling cache holds what a plain GET would return.

## Where the code does not do what a reader may expect

- The transport and `GetBytes` do not judge every error alike, because the client's `*url.Error` is
  what `GetBytes` sees first, and it answers `Timeout` for the error directly inside it only. A timeout
  one plain wrapper deep is retried by the transport alone (`EnvelopeCanHideATimeout`); one on a type
  with `Timeout` but no `Temporary` method, which is no `net.Error`, by `GetBytes` alone
  (`EnvelopeCanShowATimeout`); and a bare EOF in a `*url.Error` of the base transport's own, below a
  wrapper, again by the transport alone (`EnvelopeCanHideAReset`). `EnvelopeKeepsVerdictExactly` says
  exactly which errors are affected.
- The error of an exhausted `GetBytes` can be terminal although the failure it reports was retried
  (`ExhaustionCanLoseTheVerdict`): it holds what is left of the failure without its `*url.Error`.
- The Retry-After on that error is never waited for by an enclosing `Do` on its own: it rides only on a
  status, which is not transient. Once the callback marks the error it is (`UnmarkedStatusEndsDo`,
  `MarkedStatusWaitsItsHint`).
- `ReadLimitedBody` returns the read error, not `*ResponseTooLargeError`, for a body of exactly
  limit + 1 bytes whose error comes with its last byte (`ReadsAllOrFails`).
- An overlap between a secret and the marker does not always leak: `RR` ends where `REDACTED`
  begins, yet no output holds it (`OverlapExamples`). The exact condition is `Separable`.
- A host in brackets without a colon inside loses them when its printed origin is read back
  (`PrintedOriginReadsBack`).
- With a base delay of one nanosecond the first jittered wait can be zero, and the sleep then ignores an
  ended context, so a retry can start after it (`DoStartsLiveExactly`, `GetStartsLiveExactly`,
  `TransportStartsLiveExactly`).
- `markAttemptTimeout` reads two contexts one after the other. A caller's context that ends in between
  ends the attempt's too, and a deadline of the callback's own is then marked as the expiry of a bound
  that had not fired. Every mode but rate-limit-only reads the caller's context again and returns its
  end instead; rate-limit-only returns the mark (`UnearnedMarksAreRaces`, `RaceIsReturned`).

## Model

| member | source | states |
|---|---|---|
| Text.AsciiLower | httpx.go:879-894 | the lazily copied buffer is the bytewise map of A-Z to a-z, whichever byte is upper-case first |
| Text.OnlyCapitalsFold | httpx.go:879-894 | each of the twenty-six capitals becomes its small letter and nothing else changes |
| Text.TrimSpaceExactly | httpx.go:408-412 | the six ASCII spaces come off both ends and nothing else |
| Errors.UnwrapsTo | httpx.go:657-672 | the loop with its recursion finds the target exactly when it is a node of the unwrap tree; nil holds nothing |
| Errors.AsTypeIsFirst | httpx.go:560-575 | the recursive type search answers the first node of that type in pre-order |
| Errors.IsMeansSomeNode | httpx.go:638-644 | a sentinel matches exactly when some node is it or claims it |
| Errors.UnwrapsToImpliesIs | httpx.go:653-660 | holding a sentinel implies matching it |
| Errors.IsDoesNotImplyUnwrapsTo | httpx.go:604-616 | an error can match a sentinel that is nowhere in its tree |
| Errors.NodesAreClosed | httpx.go:657-672 | the unwrap tree of any node lies within the tree of the whole |
| Errors.RetryableStatuses | httpx.go:465-485 | retried are exactly 408, 429, 500, 502, 503, 504, 507, 509 and 512 to 599 |
| Errors.StatusErrorMatches | httpx.go:117-126 | a StatusError matches ErrRateLimited for 429 alone, ErrServerError from 500 up, and no other sentinel |
| Verdicts.IsTransientIsRule | httpx.go:560-598 | on every tree: a Permanent, Auth or RateLimit node vetoes; else an AttemptTimeout node accepts; else the caller's end rejects; else the first Transient in pre-order decides; else the cause does |
| VerdictFields.IsTransientExactly | httpx.go:560-598 | over the fields of the nodes: terminal with a Permanent, Auth or RateLimit node; else retried with an AttemptTimeout node; else terminal when the caller is out; else as the first node with an IsTransient method answers, yes or no; else by the cause |
| VerdictFields.StatusesAreTransient | httpx.go:98 | an HTTPStatusError is transient exactly for a retryable status |
| Verdicts.CauseIsRule | cause.go:68-84 | the cause is the first of too large, TLS, DNS, refused, reset, timeout that the nodes give, with the alert, envelope and timeout answers taken from the first node that has one |
| VerdictFields.NodeFields | cause.go:68-126 | what a node of each type says of the cause, by its type, the sentinels it claims and its Timeout method |
| VerdictFields.LeafCause | cause.go:68-126 | the cause of every error that holds nothing, by its type and methods |
| VerdictFields.SentinelCause | cause.go:128-159 | the cause of each bare sentinel |
| Verdicts.CallerContextIsRule | httpx.go:638-651 | terminal exactly when Canceled matches, or the deadline value is a node, or the deadline matches beside a net OpError or DNSError node |
| Verdicts.ResetIsRule | cause.go:128-137 | a reset is a matching errno or hang-up anywhere, or the bare EOF directly inside the first url.Error and nowhere else |
| Verdicts.TLSIsRule | cause.go:97-118 | a TLS failure is one of five types or the scheme mismatch anywhere, or a first OpError that is a remote alert |
| Verdicts.TimeoutIsRule | cause.go:156-159 | only the first net.Error is asked whether it timed out |
| VerdictFields.TimeoutExactly | cause.go:156-159 | what a node's Timeout method says: its own answer, and for a url.Error that of the error it holds |
| Verdicts.PlainContextKeepsVerdicts | httpx.go:560-598 | no depth of plain wrapping and no joining with plain errors changes IsTransient, CauseOf or the caller-context test |
| Verdicts.MarksDecide | httpx.go:161-275 | Permanent always wins; AttemptTimeout yields only to a veto; MarkTransient yields to a veto and, unless an AttemptTimeout below it vouches, to the caller's end; CauseOf sees through all three; nil stays nil |
| Verdicts.EnvelopeKeepsCauseExactly | cause.go:128-159 | for every error of a round trip, one that holds a url.Error already included: CauseOf is the same inside the client's url.Error and in the transport exactly when a cause the envelope cannot change decides, or no url.Error over a bare EOF is in it and its top and its first net.Error agree on timing out |
| Verdicts.CausedBeforeTimeoutIsCause | cause.go:68-84 | one of the five guards before the timeout holds exactly when the cause is neither a timeout nor unknown |
| Verdicts.EnvelopeKeepsCause | cause.go:139-159 | it is the same for an error that is itself a net.Error, and for one in which nothing times out |
| Verdicts.EnvelopeKeepsVerdictExactly | roundtripper.go:124-132 | for every error, IsTransient is the same on both sides exactly when something else decides, or the error's top times out just when the transport sees a reset or a timeout in it |
| Verdicts.URLFreeIsSeenAlike | cause.go:128-159 | without a url.Error of its own only the timeout of an error can read differently |
| Verdicts.EnvelopeCanHideATimeout | cause.go:156-159 | some error is a retried timeout for the transport and unknown and terminal behind the envelope |
| Verdicts.EnvelopeCanShowATimeout | cause.go:156-159 | a timeout on a type that is no net.Error is unknown and terminal for the transport and a retried timeout behind the envelope |
| Verdicts.EnvelopeCanHideAReset | cause.go:128-132 | a bare EOF in a url.Error below a wrapper is a retried reset for the transport and unknown and terminal behind the client's envelope |
| URLErrors.ReduceURLErrors | httpx.go:1457-1477 | over any error graph: terminates, leaves no envelope, returns envelope-free input unchanged, equals the end of the chain when at most eight reductions reach it and the stand-in otherwise, so the stand-in for a url.Error that is its own cause |
| URLErrors.LogSafeError | httpx.go:1450-1455 | nil stays nil, a failure never becomes nil, no url.Error survives anywhere in the result, anything else passes unchanged, and the result is the unbounded fixpoint up to eight envelopes |
| URLErrors.InnermostIsReached | httpx.go:1462-1477 | on every finite tree the fixpoint is reached after exactly as many reductions as are counted |
| URLErrors.ReductionKeepsCauseExactly | httpx.go:1489-1494 | one reduction of a url.Error gives what it holds, with a hang-up named, and keeps what CauseOf says exactly under the envelope condition, whatever it holds; over a URL-free cause that is the whole reduction |
| URLErrors.NestedEnvelopes | httpx.go:1457-1460 | d nested envelopes take d reductions, so nine lose their cause to the stand-in and eight keep it |
| URLErrors.CauselessIsStandIn | httpx.go:1462-1477 | a url.Error without a cause reduces to the stand-in, and one over a bare EOF to the hang-up |
| RetryAfter.LooksLikeDeltaSeconds | httpx.go:339-355 | the scan accepts exactly an optional sign followed by at least one digit and nothing else |
| RetryAfter.DeltaSecondsShape | httpx.go:339-355 | that shape is exactly an optional sign and one or more of the ten digits |
| RetryAfter.DeltaSecondsExactly | httpx.go:369-402 | for every sign, any number of leading zeros and any value: 0 for negative, zero or above 2^63-1, else min(v, 9223372036) seconds in int64 nanoseconds without overflow |
| RetryAfter.TrimZerosKeepsNumber | httpx.go:375-379 | stripping zeros keeps the number and leaves no leading zero |
| RetryAfter.RetryAfterIsBounded | httpx.go:408-433 | for any header and clock the honored wait is in [0, 60s], and below the cap it is the raw value |
| RetryAfter.HonoredSecondsExactly | httpx.go:408-433 | a delta-seconds header, whatever space surrounds it, is honored for min(v, 60) seconds, and nothing if negative or above 2^63-1; not capped it is min(v, 9223372036) seconds |
| RetryAfter.HonoredDateExactly | httpx.go:412-433 | any other header is honored for the time left until its date, at most 60s; nothing for a past date, no date, or more than 64 bytes |
| RetryAfter.StatusesExactly | httpx.go:445-463 | every status: a 2xx passes, 401 and 403 are an AuthError, 429 a RateLimitError with the Retry-After not capped, any other an HTTPStatusError that says whether it is retried |
| Bodies.ReadLimitedBody | httpx.go:774-788 | for every chunking, short read and error the result depends on the content alone; the first limit + 1 bytes are consumed, or all of a shorter body; it is closed exactly once |
| Bodies.ReadsAllOrFails | httpx.go:762-788 | never a truncated prefix: the read error exactly when the read meets it, else the whole content exactly when it fits the limit, else too large; at a limit of MaxInt64 nothing is too large, and below zero everything is |
| Bodies.DrainClose | httpx.go:734-746 | discards the first 64 KiB, or all of a shorter body, and closes exactly once, whatever the reads return |
| Backoff.BaseIsCappedDoubling | httpx.go:505-515 | after k retries the base is exactly min(base * 2^k, 2^63 - 1) under wrapping arithmetic |
| Backoff.DoublingSaturates | httpx.go:505-515 | doubling stops at the largest int64 and leaves alone what is not positive |
| Backoff.JitterRange | httpx.go:494-503 | each jittered wait lies between floor(b/2) and twice that, and is zero exactly for b = 1; a b that is not positive comes back |
| Backoff.JitterReaches | httpx.go:494-503 | every wait from floor(b/2) to twice that can be drawn |
| Backoff.CeilingIsUnbounded | loop.go:326-332 | comparing with the remaining budget is elapsed + wait >= max over the unbounded integers, for every wait and every saturated elapsed time |
| Backoff.SummingWouldOverflow | loop.go:326-329 | the int64 sum would let a wait near the maximum through |
| Backoff.SleepIsHonest | httpx.go:518-530 | success means the whole wait passed; an error means the context is over and is its cancellation or deadline; it outlasts neither the wait nor the context's end by more than its timer is late; either may win when both are ready |
| Backoff.SleepSeesTheEnd | httpx.go:518-530 | a sleep longer than its timer is late succeeds only by the end of the context, but for that lateness |
| LoopOptions.LaterOptionWins | loop.go:77-184 | the last option of each kind given to Do is in force, whatever surrounds it |
| LoopOptions.UnsetTakesDefault | loop.go:252-263 | without an option of a kind: three attempts, no attempt bound, no rate-limit mode |
| LoopOptions.NormalizedExactly | loop.go:230-250 | fewer than one attempt is one, a base delay that is not positive one second, a rate-limit bound that is not positive one minute, and nothing else changes |
| LoopOptions.ScheduleExactly | roundtripper.go:143-158 | the attempts, first backoff and ceiling of every door; a transport's zero is three attempts, a negative number one, a base that is not positive one second |
| LoopOptions.EveryRunIsInBudget | loop.go:302-324 | every run makes between one and its budget of attempts, all of them when exhausted, and stops for the ceiling only where the time gone and the next wait meet it |
| LoopOptions.RepeatableExactly | roundtripper.go:100-118 | a request may be repeated exactly for a method of the four safe ones, none, or with the opt-in, and no body or one GetBody rewinds |
| LoopTiming.AttemptsAreCounted | loop.go:302-324 | attempts and waits alternate, the budget is never exceeded, and exhausted means it was spent in full |
| LoopTiming.EveryAttemptStartsInBudget | roundtripper.go:50-57 | with a positive ceiling every attempt of every run starts strictly before start + MaxElapsedTime, but for what its own timer woke late; with punctual timers, strictly before |
| LoopTiming.WaitsFollowTheProgression | loop.go:357-365 | in every run of every door the k-th wait is its explicit wait or lies in [floor(b/2), b] for the base doubled k times, whatever the waits before it were |
| LoopTiming.TotalSleepIsBounded | roundtripper.go:134-141 | GetBytes and the transport sleep at most (N-1) * 60s plus the first N-1 bases over N attempts |
| LoopWaits.EveryWaitExactly | loop.go:302-324 | in every run of every door each wait is the one its attempt names, a rate limit's, a hint's or the reply's Retry-After, if positive, else a jitter of the base doubled that often; and the next attempt starts no earlier than the wait after the last |
| LoopWaits.ClassifyExactly | loop.go:408-427 | Do retries a rate limit under a mode that names it after min(hint, bound), else a transient error after the first hint of its nodes |
| LoopContext.EndIsSeenByEverySleep | loop.go:302-324 | in every run of every door an attempt after a wait longer than its timer is late starts no later than the context's end plus that lateness |
| LoopContext.NoRetryStartsAfterTheEnd | loop.go:154-158 | with a base delay of two nanoseconds or more and punctual timers no door starts a retry after its caller's context has ended |
| LoopContext.RateLimitRetriesStartLive | loop.go:199-205 | in rate-limit-only mode neither does Do, whatever the base delay |
| LoopContext.DoStartsLiveExactly | loop.go:186-205 | Do, as it is called, never does exactly for conflicting options, a base above one nanosecond, the rate-limit-only mode, or a single attempt |
| LoopContext.GetStartsLiveExactly | loop.go:518-533 | GetBytes never does exactly for a base above one nanosecond, a single attempt, or a request that cannot be made |
| LoopContext.TransportStartsLiveExactly | roundtripper.go:173-213 | RoundTrip, under any policy, never does exactly for a request that may not be repeated, a base above one nanosecond, a single attempt, a ceiling of one or two nanoseconds, or a policy that retries no first outcome that names no wait; the default policy retries one |
| LoopBodies.BodiesAreSettled | roundtripper.go:179-223 | in every run, however it ends, at most one body is open at any moment and none while a request goes out; at the end the only open body is the one handed back |
| LoopBodies.EachBodyIsClosedOnceOrReturned | roundtripper.go:187-213 | each body received is drained and closed exactly once, or is the single one returned and neither |
| LoopBodies.WatchedBodiesAreCounted | roundtripper.go:255-260 | a record the custodian accepts receives, drains and closes each body at most once and in that order |
| LoopBodies.GetBytesLeavesNothingOpen | loop.go:587-628 | GetBytes leaves no body open and never holds two, however it ends |
| LoopBodies.EveryRequestIsAReplay | roundtripper.go:232-253 | every request sent is built from the caller's, with what GetBody gave for it and at most one PrepareRetry, never from an earlier one; so it carries the whole body if GetBody does |
| LoopBodies.EveryBodyIsReceived | roundtripper.go:225-231 | every body that comes with the response to a request is on the record |
| LoopBodies.EveryGetIsPlain | loop.go:587-600 | every GET of GetBytes carries the configured header and no body, and the body of every reply is on the record |
| LoopEligibility.OthersAreSentOnce | roundtripper.go:100-118 | a request of another method without the opt-in, or with a body that cannot be rewound, goes out exactly once in every run, and comes back as it came |
| LoopEligibility.SentAgainExactly | roundtripper.go:179-213 | under a live context and no ceiling a second attempt follows exactly a first outcome the policy retries, of a request that may be repeated, under a budget of two or more; a second request exactly if GetBody and PrepareRetry let it |
| LoopBodies.RewindIsNeeded | roundtripper.go:111-118 | every retry sent, under any transport, carries the whole body, whatever earlier attempts read of it, exactly for a request with no body, one GetBody rewinds, or one without bytes, or a PrepareRetry that lets no retry out: the guard on bodies can be no weaker |
| LoopBodies.RunKeeps | loop.go:295-324 | what every attempt and every pause keep, every run keeps, whichever way it stops |
| LoopBudget.BothModesConflict | loop.go:178-184 | Do refuses before calling anything exactly the option lists that name both rate-limit modes, in any order and number |
| LoopBudget.ModeIsLastAsked | loop.go:178-184 | the mode and the conflict flag say exactly which rate-limit options were given |
| LoopBudget.CallerBudgetIsSafe | loop.go:473-508 | what Do returns, exactly: a success; outside rate-limit-only mode the end of a context it found over, unmarked; an error that is not to be retried or is the last of the budget; else the end of the context met in the sleep, so it never gives up early; and when each mark is applied, from the two reads |
| LoopBudget.UnearnedMarksAreRaces | loop.go:385-406 | a mark that Do retries on or returns was applied under a live caller whose attempt bound had fired, except in rate-limit-only mode, and there exactly unless the caller's context ended between the two reads |
| LoopBudget.MarksAreEarnedExactly | loop.go:385-406 | every mark kept in every run is earned exactly for a configuration that is not rate-limit-only or sets no attempt bound |
| LoopBudget.RaceIsReturned | loop.go:401-406 | a rate-limit-only run in which Do returns a deadline of the callback's own, marked as the expiry of a bound that had not fired |
| LoopBudget.RetriesExactly | loop.go:408-427 | Do retries exactly a rate limit under a mode that names them and a transient error except under rate-limit-only; without a mode a rate limit never |
| LoopBudget.RateLimitWaitsArePositive | loop.go:186-209 | the wait is the longest within the caller's bound and the first rate-limit node's positive hint, and is itself always positive |
| LoopReturns.GetBytesReturnsExactly | loop.go:518-628 | in every run, by the outcome of the last attempt alone: a 2xx gives its whole body exactly when its read meets no error and it fits the limit, else that error or too large; a retryable outcome gives exhaustion exactly when the budget is spent, else the context's end; any other its error, reduced; a request that cannot be made its error at once; and every earlier attempt met a retryable outcome |
| LoopReturns.RoundTripReturnsTheLastOutcome | roundtripper.go:173-223 | under any policy, GetBody and PrepareRetry RoundTrip returns, by its last attempt: the rewind or preparation error, wrapped; the error or refusal of the policy, asked about that very outcome; the outcome as it came; or, for one to retry, the context's end or the ceiling's error; every earlier attempt was one to retry; a request that may not be repeated comes back as it came |
| LoopReturns.ExhaustionKeepsVerdictAndHint | loop.go:546-573 | in every run of GetBytes that is exhausted, by its last outcome: over a status the error hands on that reply's Retry-After and keeps its verdict, terminal, and its cause; over a transport error it is transient exactly when no more than eight envelopes hide something transient, and where the client's is the only one it keeps verdict and cause exactly when the transport reads them as GetBytes did |
| LoopReturns.ExhaustionCanLoseTheVerdict | loop.go:546-557 | a run whose last failure is transient and whose exhaustion error is not |
| LoopReturns.EndsWithAttempt | loop.go:295-324 | every run is its attempts: all before the last were retried, the last began from the state they lead to, at the time recorded, and the run ends as it left things or where the wait after it was cut |
| LoopAgreement.GetBytesSimulatesTransport | loop.go:510-517 | with equal budgets, a replayable GET, no ceiling, a live context, the same draws and outcomes: the same number of requests, the same waits, and exhaustion in GetBytes exactly when RoundTrip returns a still-retryable outcome after its last attempt, if and only if every outcome met is judged the same through the envelope, an error in a url.Error of its own included |
| LoopAgreement.RequestsAreAttempts | loop.go:305-309 | a run of doors that send one request an attempt sends as many requests as it makes attempts |
| LoopAgreement.LiveRunIsNotCut | loop.go:313-323 | under a live context and no ceiling only an attempt ends a run |
| LoopNesting.NestedBudgetsMultiply | loop.go:165-168 | Do over GetBytes sends at most the product of their budgets, so no more than its own over one attempt |
| LoopNesting.ProductIsReached | loop.go:440-445 | the product is reached, for all budgets: where every exchange is reset each call spends its own and Do its own |
| LoopNesting.UnmarkedStatusEndsDo | loop.go:559-563 | in every run of Do over GetBytes, under every option, a call that failed on a status is the last, whatever Retry-After came with it |
| LoopNesting.MarkedStatusWaitsItsHint | loop.go:550-555 | when the callback marks the errors, the wait after a call that handed out a Retry-After is exactly that of its last reply |
| LoopInterleaving.SharedTransportIsSafe | roundtripper.go:179-223 | in every interleaving of calls on one transport each call that gets enough turns halts with exactly the record and outcome of its own RoundTrip, sent once or through the loop |
| LoopInterleaving.InterleavingProjects | CONTRIBUTING.md:8 | when no step changes the transport every interleaving projects, call by call, to the steps that call takes alone |
| LoopInterleaving.StepsKeepRest | loop.go:302-324 | the small steps of a call, attempt, pause and sleep, add up to the loop |
| LoopInterleaving.CallHalts | loop.go:302-324 | every call halts within three steps an attempt |
| Doors.Call.DrainResp | roundtripper.go:255-260 | reads the held body object up to the drain limit and closes it, if there is one, and nothing is open after |
| Doors.Call.RunAttempt | loop.go:375-406 | reads the caller's context, then the attempt's, and marks the error exactly when a bound is set, the first was live, the second over and the error matches a deadline |
| Doors.Call.DoAttempt | loop.go:481-493 | computes the judgement of Do on one attempt |
| Doors.Call.TakeReply | loop.go:595-628 | retries, refuses or reads a reply as specified, closing its body exactly once |
| Doors.Call.GetAttempt | loop.go:587-628 | computes the judgement of GetBytes on one attempt |
| Doors.Call.BuildAttemptRequest | roundtripper.go:235-253 | a new request equal to the specified replay or the specified error, the caller's request untouched |
| Doors.Call.SendOnce | roundtripper.go:225-231 | sends, names a bare hang-up, and holds exactly the body that arrived |
| Doors.Call.JudgeTrip | roundtripper.go:193-207 | policy error, final verdict, ended context or retry as specified, draining wherever no response is kept |
| Doors.Call.TransportAttempt | roundtripper.go:187-208 | computes the judgement of the transport on one attempt |
| Doors.Call.Pause | roundtripper.go:208-213 | after the hook nothing is open |
| Doors.Call.Between | loop.go:313-320 | the wait, the hook, the ceiling and the sleep in that order |
| Doors.Call.Run | loop.go:302-324 | the loop with its updated backoff computes the specified run of any door, and every body in it is new and accounted for |
| Doors.NewLoopConfig | loop.go:230-263 | the loop over the options, nil ones skipped, is the fold that later options win, with every field clamped to a usable value |
| Doors.Do | loop.go:473-508 | returns what the specified run of Do returns |
| Doors.GetBytes | loop.go:518-557 | returns what the specified run returns over the reduced error, and every body received is drained, or read up to the limit, and closed exactly once |
| Doors.RetryRoundTripper.RoundTrip | roundtripper.go:179-223 | returns what the specified run returns; every body object is drained and closed once except the returned one, of which nothing was read; the caller's request and the transport's fields do not change |
| DoorsInterleaving.Flight.Turn | roundtripper.go:179-213 | one turn of a RoundTrip in progress, over the shared transport read again, keeps it on the way to the run it makes alone |
| DoorsInterleaving.TakeTurn | roundtripper.go:179-213 | a turn of one call leaves the record and progress of every other call on the transport as they were, because they are not in its frame |
| DoorsInterleaving.RoundTripsInterleave | CONTRIBUTING.md:8 | in every interleaving of call objects with their own request streams on one transport object, each call that gets as many turns as the transport has attempts has done what its RoundTrip does alone, every body it received drained and closed once but for the one it hands back, and the transport is unchanged |
| Origins.PrintedOriginReadsBack | httpx.go:948-977 | the printed origin is the folded scheme and an authority without the scheme's default port; it splits back into the same host exactly unless that was bracketed text without a colon, and then into the same origin |
| Origins.HostIdentity | httpx.go:985-1001 | two hosts are one exactly when their addresses and zones are equal or their folded names are, never an address and a name |
| Origins.OriginKeysCompare | httpx.go:1013-1043 | two URLs have one origin key exactly when both have a host and a usable port, or none, and host, folded scheme and effective port agree, the port being the URL's, else 80 or 443 by scheme |
| Redirects.NormalizeSuffixes | httpx.go:1181-1196 | trims, anchors, folds and drops label-less entries, in order |
| Redirects.DomainExactly | httpx.go:1181-1196 | an entry stands for its folded text without the space around it and one leading dot |
| Redirects.UnderDomainExactly | httpx.go:1003-1007 | a name is under a domain exactly when it is the domain or ends in a dot and the domain |
| Redirects.HostKeysOf | httpx.go:1198-1206 | the identities of the non-empty entries, in order |
| Redirects.AllowlistIsPlainRule | httpx.go:1003-1007 | the compiled allowlist matches exactly the plain rule: equal address and zone, equal folded name, or a usable suffix by whole labels, never an IP literal by suffix |
| Redirects.RedirectPolicyFunc | httpx.go:1051-1077 | folding the options one by one compiles the specified policy |
| Redirects.DecidedExactly | httpx.go:1097-1149 | every decision and its precedence, over the options and the URLs: no permission, too many hops, a target not permitted, a downgrade, a changed method, else followed; a refusal names the target's origin |
| Redirects.FollowedExactly | httpx.go:1097-1149 | a hop is followed exactly when every rule of the options holds against the original request, over host, scheme and effective port; an absent original or URL permits nothing by its host, and without an original no hop keeps the method |
| Redirects.HopsAreBounded | httpx.go:1097-1102 | no chain follows more than maxHops hops, and one without permissions follows none |
| Redirects.SameOriginIsKept | httpx.go:1155-1169 | under WithSameOrigin every request to the original host goes to its scheme and effective port, and with no allowlist every hop goes to that host, scheme and port |
| Redirects.OnlyPermittedHostsAreReached | httpx.go:1151-1169 | every host reached is plainly allowed or is the original one where the options name it |
| Redirects.SchemeIsNotDowngraded | httpx.go:1113-1115 | unless allowed, a chain begun on https never reaches http |
| Redirects.MethodIsPreserved | httpx.go:1127-1149 | under WithPreserveMethod every request keeps the original method, an empty one being GET |
| Redirects.LaterOptionWins | httpx.go:804-870 | the last option of each kind in the list is the one in force, whatever surrounds it |
| Redirects.UnsetIsNotPermitted | httpx.go:1051-1077 | what no option of its kind sets is not permitted |
| Redaction.RedactionIsReversible | httpx.go:1394-1399 | the output is the input's pieces joined by the marker, and the same pieces joined by the secret are the input |
| Redaction.RedactionIsLeftmost | httpx.go:1394-1399 | the text is copied up to the first occurrence of the secret, which the marker replaces, and the rest is treated the same |
| Redaction.RedactionCopiesTheRest | httpx.go:1394-1399 | a text without the secret, and any text without a secret, comes back as it was |
| Redaction.RedactionIsCleanExactly | httpx.go:1394-1399 | no output holds the secret if and only if the secret is separable from the marker, a check on the secret alone |
| Redaction.NoOverlapIsSeparable | httpx.go:1394-1399 | a secret that neither contains, is contained in, nor overlaps an end of the marker is separable |
| Redaction.RedactionIsIdempotentExactly | httpx.go:1394-1399 | redacting twice changes nothing more on any input exactly for a separable secret, the marker itself, or none |
| Redaction.OverlapExamples | testdata/fuzz/FuzzRedactTransportError/094ccae75224ad44:2-4 | the condition is needed in each of its three forms, and is finer than overlap |
| Conditional.ValidValidator | conditional.go:103-113 | accepts exactly values up to 1 KiB whose bytes are a tab or from space up, and not DEL |
| Conditional.SetConditionalFields | conditional.go:50-57 | both conditional fields come from the validators alone and nothing else changes |
| Conditional.ConditionalFieldsComeFromValidators | conditional.go:38-57 | a field is sent, with that value alone, exactly when its validator is present and valid; every other field is the caller's |
| Conditional.ClassifyReply | conditional.go:63-88 | classifies every status as specified; on every path the body is drained, or read up to the limit, and closed exactly once |
| Conditional.ClassifiedExactly | conditional.go:58-89 | a 304 and nothing else is NotModified; a 200 is Fresh exactly when its read meets no error and it fits the limit, 10 MiB by default, with that body and each validator the first value of its field if valid, else empty; any other 200 is its read error or too large; every other status its typed error; a failed exchange its error without a url.Error |
| Conditional.DoConditional | conditional.go:46-89 | sends the specified header, returns the specified classification, and leaves the body drained or read and closed exactly once |
| Conditional.CapturedValidatorsAreReplayed | conditional.go:115-123 | what was captured is the server's value, and nothing exactly when that is not valid, and is replayed verbatim, never dropped |
| Conditional.CacheAgreesWithPlainGet | docs/responses.md:85-89 | over every run of polls against a server that answers 304 only for a matching validator and never reuses one for another body, a successful poll leaves the body a plain GET would have returned, and a failed one leaves the cache alone |
| Conditional.CachedResource.Poll | docs/responses.md:85-89 | one poll of the documented caller stores body and validators together or keeps both |
| Conditional.PollRepeatedly | docs/responses.md:85-89 | any number of polls leaves the cache of the run |

## Left out

- Real networking, TLS and certificates: thin wrappers over `crypto/x509` and `net/http`. What one
  exchange returns is a parameter.
- Logging: text, levels and messages, and the slow-upstream line. The pause hook keeps only its
  place in the run and the time it takes.
- HTTP-date parsing and the clock it reads: a parameter gives the time left or no date. The 64-byte
  bound and the sign test are modelled.
- `url.Parse`, percent-escaping and `redactURL`: scheme, host and port are given, and
  `netip.ParseAddr` is a parameter, a partial function to an address with a zone.
- Unicode case folding and white space: ASCII only. Header and host bytes are characters.
- The quality of the random source: a draw is any value in its range.
- User-defined `As` methods and typed-nil errors other than a `*url.Error` without a cause: error
  trees are well formed. A `*url.Error` that contains itself appears only in `ReduceURLErrors`, whose
  one-step reduction is a parameter.
- `PermanentError.Is`, which matches other `*PermanentError` targets: no verdict asks for it.
- `CheckRetry`, `OnRetry` and `PrepareRetry` are functions of what they are shown: they do not touch the
  response body, and `PrepareRetry` rewrites the header only.
- Redirects inside the one exchange of a `GetBytes` attempt, and its option list and `WithHeaders`:
  the configuration and the header it sends are given.
- `WithLogger`, `WithLabel` and `WithExhaustedLevel`: options that only affect logging are one option here.
- `DefaultRedirectPolicy`, `DockerGitHubRedirectPolicy`, `NewClient` and `NewRetryClient`: wrappers over
  what is modelled.
- `RedactTransportError` and `RedactSecret`: compositions of the reduction and the literal replacement.
- `ParseRetryAfterResponse` alone, `LimitedBody`, `ContextWithDefaultTimeout`, and the text encoding of
  `Cause`: easy members.
- Panics of user callbacks, and goroutine leaks: a callback returns.
- Doors.Call.ReadReply: a 2xx response without a body object is read as an empty one, where the source
  relies on `net/http` never handing one out.
- LoopAgreement.GetBytesSimulatesTransport: assumes round trips that do not return both a response and an
  error, as `http.RoundTripper` demands.
- LoopNesting.UnmarkedStatusEndsDo: the callback hands on the error of `GetBytes` as it is; one that wraps
  it in verdicts of its own is covered by `MarkedStatusWaitsItsHint` for `MarkTransient` only.
- LoopBodies.EveryRequestIsAReplay: that the whole body is sent rests on a `GetBody` that, when it succeeds,
  gives the original one.
- LoopInterleaving.SharedTransportIsSafe: interleaves whole attempts, pauses and sleeps of calls that
  are values; the connection pool below a round trip is part of the outcomes each call meets.
- DoorsInterleaving.RoundTripsInterleave: interleaves whole turns, an attempt with the wait after it, of
  calls no two of which read one request stream.
- Doors.Call.RunAttempt: the end of the caller's context reaches the attempt's own at once.
- Conditional.CacheAgreesWithPlainGet: a Last-Modified validator matches by equality, not by comparing dates.
