# Sliding-window rate limiter

This project models the `RateLimiter` class of `sampler/rate_limiter.py` in Dafny. The class keeps API calls under a
requests-per-minute (RPM) and a tokens-per-minute (TPM) limit. It does this with two logs inside a sliding window:

- a request log, holding one timestamp per admitted request;
- a token log, holding one `(timestamp, tokens)` entry per reported usage.

Entries older than `now - window_seconds` are popped from the head of each log. New entries are appended at the tail.
A wait is derived from the logs whenever a limit is reached.

The project has three modules:

- `SlidingWindow` (`window.dfy`) covers the logs as values:
  - what a trim at a cutoff keeps (`ExpiredCount`, `Recent`, `RecentTokens`);
  - the token sum (`Sum`);
  - the walk that accumulates freed tokens from the head until the overshoot is covered (`FirstReaching`, carried out by the loop `FindFreeingEntry`).
- `RateLimiting` (`rate_limiter.dfy`) covers the class:
  - `RateLimiter` has both logs as `seq` fields and one method per operation of the Python class;
  - the trim loops stay loops;
  - each method's contract ties the new logs and the returned wait to the functions above;
  - lemmas state what waiting achieves: after the wait, the limits hold again.
- `Scenario` (`scenario.dfy`) holds a scenario with `rpm_limit=2`, `tpm_limit=100` and a one-second window, checked
  call by call against the method contracts.

Python's truthiness for an optional limit is modelled by `Enabled`: a limit that is `None` or `0` takes no part in a
check. The clock is not read and nothing sleeps:

- each operation takes the clock reading `now` as a parameter;
- `Acquire` also takes the reading after its sleep, at which the request is recorded;
- `Acquire` and `ReportActualUsage` return the number of seconds they would sleep.

## Model

| member | source | states |
|---|---|---|
| RateLimiting.RateLimiter.constructor | sampler/rate_limiter.py:16-41 | Keeps the limits and the window (default 60 s, limits unset by default) and starts with both logs empty, hence ordered. |
| RateLimiting.Enabled | sampler/rate_limiter.py:80 | Definition of Python's truthiness test on an optional limit: set and non-zero. Every check below goes through it. |
| SlidingWindow.Recent | sampler/rate_limiter.py:45-49 | Definition of the trimmed request log. Its contract says it is a suffix of the log, in order, with nothing added, whose first entry, if any, is at or after the cutoff. Its other properties are in `RecentIsWindow`, `RecentOrdered` and `RecentCompose`. |
| SlidingWindow.RecentTokens | sampler/rate_limiter.py:51-53 | Definition of the trimmed token log, tested on each entry's timestamp. Its contract says the same as `Recent`'s. Its other properties are in `RecentTokensOrdered`, `RecentTokensIdempotent` and `RecentTokensSumBound`. |
| SlidingWindow.Sum | sampler/rate_limiter.py:60 | Definition of the current TPM, `sum(tokens ...)`. Its properties are in `SumSplit`, `PrefixSumMonotone` and `RecentTokensSumBound`. |
| SlidingWindow.ExpiredCount | sampler/rate_limiter.py:45-53 | The number of head entries the trim pops: every popped entry is strictly older than the cutoff, and the first kept entry, if any, is at or after it. |
| SlidingWindow.RecentIsWindow | sampler/rate_limiter.py:43-53 | On a time-ordered log, an entry survives the trim exactly when its timestamp is at or after `now - window_seconds`. |
| SlidingWindow.RecentOrdered | sampler/rate_limiter.py:43-53 | Trimming an ordered request log leaves it ordered, with every survivor inside the window. |
| SlidingWindow.RecentTokensOrdered | sampler/rate_limiter.py:51-53 | The same for the token log, where the test is on each entry's timestamp. |
| SlidingWindow.RecentCompose | sampler/rate_limiter.py:43-53 | Trimming at one cutoff and then at a later one equals trimming once at the later one, and keeps no more entries. |
| SlidingWindow.RecentTokensIdempotent | sampler/rate_limiter.py:51-53 | After a trim of the token log, a second trim at the same cutoff pops nothing. |
| SlidingWindow.AppendAfterTrimOrdered | sampler/rate_limiter.py:128-130 | Appending a time no earlier than any logged time to the trimmed request log keeps it ordered. |
| SlidingWindow.AppendAfterTrimTokensOrdered | sampler/rate_limiter.py:144-145 | Appending an entry stamped no earlier than any logged entry to the trimmed token log keeps it ordered. |
| RateLimiting.RateLimiter.PopExpiredRequests | sampler/rate_limiter.py:47-49 | The first pop loop leaves exactly the requests the trim keeps. |
| RateLimiting.RateLimiter.PopExpiredTokens | sampler/rate_limiter.py:51-53 | The second pop loop leaves exactly the token entries the trim keeps. |
| RateLimiting.RateLimiter.CleanOldEntries | sampler/rate_limiter.py:43-53 | Both logs become their trims at `now - window_seconds`. Afterwards a second trim at the same time pops nothing, and ordered logs stay ordered (on ordered logs every survivor is inside the window, by `RecentOrdered`). |
| SlidingWindow.SumSplit | sampler/rate_limiter.py:60 | The token sum of a log is the sum of any prefix plus the sum of the matching suffix. |
| SlidingWindow.PrefixSumMonotone | sampler/rate_limiter.py:90-94 | With non-negative counts, the running total of freed tokens never decreases along the log. |
| SlidingWindow.RecentTokensSumBound | sampler/rate_limiter.py:51-60 | With non-negative counts, trimming never raises the current TPM. |
| RateLimiting.RateLimiter.GetCurrentUsage | sampler/rate_limiter.py:55-62 | Trims, then returns the number of requests and the token sum of what is left. |
| SlidingWindow.FirstReaching | sampler/rate_limiter.py:89-97 | The walk's stopping entry: the running total reaches the target there and at no earlier entry; None means that no prefix reaches it. |
| SlidingWindow.FindFreeingEntry | sampler/rate_limiter.py:90-97 | The accumulate-and-break loop returns exactly the stopping entry that `FirstReaching` defines. |
| SlidingWindow.FirstReachingDefined | sampler/rate_limiter.py:89-97 | On a non-empty log, the walk stops somewhere if the target is at most the whole sum; with non-negative counts, only then. |
| SlidingWindow.FirstReachingMissed | sampler/rate_limiter.py:89-97 | With non-negative counts, a target above the whole sum is never reached, so the walk ends without a break. |
| SlidingWindow.ReleasedByExpiry | sampler/rate_limiter.py:89-97 | Once the stopping entry of an ordered log has left the window, the tokens left in the window have dropped by at least the target. |
| RateLimiting.RpmCandidate | sampler/rate_limiter.py:80-83 | The RPM wait before the buffer. It exists exactly when the limit is enabled and the trimmed log holds at least `rpm_limit` requests. Then the log is non-empty and the wait ends when the oldest request leaves the window. |
| RateLimiting.TpmCandidate | sampler/rate_limiter.py:87-97 | The TPM wait before the buffer, taken from the entry the walk stops at. It exists only when the limit is enabled and the tokens plus the estimate exceed it. When it exists is given by `TpmCandidateDefined` and `ReportWalkFinds`, and what it achieves by `TpmCandidateClears`. |
| RateLimiting.CombinedWait | sampler/rate_limiter.py:77-103 | The wait is 0 exactly when no candidate is positive. Otherwise it is more than the buffer, equals one candidate plus 0.1, and covers every positive candidate plus 0.1. |
| RateLimiting.RateLimiter.CalculateWaitTime | sampler/rate_limiter.py:64-103 | Trims the logs, then returns `CombinedWait` of the RPM candidate and the TPM candidate (with `estimated_tokens`) on the trimmed logs. The result is 0 or above the buffer. |
| RateLimiting.TpmCandidateDefined | sampler/rate_limiter.py:87-97 | When the TPM check triggers on non-negative counts, the walk yields a wait exactly when `estimated_tokens` alone fits the limit. |
| RateLimiting.TpmCandidateClears | sampler/rate_limiter.py:87-97 | Once the clock is past the TPM candidate, the window on an ordered log has room for the estimated tokens. |
| RateLimiting.WaitClearsRpm | sampler/rate_limiter.py:79-103 | With the RPM limit reached, after waiting the computed wait the trimmed request log is strictly shorter than before. |
| RateLimiting.WaitClearsTpm | sampler/rate_limiter.py:86-103 | For a request within the TPM limit, after waiting the computed wait the trimmed token log plus the estimate fits the limit. |
| RateLimiting.SleepFor | sampler/rate_limiter.py:122-126 | The sleep is never negative and is 0 without a candidate. It is positive exactly when the candidate plus 0.1 is positive, and then equals it; otherwise nothing is slept. |
| RateLimiting.RateLimiter.Acquire | sampler/rate_limiter.py:105-130 | Trims both logs, sleeps until the oldest request leaves the window plus 0.1 when the RPM limit is reached, and appends the post-sleep time to the request log. The token log is only trimmed, and ordered logs stay ordered. |
| RateLimiting.AcquireKeepsRpm | sampler/rate_limiter.py:113-130 | If the trimmed log was within `rpm_limit`, then after the sleep the log with the new request, trimmed at the recording time, is still within `rpm_limit`. |
| RateLimiting.TpmSleepAfterReport | sampler/rate_limiter.py:147-163 | The sleep is `SleepFor` of the TPM candidate on the log that holds the new entry. It is 0 when the limit is unset, zero, or not exceeded. |
| RateLimiting.RateLimiter.ReportActualUsage | sampler/rate_limiter.py:132-163 | Trims both logs, appends `(now, actual_tokens)` to the token log, and returns the TPM sleep; the request log is only trimmed. The sleep is 0 when within the limit, and ordered logs stay ordered. |
| RateLimiting.ReportWalkFinds | sampler/rate_limiter.py:148-163 | With a TPM limit set and exceeded, the walk in `report_actual_usage` always finds an entry, so the sleep is always computed. |
| RateLimiting.ReportKeepsTpm | sampler/rate_limiter.py:147-163 | After the reporting sleep, the token log (ordered, non-negative counts) trimmed at the wake-up time sums to at most `tpm_limit`. |
| RateLimiting.RateLimiter.GetCurrentStats | sampler/rate_limiter.py:165-175 | Trims, then returns the current RPM, the RPM limit, the current TPM and the TPM limit. Afterwards a second trim at the same time pops nothing, and ordered logs stay ordered. |

## Left out

- The lock (`threading.Lock`) and concurrency are not modelled. Each method runs as one atomic step, which is what the lock provides.
- `time.time()` and `time.sleep()` are not modelled: clock readings are parameters, and sleeps are returned as numbers of seconds.
- The progress messages (`print`) are not modelled.
- The utilization percentages in `get_current_stats` are not modelled, because they are floating-point divisions. `GetCurrentStats` returns the counts and limits only.
- Timestamps and waits are exact reals, not IEEE doubles. The model has no rounding.
- Token counts are unbounded integers, as in Python.
- RateLimiting.RateLimiter.Acquire: requires a non-negative (or unset) `rpm_limit`. With a negative limit and an empty request log, the source indexes an empty deque and raises `IndexError`; the model does not carry that error path.
- RateLimiting.RateLimiter.CalculateWaitTime: has the same non-negative `rpm_limit` requirement, for the same reason.
- RateLimiting.WaitClearsRpm: needs the clock to have strictly advanced (`now < later`). When a candidate is exactly 0, because an entry lies exactly at the cutoff, the computed wait is 0. The entry is then still counted as inside the window, so the same limit is still reached at the same instant.
- RateLimiting.WaitClearsTpm: needs `now < later` for the same reason.
- Ordering is proved to be preserved only when each new timestamp is no earlier than every logged one. This holds for a monotonic clock. A clock that steps back is not covered.
- Non-negative token counts (`AllNonNegative`) are a hypothesis of the lemmas about what waiting achieves. The methods accept any count, as the source does.
