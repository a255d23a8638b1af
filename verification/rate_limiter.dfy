/**
 * The rate limiter object of sampler/rate_limiter.py: a request log and a
 * token log, trimmed from the head and appended at the tail, and the waits
 * derived from them. The clock is not read and nothing sleeps: every
 * operation takes the current time `now` as a parameter, and the blocking
 * entry points return the number of seconds they would sleep.
 */
module RateLimiting {
  import opened SlidingWindow

  /** Seconds added to a positive wait so that the boundary is not re-violated. */
  const SafetyBuffer: real := 0.1

  const DefaultWindowSeconds: real := 60.0

  /** An optional limit takes part in a check when it is set and non-zero (its truthiness). */
  predicate Enabled(limit: Option<int>) {
    limit.Some? && limit.value != 0
  }

  /** A limit that is unset or not negative. */
  predicate NotNegative(limit: Option<int>) {
    limit.None? || limit.value >= 0
  }

  /**
   * The RPM check on a trimmed request log: when the limit is enabled and
   * reached, the caller must wait until the oldest request leaves the window.
   */
  function RpmCandidate(limit: Option<int>, requests: seq<real>, window: real, now: real): (r: Option<real>)
    requires NotNegative(limit)
    ensures r.Some? <==> Enabled(limit) && |requests| >= limit.value
    ensures r.Some? ==> |requests| > 0 && now + r.value == requests[0] + window
  {
    if Enabled(limit) && |requests| >= limit.value then Some(requests[0] + window - now) else None
  }

  /**
   * The TPM check on a trimmed token log: when the logged tokens plus
   * `estimated` exceed an enabled limit, the caller must wait until the entry
   * at which the overshoot has been freed leaves the window. None when no
   * entry frees enough.
   */
  function TpmCandidate(limit: Option<int>, tokens: seq<TokenEntry>, estimated: int, window: real, now: real): (r: Option<real>)
    ensures r.Some? ==> Enabled(limit) && Sum(tokens) + estimated > limit.value
  {
    if Enabled(limit) && Sum(tokens) + estimated > limit.value then
      match FirstReaching(tokens, Sum(tokens) + estimated - limit.value)
      case Some(k) => Some(tokens[k].time + window - now)
      case None => None
    else None
  }

  /** `max(w, c)` for a candidate that may be absent. */
  function Larger(w: real, candidate: Option<real>): real {
    match candidate
    case None => w
    case Some(c) => if c > w then c else w
  }

  /**
   * The wait `_calculate_wait_time` reports: zero when no candidate is
   * positive, otherwise the largest candidate plus the safety buffer.
   */
  function CombinedWait(rpm: Option<real>, tpm: Option<real>): (w: real)
    ensures w == 0.0 || w > SafetyBuffer
    ensures w == 0.0 <==> (rpm.None? || rpm.value <= 0.0) && (tpm.None? || tpm.value <= 0.0)
    ensures rpm.Some? && rpm.value > 0.0 ==> w >= rpm.value + SafetyBuffer
    ensures tpm.Some? && tpm.value > 0.0 ==> w >= tpm.value + SafetyBuffer
    ensures w > 0.0 ==> (rpm.Some? && w == rpm.value + SafetyBuffer) || (tpm.Some? && w == tpm.value + SafetyBuffer)
  {
    var longest := Larger(Larger(0.0, rpm), tpm);
    if longest > 0.0 then longest + SafetyBuffer else 0.0
  }

  /**
   * What `acquire` and `report_actual_usage` sleep for a candidate: the
   * candidate plus the buffer when that is positive, otherwise nothing.
   */
  function SleepFor(candidate: Option<real>): (s: real)
    ensures s >= 0.0
    ensures candidate.None? ==> s == 0.0
    ensures candidate.Some? && candidate.value + SafetyBuffer > 0.0 ==> s == candidate.value + SafetyBuffer
    ensures s > 0.0 <==> candidate.Some? && candidate.value + SafetyBuffer > 0.0
  {
    match candidate
    case None => 0.0
    case Some(c) => if c + SafetyBuffer > 0.0 then c + SafetyBuffer else 0.0
  }

  /** The counts part of `get_current_stats`. */
  datatype Stats = Stats(currentRpm: nat, rpmLimit: Option<int>, currentTpm: int, tpmLimit: Option<int>)

  class RateLimiter {
    const rpmLimit: Option<int>
    const tpmLimit: Option<int>
    const windowSeconds: real
    /** One timestamp per admitted request, oldest first. */
    var requestTimes: seq<real>
    /** One entry per reported usage, oldest first. */
    var tokenUsage: seq<TokenEntry>

    /** Both logs are in time order, which is what makes trimming from the head correct. */
    ghost predicate Ordered()
      reads this
    {
      NonDecreasing(requestTimes) && NonDecreasing(Times(tokenUsage))
    }

    constructor (rpmLimit: Option<int> := None, tpmLimit: Option<int> := None,
                 windowSeconds: real := DefaultWindowSeconds)
      ensures this.rpmLimit == rpmLimit && this.tpmLimit == tpmLimit
      ensures this.windowSeconds == windowSeconds
      ensures requestTimes == [] && tokenUsage == []
      ensures Ordered()
    {
      this.rpmLimit := rpmLimit;
      this.tpmLimit := tpmLimit;
      this.windowSeconds := windowSeconds;
      requestTimes := [];
      tokenUsage := [];
    }

    /**
     * Pops from the head of both logs every entry strictly older than
     * `now - windowSeconds`. Afterwards a second trim at the same time would
     * remove nothing, and ordered logs stay ordered.
     */
    method CleanOldEntries(now: real)
      modifies this
      ensures requestTimes == Recent(old(requestTimes), now - windowSeconds)
      ensures tokenUsage == RecentTokens(old(tokenUsage), now - windowSeconds)
      ensures ExpiredCount(requestTimes, now - windowSeconds) == 0
      ensures ExpiredCount(Times(tokenUsage), now - windowSeconds) == 0
      ensures old(Ordered()) ==> Ordered()
    {
      var cutoff := now - windowSeconds;
      PopExpiredRequests(cutoff);
      PopExpiredTokens(cutoff);
      RecentIdempotent(old(requestTimes), cutoff);
      RecentTokensIdempotent(old(tokenUsage), cutoff);
      if old(Ordered()) {
        RecentOrdered(old(requestTimes), cutoff);
        RecentTokensOrdered(old(tokenUsage), cutoff);
      }
    }

    /** The first loop of the trim: pop request timestamps older than `cutoff` from the head. */
    method PopExpiredRequests(cutoff: real)
      modifies this`requestTimes
      ensures requestTimes == Recent(old(requestTimes), cutoff)
    {
      ghost var dropped: nat := 0;
      while requestTimes != [] && requestTimes[0] < cutoff
        invariant dropped <= ExpiredCount(old(requestTimes), cutoff)
        invariant requestTimes == old(requestTimes)[dropped..]
        decreases |requestTimes|
      {
        requestTimes := requestTimes[1..];
        dropped := dropped + 1;
      }
    }

    /** The second loop of the trim: pop token entries older than `cutoff` from the head. */
    method PopExpiredTokens(cutoff: real)
      modifies this`tokenUsage
      ensures tokenUsage == RecentTokens(old(tokenUsage), cutoff)
    {
      ghost var times := Times(old(tokenUsage));
      ghost var dropped: nat := 0;
      while tokenUsage != [] && tokenUsage[0].time < cutoff
        invariant dropped <= ExpiredCount(times, cutoff)
        invariant tokenUsage == old(tokenUsage)[dropped..]
        decreases |tokenUsage|
      {
        assert times[dropped] < cutoff;
        tokenUsage := tokenUsage[1..];
        dropped := dropped + 1;
      }
      assert tokenUsage != [] ==> times[dropped] >= cutoff;
    }

    /** Trims, then reports how many requests and how many tokens are inside the window. */
    method GetCurrentUsage(now: real) returns (currentRpm: nat, currentTpm: int)
      modifies this
      ensures requestTimes == Recent(old(requestTimes), now - windowSeconds)
      ensures tokenUsage == RecentTokens(old(tokenUsage), now - windowSeconds)
      ensures currentRpm == |requestTimes| && currentTpm == Sum(tokenUsage)
      ensures old(Ordered()) ==> Ordered()
    {
      CleanOldEntries(now);
      currentRpm := |requestTimes|;
      currentTpm := Sum(tokenUsage);
    }

    /**
     * How long to wait before a request of `estimatedTokens` tokens: the
     * larger of the RPM and TPM candidates on the trimmed logs, plus the buffer
     * when positive. Trims the logs as a side effect.
     */
    method CalculateWaitTime(now: real, estimatedTokens: int) returns (wait: real)
      requires NotNegative(rpmLimit)
      modifies this
      ensures requestTimes == Recent(old(requestTimes), now - windowSeconds)
      ensures tokenUsage == RecentTokens(old(tokenUsage), now - windowSeconds)
      ensures wait == CombinedWait(RpmCandidate(rpmLimit, requestTimes, windowSeconds, now),
                                   TpmCandidate(tpmLimit, tokenUsage, estimatedTokens, windowSeconds, now))
      ensures wait == 0.0 || wait > SafetyBuffer
      ensures old(Ordered()) ==> Ordered()
    {
      var currentRpm, currentTpm := GetCurrentUsage(now);
      wait := 0.0;
      if Enabled(rpmLimit) && currentRpm >= rpmLimit.value {
        var oldestRequestTime := requestTimes[0];
        var waitForRpm := oldestRequestTime + windowSeconds - now;
        wait := if waitForRpm > wait then waitForRpm else wait;
      }
      if Enabled(tpmLimit) && currentTpm + estimatedTokens > tpmLimit.value {
        var tokensNeeded := currentTpm + estimatedTokens - tpmLimit.value;
        var entry := FindFreeingEntry(tokenUsage, tokensNeeded);
        if entry.Some? {
          var waitForTpm := tokenUsage[entry.value].time + windowSeconds - now;
          wait := if waitForTpm > wait then waitForTpm else wait;
        }
      }
      if wait > 0.0 {
        wait := wait + SafetyBuffer;
      }
    }

    /**
     * Admission of one request. Trims at `now`, checks the RPM limit only,
     * returns the sleep it takes, and records the request at `recordedAt` (the
     * clock reading after the sleep). The token log is only trimmed.
     */
    method Acquire(now: real, recordedAt: real) returns (slept: real)
      requires NotNegative(rpmLimit)
      modifies this
      ensures slept == SleepFor(RpmCandidate(rpmLimit, Recent(old(requestTimes), now - windowSeconds), windowSeconds, now))
      ensures requestTimes == Recent(old(requestTimes), now - windowSeconds) + [recordedAt]
      ensures tokenUsage == RecentTokens(old(tokenUsage), now - windowSeconds)
      ensures old(Ordered()) && (forall t :: t in old(requestTimes) ==> t <= recordedAt) ==> Ordered()
    {
      CleanOldEntries(now);
      var currentRpm := |requestTimes|;
      var waitTime := 0.0;
      if Enabled(rpmLimit) && currentRpm >= rpmLimit.value {
        var oldestRequestTime := requestTimes[0];
        waitTime := oldestRequestTime + windowSeconds - now + SafetyBuffer;
      }
      slept := 0.0;
      if waitTime > 0.0 {
        slept := waitTime;
      }
      requestTimes := requestTimes + [recordedAt];
      assert old(Ordered()) && (forall t :: t in old(requestTimes) ==> t <= recordedAt) ==> Ordered() by {
        if old(Ordered()) && (forall t :: t in old(requestTimes) ==> t <= recordedAt) {
          AppendAfterTrimOrdered(old(requestTimes), now - windowSeconds, recordedAt);
          RecentTokensOrdered(old(tokenUsage), now - windowSeconds);
        }
      }
    }

    /**
     * Records `actualTokens` used at `now` and returns how long the caller
     * must then sleep so that the token log, once the entry at which the
     * overshoot is freed has expired, is back within the TPM limit. The request
     * log is only trimmed.
     */
    method ReportActualUsage(now: real, actualTokens: int) returns (slept: real)
      modifies this
      ensures requestTimes == Recent(old(requestTimes), now - windowSeconds)
      ensures tokenUsage == RecentTokens(old(tokenUsage), now - windowSeconds) + [TokenEntry(now, actualTokens)]
      ensures slept == SleepFor(TpmCandidate(tpmLimit, tokenUsage, 0, windowSeconds, now))
      ensures !Enabled(tpmLimit) || Sum(tokenUsage) <= tpmLimit.value ==> slept == 0.0
      ensures old(Ordered()) && (forall e :: e in old(tokenUsage) ==> e.time <= now) ==> Ordered()
    {
      CleanOldEntries(now);
      tokenUsage := tokenUsage + [TokenEntry(now, actualTokens)];
      slept := TpmSleepAfterReport(tpmLimit, tokenUsage, windowSeconds, now);
      assert old(Ordered()) && (forall e :: e in old(tokenUsage) ==> e.time <= now) ==> Ordered() by {
        if old(Ordered()) && (forall e :: e in old(tokenUsage) ==> e.time <= now) {
          RecentOrdered(old(requestTimes), now - windowSeconds);
          AppendAfterTrimTokensOrdered(old(tokenUsage), now - windowSeconds, TokenEntry(now, actualTokens));
        }
      }
    }

    /** The counts of `get_current_stats`, read after a trim at `now`. */
    method GetCurrentStats(now: real) returns (stats: Stats)
      modifies this
      ensures requestTimes == Recent(old(requestTimes), now - windowSeconds)
      ensures tokenUsage == RecentTokens(old(tokenUsage), now - windowSeconds)
      ensures stats == Stats(|requestTimes|, rpmLimit, Sum(tokenUsage), tpmLimit)
      ensures ExpiredCount(requestTimes, now - windowSeconds) == 0
      ensures ExpiredCount(Times(tokenUsage), now - windowSeconds) == 0
      ensures old(Ordered()) ==> Ordered()
    {
      var currentRpm, currentTpm := GetCurrentUsage(now);
      RecentIdempotent(old(requestTimes), now - windowSeconds);
      RecentTokensIdempotent(old(tokenUsage), now - windowSeconds);
      stats := Stats(currentRpm, rpmLimit, currentTpm, tpmLimit);
    }
  }

  /**
   * The TPM check of `report_actual_usage` on the token log that already holds
   * the new entry: when the sum is over an enabled limit, walk the log for the
   * entry at which the overshoot is freed and sleep until it leaves the window
   * (plus the buffer), if that is in the future.
   */
  method TpmSleepAfterReport(tpmLimit: Option<int>, tokens: seq<TokenEntry>, window: real, now: real)
    returns (slept: real)
    ensures slept == SleepFor(TpmCandidate(tpmLimit, tokens, 0, window, now))
    ensures !Enabled(tpmLimit) || Sum(tokens) <= tpmLimit.value ==> slept == 0.0
  {
    slept := 0.0;
    if Enabled(tpmLimit) {
      var currentTpm := Sum(tokens);
      if currentTpm > tpmLimit.value {
        var tokensToFree := currentTpm - tpmLimit.value;
        var entry := FindFreeingEntry(tokens, tokensToFree);
        if entry.Some? {
          var waitTime := tokens[entry.value].time + window - now + SafetyBuffer;
          if waitTime > 0.0 {
            slept := waitTime;
          }
        }
      }
    }
  }

  // ---------------------------------------------------------------------
  // What waiting achieves

  /**
   * After waiting a `CombinedWait` (and some time has passed), the clock is
   * strictly past every candidate that took part.
   */
  lemma CombinedWaitCovers(rpm: Option<real>, tpm: Option<real>, now: real, later: real)
    requires now < later && now + CombinedWait(rpm, tpm) <= later
    ensures rpm.Some? ==> now + rpm.value < later
    ensures tpm.Some? ==> now + tpm.value < later
  {
  }

  /** After sleeping `SleepFor(c)`, the clock is strictly past the candidate `c`. */
  lemma SleepCovers(candidate: Option<real>, now: real, later: real)
    requires candidate.Some?
    requires now <= later && now + SleepFor(candidate) <= later
    ensures now + candidate.value < later
  {
  }

  /** Once the clock is past the RPM candidate, the oldest request has left the window. */
  lemma RpmCandidateClears(limit: Option<int>, requests: seq<real>, window: real, now: real, later: real)
    requires NotNegative(limit)
    requires RpmCandidate(limit, requests, window, now).Some?
    requires now + RpmCandidate(limit, requests, window, now).value < later
    ensures |requests| > 0 && requests[0] < later - window
    ensures |Recent(requests, later - window)| < |requests|
  {
  }

  /**
   * Once the clock is past the TPM candidate, on an ordered log with
   * non-negative counts, what is left in the window plus `estimated` fits
   * the limit.
   */
  lemma TpmCandidateClears(limit: Option<int>, tokens: seq<TokenEntry>, estimated: int,
                           window: real, now: real, later: real)
    requires NonDecreasing(Times(tokens)) && AllNonNegative(tokens)
    requires TpmCandidate(limit, tokens, estimated, window, now).Some?
    requires now + TpmCandidate(limit, tokens, estimated, window, now).value < later
    ensures Enabled(limit)
    ensures Sum(RecentTokens(tokens, later - window)) + estimated <= limit.value
  {
    var needed := Sum(tokens) + estimated - limit.value;
    var k := FirstReaching(tokens, needed).value;
    assert Times(tokens)[k] == tokens[k].time;
    ReleasedByExpiry(tokens, needed, k, later - window);
  }

  /**
   * When the TPM check triggers on non-negative counts, the walk finds an
   * entry exactly when `estimated` alone fits the limit: a request larger than
   * the whole limit adds no TPM wait.
   */
  lemma TpmCandidateDefined(limit: Option<int>, tokens: seq<TokenEntry>, estimated: int, window: real, now: real)
    requires AllNonNegative(tokens)
    requires Enabled(limit) && Sum(tokens) + estimated > limit.value
    ensures TpmCandidate(limit, tokens, estimated, window, now).Some? <==> estimated <= limit.value
  {
    var needed := Sum(tokens) + estimated - limit.value;
    if estimated <= limit.value {
      assert Sum(tokens) > 0;
      FirstReachingDefined(tokens, needed);
    } else {
      FirstReachingMissed(tokens, needed);
    }
  }

  /**
   * `_calculate_wait_time` honoured on the RPM side: after waiting the
   * combined wait, the trimmed request log is strictly shorter, so a log at
   * the limit is below it.
   */
  lemma WaitClearsRpm(limit: Option<int>, requests: seq<real>, tpm: Option<real>,
                      window: real, now: real, later: real)
    requires NotNegative(limit) && Enabled(limit) && |requests| >= limit.value
    requires now < later
    requires now + CombinedWait(RpmCandidate(limit, requests, window, now), tpm) <= later
    ensures |Recent(requests, later - window)| < |requests|
  {
    CombinedWaitCovers(RpmCandidate(limit, requests, window, now), tpm, now, later);
    RpmCandidateClears(limit, requests, window, now, later);
  }

  /**
   * `_calculate_wait_time` honoured on the TPM side: on an ordered log with
   * non-negative counts and a request that fits the limit, after waiting the
   * combined wait the window has room for `estimated` more tokens.
   */
  lemma WaitClearsTpm(limit: Option<int>, tokens: seq<TokenEntry>, estimated: int, rpm: Option<real>,
                      window: real, now: real, later: real)
    requires NonDecreasing(Times(tokens)) && AllNonNegative(tokens)
    requires Enabled(limit) && estimated <= limit.value
    requires now < later
    requires now + CombinedWait(rpm, TpmCandidate(limit, tokens, estimated, window, now)) <= later
    ensures Sum(RecentTokens(tokens, later - window)) + estimated <= limit.value
  {
    if Sum(tokens) + estimated > limit.value {
      TpmCandidateDefined(limit, tokens, estimated, window, now);
      CombinedWaitCovers(rpm, TpmCandidate(limit, tokens, estimated, window, now), now, later);
      TpmCandidateClears(limit, tokens, estimated, window, now, later);
    } else {
      RecentTokensSumBound(tokens, later - window);
    }
  }

  /**
   * `acquire` never lets the window ending at a recording time hold more than
   * `rpm_limit` requests, provided the trimmed log was within the limit and the
   * request is recorded after the sleep.
   */
  lemma AcquireKeepsRpm(limit: Option<int>, log: seq<real>, window: real, now: real, recordedAt: real)
    requires NotNegative(limit) && Enabled(limit)
    requires |Recent(log, now - window)| <= limit.value
    requires now <= recordedAt
    requires now + SleepFor(RpmCandidate(limit, Recent(log, now - window), window, now)) <= recordedAt
    ensures |Recent(Recent(log, now - window) + [recordedAt], recordedAt - window)| <= limit.value
  {
    var recent := Recent(log, now - window);
    var grown := recent + [recordedAt];
    if |recent| == limit.value {
      SleepCovers(RpmCandidate(limit, recent, window, now), now, recordedAt);
      assert grown[0] == recent[0];
    }
  }

  /**
   * With `tpm_limit` set, the walk in `report_actual_usage` always finds an
   * entry when the log is over the limit, because the whole log's sum exceeds
   * the overshoot.
   */
  lemma ReportWalkFinds(limit: Option<int>, tokens: seq<TokenEntry>, window: real, now: real)
    requires NotNegative(limit) && Enabled(limit) && Sum(tokens) > limit.value
    ensures TpmCandidate(limit, tokens, 0, window, now).Some?
  {
    var needed := Sum(tokens) + 0 - limit.value;
    assert |tokens| > 0 && needed <= Sum(tokens);
    FirstReachingDefined(tokens, needed);
  }

  /**
   * `report_actual_usage` restores the TPM limit: after its sleep, the token
   * log (ordered, non-negative counts) trimmed at the later time sums to at
   * most `tpm_limit`.
   */
  lemma ReportKeepsTpm(limit: Option<int>, tokens: seq<TokenEntry>, window: real, now: real, later: real)
    requires NotNegative(limit) && Enabled(limit)
    requires NonDecreasing(Times(tokens)) && AllNonNegative(tokens)
    requires now <= later
    requires now + SleepFor(TpmCandidate(limit, tokens, 0, window, now)) <= later
    ensures Sum(RecentTokens(tokens, later - window)) <= limit.value
  {
    if Sum(tokens) > limit.value {
      ReportWalkFinds(limit, tokens, window, now);
      SleepCovers(TpmCandidate(limit, tokens, 0, window, now), now, later);
      TpmCandidateClears(limit, tokens, 0, window, now, later);
    } else {
      RecentTokensSumBound(tokens, later - window);
    }
  }
}
