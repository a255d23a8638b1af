/**
 * The two time-ordered logs of the sliding-window rate limiter, as values:
 * which entries a trim at a given cutoff keeps, the token sum of a log, and
 * the prefix walk that finds the entry at which enough tokens are freed.
 */
module SlidingWindow {

  datatype Option<T> = None | Some(value: T)

  /** One reported usage event: when it was recorded and how many tokens it used. */
  datatype TokenEntry = TokenEntry(time: real, tokens: int)

  /** Timestamps in insertion order never go back in time. */
  predicate NonDecreasing(times: seq<real>) {
    forall i, j :: 0 <= i <= j < |times| ==> times[i] <= times[j]
  }

  /** The timestamps of a token log, in log order. */
  function Times(log: seq<TokenEntry>): seq<real> {
    seq(|log|, i requires 0 <= i < |log| => log[i].time)
  }

  predicate AllNonNegative(log: seq<TokenEntry>) {
    forall i :: 0 <= i < |log| ==> log[i].tokens >= 0
  }

  /**
   * How many entries the head-popping loop removes: the longest prefix of
   * entries strictly older than `cutoff`. An entry exactly at the cutoff stops it.
   */
  function ExpiredCount(times: seq<real>, cutoff: real): (n: nat)
    ensures n <= |times|
    ensures forall i :: 0 <= i < n ==> times[i] < cutoff
    ensures n < |times| ==> times[n] >= cutoff
  {
    if times == [] || times[0] >= cutoff then 0 else 1 + ExpiredCount(times[1..], cutoff)
  }

  /**
   * The request log after trimming at `cutoff`: a suffix of the log, in
   * order, with nothing added, that starts with an entry at or after the cutoff.
   */
  function Recent(times: seq<real>, cutoff: real): (r: seq<real>)
    ensures |r| <= |times|
    ensures forall i :: 0 <= i < |r| ==> r[i] == times[|times| - |r| + i]
    ensures r != [] ==> r[0] >= cutoff
  {
    times[ExpiredCount(times, cutoff)..]
  }

  /** The token log after trimming at `cutoff`: the test is on each entry's timestamp. */
  function RecentTokens(log: seq<TokenEntry>, cutoff: real): (r: seq<TokenEntry>)
    ensures |r| <= |log|
    ensures forall i :: 0 <= i < |r| ==> r[i] == log[|log| - |r| + i]
    ensures r != [] ==> r[0].time >= cutoff
  {
    log[ExpiredCount(Times(log), cutoff)..]
  }

  /** Sum of the token counts, accumulated left to right. */
  function Sum(log: seq<TokenEntry>): int {
    if log == [] then 0 else Sum(log[..|log| - 1]) + log[|log| - 1].tokens
  }

  /** The running total after entry `k` has been added reaches `needed`. */
  predicate Reaches(log: seq<TokenEntry>, k: nat, needed: int)
    requires k < |log|
  {
    Sum(log[..k + 1]) >= needed
  }

  /**
   * The oldest entry at which the running total of freed tokens reaches
   * `needed`, or None when no prefix of the log reaches it.
   */
  function FirstReaching(log: seq<TokenEntry>, needed: int): (r: Option<nat>)
    ensures r.Some? ==> r.value < |log| && Reaches(log, r.value, needed)
    ensures r.Some? ==> forall j :: 0 <= j < r.value ==> !Reaches(log, j, needed)
    ensures r.None? ==> forall j :: 0 <= j < |log| ==> !Reaches(log, j, needed)
  {
    FirstReachingFrom(log, needed, 0)
  }

  function FirstReachingFrom(log: seq<TokenEntry>, needed: int, i: nat): (r: Option<nat>)
    requires i <= |log|
    requires forall j :: 0 <= j < i ==> !Reaches(log, j, needed)
    ensures r.Some? ==> i <= r.value < |log| && Reaches(log, r.value, needed)
    ensures r.Some? ==> forall j :: 0 <= j < r.value ==> !Reaches(log, j, needed)
    ensures r.None? ==> forall j :: 0 <= j < |log| ==> !Reaches(log, j, needed)
    decreases |log| - i
  {
    if i == |log| then None
    else if Reaches(log, i, needed) then Some(i)
    else FirstReachingFrom(log, needed, i + 1)
  }

  /**
   * The `for ... break` walk over the token log: accumulate freed tokens from
   * the head and stop at the first entry where the total reaches `needed`.
   */
  method FindFreeingEntry(log: seq<TokenEntry>, needed: int) returns (found: Option<nat>)
    ensures found == FirstReaching(log, needed)
  {
    var freed := 0;
    var i := 0;
    while i < |log|
      invariant 0 <= i <= |log|
      invariant freed == Sum(log[..i])
      invariant forall j :: 0 <= j < i ==> !Reaches(log, j, needed)
    {
      PrefixSumStep(log, i);
      freed := freed + log[i].tokens;
      if freed >= needed {
        assert Reaches(log, i, needed);
        return Some(i);
      }
      i := i + 1;
    }
    return None;
  }

  // ---------------------------------------------------------------------
  // Trimming

  /**
   * On a non-decreasing log, an entry survives the trim exactly when its
   * timestamp is at or after the cutoff.
   */
  lemma RecentIsWindow(times: seq<real>, cutoff: real)
    requires NonDecreasing(times)
    ensures forall i :: 0 <= i < |times| ==> (times[i] >= cutoff <==> i >= ExpiredCount(times, cutoff))
    ensures forall t :: t in Recent(times, cutoff) ==> t >= cutoff
  {
    var n := ExpiredCount(times, cutoff);
    forall i | n <= i < |times| ensures times[i] >= cutoff {
      assert times[n] <= times[i];
    }
  }

  /** Trimming an ordered log leaves an ordered log whose entries are all at or after the cutoff. */
  lemma RecentOrdered(times: seq<real>, cutoff: real)
    requires NonDecreasing(times)
    ensures NonDecreasing(Recent(times, cutoff))
    ensures forall t :: t in Recent(times, cutoff) ==> t >= cutoff
  {
    RecentIsWindow(times, cutoff);
  }

  /** Token-log version of RecentOrdered. */
  lemma RecentTokensOrdered(log: seq<TokenEntry>, cutoff: real)
    requires NonDecreasing(Times(log))
    ensures NonDecreasing(Times(RecentTokens(log, cutoff)))
    ensures forall e :: e in RecentTokens(log, cutoff) ==> e.time >= cutoff
  {
    var rest := RecentTokens(log, cutoff);
    TimesOfRecentTokens(log, cutoff);
    RecentOrdered(Times(log), cutoff);
    forall e | e in rest ensures e.time >= cutoff {
      var i :| 0 <= i < |rest| && rest[i] == e;
      assert Times(rest)[i] in Recent(Times(log), cutoff);
    }
  }

  /** Appending a time no earlier than any logged time keeps a log ordered. */
  lemma AppendOrdered(times: seq<real>, t: real)
    requires NonDecreasing(times)
    requires forall x :: x in times ==> x <= t
    ensures NonDecreasing(times + [t])
  {
    var grown := times + [t];
    forall i, j | 0 <= i <= j < |grown| ensures grown[i] <= grown[j] {
      if j == |times| {
        assert grown[i] in times || i == j;
      }
    }
  }

  /** Appending to a trimmed log, when the new time is no earlier than any time in the untrimmed log. */
  lemma AppendAfterTrimOrdered(times: seq<real>, cutoff: real, t: real)
    requires NonDecreasing(times)
    requires forall x :: x in times ==> x <= t
    ensures NonDecreasing(Recent(times, cutoff) + [t])
  {
    var rest := Recent(times, cutoff);
    RecentOrdered(times, cutoff);
    forall x | x in rest ensures x <= t {
      var i :| 0 <= i < |rest| && rest[i] == x;
      var j := ExpiredCount(times, cutoff) + i;
      assert x == times[j] && times[j] in times;
    }
    AppendOrdered(rest, t);
  }

  /** Token-log version of AppendAfterTrimOrdered. */
  lemma AppendAfterTrimTokensOrdered(log: seq<TokenEntry>, cutoff: real, e: TokenEntry)
    requires NonDecreasing(Times(log))
    requires forall x :: x in log ==> x.time <= e.time
    ensures NonDecreasing(Times(RecentTokens(log, cutoff) + [e]))
  {
    var times := Times(log);
    forall t | t in times ensures t <= e.time {
      var i :| 0 <= i < |times| && times[i] == t;
      assert log[i] in log;
    }
    AppendAfterTrimOrdered(times, cutoff, e.time);
    TimesOfRecentTokens(log, cutoff);
    assert Times(RecentTokens(log, cutoff) + [e]) == Recent(times, cutoff) + [e.time];
  }

  /** The number of expired entries is determined by its two defining facts. */
  lemma ExpiredCountUnique(times: seq<real>, cutoff: real, n: nat)
    requires n <= |times|
    requires forall i :: 0 <= i < n ==> times[i] < cutoff
    requires n < |times| ==> times[n] >= cutoff
    ensures ExpiredCount(times, cutoff) == n
  {
  }

  /**
   * Trimming at `c1` and then at a later cutoff `c2` is trimming at `c2`; in
   * particular a second trim with the same cutoff changes nothing.
   */
  lemma {:induction false} RecentCompose(times: seq<real>, c1: real, c2: real)
    requires c1 <= c2
    ensures Recent(Recent(times, c1), c2) == Recent(times, c2)
    ensures |Recent(times, c2)| <= |Recent(times, c1)|
  {
    var n1 := ExpiredCount(times, c1);
    var n2 := ExpiredCount(times, c2);
    var rest := times[n1..];
    assert n1 <= n2;
    ExpiredCountUnique(rest, c2, n2 - n1);
    assert Recent(times, c1) == rest;
    assert rest[n2 - n1..] == times[n2..];
  }

  /** A second trim at the same cutoff removes nothing. */
  lemma RecentIdempotent(times: seq<real>, cutoff: real)
    ensures ExpiredCount(Recent(times, cutoff), cutoff) == 0
  {
  }

  /** The timestamps of the trimmed token log are the trimmed timestamps. */
  lemma TimesOfRecentTokens(log: seq<TokenEntry>, cutoff: real)
    ensures Times(RecentTokens(log, cutoff)) == Recent(Times(log), cutoff)
  {
  }

  /** Token-log version of RecentIdempotent. */
  lemma RecentTokensIdempotent(log: seq<TokenEntry>, cutoff: real)
    ensures ExpiredCount(Times(RecentTokens(log, cutoff)), cutoff) == 0
  {
    TimesOfRecentTokens(log, cutoff);
    RecentIdempotent(Times(log), cutoff);
  }

  // ---------------------------------------------------------------------
  // Token sums

  lemma PrefixSumStep(log: seq<TokenEntry>, k: nat)
    requires k < |log|
    ensures Sum(log[..k + 1]) == Sum(log[..k]) + log[k].tokens
  {
    assert log[..k + 1][..k] == log[..k];
  }

  /** The sum of a log is the sum of any prefix plus the sum of the matching suffix. */
  lemma {:induction false} SumSplit(log: seq<TokenEntry>, n: nat)
    requires n <= |log|
    ensures Sum(log) == Sum(log[..n]) + Sum(log[n..])
    decreases |log|
  {
    if n == |log| {
      assert log[..n] == log;
      assert log[n..] == [];
    } else {
      var init := log[..|log| - 1];
      SumSplit(init, n);
      assert init[..n] == log[..n];
      assert log[n..][..|log[n..]| - 1] == init[n..];
    }
  }

  /** With non-negative counts, longer prefixes never have smaller sums. */
  lemma {:induction false} PrefixSumMonotone(log: seq<TokenEntry>, i: nat, j: nat)
    requires AllNonNegative(log)
    requires i <= j <= |log|
    ensures Sum(log[..i]) <= Sum(log[..j])
    decreases j - i
  {
    if i < j {
      PrefixSumStep(log, j - 1);
      PrefixSumMonotone(log, i, j - 1);
    }
  }

  /** With non-negative counts, trimming never increases the token sum. */
  lemma RecentTokensSumBound(log: seq<TokenEntry>, cutoff: real)
    requires AllNonNegative(log)
    ensures Sum(RecentTokens(log, cutoff)) <= Sum(log)
  {
    var n := ExpiredCount(Times(log), cutoff);
    SumSplit(log, n);
    PrefixSumMonotone(log, 0, n);
    assert log[..0] == [];
  }

  // ---------------------------------------------------------------------
  // The prefix walk

  /**
   * When the whole log's sum reaches `needed`, the walk finds an entry (the
   * last prefix is the whole log); with non-negative counts it finds one only then.
   */
  lemma FirstReachingDefined(log: seq<TokenEntry>, needed: int)
    requires |log| > 0
    ensures needed <= Sum(log) ==> FirstReaching(log, needed).Some?
    ensures AllNonNegative(log) && FirstReaching(log, needed).Some? ==> needed <= Sum(log)
  {
    var last := |log| - 1;
    assert log[..last + 1] == log;
    assert Reaches(log, last, needed) <==> needed <= Sum(log);
    if AllNonNegative(log) && FirstReaching(log, needed).Some? {
      var k := FirstReaching(log, needed).value;
      PrefixSumMonotone(log, k + 1, |log|);
    }
  }

  /** With non-negative counts, a target above the whole sum is never reached. */
  lemma FirstReachingMissed(log: seq<TokenEntry>, needed: int)
    requires AllNonNegative(log)
    requires needed > Sum(log)
    ensures FirstReaching(log, needed) == None
  {
    if FirstReaching(log, needed).Some? {
      FirstReachingDefined(log, needed);
    }
  }

  /**
   * Once the entry at which the walk stopped has left the window (its time is
   * before the cutoff), the sum of what remains has dropped by at least `needed`.
   */
  lemma ReleasedByExpiry(log: seq<TokenEntry>, needed: int, k: nat, cutoff: real)
    requires NonDecreasing(Times(log))
    requires AllNonNegative(log)
    requires k < |log| && Reaches(log, k, needed)
    requires log[k].time < cutoff
    ensures Sum(RecentTokens(log, cutoff)) <= Sum(log) - needed
  {
    var times := Times(log);
    var n := ExpiredCount(times, cutoff);
    assert k < n by {
      assert times[k] == log[k].time;
      RecentIsWindow(times, cutoff);
    }
    assert Sum(log[..n]) >= needed by {
      PrefixSumMonotone(log, k + 1, n);
    }
    SumSplit(log, n);
    assert RecentTokens(log, cutoff) == log[n..];
  }
}
