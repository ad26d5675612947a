/** The two sliding-window limiters, and the full-history rule both of them implement.
    pkg/httpkit/middleware.go keeps a pruned list per key, in memory;
    pkg/platform/httpserver/redis_rate_limiter.go keeps a pruned sorted set in Redis. */
module RateLimits {
  import opened Common

  const NANOS_PER_MILLI := 1_000_000
  const NANOS_PER_SECOND := 1_000_000_000

  datatype Decision = Decision(allowed: bool, remaining: int, retryAfter: Time)

  datatype Answer = Decided(decision: Decision) | Refused(reason: Refusal)

  datatype Refusal = LimitNotPositive | WindowNotPositive

  // ----- The rule -----

  ghost predicate Sorted(times: seq<Time>) {
    forall i, j :: 0 <= i <= j < |times| ==> times[i] <= times[j]
  }

  /** How many of the times are later than the cutoff. */
  function LaterThan(times: seq<Time>, cutoff: Time): nat {
    if times == [] then 0
    else LaterThan(times[..|times| - 1], cutoff) + if times[|times| - 1] > cutoff then 1 else 0
  }

  /** A call at `now` is within the limit when fewer than `limit` calls were admitted
      in the window (now - window, now]. */
  predicate WithinLimit(history: seq<Time>, now: Time, limit: nat, window: Time) {
    LaterThan(history, now - window) < limit
  }

  /** Every admission ever made for one key, given the times of all calls. */
  function Admissions(calls: seq<Time>, limit: nat, window: Time): seq<Time> {
    if calls == [] then []
    else
      var now := calls[|calls| - 1];
      var history := Admissions(calls[..|calls| - 1], limit, window);
      if WithinLimit(history, now, limit, window) then history + [now] else history
  }

  lemma {:induction false} AdmissionsAreSorted(calls: seq<Time>, limit: nat, window: Time)
    requires Sorted(calls)
    ensures Sorted(Admissions(calls, limit, window))
    ensures forall i :: 0 <= i < |Admissions(calls, limit, window)| ==>
              Admissions(calls, limit, window)[i] <= calls[|calls| - 1]
  {
    if calls != [] {
      AdmissionsAreSorted(calls[..|calls| - 1], limit, window);
    }
  }

  // ----- The in-memory list -----

  /** The list without its leading entries at or before the cutoff. */
  function Pruned(times: seq<Time>, cutoff: Time): seq<Time> {
    if times != [] && times[0] <= cutoff then Pruned(times[1..], cutoff) else times
  }

  lemma {:induction false} PrunedIsSuffix(times: seq<Time>, cutoff: Time)
    ensures |Pruned(times, cutoff)| <= |times|
    ensures Pruned(times, cutoff) == times[|times| - |Pruned(times, cutoff)|..]
    ensures forall i :: 0 <= i < |times| - |Pruned(times, cutoff)| ==> times[i] <= cutoff
    ensures Pruned(times, cutoff) != [] ==> Pruned(times, cutoff)[0] > cutoff
  {
    if times != [] && times[0] <= cutoff {
      PrunedIsSuffix(times[1..], cutoff);
    }
  }

  /** Pruning a sorted list keeps exactly the entries the rule counts. */
  lemma PrunedCounts(times: seq<Time>, cutoff: Time)
    requires Sorted(times)
    ensures |Pruned(times, cutoff)| == LaterThan(times, cutoff)
  {
    PrunedIsSuffix(times, cutoff);
    var n := |times| - |Pruned(times, cutoff)|;
    SplitCount(times, n, cutoff);
  }

  lemma {:induction false} SplitCount(times: seq<Time>, n: nat, cutoff: Time)
    requires n <= |times| && Sorted(times)
    requires forall i :: 0 <= i < n ==> times[i] <= cutoff
    requires n < |times| ==> times[n] > cutoff
    ensures LaterThan(times, cutoff) == |times| - n
  {
    if times != [] {
      var last := |times| - 1;
      if n <= last {
        assert times[n] <= times[last];
        SplitCount(times[..last], n, cutoff);
      } else {
        SplitCount(times[..last], last, cutoff);
      }
    }
  }

  /** Pruning again with a later cutoff forgets the earlier one. */
  lemma {:induction false} PrunedTwice(times: seq<Time>, earlier: Time, later: Time)
    requires earlier <= later
    ensures Pruned(Pruned(times, earlier), later) == Pruned(times, later)
  {
    if times != [] && times[0] <= earlier {
      PrunedTwice(times[1..], earlier, later);
    }
  }

  lemma {:induction false} PrunedAppend(times: seq<Time>, cutoff: Time, now: Time)
    requires now > cutoff
    ensures Pruned(times + [now], cutoff) == Pruned(times, cutoff) + [now]
  {
    if times != [] && times[0] <= cutoff {
      assert (times + [now])[1..] == times[1..] + [now];
      PrunedAppend(times[1..], cutoff, now);
    }
  }

  /** One call of Allow on the list stored for a key. */
  function AllowInMemory(attempts: seq<Time>, now: Time, limit: nat, window: Time): (Decision, seq<Time>)
    requires limit > 0
  {
    var kept := Pruned(attempts, now - window);
    if |kept| >= limit then (Decision(false, 0, kept[0] + window - now), kept)
    else (Decision(true, limit - |kept| - 1, 0), kept + [now])
  }

  class MemoryRateLimiter {
    var attempts: map<string, seq<Time>>

    constructor ()
      ensures attempts == map[]
    {
      attempts := map[];
    }

    function Stored(key: string): seq<Time>
      reads this
    {
      if key in attempts then attempts[key] else []
    }

    method Allow(key: string, limit: int, window: Time, now: Time) returns (answer: Answer)
      modifies this
      ensures limit <= 0 ==> answer == Refused(LimitNotPositive)
      ensures limit > 0 && window <= 0 ==> answer == Refused(WindowNotPositive)
      ensures answer.Refused? ==> attempts == old(attempts)
      ensures limit > 0 && window > 0 ==>
                var (decision, kept) := AllowInMemory(old(Stored(key)), now, limit, window);
                answer == Decided(decision) && attempts == old(attempts)[key := kept]
    {
      if limit <= 0 {
        return Refused(LimitNotPositive);
      }
      if window <= 0 {
        return Refused(WindowNotPositive);
      }
      var cutoff := now - window;
      var kept := Stored(key);
      var firstActive := 0;
      while firstActive < |kept| && kept[firstActive] <= cutoff
        invariant 0 <= firstActive <= |kept|
        invariant Pruned(kept, cutoff) == Pruned(kept[firstActive..], cutoff)
      {
        assert kept[firstActive..][1..] == kept[firstActive + 1..];
        firstActive := firstActive + 1;
      }
      kept := kept[firstActive..];
      if |kept| >= limit {
        attempts := attempts[key := kept];
        return Decided(Decision(false, 0, kept[0] + window - now));
      }
      kept := kept + [now];
      attempts := attempts[key := kept];
      return Decided(Decision(true, limit - |kept|, 0));
    }
  }

  /** What the list holds after a sequence of calls for one key. */
  function MemoryRun(calls: seq<Time>, limit: nat, window: Time): seq<Time>
    requires limit > 0
  {
    if calls == [] then []
    else AllowInMemory(MemoryRun(calls[..|calls| - 1], limit, window), calls[|calls| - 1], limit, window).1
  }

  /** What a call at `now` finds, pruned, when the list was right after the calls before. */
  lemma PrunedOnceMore(history: seq<Time>, kept: seq<Time>, before: seq<Time>, now: Time, window: Time)
    requires Sorted(history) && (before == [] ==> kept == [] && history == [])
    requires before != [] ==> kept == Pruned(history, before[|before| - 1] - window) && before[|before| - 1] <= now
    ensures Pruned(kept, now - window) == Pruned(history, now - window)
    ensures |Pruned(kept, now - window)| == LaterThan(history, now - window)
  {
    if before != [] {
      PrunedTwice(history, before[|before| - 1] - window, now - window);
    }
    PrunedCounts(history, now - window);
  }

  /** The list is the full history, pruned at the last call, and never over the limit. */
  lemma {:induction false} MemoryRunIsPrunedHistory(calls: seq<Time>, limit: nat, window: Time)
    requires limit > 0 && window > 0 && Sorted(calls)
    ensures |MemoryRun(calls, limit, window)| <= limit
    ensures calls != [] ==>
              MemoryRun(calls, limit, window) == Pruned(Admissions(calls, limit, window), calls[|calls| - 1] - window)
  {
    if calls != [] {
      var before, now := calls[..|calls| - 1], calls[|calls| - 1];
      MemoryRunIsPrunedHistory(before, limit, window);
      var history := Admissions(before, limit, window);
      AdmissionsAreSorted(before, limit, window);
      PrunedOnceMore(history, MemoryRun(before, limit, window), before, now, window);
      PrunedIsSuffix(MemoryRun(before, limit, window), now - window);
      PrunedAppend(history, now - window, now);
    }
  }

  /** The pruned list decides every call exactly as the full history does. */
  lemma MemoryLimiterFollowsRule(calls: seq<Time>, now: Time, limit: nat, window: Time)
    requires limit > 0 && window > 0 && Sorted(calls + [now])
    ensures var decision := AllowInMemory(MemoryRun(calls, limit, window), now, limit, window).0;
            var history := Admissions(calls, limit, window);
            && (decision.allowed <==> WithinLimit(history, now, limit, window))
            && decision.remaining == Max(0, limit - LaterThan(history, now - window) - 1)
  {
    SortedPrefix(calls, now);
    KeptForRule(calls, now, limit, window);
  }

  lemma SortedPrefix(calls: seq<Time>, now: Time)
    requires Sorted(calls + [now])
    ensures Sorted(calls) && (calls != [] ==> calls[|calls| - 1] <= now)
  {
    var all := calls + [now];
    forall i, j | 0 <= i <= j < |calls| ensures calls[i] <= calls[j] {
      assert all[i] <= all[j];
    }
    if calls != [] {
      assert all[|calls| - 1] <= all[|calls|];
    }
  }

  /** What a call finds after pruning is what the rule counts. */
  lemma KeptForRule(calls: seq<Time>, now: Time, limit: nat, window: Time)
    requires limit > 0 && window > 0 && Sorted(calls) && (calls != [] ==> calls[|calls| - 1] <= now)
    ensures |Pruned(MemoryRun(calls, limit, window), now - window)|
         == LaterThan(Admissions(calls, limit, window), now - window)
  {
    var history := Admissions(calls, limit, window);
    MemoryRunIsPrunedHistory(calls, limit, window);
    AdmissionsAreSorted(calls, limit, window);
    PrunedCounts(history, now - window);
    if calls != [] {
      PrunedTwice(history, calls[|calls| - 1] - window, now - window);
    }
  }

  /** After a denial, and absent other calls, a call is admitted exactly from
      `retryAfter` later on: waiting that long is necessary and sufficient. */
  lemma RetryAfterIsExact(calls: seq<Time>, now: Time, later: Time, limit: nat, window: Time)
    requires limit > 0 && window > 0 && Sorted(calls + [now]) && now <= later
    requires !AllowInMemory(MemoryRun(calls, limit, window), now, limit, window).0.allowed
    ensures var (decision, kept) := AllowInMemory(MemoryRun(calls, limit, window), now, limit, window);
            && decision.retryAfter > 0
            && (AllowInMemory(kept, later, limit, window).0.allowed <==> later >= now + decision.retryAfter)
  {
    SortedPrefix(calls, now);
    MemoryRunIsPrunedHistory(calls, limit, window);
    FullListReopens(MemoryRun(calls, limit, window), now, later, limit, window);
  }

  lemma FullListReopens(times: seq<Time>, now: Time, later: Time, limit: nat, window: Time)
    requires limit > 0 && |times| <= limit <= |Pruned(times, now - window)| && now <= later
    ensures var kept := Pruned(times, now - window);
            && kept != [] && kept[0] > now - window
            && (|Pruned(kept, later - window)| < limit <==> later >= kept[0] + window)
  {
    var kept := Pruned(times, now - window);
    PrunedIsSuffix(times, now - window);
    if kept[0] <= later - window {
      PrunedIsSuffix(kept[1..], later - window);
    }
  }

  /** What Seconds() can return for a delay: the whole number of seconds when there is one,
      and otherwise some floating-point number between the whole numbers next to it. */
  predicate MaySecondsBe(seconds: real, retryAfter: Time) {
    var whole := retryAfter / NANOS_PER_SECOND;
    if retryAfter % NANOS_PER_SECOND == 0 then seconds == whole as real
    else whole as real <= seconds <= (whole + 1) as real
  }

  function Ceil(x: real): int {
    if x == x.Floor as real then x.Floor else x.Floor + 1
  }

  /** The Retry-After header: the delay in whole seconds, rounded up, and at least 1. */
  function RetrySeconds(seconds: real): int {
    Max(Ceil(seconds), 1)
  }

  /** A delay above a second whose part below a second the floating-point number lost. */
  predicate RoundedDown(seconds: real, retryAfter: Time) {
    && retryAfter > NANOS_PER_SECOND && retryAfter % NANOS_PER_SECOND != 0
    && seconds == (retryAfter / NANOS_PER_SECOND) as real
  }

  lemma HeaderRoundsUp(seconds: real, retryAfter: Time)
    requires retryAfter > 0 && MaySecondsBe(seconds, retryAfter)
    ensures RetrySeconds(seconds) * NANOS_PER_SECOND >= retryAfter <==> !RoundedDown(seconds, retryAfter)
    ensures (RetrySeconds(seconds) - 1) * NANOS_PER_SECOND < retryAfter
  {
    var whole := retryAfter / NANOS_PER_SECOND;
    assert retryAfter == whole * NANOS_PER_SECOND + retryAfter % NANOS_PER_SECOND;
    assert whole as real <= seconds <= (whole + 1) as real;
  }

  /** A client that waits as long as the header says is admitted, absent other calls,
      exactly unless the floating-point seconds were rounded down to a whole number; one
      whole second less is always too little. */
  lemma RetryHeaderIsSufficient(calls: seq<Time>, now: Time, limit: nat, window: Time, seconds: real)
    requires limit > 0 && window > 0 && Sorted(calls + [now])
    requires var decision := AllowInMemory(MemoryRun(calls, limit, window), now, limit, window).0;
             !decision.allowed && MaySecondsBe(seconds, decision.retryAfter)
    ensures var (decision, kept) := AllowInMemory(MemoryRun(calls, limit, window), now, limit, window);
            var header := RetrySeconds(seconds);
            && (AllowInMemory(kept, now + header * NANOS_PER_SECOND, limit, window).0.allowed
                <==> !RoundedDown(seconds, decision.retryAfter))
            && !AllowInMemory(kept, now + (header - 1) * NANOS_PER_SECOND, limit, window).0.allowed
  {
    var retry := AllowInMemory(MemoryRun(calls, limit, window), now, limit, window).0.retryAfter;
    var header := RetrySeconds(seconds);
    RetryAfterIsExact(calls, now, now, limit, window);
    HeaderRoundsUp(seconds, retry);
    RetryAfterIsExact(calls, now, now + header * NANOS_PER_SECOND, limit, window);
    RetryAfterIsExact(calls, now, now + (header - 1) * NANOS_PER_SECOND, limit, window);
  }

  /** A double is off by half a unit in its last place at most, which is less than a
      nanosecond below 2^24 seconds: a delay shorter than those 194 days is never rounded
      down to a whole number of seconds. */
  lemma ShortDelaysAreNotRoundedDown(seconds: real, retryAfter: Time)
    requires retryAfter > 0
    requires retryAfter < 0x100_0000 * NANOS_PER_SECOND ==>
               -1.0 < seconds * 1_000_000_000.0 - retryAfter as real < 1.0
    ensures RoundedDown(seconds, retryAfter) ==> retryAfter >= 0x100_0000 * NANOS_PER_SECOND
  {
    var whole := retryAfter / NANOS_PER_SECOND;
    assert retryAfter == whole * NANOS_PER_SECOND + retryAfter % NANOS_PER_SECOND;
  }

  /** From there on doubles are multiples of 2^-28 seconds, and the one nearest to 2^24
      seconds and a nanosecond is the whole number. */
  lemma LongDelayIsRoundedDown(k: int, seconds: real)
    requires seconds == k as real / 268_435_456.0
    requires var off := seconds - 16_777_216.000_000_001; -1.0 <= off * 536_870_912.0 <= 1.0
    ensures var retryAfter := 0x100_0000 * NANOS_PER_SECOND + 1;
            MaySecondsBe(seconds, retryAfter) && RoundedDown(seconds, retryAfter)
  {
    var d := k - 16_777_216 * 268_435_456;
    assert seconds == 16_777_216.0 + d as real / 268_435_456.0;
    assert d == 0;
  }
}
