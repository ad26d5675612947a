/** pkg/platform/httpserver/redis_rate_limiter.go: the sliding window as a Redis script
    over a sorted set that Redis may drop once its time to live has run out. */
module RedisRateLimits {
  import opened Common
  import opened RateLimits

  /** The limiter's nonce, the call's millisecond and the limiter's own sequence number. */
  datatype Member = Member(nonce: string, millis: Time, sequence: nat)

  datatype Scored = Scored(score: Time, member: Member)

  /** A sorted set in score order, with the time at which Redis may drop its key. */
  datatype Stored = Stored(entries: seq<Scored>, deadline: Time)

  function Scores(z: seq<Scored>): seq<Time> {
    seq(|z|, i requires 0 <= i < |z| => z[i].score)
  }

  /** ZREMRANGEBYSCORE key -inf cutoff. */
  function RemoveUpTo(z: seq<Scored>, cutoff: Time): seq<Scored> {
    if z == [] then []
    else (if z[0].score > cutoff then [z[0]] else []) + RemoveUpTo(z[1..], cutoff)
  }

  function WithoutMember(z: seq<Scored>, member: Member): seq<Scored> {
    if z == [] then []
    else (if z[0].member != member then [z[0]] else []) + WithoutMember(z[1..], member)
  }

  function InsertByScore(z: seq<Scored>, e: Scored): seq<Scored> {
    if z == [] || z[|z| - 1].score <= e.score then z + [e]
    else InsertByScore(z[..|z| - 1], e) + [z[|z| - 1]]
  }

  /** ZADD: a member that is already there is moved, any other is added. */
  function ZAdd(z: seq<Scored>, e: Scored): seq<Scored> {
    InsertByScore(WithoutMember(z, e.member), e)
  }

  /** slidingWindowScript: the decision it returns and the set it leaves. */
  function SlidingWindow(z: seq<Scored>, now: Time, window: Time, limit: int, member: Member): (Decision, seq<Scored>) {
    var kept := RemoveUpTo(z, now - window);
    if |kept| >= limit then
      var retryAfter := if kept == [] then window else Max(1, window - (now - kept[0].score));
      (Decision(false, 0, retryAfter), kept)
    else
      (Decision(true, limit - |kept| - 1, 0), ZAdd(kept, Scored(now, member)))
  }

  class RedisServer {
    var sets: map<string, Stored>

    constructor ()
      ensures sets == map[]
    {
      sets := map[];
    }

    /** The entries a script finds: none, when the key is past its deadline and was dropped. */
    function Found(key: string, now: Time, dropped: bool): seq<Scored>
      reads this
    {
      if key !in sets || (dropped && now >= sets[key].deadline) then [] else sets[key].entries
    }

    method Eval(key: string, now: Time, window: Time, limit: int, member: Member, dropped: bool) returns (decision: Decision)
      requires limit > 0
      modifies this
      ensures var (d, z) := SlidingWindow(old(Found(key, now, dropped)), now, window, limit, member);
              decision == d && sets == if window > 0 then old(sets)[key := Stored(z, now + window)] else old(sets) - {key}
    {
      var kept := RemoveUpTo(Found(key, now, dropped), now - window);
      var retryAfter := window;
      if |kept| >= limit {
        if kept != [] {
          retryAfter := Max(1, window - (now - kept[0].score));
        }
        decision := Decision(false, 0, retryAfter);
      } else {
        decision := Decision(true, limit - |kept| - 1, 0);
        kept := ZAdd(kept, Scored(now, member));
      }
      // PEXPIRE: a time to live that is not positive deletes the key at once.
      if window > 0 {
        sets := sets[key := Stored(kept, now + window)];
      } else {
        sets := sets - {key};
      }
    }
  }

  class RedisRateLimiter {
    const server: RedisServer
    const prefix: string
    const nonce: string
    var sequence: nat

    constructor (server: RedisServer, prefix: string, nonce: string)
      ensures this.server == server && this.nonce == nonce && sequence == 0
      ensures this.prefix == if prefix == "" then "rate_limit" else prefix
    {
      this.server, this.nonce, sequence := server, nonce, 0;
      this.prefix := if prefix == "" then "rate_limit" else prefix;
    }

    /** Times are in nanoseconds here and in milliseconds in the script. The retry delay
        comes back in nanoseconds. */
    method Allow(key: string, limit: int, window: Time, now: Time, dropped: bool) returns (answer: Answer)
      modifies this, server
      ensures limit <= 0 ==> answer == Refused(LimitNotPositive)
      ensures limit > 0 && window <= 0 ==> answer == Refused(WindowNotPositive)
      ensures answer.Refused? ==> server.sets == old(server.sets) && sequence == old(sequence)
      ensures limit > 0 && window > 0 ==>
                var millis := now / NANOS_PER_MILLI;
                var windowMillis := window / NANOS_PER_MILLI;
                var stored := prefix + ":" + key;
                var (d, z) := SlidingWindow(old(server.Found(stored, millis, dropped)), millis, windowMillis, limit,
                                            Member(nonce, millis, sequence));
                && answer == Decided(d.(retryAfter := d.retryAfter * NANOS_PER_MILLI))
                && sequence == old(sequence) + 1
                && server.sets == if windowMillis > 0 then old(server.sets)[stored := Stored(z, millis + windowMillis)]
                                  else old(server.sets) - {stored}
    {
      if limit <= 0 {
        return Refused(LimitNotPositive);
      }
      if window <= 0 {
        return Refused(WindowNotPositive);
      }
      var millis := now / NANOS_PER_MILLI;
      sequence := sequence + 1;
      var decision := server.Eval(prefix + ":" + key, millis, window / NANOS_PER_MILLI, limit,
                                  Member(nonce, millis, sequence), dropped);
      return Decided(decision.(retryAfter := decision.retryAfter * NANOS_PER_MILLI));
    }
  }

  // ----- Runs for one key -----

  /** One script call; `dropped` says whether Redis had removed the key, if it could have. */
  datatype Call = Call(now: Time, member: Member, dropped: bool)

  function CallTimes(calls: seq<Call>): seq<Time> {
    seq(|calls|, i requires 0 <= i < |calls| => calls[i].now)
  }

  function FoundBy(stored: Stored, call: Call): seq<Scored> {
    if call.dropped && call.now >= stored.deadline then [] else stored.entries
  }

  /** The stored set after a sequence of calls with a window of at least one millisecond. */
  function RedisRun(calls: seq<Call>, limit: nat, window: Time): Stored
    requires limit > 0 && window > 0
  {
    if calls == [] then Stored([], 0)
    else
      var call := calls[|calls| - 1];
      var before := RedisRun(calls[..|calls| - 1], limit, window);
      Stored(SlidingWindow(FoundBy(before, call), call.now, window, limit, call.member).1, call.now + window)
  }

  ghost predicate Fresh(calls: seq<Call>) {
    forall i, j :: 0 <= i < j < |calls| ==> calls[i].member != calls[j].member
  }

  lemma {:induction false} RemoveUpToIsPruned(z: seq<Scored>, cutoff: Time)
    requires Sorted(Scores(z))
    ensures Scores(RemoveUpTo(z, cutoff)) == Pruned(Scores(z), cutoff)
    ensures forall e :: e in RemoveUpTo(z, cutoff) ==> e in z
  {
    if z != [] {
      var rest := z[1..];
      assert Scores(z)[1..] == Scores(rest);
      assert Sorted(Scores(rest)) by {
        forall i, j | 0 <= i <= j < |rest| ensures Scores(rest)[i] <= Scores(rest)[j] {
          assert Scores(z)[i + 1] <= Scores(z)[j + 1];
        }
      }
      RemoveUpToIsPruned(rest, cutoff);
      if z[0].score > cutoff {
        assert [z[0]] + rest == z;
        KeepsAll(rest, z[0], cutoff);
      }
    }
  }

  lemma KeepsAll(rest: seq<Scored>, first: Scored, cutoff: Time)
    requires first.score > cutoff && Sorted(Scores([first] + rest))
    ensures RemoveUpTo(rest, cutoff) == rest
  {
    if rest != [] {
      var all := [first] + rest;
      assert Scores(all)[0] <= Scores(all)[1];
      assert Sorted(Scores([rest[0]] + rest[1..])) by {
        assert [rest[0]] + rest[1..] == rest;
        forall i, j | 0 <= i <= j < |rest| ensures Scores(rest)[i] <= Scores(rest)[j] {
          assert Scores(all)[i + 1] <= Scores(all)[j + 1];
        }
      }
      KeepsAll(rest[1..], rest[0], cutoff);
    }
  }

  lemma {:induction false} WithoutNewMember(z: seq<Scored>, member: Member)
    requires forall e :: e in z ==> e.member != member
    ensures WithoutMember(z, member) == z
  {
    if z != [] {
      WithoutNewMember(z[1..], member);
    }
  }

  /** With a new member and a clock that does not go back, the script does to the scores
      what the in-memory limiter does to its list, and decides the same. */
  lemma ScriptFollowsList(z: seq<Scored>, now: Time, window: Time, limit: nat, member: Member)
    requires limit > 0 && window > 0 && Sorted(Scores(z))
    requires forall e :: e in z ==> e.member != member && e.score <= now
    ensures var (d, z') := SlidingWindow(z, now, window, limit, member);
            && (d, Scores(z')) == AllowInMemory(Scores(z), now, limit, window)
            && (forall e :: e in z' ==> e in z || e == Scored(now, member))
  {
    var kept := RemoveUpTo(z, now - window);
    RemoveUpToIsPruned(z, now - window);
    PrunedIsSuffix(Scores(z), now - window);
    assert kept != [] ==> Scores(kept)[0] == kept[0].score;
    if |kept| < limit {
      WithoutNewMember(kept, member);
      assert kept != [] ==> kept[|kept| - 1] in z;
      assert Scores(kept + [Scored(now, member)]) == Scores(kept) + [now];
    }
  }

  ghost predicate FromCalls(z: seq<Scored>, calls: seq<Call>) {
    forall e :: e in z ==> exists k :: 0 <= k < |calls| && e == Scored(calls[k].now, calls[k].member)
  }

  /** The stored set holds the scores of the in-memory list, each from its own call. */
  ghost predicate HoldsList(stored: Stored, calls: seq<Call>, limit: nat, window: Time)
    requires limit > 0
  {
    && Scores(stored.entries) == MemoryRun(CallTimes(calls), limit, window)
    && Sorted(Scores(stored.entries))
    && FromCalls(stored.entries, calls)
    && (calls == [] ==> stored.entries == [])
    && (calls != [] ==> stored.deadline == calls[|calls| - 1].now + window)
    && (calls != [] ==> forall e :: e in stored.entries ==> e.score <= calls[|calls| - 1].now)
  }

  /** The next call does to the stored set what it does to the in-memory list. */
  lemma NextCallFollowsList(stored: Stored, calls: seq<Call>, call: Call, limit: nat, window: Time)
    requires limit > 0 && window > 0 && Fresh(calls + [call]) && (calls != [] ==> calls[|calls| - 1].now <= call.now)
    requires HoldsList(stored, calls, limit, window)
    ensures var (d, z) := SlidingWindow(FoundBy(stored, call), call.now, window, limit, call.member);
            && (d, Scores(z)) == AllowInMemory(MemoryRun(CallTimes(calls), limit, window), call.now, limit, window)
            && Sorted(Scores(z))
            && (forall e :: e in z ==> e in stored.entries || e == Scored(call.now, call.member))
  {
    DroppingChangesNothing(stored, call, window);
    var found := FoundBy(stored, call);
    forall e | e in found ensures e.member != call.member && e.score <= call.now {
      var k :| 0 <= k < |calls| && e == Scored(calls[k].now, calls[k].member);
      assert (calls + [call])[k].member != (calls + [call])[|calls|].member;
    }
    ScriptFollowsList(found, call.now, window, limit, call.member);
    OnlyPrunedMatters(Scores(found), Scores(stored.entries), call.now, limit, window);
    ResultIsSorted(Scores(found), call.now, limit, window);
  }

  lemma StepHoldsList(stored: Stored, calls: seq<Call>, call: Call, limit: nat, window: Time)
    requires limit > 0 && window > 0 && Fresh(calls + [call]) && (calls != [] ==> calls[|calls| - 1].now <= call.now)
    requires HoldsList(stored, calls, limit, window)
    ensures var z := SlidingWindow(FoundBy(stored, call), call.now, window, limit, call.member).1;
            HoldsList(Stored(z, call.now + window), calls + [call], limit, window)
  {
    NextCallFollowsList(stored, calls, call, limit, window);
    var all := calls + [call];
    var z := SlidingWindow(FoundBy(stored, call), call.now, window, limit, call.member).1;
    assert CallTimes(all) == CallTimes(calls) + [call.now];
    assert CallTimes(all)[..|calls|] == CallTimes(calls);
    StaysFromCalls(stored.entries, z, calls, call);
  }

  lemma StaysFromCalls(before: seq<Scored>, z: seq<Scored>, calls: seq<Call>, call: Call)
    requires FromCalls(before, calls)
    requires forall e :: e in z ==> e in before || e == Scored(call.now, call.member)
    ensures FromCalls(z, calls + [call])
  {
    var all := calls + [call];
    forall e | e in z ensures exists k :: 0 <= k < |all| && e == Scored(all[k].now, all[k].member) {
      if e in before {
        var k :| 0 <= k < |calls| && e == Scored(calls[k].now, calls[k].member);
        assert e == Scored(all[k].now, all[k].member);
      } else {
        assert e == Scored(all[|calls|].now, all[|calls|].member);
      }
    }
  }

  lemma CallsInOrder(calls: seq<Call>, call: Call)
    requires Sorted(CallTimes(calls + [call])) && Fresh(calls + [call])
    ensures CallTimes(calls + [call]) == CallTimes(calls) + [call.now]
    ensures Sorted(CallTimes(calls)) && Fresh(calls) && (calls != [] ==> calls[|calls| - 1].now <= call.now)
  {
    var all := calls + [call];
    assert CallTimes(all) == CallTimes(calls) + [call.now];
    SortedPrefix(CallTimes(calls), call.now);
    assert calls != [] ==> calls[|calls| - 1].now == CallTimes(calls)[|calls| - 1];
    forall i, j | 0 <= i < j < |calls| ensures calls[i].member != calls[j].member {
      assert all[i].member != all[j].member;
    }
  }

  /** The script's set holds the scores of the in-memory list for the same call times,
      whenever and however often Redis drops the key at or after its deadline. */
  lemma {:induction false} RedisRunIsMemoryRun(calls: seq<Call>, limit: nat, window: Time)
    requires limit > 0 && window > 0 && Sorted(CallTimes(calls)) && Fresh(calls)
    ensures HoldsList(RedisRun(calls, limit, window), calls, limit, window)
  {
    if calls == [] {
      assert Scores([]) == [] && CallTimes([]) == [];
    } else {
      var before := calls[..|calls| - 1];
      assert calls == before + [calls[|calls| - 1]];
      CallsInOrder(before, calls[|calls| - 1]);
      RedisRunIsMemoryRun(before, limit, window);
      StepHoldsList(RedisRun(before, limit, window), before, calls[|calls| - 1], limit, window);
    }
  }

  lemma ResultIsSorted(times: seq<Time>, now: Time, limit: nat, window: Time)
    requires limit > 0 && Sorted(times) && forall i :: 0 <= i < |times| ==> times[i] <= now
    ensures Sorted(AllowInMemory(times, now, limit, window).1)
  {
    PrunedIsSuffix(times, now - window);
  }

  /** A key that may be dropped holds nothing the script would have kept. */
  lemma DroppingChangesNothing(stored: Stored, call: Call, window: Time)
    requires stored.entries != [] ==> forall e :: e in stored.entries ==> e.score <= stored.deadline - window
    ensures Pruned(Scores(FoundBy(stored, call)), call.now - window) == Pruned(Scores(stored.entries), call.now - window)
    ensures forall e :: e in FoundBy(stored, call) ==> e in stored.entries
  {
    if call.dropped && call.now >= stored.deadline {
      AllExpired(stored.entries, call.now - window);
      assert Scores([]) == [];
    }
  }

  /** Allow looks at its list only through what pruning leaves of it. */
  lemma OnlyPrunedMatters(a: seq<Time>, b: seq<Time>, now: Time, limit: nat, window: Time)
    requires limit > 0 && Pruned(a, now - window) == Pruned(b, now - window)
    ensures AllowInMemory(a, now, limit, window) == AllowInMemory(b, now, limit, window)
  {
  }

  lemma {:induction false} AllExpired(z: seq<Scored>, cutoff: Time)
    requires forall e :: e in z ==> e.score <= cutoff
    ensures Pruned(Scores(z), cutoff) == []
  {
    if z != [] {
      assert z[0] in z;
      assert Scores(z)[1..] == Scores(z[1..]);
      AllExpired(z[1..], cutoff);
    }
  }

  /** The Redis limiter decides every call by the full-history rule on millisecond time. */
  lemma RedisLimiterFollowsRule(calls: seq<Call>, call: Call, limit: nat, window: Time)
    requires limit > 0 && window > 0 && Sorted(CallTimes(calls + [call])) && Fresh(calls + [call])
    ensures var d := SlidingWindow(FoundBy(RedisRun(calls, limit, window), call), call.now, window, limit, call.member).0;
            var history := Admissions(CallTimes(calls), limit, window);
            && (d.allowed <==> WithinLimit(history, call.now, limit, window))
            && d == AllowInMemory(MemoryRun(CallTimes(calls), limit, window), call.now, limit, window).0
  {
    CallsInOrder(calls, call);
    RedisRunIsMemoryRun(calls, limit, window);
    NextCallFollowsList(RedisRun(calls, limit, window), calls, call, limit, window);
    MemoryLimiterFollowsRule(CallTimes(calls), call.now, limit, window);
  }

  /** A window below one millisecond reaches the script as zero, and then every call on
      time is admitted, whatever the limit and however many calls there were. */
  lemma SubMillisecondWindowAdmitsAll(z: seq<Scored>, now: Time, nanos: Time, limit: nat, member: Member)
    requires limit > 0 && 0 < nanos < NANOS_PER_MILLI
    requires forall e :: e in z ==> e.score <= now
    ensures SlidingWindow(z, now, nanos / NANOS_PER_MILLI, limit, member).0.allowed
  {
    RemovesAll(z, now);
  }

  lemma {:induction false} RemovesAll(z: seq<Scored>, cutoff: Time)
    requires forall e :: e in z ==> e.score <= cutoff
    ensures RemoveUpTo(z, cutoff) == []
  {
    if z != [] {
      assert z[0] in z;
      RemovesAll(z[1..], cutoff);
    }
  }
}
