/** Login challenges in Redis, pkg/platform/authcache/redis.go:124-159: a hash with an
    attempt counter that lives for 300 seconds, in milliseconds here. */
module Challenges {
  import opened Common

  type Id = nat

  const LIFETIME := 300_000
  const MAX_ATTEMPTS := 5

  datatype Entry = Entry(user: nat, version: int, attempts: nat, deadline: Time)

  /** What Attempt answers for a challenge it lets through. */
  datatype Challenge = Challenge(user: nat, version: int)

  predicate Exists(keys: map<Id, Entry>, id: Id, now: Time) {
    id in keys && now <= keys[id].deadline
  }

  function Issued(keys: map<Id, Entry>, id: Id, user: nat, version: int, now: Time): map<Id, Entry> {
    keys[id := Entry(user, version, 0, now + LIFETIME)]
  }

  function Attempted(keys: map<Id, Entry>, id: Id, now: Time): map<Id, Entry> {
    if Exists(keys, id, now) then keys[id := keys[id].(attempts := keys[id].attempts + 1)] else keys
  }

  function Answer(keys: map<Id, Entry>, id: Id, now: Time): Option<Challenge> {
    if Exists(keys, id, now) && keys[id].attempts + 1 <= MAX_ATTEMPTS
    then Some(Challenge(keys[id].user, keys[id].version)) else None
  }

  class ChallengeStore {
    var keys: map<Id, Entry>

    constructor ()
      ensures keys == map[]
    {
      keys := map[];
    }

    /** HSET and EXPIRE in one script, under a fresh random id. */
    method Issue(id: Id, user: nat, version: int, now: Time)
      modifies this
      ensures keys == Issued(old(keys), id, user, version, now)
    {
      keys := keys[id := Entry(user, version, 0, now + LIFETIME)];
    }

    /** The counter is advanced before it is compared, and past the limit as well. */
    method Attempt(id: Id, now: Time) returns (r: Option<Challenge>)
      modifies this
      ensures keys == Attempted(old(keys), id, now)
      ensures r == Answer(old(keys), id, now)
    {
      if id !in keys || now > keys[id].deadline {
        return None;
      }
      keys := keys[id := keys[id].(attempts := keys[id].attempts + 1)];
      if keys[id].attempts > MAX_ATTEMPTS {
        return None;
      }
      return Some(Challenge(keys[id].user, keys[id].version));
    }

    /** DEL counts the keys it deleted. */
    method Consume(id: Id, now: Time) returns (ok: bool)
      modifies this
      ensures ok == Exists(old(keys), id, now)
      ensures keys == old(keys) - {id}
    {
      ok := id in keys && now <= keys[id].deadline;
      keys := keys - {id};
    }
  }

  // ----- Runs -----

  datatype Event =
    | Tick(delay: nat)
    | Issue(id: Id, user: nat, version: int)
    | Attempt(id: Id)
    | Consume(id: Id)

  /** Every call so far with the time it was made. */
  datatype Call = Call(event: Event, at: Time)

  datatype System = System(keys: map<Id, Entry>, now: Time, calls: seq<Call>)

  predicate IsIssue(c: Call, id: Id) {
    c.event.Issue? && c.event.id == id
  }

  ghost predicate Used(calls: seq<Call>, id: Id) {
    exists k :: 0 <= k < |calls| && IsIssue(calls[k], id)
  }

  /** Random ids do not repeat: a second Issue of an id is no step. */
  ghost function Step(s: System, e: Event): System {
    var calls := s.calls + [Call(e, s.now)];
    match e
    case Tick(delay) => s.(now := s.now + delay)
    case Issue(id, user, version) =>
      if Used(s.calls, id) then s else System(Issued(s.keys, id, user, version, s.now), s.now, calls)
    case Attempt(id) => System(Attempted(s.keys, id, s.now), s.now, calls)
    case Consume(id) => System(s.keys - {id}, s.now, calls)
  }

  ghost function RunFrom(s: System, events: seq<Event>): System {
    if events == [] then s else Step(RunFrom(s, events[..|events| - 1]), events[|events| - 1])
  }

  ghost function Run(start: Time, events: seq<Event>): System {
    RunFrom(System(map[], start, []), events)
  }

  // ----- The rule on the full history -----

  function Tried(before: Option<Entry>, c: Call, id: Id): Option<Entry> {
    match c.event
    case Tick(_) => before
    case Issue(i, user, version) => if i == id then Some(Entry(user, version, 0, c.at + LIFETIME)) else before
    case Attempt(i) =>
      if i == id && before.Some? && c.at <= before.value.deadline
      then Some(before.value.(attempts := before.value.attempts + 1)) else before
    case Consume(i) => if i == id then None else before
  }

  /** How often an id was tried while it existed, from the calls alone: None before it is
      issued and after it is consumed. */
  function Tries(calls: seq<Call>, id: Id): Option<Entry> {
    if calls == [] then None else Tried(Tries(calls[..|calls| - 1], id), calls[|calls| - 1], id)
  }

  /** The keys are that history. */
  lemma {:induction false} KeysAreHistory(start: Time, events: seq<Event>, id: Id)
    ensures var s := Run(start, events);
            Tries(s.calls, id) == if id in s.keys then Some(s.keys[id]) else None
  {
    if events != [] {
      KeysAreHistory(start, events[..|events| - 1], id);
      StepIsTried(Run(start, events[..|events| - 1]), events[|events| - 1], id);
    }
  }

  lemma StepIsTried(s: System, e: Event, id: Id)
    requires Tries(s.calls, id) == if id in s.keys then Some(s.keys[id]) else None
    ensures var s' := Step(s, e);
            Tries(s'.calls, id) == if id in s'.keys then Some(s'.keys[id]) else None
  {
  }

  /** How many attempts of an id got through. */
  function LetThrough(calls: seq<Call>, id: Id): nat {
    if calls == [] then 0
    else
      var n, c := LetThrough(calls[..|calls| - 1], id), calls[|calls| - 1];
      var before := Tries(calls[..|calls| - 1], id);
      if c.event == Attempt(id) && before.Some? && c.at <= before.value.deadline && before.value.attempts < MAX_ATTEMPTS
      then n + 1 else n
  }

  function Consumptions(calls: seq<Call>, id: Id): nat {
    if calls == [] then 0
    else
      var n, c := Consumptions(calls[..|calls| - 1], id), calls[|calls| - 1];
      var before := Tries(calls[..|calls| - 1], id);
      if c.event == Consume(id) && before.Some? && c.at <= before.value.deadline then n + 1 else n
  }

  /** LetThrough and Consumptions count just the calls that the store answers so. */
  lemma AnswersFollowHistory(start: Time, events: seq<Event>, id: Id)
    ensures var s := Run(start, events);
            var tried, consumed := Step(s, Attempt(id)), Step(s, Consume(id));
            && (LetThrough(tried.calls, id) == LetThrough(s.calls, id) + (if Answer(s.keys, id, s.now).Some? then 1 else 0))
            && (Consumptions(consumed.calls, id) == Consumptions(s.calls, id) + (if Exists(s.keys, id, s.now) then 1 else 0))
  {
    var s := Run(start, events);
    KeysAreHistory(start, events, id);
    assert (s.calls + [Call(Attempt(id), s.now)])[..|s.calls|] == s.calls;
    assert (s.calls + [Call(Consume(id), s.now)])[..|s.calls|] == s.calls;
  }

  ghost predicate WasIssued(calls: seq<Call>, k: nat, id: Id, entry: Entry) {
    k < |calls| && calls[k].event == Issue(id, entry.user, entry.version) && entry.deadline == calls[k].at + LIFETIME
  }

  /** What is known of a challenge is what it was issued with. */
  lemma {:induction false} TriesAreOfIssue(calls: seq<Call>, id: Id)
    requires Tries(calls, id).Some?
    ensures exists k :: WasIssued(calls, k, id, Tries(calls, id).value)
  {
    var before, c := calls[..|calls| - 1], calls[|calls| - 1];
    if c.event.Issue? && c.event.id == id {
      assert WasIssued(calls, |calls| - 1, id, Tries(calls, id).value);
    } else {
      TriesAreOfIssue(before, id);
      var k :| WasIssued(before, k, id, Tries(before, id).value);
      assert WasIssued(calls, k, id, Tries(calls, id).value);
    }
  }

  /** An attempt is let through exactly while the challenge is there and was tried fewer
      than five times since it was issued, and it gets the user and the version of that issue. */
  lemma AttemptIsAnsweredExactly(start: Time, events: seq<Event>, id: Id)
    ensures var s := Run(start, events);
            var tries := Tries(s.calls, id);
            && (Answer(s.keys, id, s.now).Some? <==> tries.Some? && s.now <= tries.value.deadline && tries.value.attempts < 5)
            && (Answer(s.keys, id, s.now).Some? ==>
                  && Answer(s.keys, id, s.now) == Some(Challenge(tries.value.user, tries.value.version))
                  && exists k :: WasIssued(s.calls, k, id, tries.value))
  {
    KeysAreHistory(start, events, id);
    if Tries(Run(start, events).calls, id).Some? {
      TriesAreOfIssue(Run(start, events).calls, id);
    }
  }

  /** Before it is issued an id counts for nothing; a challenge that was consumed stays gone. */
  ghost predicate Bounded(calls: seq<Call>, id: Id) {
    && LetThrough(calls, id) <= MAX_ATTEMPTS
    && Consumptions(calls, id) <= 1
    && (Tries(calls, id).Some? ==>
          && Used(calls, id)
          && LetThrough(calls, id) == Min(Tries(calls, id).value.attempts, MAX_ATTEMPTS)
          && Consumptions(calls, id) == 0)
    && (!Used(calls, id) ==> LetThrough(calls, id) == 0 && Consumptions(calls, id) == 0)
  }

  lemma {:induction false} CallsAreBounded(start: Time, events: seq<Event>, id: Id)
    ensures Bounded(Run(start, events).calls, id)
  {
    if events != [] {
      var s := Run(start, events[..|events| - 1]);
      var e := events[|events| - 1];
      CallsAreBounded(start, events[..|events| - 1], id);
      var calls := s.calls + [Call(e, s.now)];
      assert calls[..|s.calls|] == s.calls;
      assert Used(s.calls, id) ==> Used(calls, id) by {
        if Used(s.calls, id) {
          var k :| 0 <= k < |s.calls| && IsIssue(s.calls[k], id);
          assert IsIssue(calls[k], id);
        }
      }
      if e.Issue? && e.id == id { assert IsIssue(calls[|s.calls|], id); }
    }
  }

  /** A challenge lets at most five attempts through and is consumed at most once. */
  lemma ChallengeLimits(start: Time, events: seq<Event>, id: Id)
    ensures LetThrough(Run(start, events).calls, id) <= MAX_ATTEMPTS
    ensures Consumptions(Run(start, events).calls, id) <= 1
  {
    CallsAreBounded(start, events, id);
  }

  /** Once it is gone, after Consume or after its lifetime, nothing gets through any more. */
  lemma {:induction false} GoneChallengeStaysGone(s: System, events: seq<Event>, id: Id)
    requires Used(s.calls, id) && !Exists(s.keys, id, s.now)
    ensures var s' := RunFrom(s, events);
            Used(s'.calls, id) && !Exists(s'.keys, id, s'.now) && Answer(s'.keys, id, s'.now).None?
  {
    if events != [] {
      var before := RunFrom(s, events[..|events| - 1]);
      var e := events[|events| - 1];
      GoneChallengeStaysGone(s, events[..|events| - 1], id);
      var k :| 0 <= k < |before.calls| && IsIssue(before.calls[k], id);
      assert IsIssue((before.calls + [Call(e, before.now)])[k], id);
    }
  }
}
