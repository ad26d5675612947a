/** pkg/modules/iam/refresh.go: one refresh token per user, kept in two Redis keyspaces
    by five scripts, some of them preceded by a lookup that is not part of the script. */
module RefreshTokens {
  import opened Common

  /** Hashing is injective, so a raw token stands for its hash and its key. */
  type Raw = string
  type UserId = string

  datatype Token = Token(user: UserId, deadline: Time)
  datatype Session = Session(raw: Raw, deadline: Time)

  /** The token keys and the user keys that have not expired. */
  datatype Keys = Keys(tokens: map<Raw, Token>, users: map<UserId, Session>)

  /** Redis drops what is past its deadline. */
  function Expire(k: Keys, now: Time): Keys {
    Keys(map raw | raw in k.tokens && now <= k.tokens[raw].deadline :: k.tokens[raw],
         map u | u in k.users && now <= k.users[u].deadline :: k.users[u])
  }

  // ----- The scripts -----

  /** SET with PX refuses a time to live below one millisecond; the script stops there,
      and what it did before stays done. */
  datatype Reply<T> = Reply(value: T) | ScriptError

  function Replace(k: Keys, user: UserId, raw: Raw, now: Time, ttl: Time): (Reply<()>, Keys) {
    var tokens := if user in k.users then k.tokens - {k.users[user].raw} else k.tokens;
    if ttl < 1 then (ScriptError, k.(tokens := tokens))
    else (Reply(()), Keys(tokens[raw := Token(user, now + ttl)], k.users[user := Session(raw, now + ttl)]))
  }

  function RotateScript(k: Keys, raw: Raw, next: Raw, user: UserId, now: Time, ttl: Time): (Reply<bool>, Keys) {
    if raw !in k.tokens || k.tokens[raw].user != user then (Reply(false), k)
    else if user !in k.users || k.users[user].raw != raw then (Reply(false), k)
    else
      var tokens := k.tokens - {raw};
      if ttl < 1 then (ScriptError, k.(tokens := tokens))
      else (Reply(true), Keys(tokens[next := Token(user, now + ttl)], k.users[user := Session(next, now + ttl)]))
  }

  function ConsumeScript(k: Keys, raw: Raw, user: UserId): (Option<UserId>, Keys) {
    if raw !in k.tokens || user !in k.users || k.users[user].raw != raw then (None, k)
    else (Some(k.tokens[raw].user), Keys(k.tokens - {raw}, k.users - {user}))
  }

  function RevokeScript(k: Keys, raw: Raw, user: UserId): Keys {
    if raw !in k.tokens then k
    else Keys(k.tokens - {raw},
              if user in k.users && k.users[user].raw == raw then k.users - {user} else k.users)
  }

  function RevokeAllScript(k: Keys, user: UserId): Keys {
    if user !in k.users then k else Keys(k.tokens - {k.users[user].raw}, k.users - {user})
  }

  function LookedUp(k: Keys, raw: Raw): Option<UserId> {
    if raw == "" || raw !in k.tokens || k.tokens[raw].user == "" then None else Some(k.tokens[raw].user)
  }

  // ----- The store -----

  datatype Error = InvalidRefreshToken | CacheError

  datatype Result<T> = Success(value: T) | Failure(error: Error)

  class RefreshStore {
    const ttl: Time
    var keys: Keys

    constructor (ttl: Time)
      ensures this.ttl == ttl && keys == Keys(map[], map[])
    {
      this.ttl := ttl;
      keys := Keys(map[], map[]);
    }

    method Issue(user: UserId, raw: Raw, now: Time) returns (r: Result<Raw>)
      modifies this
      ensures keys == Replace(old(keys), user, raw, now, ttl).1
      ensures r == if ttl < 1 then Failure(CacheError) else Success(raw)
    {
      if user in keys.users {
        keys := keys.(tokens := keys.tokens - {keys.users[user].raw});
      }
      if ttl < 1 {
        return Failure(CacheError);
      }
      keys := keys.(tokens := keys.tokens[raw := Token(user, now + ttl)]);
      keys := keys.(users := keys.users[user := Session(raw, now + ttl)]);
      return Success(raw);
    }

    method Lookup(raw: Raw) returns (r: Result<UserId>)
      ensures r == if LookedUp(keys, raw).Some? then Success(LookedUp(keys, raw).value) else Failure(InvalidRefreshToken)
    {
      if raw == "" || raw !in keys.tokens || keys.tokens[raw].user == "" {
        return Failure(InvalidRefreshToken);
      }
      return Success(keys.tokens[raw].user);
    }

    method Rotate(raw: Raw, user: UserId, next: Raw, now: Time) returns (r: Result<Raw>)
      modifies this
      ensures raw == "" || user == "" ==> r == Failure(InvalidRefreshToken) && keys == old(keys)
      ensures raw != "" && user != "" ==>
                var (reply, after) := RotateScript(old(keys), raw, next, user, now, ttl);
                && keys == after
                && r == match reply
                        case ScriptError => Failure(CacheError)
                        case Reply(rotated) => if rotated then Success(next) else Failure(InvalidRefreshToken)
    {
      if raw == "" || user == "" {
        return Failure(InvalidRefreshToken);
      }
      if raw !in keys.tokens || keys.tokens[raw].user != user || user !in keys.users || keys.users[user].raw != raw {
        return Failure(InvalidRefreshToken);
      }
      keys := keys.(tokens := keys.tokens - {raw});
      if ttl < 1 {
        return Failure(CacheError);
      }
      keys := keys.(tokens := keys.tokens[next := Token(user, now + ttl)]);
      keys := keys.(users := keys.users[user := Session(next, now + ttl)]);
      return Success(next);
    }

    /** Without interference, a lookup and the script together consume exactly a live token. */
    method Consume(raw: Raw) returns (r: Result<UserId>)
      modifies this
      ensures LookedUp(old(keys), raw).None? ==> r == Failure(InvalidRefreshToken) && keys == old(keys)
      ensures LookedUp(old(keys), raw).Some? ==>
                var user := LookedUp(old(keys), raw).value;
                && keys == ConsumeScript(old(keys), raw, user).1
                && r == if ConsumeScript(old(keys), raw, user).0 == Some(user) then Success(user)
                        else Failure(InvalidRefreshToken)
    {
      var found := Lookup(raw);
      if found.Failure? {
        return Failure(InvalidRefreshToken);
      }
      if found.value !in keys.users || keys.users[found.value].raw != raw {
        return Failure(InvalidRefreshToken);
      }
      keys := Keys(keys.tokens - {raw}, keys.users - {found.value});
      return Success(found.value);
    }

    method Revoke(raw: Raw)
      modifies this
      ensures keys == if LookedUp(old(keys), raw).None? then old(keys)
                      else RevokeScript(old(keys), raw, LookedUp(old(keys), raw).value)
    {
      var found := Lookup(raw);
      if found.Failure? {
        return;
      }
      if found.value in keys.users && keys.users[found.value].raw == raw {
        keys := keys.(users := keys.users - {found.value});
      }
      keys := keys.(tokens := keys.tokens - {raw});
    }

    method RevokeAll(user: UserId)
      modifies this
      ensures keys == RevokeAllScript(old(keys), user)
    {
      if user in keys.users {
        keys := Keys(keys.tokens - {keys.users[user].raw}, keys.users - {user});
      }
    }
  }

  // ----- Runs -----

  type Pid = nat

  /** `owner` records for whom each token was ever made, `looked` what each process
      last looked up, and `accepted` the tokens that were rotated or consumed. */
  datatype System = System(keys: Keys, owner: map<Raw, UserId>, looked: map<Pid, (Raw, UserId)>, accepted: seq<Raw>, now: Time)

  /** Stores over one Redis may be configured with different times to live. */
  datatype Event =
    | Tick(delay: nat)
    | Issue(user: UserId, raw: Raw, ttl: Time)
    | Lookup(pid: Pid, raw: Raw)
    | Rotate(pid: Pid, next: Raw, ttl: Time)
    | Consume(pid: Pid)
    | Revoke(pid: Pid)
    | RevokeAll(user: UserId)

  function Initial(start: Time): System {
    System(Keys(map[], map[]), map[], map[], [], start)
  }

  /** One atomic step of any process. A random token that was drawn before cannot be
      drawn again. A process may use an old lookup, however stale, as often as it likes. */
  function Step(s: System, e: Event): System {
    match e
    case Tick(delay) => s.(now := s.now + delay, keys := Expire(s.keys, s.now + delay))
    case Issue(user, raw, ttl) =>
      if raw in s.owner then s
      else s.(keys := Replace(s.keys, user, raw, s.now, ttl).1, owner := s.owner[raw := user])
    case Lookup(pid, raw) =>
      var found := LookedUp(s.keys, raw);
      if found.None? then s else s.(looked := s.looked[pid := (raw, found.value)])
    case Rotate(pid, next, ttl) =>
      if pid !in s.looked || next in s.owner then s
      else
        var (raw, user) := s.looked[pid];
        var (reply, keys) := RotateScript(s.keys, raw, next, user, s.now, ttl);
        s.(keys := keys, owner := s.owner[next := user],
           accepted := s.accepted + if reply == Reply(true) then [raw] else [])
    case Consume(pid) =>
      if pid !in s.looked then s
      else
        var (raw, user) := s.looked[pid];
        var (consumed, keys) := ConsumeScript(s.keys, raw, user);
        s.(keys := keys, accepted := s.accepted + if consumed == Some(user) then [raw] else [])
    case Revoke(pid) =>
      if pid !in s.looked then s
      else s.(keys := RevokeScript(s.keys, s.looked[pid].0, s.looked[pid].1))
    case RevokeAll(user) => s.(keys := RevokeAllScript(s.keys, user))
  }

  function Run(s: System, events: seq<Event>): System {
    if events == [] then s else Step(Run(s, events[..|events| - 1]), events[|events| - 1])
  }

  /** Every token is the one its user's key names, with the same deadline, so that a user
      has at most one. */
  ghost predicate TokensNamed(k: Keys) {
    forall raw :: raw in k.tokens ==>
      k.tokens[raw].user in k.users && k.users[k.tokens[raw].user] == Session(raw, k.tokens[raw].deadline)
  }

  /** A token key names a user and a deadline exactly when that user's key names the
      token and the same deadline. */
  ghost predicate Paired(k: Keys) {
    && TokensNamed(k)
    && (forall u :: u in k.users ==>
          k.users[u].raw in k.tokens && k.tokens[k.users[u].raw] == Token(u, k.users[u].deadline))
  }

  ghost predicate Inv(s: System) {
    && TokensNamed(s.keys)
    && (forall raw :: raw in s.keys.tokens ==> raw in s.owner && s.owner[raw] == s.keys.tokens[raw].user)
    && (forall u :: u in s.keys.users ==> s.keys.users[u].raw in s.owner && s.owner[s.keys.users[u].raw] == u)
    && (forall pid :: pid in s.looked ==>
          && s.looked[pid].0 in s.owner && s.owner[s.looked[pid].0] == s.looked[pid].1
          && s.looked[pid].0 != "" && s.looked[pid].1 != "")
    && (forall i :: 0 <= i < |s.accepted| ==> s.accepted[i] in s.owner && s.accepted[i] !in s.keys.tokens)
    && NoDuplicates(s.accepted)
  }

  lemma ReplaceKeepsPaired(k: Keys, user: UserId, raw: Raw, now: Time, ttl: Time)
    requires TokensNamed(k) && raw !in k.tokens
    ensures var after := Replace(k, user, raw, now, ttl).1;
            TokensNamed(after) && (Paired(k) ==> (Paired(after) <==> ttl >= 1 || user !in k.users))
  {
    if ttl < 1 && user in k.users {
      assert k.users[user].raw !in Replace(k, user, raw, now, ttl).1.tokens;
    }
  }

  lemma RotateKeepsPaired(k: Keys, raw: Raw, next: Raw, user: UserId, now: Time, ttl: Time)
    requires TokensNamed(k) && next !in k.tokens
    ensures var (reply, after) := RotateScript(k, raw, next, user, now, ttl);
            TokensNamed(after) && (Paired(k) ==> (Paired(after) <==> !reply.ScriptError?))
  {
    if RotateScript(k, raw, next, user, now, ttl).0.ScriptError? {
      assert k.users[user].raw !in RotateScript(k, raw, next, user, now, ttl).1.tokens;
    }
  }

  /** Between the lookup and the script the token may be gone, but never someone else's:
      with the user the lookup found, the scripts remove the pair or nothing. */
  lemma RevokeKeepsPaired(k: Keys, raw: Raw, user: UserId)
    requires TokensNamed(k) && (raw in k.tokens ==> k.tokens[raw].user == user)
    ensures TokensNamed(RevokeScript(k, raw, user)) && TokensNamed(ConsumeScript(k, raw, user).1)
    ensures Paired(k) ==> Paired(RevokeScript(k, raw, user)) && Paired(ConsumeScript(k, raw, user).1)
    ensures raw !in RevokeScript(k, raw, user).tokens
  {
  }

  /** The failing branch: a script that deletes an old token and then sets nothing. */
  ghost predicate Slips(s: System, e: Event) {
    match e
    case Issue(user, raw, ttl) => raw !in s.owner && ttl < 1 && user in s.keys.users
    case Rotate(pid, next, ttl) =>
      && pid in s.looked && next !in s.owner && ttl < 1
      && RotateScript(s.keys, s.looked[pid].0, next, s.looked[pid].1, s.now, ttl).0.ScriptError?
    case _ => false
  }

  lemma RotateKeepsInv(s: System, e: Event)
    requires Inv(s) && e.Rotate?
    ensures Inv(Step(s, e))
    ensures Paired(s.keys) ==> (Paired(Step(s, e).keys) <==> !Slips(s, e))
  {
    if e.pid in s.looked && e.next !in s.owner {
      var (raw, user) := s.looked[e.pid];
      RotateKeepsPaired(s.keys, raw, e.next, user, s.now, e.ttl);
    }
  }

  lemma ConsumeKeepsInv(s: System, pid: Pid)
    requires Inv(s)
    ensures Inv(Step(s, Consume(pid)))
    ensures Paired(s.keys) ==> Paired(Step(s, Consume(pid)).keys)
  {
    if pid in s.looked {
      RevokeKeepsPaired(s.keys, s.looked[pid].0, s.looked[pid].1);
    }
  }

  /** Every step keeps each token named by its user's key alone, and breaks the pairing
      exactly when a script slips. */
  lemma StepKeepsInv(s: System, e: Event)
    requires Inv(s)
    ensures Inv(Step(s, e))
    ensures Paired(s.keys) ==> (Paired(Step(s, e).keys) <==> !Slips(s, e))
  {
    match e
    case Tick(_) =>
    case Issue(user, raw, ttl) =>
      if raw !in s.owner {
        ReplaceKeepsPaired(s.keys, user, raw, s.now, ttl);
      }
    case Lookup(_, _) =>
    case Rotate(_, _, _) => RotateKeepsInv(s, e);
    case Consume(pid) => ConsumeKeepsInv(s, pid);
    case Revoke(pid) =>
      if pid in s.looked {
        RevokeKeepsPaired(s.keys, s.looked[pid].0, s.looked[pid].1);
      }
    case RevokeAll(_) =>
  }

  lemma {:induction false} RunKeepsInv(start: Time, events: seq<Event>)
    ensures Inv(Run(Initial(start), events))
  {
    if events != [] {
      RunKeepsInv(start, events[..|events| - 1]);
      StepKeepsInv(Run(Initial(start), events[..|events| - 1]), events[|events| - 1]);
    }
  }

  /** Over every run, with whatever times to live, a user has at most one token, and of all
      the rotations and consumptions of one token, however they overlap, at most one
      succeeds. */
  lemma {:induction false} TokensAreSingleUse(start: Time, events: seq<Event>)
    ensures var s := Run(Initial(start), events);
            && NoDuplicates(s.accepted)
            && (forall a, b :: a in s.keys.tokens && b in s.keys.tokens && a != b ==> s.keys.tokens[a].user != s.keys.tokens[b].user)
  {
    RunKeepsInv(start, events);
  }

  // ----- When the two keyspaces mirror each other -----

  ghost predicate AlwaysPaired(start: Time, events: seq<Event>) {
    && Paired(Run(Initial(start), events).keys)
    && (events != [] ==> AlwaysPaired(start, events[..|events| - 1]))
  }

  ghost predicate NeverSlips(start: Time, events: seq<Event>) {
    events != [] ==>
      && NeverSlips(start, events[..|events| - 1])
      && !Slips(Run(Initial(start), events[..|events| - 1]), events[|events| - 1])
  }

  /** The keyspaces are paired throughout a run exactly when no script of it slips. */
  lemma {:induction false} PairedExactlyWithoutSlips(start: Time, events: seq<Event>)
    ensures AlwaysPaired(start, events) <==> NeverSlips(start, events)
  {
    if events != [] {
      PairedExactlyWithoutSlips(start, events[..|events| - 1]);
      RunKeepsInv(start, events[..|events| - 1]);
      StepKeepsInv(Run(Initial(start), events[..|events| - 1]), events[|events| - 1]);
    }
  }

  ghost predicate OneTtl(events: seq<Event>, ttl: Time) {
    forall e :: e in events ==> (e.Issue? ==> e.ttl == ttl) && (e.Rotate? ==> e.ttl == ttl)
  }

  /** Stores that share one time to live never slip, whatever it is: below a millisecond
      they never store anything to begin with. */
  lemma {:induction false} OneTtlNeverSlips(start: Time, events: seq<Event>, ttl: Time)
    requires OneTtl(events, ttl)
    ensures NeverSlips(start, events)
    ensures ttl < 1 ==> Run(Initial(start), events).keys == Keys(map[], map[])
  {
    if events != [] {
      assert events[|events| - 1] in events;
      OneTtlNeverSlips(start, events[..|events| - 1], ttl);
    }
  }

  /** Two stores with different times to live can: once a user has a token, issuing or
      rotating with less than a millisecond leaves the user's key naming nothing. */
  lemma TinyTtlBreaksPairing(start: Time, user: UserId, raw: Raw, next: Raw, ttl: Time, tiny: Time)
    requires ttl >= 1 && tiny < 1 && raw != next
    ensures var s := Run(Initial(start), [Issue(user, raw, ttl), Issue(user, next, tiny)]);
            user in s.keys.users && s.keys.users[user].raw == raw && s.keys.tokens == map[] && !Paired(s.keys)
    ensures user != "" && raw != "" ==>
              var s := Run(Initial(start), [Issue(user, raw, ttl), Lookup(0, raw), Rotate(0, next, tiny)]);
              user in s.keys.users && s.keys.users[user].raw == raw && s.keys.tokens == map[] && !Paired(s.keys)
  {
    var e1, e2, e3, e4 := Issue(user, raw, ttl), Issue(user, next, tiny), Lookup(0, raw), Rotate(0, next, tiny);
    assert [e1][..0] == [] && [e1, e2][..1] == [e1] && [e1, e3][..1] == [e1] && [e1, e3, e4][..2] == [e1, e3];
    var s1 := Step(Initial(start), e1);
    assert Run(Initial(start), []) == Initial(start) && Run(Initial(start), [e1]) == s1;
    assert s1.keys == Keys(map[raw := Token(user, start + ttl)], map[user := Session(raw, start + ttl)]);
    assert Step(s1, e2).keys.tokens == map[];
    if user != "" && raw != "" {
      var s3 := Step(s1, e3);
      assert Run(Initial(start), [e1, e3]) == s3 && s3.looked == map[0 := (raw, user)];
      assert Step(s3, e4).keys.tokens == map[];
    }
  }

  // ----- What a token is good for -----

  /** The step makes this token for this user: an issue, or the rotation of a token that is
      still looked up to the user it was looked up to before. */
  ghost predicate HandsOut(s: System, e: Event, raw: Raw, user: UserId, ttl: Time) {
    match e
    case Issue(u, r, t) => u == user && r == raw && t == ttl && raw !in s.owner
    case Rotate(pid, next, t) =>
      && next == raw && t == ttl && raw !in s.owner
      && pid in s.looked && s.looked[pid].1 == user && LookedUp(s.keys, s.looked[pid].0) == Some(user)
    case _ => false
  }

  /** The step ends a token that was handed out until `deadline`: it expires, its user is
      issued another, it is itself rotated, consumed or revoked by whoever looked it up, or
      everything of its user is revoked. */
  ghost predicate Ends(s: System, e: Event, raw: Raw, user: UserId, deadline: Time) {
    match e
    case Tick(delay) => s.now + delay > deadline
    case Issue(u, r, _) => u == user && r !in s.owner
    case Lookup(_, _) => false
    case Rotate(pid, next, _) => pid in s.looked && s.looked[pid].0 == raw && next !in s.owner
    case Consume(pid) => pid in s.looked && s.looked[pid].0 == raw
    case Revoke(pid) => pid in s.looked && s.looked[pid].0 == raw
    case RevokeAll(u) => u == user
  }

  /** A token that is handed out with a time to live of a millisecond or more is there. */
  lemma HandedOutIsThere(s: System, e: Event, raw: Raw, user: UserId, ttl: Time)
    requires Inv(s) && ttl >= 1 && HandsOut(s, e, raw, user, ttl)
    ensures raw in Step(s, e).keys.tokens && Step(s, e).keys.tokens[raw] == Token(user, s.now + ttl)
    ensures raw != "" && user != "" ==> LookedUp(Step(s, e).keys, raw) == Some(user)
  {
  }

  /** It stays there, unchanged, through every step but one that ends it. */
  lemma StaysUnlessEnded(s: System, e: Event, raw: Raw)
    requires Inv(s) && raw in s.keys.tokens
    ensures var t := s.keys.tokens[raw];
            && (raw in Step(s, e).keys.tokens <==> !Ends(s, e, raw, t.user, t.deadline))
            && (raw in Step(s, e).keys.tokens ==> Step(s, e).keys.tokens[raw] == t)
  {
    assert s.keys.users[s.keys.tokens[raw].user].raw == raw;
  }

  ghost predicate NeverEnds(s: System, events: seq<Event>, raw: Raw, user: UserId, deadline: Time) {
    events != [] ==>
      && NeverEnds(s, events[..|events| - 1], raw, user, deadline)
      && !Ends(Run(s, events[..|events| - 1]), events[|events| - 1], raw, user, deadline)
  }

  lemma {:induction false} ThereUntilEnded(s: System, events: seq<Event>, raw: Raw)
    requires Inv(s) && raw in s.keys.tokens
    ensures var t, s' := s.keys.tokens[raw], Run(s, events);
            && Inv(s')
            && (raw in s'.keys.tokens <==> NeverEnds(s, events, raw, t.user, t.deadline))
            && (raw in s'.keys.tokens ==> s'.keys.tokens[raw] == t)
  {
    if events != [] {
      var before := Run(s, events[..|events| - 1]);
      ThereUntilEnded(s, events[..|events| - 1], raw);
      StepKeepsInv(before, events[|events| - 1]);
      if raw in before.keys.tokens {
        StaysUnlessEnded(before, events[|events| - 1], raw);
      } else {
        HistoryStays(s, events[..|events| - 1]);
        GoneStaysGoneOnce(before, events[|events| - 1], raw);
      }
    }
  }

  lemma {:induction false} HistoryStays(s: System, events: seq<Event>)
    ensures forall raw :: raw in s.owner ==> raw in Run(s, events).owner
  {
    if events != [] {
      HistoryStays(s, events[..|events| - 1]);
    }
  }

  /** And nothing else puts a token there. */
  lemma ThereOnlyIfHandedOut(s: System, e: Event, raw: Raw)
    requires Inv(s) && raw !in s.keys.tokens && raw in Step(s, e).keys.tokens
    ensures var t := Step(s, e).keys.tokens[raw];
            t.deadline - s.now >= 1 && HandsOut(s, e, raw, t.user, t.deadline - s.now)
  {
  }

  /** The store right after a token was handed out. */
  ghost predicate Holds(s: System, raw: Raw, user: UserId, deadline: Time) {
    Inv(s) && raw in s.keys.tokens && s.keys.tokens[raw] == Token(user, deadline)
  }

  lemma HandedOutIsHeld(s: System, e: Event, raw: Raw, user: UserId, ttl: Time)
    requires Inv(s) && ttl >= 1 && HandsOut(s, e, raw, user, ttl)
    ensures Holds(Step(s, e), raw, user, s.now + ttl)
  {
    HandedOutIsThere(s, e, raw, user, ttl);
    StepKeepsInv(s, e);
  }

  /** However the run goes on, the token is looked up to its user exactly until it is
      replaced, rotated, consumed, revoked or expired for the first time. */
  ghost predicate GoodUntilEnded(s: System, raw: Raw, user: UserId, deadline: Time) {
    forall rest :: LookedUp(Run(s, rest).keys, raw) == if NeverEnds(s, rest, raw, user, deadline) then Some(user) else None
  }

  lemma HeldIsGood(s: System, raw: Raw, user: UserId, deadline: Time)
    requires raw != "" && user != "" && Holds(s, raw, user, deadline)
    ensures GoodUntilEnded(s, raw, user, deadline)
  {
    forall rest ensures LookedUp(Run(s, rest).keys, raw) == if NeverEnds(s, rest, raw, user, deadline) then Some(user) else None {
      ThereUntilEnded(s, rest, raw);
    }
  }

  /** So is every token that is handed out in a run. */
  lemma HandedOutIsGood(start: Time, events: seq<Event>, e: Event, raw: Raw, user: UserId, ttl: Time)
    requires ttl >= 1 && raw != "" && user != "" && HandsOut(Run(Initial(start), events), e, raw, user, ttl)
    ensures var s := Run(Initial(start), events); GoodUntilEnded(Step(s, e), raw, user, s.now + ttl)
  {
    var s := Run(Initial(start), events);
    RunKeepsInv(start, events);
    HandedOutIsHeld(s, e, raw, user, ttl);
    HeldIsGood(Step(s, e), raw, user, s.now + ttl);
  }

  // ----- What is given up -----

  lemma GoneStaysGoneOnce(s: System, e: Event, raw: Raw)
    requires raw in s.owner && raw !in s.keys.tokens
    ensures raw in Step(s, e).owner && raw !in Step(s, e).keys.tokens
    ensures |Step(s, e).accepted| > |s.accepted| ==> Step(s, e).accepted[|s.accepted|] != raw
    ensures |s.accepted| <= |Step(s, e).accepted| <= |s.accepted| + 1
    ensures Step(s, e).accepted[..|s.accepted|] == s.accepted
  {
  }

  /** A token that was made and is no longer stored, whether rotated, replaced, revoked,
      consumed or expired, is never stored, looked up or accepted again. */
  lemma {:induction false} GoneStaysGone(s: System, events: seq<Event>, raw: Raw)
    requires raw in s.owner && raw !in s.keys.tokens
    ensures var s' := Run(s, events);
            && raw in s'.owner && raw !in s'.keys.tokens && LookedUp(s'.keys, raw).None?
            && |s.accepted| <= |s'.accepted| && s'.accepted[..|s.accepted|] == s.accepted
            && raw !in s'.accepted[|s.accepted|..]
  {
    if events != [] {
      var before := events[..|events| - 1];
      GoneStaysGone(s, before, raw);
      var mid := Run(s, before);
      GoneStaysGoneOnce(mid, events[|events| - 1], raw);
      var s' := Run(s, events);
      assert s'.accepted[|s.accepted|..|mid.accepted|] == mid.accepted[|s.accepted|..];
    }
  }

  /** Every way to give up a token takes it out of the store. */
  lemma GivenUpIsGone(s: System, e: Event, raw: Raw)
    requires Inv(s) && raw in s.keys.tokens
    requires match e
             case Issue(user, next, _) => s.keys.tokens[raw].user == user && next !in s.owner
             case Rotate(pid, next, _) => pid in s.looked && s.looked[pid].0 == raw && next !in s.owner
             case Consume(pid) => pid in s.looked && s.looked[pid].0 == raw
             case Revoke(pid) => pid in s.looked && s.looked[pid].0 == raw
             case RevokeAll(user) => s.keys.tokens[raw].user == user
             case _ => false
    ensures raw !in Step(s, e).keys.tokens
    ensures e.Consume? || (e.Rotate? && e.ttl >= 1) ==> Step(s, e).accepted == s.accepted + [raw]
  {
    assert s.keys.users[s.keys.tokens[raw].user].raw == raw;
  }
}
