/** pkg/platform/authcache/redis.go: e-mail codes with a cooldown, hourly limits and a
    bounded number of wrong guesses, each operation one atomic Redis script. */
module EmailCodes {
  import opened Common

  const SECOND := 1_000
  const COOLDOWN := 60 * SECOND
  const HOUR := 3600 * SECOND
  const CODE_LIFETIME := 600 * SECOND
  const MAX_ERRORS := 5
  const EMAIL_LIMIT := 10
  const IP_LIMIT := 50

  datatype Purpose = Register | Login | VerifyEmail

  /** The keyed digests are injective, so an address and a purpose stand for their key. */
  datatype Key = Key(email: string, purpose: Purpose)

  datatype CounterKey = PerEmail(email: string) | PerIp(ip: string)

  /** A code is a hash of its digest, its random ID and its wrong guesses. The digest
      covers the key, so the digest of a code under this key is the code itself. */
  datatype Code = Code(code: string, id: nat, errors: nat, deadline: Time)

  datatype Counter = Counter(count: nat, deadline: Time)

  datatype Cache = Cache(codes: map<Key, Code>, cooldowns: map<Key, Time>, counters: map<CounterKey, Counter>)

  /** Redis keeps a key until its deadline has passed. */
  predicate Live(deadline: Time, now: Time) {
    now <= deadline
  }

  predicate HasCode(c: Cache, key: Key, now: Time) {
    key in c.codes && Live(c.codes[key].deadline, now)
  }

  /** The remaining time to live in whole seconds, rounded up; nothing for a missing key. */
  function SecondsLeft(deadline: Time, now: Time): int {
    if Live(deadline, now) then CeilDiv(deadline - now, SECOND) else 0
  }

  /** INCR, and EXPIRE on the first one. */
  function Incremented(c: Cache, key: CounterKey, now: Time): Counter {
    if key in c.counters && Live(c.counters[key].deadline, now)
    then Counter(c.counters[key].count + 1, c.counters[key].deadline)
    else Counter(1, now + HOUR)
  }

  function Limit(key: CounterKey): nat {
    if key.PerEmail? then EMAIL_LIMIT else IP_LIMIT
  }

  /** How long a counter over its limit makes the caller wait, in seconds. */
  function CounterRetry(key: CounterKey, counter: Counter, now: Time): int {
    if counter.count > Limit(key) then SecondsLeft(counter.deadline, now) else 0
  }

  function CooldownRetry(c: Cache, key: Key, now: Time): int {
    if key in c.cooldowns then SecondsLeft(c.cooldowns[key], now) else 0
  }

  /** issueScript: both counters are always incremented; the code is stored only when
      neither limit nor the cooldown asks the caller to wait. */
  function Issued(c: Cache, key: Key, ip: string, code: string, id: nat, now: Time): (int, Cache) {
    var email, address := PerEmail(key.email), PerIp(ip);
    var perEmail, perIp := Incremented(c, email, now), Incremented(c, address, now);
    var counted := c.(counters := c.counters[email := perEmail][address := perIp]);
    var retry := Max(Max(CounterRetry(email, perEmail, now), CounterRetry(address, perIp, now)),
                     CooldownRetry(c, key, now));
    if retry > 0 then (retry, counted)
    else
      (0, counted.(cooldowns := c.cooldowns[key := now + COOLDOWN],
                   codes := c.codes[key := Code(code, id, 0, now + CODE_LIFETIME)]))
  }

  /** What verifyScript answers: the ID and the remaining milliseconds, or nothing. */
  datatype Match = Match(id: nat, ttl: Time)

  function Verified(c: Cache, key: Key, code: string, consume: bool, now: Time): (Option<Match>, Cache) {
    if !HasCode(c, key, now) || c.codes[key].errors >= MAX_ERRORS then (None, c)
    else
      var stored := c.codes[key];
      if stored.code != code then (None, c.(codes := c.codes[key := stored.(errors := stored.errors + 1)]))
      else (Some(Match(stored.id, stored.deadline - now)), if consume then c.(codes := c.codes - {key}) else c)
  }

  /** consumeScript: the key is deleted only while it still holds the receipt's code. */
  function Consumed(c: Cache, key: Key, id: nat, now: Time): (bool, Cache) {
    if HasCode(c, key, now) && c.codes[key].id == id then (true, c.(codes := c.codes - {key})) else (false, c)
  }

  datatype Receipt = Receipt(id: nat, expiresAt: Time)

  class Store {
    var cache: Cache

    constructor ()
      ensures cache == Cache(map[], map[], map[])
    {
      cache := Cache(map[], map[], map[]);
    }

    /** The new code goes out when the answer is zero; otherwise it is the wait in seconds. */
    method Issue(key: Key, ip: string, code: string, id: nat, now: Time) returns (retry: int)
      modifies this
      ensures (retry, cache) == Issued(old(cache), key, ip, code, id, now)
      ensures retry >= 0
    {
      retry := 0;
      ghost var before := cache;
      var keys := [PerEmail(key.email), PerIp(ip)];
      for i := 0 to 2
        invariant cache == if i == 0 then before
                           else if i == 1 then before.(counters := before.counters[keys[0] := Incremented(before, keys[0], now)])
                           else before.(counters := before.counters[keys[0] := Incremented(before, keys[0], now)]
                                                                   [keys[1] := Incremented(before, keys[1], now)])
        invariant retry == if i == 0 then 0
                           else if i == 1 then Max(0, CounterRetry(keys[0], Incremented(before, keys[0], now), now))
                           else Max(Max(0, CounterRetry(keys[0], Incremented(before, keys[0], now), now)),
                                    CounterRetry(keys[1], Incremented(before, keys[1], now), now))
      {
        var counter := Incremented(cache, keys[i], now);
        cache := cache.(counters := cache.counters[keys[i] := counter]);
        if counter.count > Limit(keys[i]) {
          retry := Max(retry, SecondsLeft(counter.deadline, now));
        }
      }
      retry := Max(retry, CooldownRetry(cache, key, now));
      if retry > 0 {
        return;
      }
      cache := cache.(cooldowns := cache.cooldowns[key := now + COOLDOWN]);
      cache := cache.(codes := cache.codes[key := Code(code, id, 0, now + CODE_LIFETIME)]);
    }

    /** verifyScript, step by step. */
    method EvalVerify(key: Key, code: string, consume: bool, now: Time) returns (answer: Option<Match>)
      modifies this
      ensures (answer, cache) == Verified(old(cache), key, code, consume, now)
    {
      if key !in cache.codes || now > cache.codes[key].deadline {
        return None;
      }
      var stored := cache.codes[key];
      if stored.errors >= MAX_ERRORS {
        return None;
      }
      if stored.code != code {
        cache := cache.(codes := cache.codes[key := stored.(errors := stored.errors + 1)]);
        return None;
      }
      if consume {
        cache := cache.(codes := cache.codes - {key});
      }
      return Some(Match(stored.id, stored.deadline - now));
    }

    /** A match in its very last millisecond is refused: it has no lifetime left. */
    method Verify(key: Key, code: string, started: Time, now: Time) returns (receipt: Option<Receipt>)
      modifies this
      ensures var (answer, after) := Verified(old(cache), key, code, false, now);
              && cache == after
              && receipt == if answer.None? || answer.value.ttl <= 0 then None
                            else Some(Receipt(answer.value.id, started + answer.value.ttl))
    {
      var answer := EvalVerify(key, code, false, now);
      if answer.None? {
        return None;
      }
      if answer.value.ttl <= 0 {
        return None;
      }
      return Some(Receipt(answer.value.id, started + answer.value.ttl));
    }

    method VerifyAndConsume(key: Key, code: string, now: Time) returns (accepted: bool)
      modifies this
      ensures cache == Verified(old(cache), key, code, true, now).1
      ensures accepted <==> Verified(old(cache), key, code, true, now).0.Some?
    {
      var answer := EvalVerify(key, code, true, now);
      return answer.Some?;
    }

    method Consume(key: Key, receipt: Receipt, now: Time) returns (removed: bool)
      modifies this
      ensures (removed, cache) == Consumed(old(cache), key, receipt.id, now)
    {
      if key !in cache.codes || now > cache.codes[key].deadline || cache.codes[key].id != receipt.id {
        return false;
      }
      cache := cache.(codes := cache.codes - {key});
      return true;
    }
  }

  // ----- Runs -----

  /** What happened, in order. An issue records when the hourly windows of its address and
      of its IP began, that is, when their counters were last created. An acceptance
      consumes the code, and an answer leaves it. */
  datatype Entry =
    | Issue(key: Key, id: nat, code: string, ip: string, at: Time, window: Time, ipWindow: Time)
    | Refusal(key: Key, ip: string, at: Time)
    | Mismatch(key: Key, guess: string)
    | Acceptance(key: Key, id: nat, guess: string)
    | Answer(key: Key, id: nat, guess: string)
    | Removal(key: Key, id: nat)

  datatype System = System(cache: Cache, used: set<nat>, log: seq<Entry>, now: Time)

  datatype Event =
    | Tick(delay: nat)
    | IssueCode(issueKey: Key, ip: string, newCode: string, newId: nat)
    | VerifyCode(verifyKey: Key, guess: string, consume: bool)
    | ConsumeReceipt(receiptKey: Key, receiptId: nat)

  function Initial(start: Time): System {
    System(Cache(map[], map[], map[]), {}, [], start)
  }

  function IssueEntry(c: Cache, key: Key, id: nat, code: string, ip: string, now: Time): Entry
    requires PerEmail(key.email) in c.counters && PerIp(ip) in c.counters
  {
    Issue(key, id, code, ip, now, c.counters[PerEmail(key.email)].deadline - HOUR, c.counters[PerIp(ip)].deadline - HOUR)
  }

  /** Every event is possible at any time; a random ID that was used before cannot be drawn. */
  function Step(s: System, e: Event): System {
    match e
    case Tick(delay) => s.(now := s.now + delay)
    case IssueCode(key, ip, code, id) =>
      if id in s.used then s
      else
        var (retry, cache) := Issued(s.cache, key, ip, code, id, s.now);
        System(cache, s.used + {id},
             s.log + [if retry == 0 then IssueEntry(cache, key, id, code, ip, s.now) else Refusal(key, ip, s.now)], s.now)
    case VerifyCode(key, guess, consume) =>
      var (answer, cache) := Verified(s.cache, key, guess, consume, s.now);
      var entries :=
        if answer.Some? then [if consume then Acceptance(key, answer.value.id, guess) else Answer(key, answer.value.id, guess)]
        else if HasCode(s.cache, key, s.now) && s.cache.codes[key].errors < MAX_ERRORS then [Mismatch(key, guess)]
        else [];
      s.(cache := cache, log := s.log + entries)
    case ConsumeReceipt(key, id) =>
      var (removed, cache) := Consumed(s.cache, key, id, s.now);
      s.(cache := cache, log := s.log + if removed then [Removal(key, id)] else [])
  }

  function Run(s: System, events: seq<Event>): System {
    if events == [] then s else Step(Run(s, events[..|events| - 1]), events[|events| - 1])
  }

  /** A group of entries: the issues of a key, its wrong guesses, or the issues that a
      counter counted, those to an address for any purpose or those from an IP, inside the
      hour that began at `window`. */
  datatype Group = IssuesOf(key: Key) | MismatchesOf(key: Key) | IssuesWithin(counter: CounterKey, window: Time)

  /** The window of an issue that this counter counted. */
  function WindowOf(entry: Entry, counter: CounterKey): Option<Time> {
    if !entry.Issue? then None
    else if counter == PerEmail(entry.key.email) then Some(entry.window)
    else if counter == PerIp(entry.ip) then Some(entry.ipWindow)
    else None
  }

  predicate Fits(entry: Entry, group: Group) {
    match group
    case IssuesOf(key) => entry.Issue? && entry.key == key
    case MismatchesOf(key) => entry.Mismatch? && entry.key == key
    case IssuesWithin(counter, window) =>
      WindowOf(entry, counter) == Some(window) && entry.at < window + 3_600_000
  }

  function Count(log: seq<Entry>, group: Group): nat {
    if log == [] then 0 else Count(log[..|log| - 1], group) + if Fits(log[|log| - 1], group) then 1 else 0
  }

  ghost predicate GuessesBounded(log: seq<Entry>) {
    forall key :: Count(log, MismatchesOf(key)) <= 5 * Count(log, IssuesOf(key))
  }

  ghost predicate IssuesBounded(log: seq<Entry>) {
    forall counter, window :: Count(log, IssuesWithin(counter, window)) <= if counter.PerEmail? then 10 else 50
  }

  ghost predicate IssuesSpaced(log: seq<Entry>) {
    forall i, j :: 0 <= i < j < |log| && log[i].Issue? && log[j].Issue? && log[i].key == log[j].key ==>
      log[j].at - log[i].at >= 60_000
  }

  ghost predicate IssuedBefore(log: seq<Entry>, j: int, key: Key, id: nat) {
    exists i :: 0 <= i < j && i < |log| && log[i].Issue? && log[i].id == id && log[i].key == key
  }

  ghost predicate AcceptedOnce(log: seq<Entry>) {
    && (forall i, j :: 0 <= i < j < |log| && log[i].Acceptance? && log[j].Acceptance? ==> log[i].id != log[j].id)
    && (forall j :: 0 <= j < |log| && log[j].Acceptance? ==> IssuedBefore(log, j, log[j].key, log[j].id))
  }

  /** The limits the documentation promises, read off the log. */
  ghost predicate WithinLimits(log: seq<Entry>) {
    GuessesBounded(log) && IssuesBounded(log) && IssuesSpaced(log) && AcceptedOnce(log)
  }

  /** The wrong guesses the key's present code still allows. */
  function GuessesLeft(c: Cache, key: Key): nat {
    if key in c.codes && c.codes[key].errors <= MAX_ERRORS then MAX_ERRORS - c.codes[key].errors else 0
  }

  /** Entry i issued this code of the key, and no code of the key was issued since. */
  ghost predicate IsLatestIssue(log: seq<Entry>, i: int, key: Key, id: nat) {
    && 0 <= i < |log| && log[i].Issue? && log[i].key == key && log[i].id == id
    && forall j :: i < j < |log| && log[j].Issue? ==> log[j].key != key
  }

  /** An entry that is no issue of the key leaves its latest issue in place. */
  lemma StillLatest(log: seq<Entry>, entry: Entry, key: Key, id: nat)
    requires exists i :: IsLatestIssue(log, i, key, id)
    requires entry.Issue? ==> entry.key != key
    ensures exists i :: IsLatestIssue(log + [entry], i, key, id)
  {
    var i :| IsLatestIssue(log, i, key, id);
    assert IsLatestIssue(log + [entry], i, key, id);
  }

  ghost predicate CodesInv(s: System) {
    && (forall key :: key in s.cache.codes ==>
          && s.cache.codes[key].errors <= MAX_ERRORS
          && s.cache.codes[key].id in s.used
          && exists i :: IsLatestIssue(s.log, i, key, s.cache.codes[key].id))
    && (forall k1, k2 :: k1 in s.cache.codes && k2 in s.cache.codes && k1 != k2 ==>
          s.cache.codes[k1].id != s.cache.codes[k2].id)
    && (forall i :: 0 <= i < |s.log| && s.log[i].Acceptance? ==>
          && s.log[i].id in s.used
          && forall key :: key in s.cache.codes ==> s.cache.codes[key].id != s.log[i].id)
    && (forall i :: 0 <= i < |s.log| && s.log[i].Issue? ==>
          && s.log[i].key in s.cache.cooldowns
          && s.cache.cooldowns[s.log[i].key] >= s.log[i].at + COOLDOWN)
  }

  ghost predicate GuessesInv(s: System) {
    forall key :: Count(s.log, MismatchesOf(key)) + GuessesLeft(s.cache, key) <= MAX_ERRORS * Count(s.log, IssuesOf(key))
  }

  /** The counter is still there, and its hour is the one that began then, or a later one. */
  ghost predicate Covers(c: Cache, counter: CounterKey, window: Time) {
    counter in c.counters && window + HOUR <= c.counters[counter].deadline
  }

  ghost predicate WindowsInv(s: System) {
    && (forall i :: 0 <= i < |s.log| && s.log[i].Issue? ==>
          && Covers(s.cache, PerEmail(s.log[i].key.email), s.log[i].window)
          && Covers(s.cache, PerIp(s.log[i].ip), s.log[i].ipWindow))
    && (forall k :: k in s.cache.counters ==> s.cache.counters[k].deadline <= s.now + HOUR)
    && IssuesBounded(s.log)
    && (forall k :: k in s.cache.counters ==> CountedWithin(s.cache, s.log, k) <= s.cache.counters[k].count)
  }

  /** The issues inside the present hour of a counter. */
  function CountedWithin(c: Cache, log: seq<Entry>, counter: CounterKey): nat
    requires counter in c.counters
  {
    Count(log, IssuesWithin(counter, c.counters[counter].deadline - HOUR))
  }

  ghost predicate Inv(s: System) {
    CodesInv(s) && GuessesInv(s) && WindowsInv(s) && WithinLimits(s.log)
  }

  lemma {:induction false} CountNone(log: seq<Entry>, group: Group)
    requires forall i :: 0 <= i < |log| ==> !Fits(log[i], group)
    ensures Count(log, group) == 0
  {
    if log != [] {
      CountNone(log[..|log| - 1], group);
    }
  }

  lemma LogOfMore(log: seq<Entry>, entry: Entry)
    ensures forall group :: Count(log + [entry], group) == Count(log, group) + if Fits(entry, group) then 1 else 0
  {
  }

  // ----- Issuing -----

  function WithCounter(s: System, k: CounterKey, counter: Counter): System {
    s.(cache := s.cache.(counters := s.cache.counters[k := counter]))
  }

  /** A refused issue changes nothing but counters, and they only move on. */
  lemma CounterMovesOn(s: System, k: CounterKey)
    requires WindowsInv(s)
    ensures var s' := WithCounter(s, k, Incremented(s.cache, k, s.now));
            WindowsInv(s') && CountedWithin(s'.cache, s.log, k) < s'.cache.counters[k].count
  {
    var counter := Incremented(s.cache, k, s.now);
    if k !in s.cache.counters || !Live(s.cache.counters[k].deadline, s.now) {
      CountNone(s.log, IssuesWithin(k, counter.deadline - HOUR));
    }
  }

  lemma CountersMoveOn(s: System, email: string, ip: string, cache: Cache)
    requires WindowsInv(s)
    requires cache == s.cache.(counters := s.cache.counters[PerEmail(email) := Incremented(s.cache, PerEmail(email), s.now)]
                                                          [PerIp(ip) := Incremented(s.cache, PerIp(ip), s.now)])
    ensures WindowsInv(s.(cache := cache))
    ensures CountedWithin(cache, s.log, PerEmail(email)) < cache.counters[PerEmail(email)].count
    ensures CountedWithin(cache, s.log, PerIp(ip)) < cache.counters[PerIp(ip)].count
  {
    CounterMovesOn(s, PerEmail(email));
    var s' := WithCounter(s, PerEmail(email), Incremented(s.cache, PerEmail(email), s.now));
    assert Incremented(s'.cache, PerIp(ip), s.now) == Incremented(s.cache, PerIp(ip), s.now);
    CounterMovesOn(s', PerIp(ip));
    assert WithCounter(s', PerIp(ip), Incremented(s.cache, PerIp(ip), s.now)) == s.(cache := cache);
  }

  /** Entries that none of the limits is about. */
  predicate Neutral(entry: Entry) {
    entry.Refusal? || entry.Answer? || entry.Removal?
  }

  lemma NeutralKeepsCodes(s: System, entry: Entry)
    requires CodesInv(s) && Neutral(entry)
    ensures CodesInv(s.(log := s.log + [entry]))
  {
    forall key | key in s.cache.codes ensures exists i :: IsLatestIssue(s.log + [entry], i, key, s.cache.codes[key].id) {
      StillLatest(s.log, entry, key, s.cache.codes[key].id);
    }
  }

  lemma NeutralKeepsWindows(s: System, entry: Entry)
    requires WindowsInv(s) && GuessesInv(s) && Neutral(entry)
    ensures WindowsInv(s.(log := s.log + [entry])) && GuessesInv(s.(log := s.log + [entry]))
  {
    LogOfMore(s.log, entry);
  }

  lemma NeutralKeepsInv(s: System, entry: Entry)
    requires Inv(s) && Neutral(entry)
    ensures Inv(s.(log := s.log + [entry]))
  {
    NeutralKeepsCodes(s, entry);
    NeutralKeepsWindows(s, entry);
    GuessesAreBounded(s.(log := s.log + [entry]));
    LogKeepsAcceptance(s.log, entry);
  }

  lemma RefusedIssueKeepsInv(s: System, key: Key, ip: string, code: string, id: nat)
    requires Inv(s) && id !in s.used
    requires Issued(s.cache, key, ip, code, id, s.now).0 > 0
    ensures Inv(Step(s, IssueCode(key, ip, code, id)))
  {
    var cache := Issued(s.cache, key, ip, code, id, s.now).1;
    CountersMoveOn(s, key.email, ip, cache);
    NeutralKeepsInv(s.(cache := cache, used := s.used + {id}), Refusal(key, ip, s.now));
  }

  /** A counter does not hold an issue up: it is within its limit, or in its last
      millisecond, when the script sees no time left to wait. */
  predicate HasRoom(k: CounterKey, counter: Counter, now: Time) {
    counter.count <= (if k.PerEmail? then 10 else 50) || now == counter.deadline
  }

  /** The exact rule of issueScript: the code goes out when both counters, with this issue
      counted, have room and the key's cooldown is over, and only then. */
  lemma IssueGoesThroughExactly(c: Cache, key: Key, ip: string, code: string, id: nat, now: Time)
    ensures Issued(c, key, ip, code, id, now).0 == 0 <==>
              && HasRoom(PerEmail(key.email), Incremented(c, PerEmail(key.email), now), now)
              && HasRoom(PerIp(ip), Incremented(c, PerIp(ip), now), now)
              && (key in c.cooldowns ==> c.cooldowns[key] <= now)
  {
  }

  lemma LoggedIssueKeepsBounds(s: System, entry: Entry)
    requires WindowsInv(s) && entry.Issue? && entry.at == s.now
    requires forall k :: WindowOf(entry, k).Some? ==>
               && k in s.cache.counters && WindowOf(entry, k).value == s.cache.counters[k].deadline - HOUR
               && CountedWithin(s.cache, s.log, k) < s.cache.counters[k].count && HasRoom(k, s.cache.counters[k], s.now)
    ensures IssuesBounded(s.log + [entry])
    ensures forall k :: k in s.cache.counters ==> CountedWithin(s.cache, s.log + [entry], k) <= s.cache.counters[k].count
  {
    LogOfMore(s.log, entry);
  }

  lemma LoggedIssueKeepsWindows(s: System, key: Key, id: nat, code: string, ip: string)
    requires WindowsInv(s) && PerEmail(key.email) in s.cache.counters && PerIp(ip) in s.cache.counters
    requires CountedWithin(s.cache, s.log, PerEmail(key.email)) < s.cache.counters[PerEmail(key.email)].count
    requires CountedWithin(s.cache, s.log, PerIp(ip)) < s.cache.counters[PerIp(ip)].count
    requires HasRoom(PerEmail(key.email), s.cache.counters[PerEmail(key.email)], s.now)
    requires HasRoom(PerIp(ip), s.cache.counters[PerIp(ip)], s.now)
    ensures WindowsInv(s.(log := s.log + [IssueEntry(s.cache, key, id, code, ip, s.now)]))
  {
    var entry := IssueEntry(s.cache, key, id, code, ip, s.now);
    var s' := s.(log := s.log + [entry]);
    assert forall k :: WindowOf(entry, k).Some? ==> k == PerEmail(key.email) || k == PerIp(ip);
    LoggedIssueKeepsBounds(s, entry);
    forall i | 0 <= i < |s'.log| && s'.log[i].Issue?
      ensures Covers(s.cache, PerEmail(s'.log[i].key.email), s'.log[i].window) && Covers(s.cache, PerIp(s'.log[i].ip), s'.log[i].ipWindow)
    {
      assert i < |s.log| ==> s'.log[i] == s.log[i];
    }
  }

  /** Codes and cooldowns do not matter to the windows. */
  lemma SameCounters(s: System, s': System)
    requires WindowsInv(s) && s'.cache.counters == s.cache.counters && s'.log == s.log && s'.now == s.now
    ensures WindowsInv(s')
  {
  }

  lemma IssueKeepsWindows(s: System, key: Key, ip: string, code: string, id: nat)
    requires WindowsInv(s) && id !in s.used
    requires Issued(s.cache, key, ip, code, id, s.now).0 == 0
    ensures WindowsInv(Step(s, IssueCode(key, ip, code, id)))
  {
    var counted := s.(cache := s.cache.(counters := Issued(s.cache, key, ip, code, id, s.now).1.counters));
    CountersMoveOn(s, key.email, ip, counted.cache);
    IssueGoesThroughExactly(s.cache, key, ip, code, id, s.now);
    LoggedIssueKeepsWindows(counted, key, id, code, ip);
    SameCounters(counted.(log := s.log + [IssueEntry(counted.cache, key, id, code, ip, s.now)]), Step(s, IssueCode(key, ip, code, id)));
  }

  lemma IssueKeepsGuesses(s: System, key: Key, ip: string, code: string, id: nat)
    requires Inv(s) && id !in s.used
    requires Issued(s.cache, key, ip, code, id, s.now).0 == 0
    ensures GuessesInv(Step(s, IssueCode(key, ip, code, id)))
  {
  }

  /** The cooldown key is a lower bound on the time of the next issue. */
  lemma CooldownIsOver(s: System, key: Key, ip: string, code: string, id: nat)
    requires CodesInv(s) && Issued(s.cache, key, ip, code, id, s.now).0 == 0
    ensures forall i :: 0 <= i < |s.log| && s.log[i].Issue? && s.log[i].key == key ==> s.now - s.log[i].at >= COOLDOWN
  {
  }

  lemma IssueKeepsCodes(s: System, key: Key, ip: string, code: string, id: nat)
    requires Inv(s) && id !in s.used
    requires Issued(s.cache, key, ip, code, id, s.now).0 == 0
    ensures CodesInv(Step(s, IssueCode(key, ip, code, id)))
  {
    var s' := Step(s, IssueCode(key, ip, code, id));
    CooldownIsOver(s, key, ip, code, id);
    forall k | k in s'.cache.codes ensures exists i :: IsLatestIssue(s'.log, i, k, s'.cache.codes[k].id) {
      if k == key {
        assert IsLatestIssue(s'.log, |s.log|, key, id);
      } else {
        StillLatest(s.log, s'.log[|s.log|], k, s.cache.codes[k].id);
      }
    }
  }

  lemma IssueKeepsLimits(s: System, key: Key, ip: string, code: string, id: nat)
    requires Inv(s) && id !in s.used
    requires Issued(s.cache, key, ip, code, id, s.now).0 == 0
    requires GuessesInv(Step(s, IssueCode(key, ip, code, id))) && WindowsInv(Step(s, IssueCode(key, ip, code, id)))
    ensures WithinLimits(Step(s, IssueCode(key, ip, code, id)).log)
  {
    var s' := Step(s, IssueCode(key, ip, code, id));
    CooldownIsOver(s, key, ip, code, id);
    GuessesAreBounded(s');
    LogKeepsAcceptance(s.log, s'.log[|s.log|]);
  }

  /** An entry keeps the log's limits if it is a new acceptance of an issued code, or none. */
  lemma LogKeepsAcceptance(log: seq<Entry>, entry: Entry)
    requires AcceptedOnce(log)
    requires entry.Acceptance? ==>
               && IssuedBefore(log, |log|, entry.key, entry.id)
               && forall i :: 0 <= i < |log| && log[i].Acceptance? ==> log[i].id != entry.id
    ensures AcceptedOnce(log + [entry])
  {
    var more := log + [entry];
    forall j | 0 <= j < |more| && more[j].Acceptance? ensures IssuedBefore(more, j, more[j].key, more[j].id) {
      assert IssuedBefore(log, j, more[j].key, more[j].id);
      var i :| 0 <= i < j && i < |log| && log[i].Issue? && log[i].id == more[j].id && log[i].key == more[j].key;
      assert more[i] == log[i];
    }
  }

  lemma GuessesAreBounded(s: System)
    requires GuessesInv(s)
    ensures GuessesBounded(s.log)
  {
  }

  lemma IssueKeepsInv(s: System, key: Key, ip: string, code: string, id: nat)
    requires Inv(s)
    ensures Inv(Step(s, IssueCode(key, ip, code, id)))
  {
    if id !in s.used {
      if Issued(s.cache, key, ip, code, id, s.now).0 > 0 {
        RefusedIssueKeepsInv(s, key, ip, code, id);
      } else {
        IssueKeepsCodes(s, key, ip, code, id);
        IssueKeepsGuesses(s, key, ip, code, id);
        IssueKeepsWindows(s, key, ip, code, id);
        IssueKeepsLimits(s, key, ip, code, id);
      }
    }
  }

  // ----- Verifying and consuming -----

  lemma VerifyKeepsGuesses(s: System, s': System, entry: Entry)
    requires GuessesInv(s) && s'.log == s.log + [entry] && !entry.Issue?
    requires forall k :: GuessesLeft(s'.cache, k) + (if entry.Mismatch? && entry.key == k then 1 else 0) <= GuessesLeft(s.cache, k)
    ensures GuessesInv(s')
  {
  }

  lemma VerifyKeepsLimits(s: System, s': System, entry: Entry)
    requires Inv(s) && GuessesInv(s') && s'.log == s.log + [entry] && !entry.Issue?
    requires s'.cache.counters == s.cache.counters && s'.now == s.now
    requires entry.Acceptance? ==>
               && IssuedBefore(s.log, |s.log|, entry.key, entry.id)
               && forall i :: 0 <= i < |s.log| && s.log[i].Acceptance? ==> s.log[i].id != entry.id
    ensures WithinLimits(s'.log) && WindowsInv(s')
  {
    GuessesAreBounded(s');
    LogOfMore(s.log, entry);
    LogKeepsAcceptance(s.log, entry);
  }

  lemma MismatchKeepsLatest(s: System, s': System, key: Key, guess: string)
    requires CodesInv(s) && key in s.cache.codes
    requires s'.cache.codes == s.cache.codes[key := s.cache.codes[key].(errors := s.cache.codes[key].errors + 1)]
    requires s'.log == s.log + [Mismatch(key, guess)]
    ensures forall k :: k in s'.cache.codes ==>
              k in s.cache.codes && s'.cache.codes[k].id == s.cache.codes[k].id
              && exists i :: IsLatestIssue(s'.log, i, k, s'.cache.codes[k].id)
  {
    forall k | k in s'.cache.codes ensures exists i :: IsLatestIssue(s'.log, i, k, s'.cache.codes[k].id) {
      StillLatest(s.log, Mismatch(key, guess), k, s.cache.codes[k].id);
    }
  }

  /** An entry that neither issues nor accepts leaves the codes right when they keep their
      IDs and the cooldowns stay. */
  lemma SameIdsKeepCodes(s: System, s': System, entry: Entry)
    requires CodesInv(s) && s'.log == s.log + [entry] && !entry.Issue? && !entry.Acceptance?
    requires s'.used == s.used && s'.cache.cooldowns == s.cache.cooldowns
    requires forall k :: k in s'.cache.codes ==>
               && k in s.cache.codes && s'.cache.codes[k].id == s.cache.codes[k].id
               && s'.cache.codes[k].errors <= MAX_ERRORS
               && exists i :: IsLatestIssue(s'.log, i, k, s'.cache.codes[k].id)
    ensures CodesInv(s')
  {
    assert forall i :: 0 <= i < |s'.log| && (s'.log[i].Issue? || s'.log[i].Acceptance?) ==> i < |s.log| && s'.log[i] == s.log[i];
  }

  lemma MismatchKeepsCodes(s: System, s': System, key: Key, guess: string)
    requires CodesInv(s) && key in s.cache.codes && s.cache.codes[key].errors < MAX_ERRORS
    requires s'.cache == s.cache.(codes := s.cache.codes[key := s.cache.codes[key].(errors := s.cache.codes[key].errors + 1)])
    requires s'.log == s.log + [Mismatch(key, guess)] && s'.used == s.used
    ensures CodesInv(s')
  {
    MismatchKeepsLatest(s, s', key, guess);
    assert forall k :: k in s'.cache.codes ==> s'.cache.codes[k].errors <= MAX_ERRORS;
    SameIdsKeepCodes(s, s', Mismatch(key, guess));
  }

  lemma MismatchKeepsInv(s: System, key: Key, guess: string, consume: bool)
    requires Inv(s) && HasCode(s.cache, key, s.now) && s.cache.codes[key].errors < MAX_ERRORS
    requires s.cache.codes[key].code != guess
    ensures Inv(Step(s, VerifyCode(key, guess, consume)))
  {
    var s' := Step(s, VerifyCode(key, guess, consume));
    MismatchKeepsCodes(s, s', key, guess);
    assert forall k :: GuessesLeft(s'.cache, k) + (if k == key then 1 else 0) <= GuessesLeft(s.cache, k);
    VerifyKeepsGuesses(s, s', Mismatch(key, guess));
    VerifyKeepsLimits(s, s', Mismatch(key, guess));
  }

  lemma AcceptanceKeepsCodes(s: System, key: Key, guess: string)
    requires Inv(s) && HasCode(s.cache, key, s.now) && s.cache.codes[key].errors < MAX_ERRORS
    requires s.cache.codes[key].code == guess
    ensures CodesInv(Step(s, VerifyCode(key, guess, true)))
  {
    var s' := Step(s, VerifyCode(key, guess, true));
    forall k | k in s'.cache.codes ensures exists i :: IsLatestIssue(s'.log, i, k, s'.cache.codes[k].id) {
      StillLatest(s.log, s'.log[|s.log|], k, s.cache.codes[k].id);
    }
  }

  lemma AcceptanceKeepsInv(s: System, key: Key, guess: string)
    requires Inv(s) && HasCode(s.cache, key, s.now) && s.cache.codes[key].errors < MAX_ERRORS
    requires s.cache.codes[key].code == guess
    ensures Inv(Step(s, VerifyCode(key, guess, true)))
  {
    var s' := Step(s, VerifyCode(key, guess, true));
    var id := s.cache.codes[key].id;
    var entry := Acceptance(key, id, guess);
    AcceptanceKeepsCodes(s, key, guess);
    VerifyKeepsGuesses(s, s', entry);
    var i :| IsLatestIssue(s.log, i, key, id);
    VerifyKeepsLimits(s, s', entry);
  }

  lemma RemovalKeepsCodes(s: System, key: Key)
    requires CodesInv(s) && GuessesInv(s)
    ensures CodesInv(s.(cache := s.cache.(codes := s.cache.codes - {key})))
    ensures GuessesInv(s.(cache := s.cache.(codes := s.cache.codes - {key})))
  {
    assert forall k :: GuessesLeft(s.cache.(codes := s.cache.codes - {key}), k) <= GuessesLeft(s.cache, k);
    assert forall k :: Count(s.log, MismatchesOf(k)) + GuessesLeft(s.cache, k) <= MAX_ERRORS * Count(s.log, IssuesOf(k));
  }

  lemma RemovalKeepsInv(s: System, key: Key)
    requires Inv(s)
    ensures Inv(s.(cache := s.cache.(codes := s.cache.codes - {key})))
  {
    RemovalKeepsCodes(s, key);
    SameCounters(s, s.(cache := s.cache.(codes := s.cache.codes - {key})));
  }

  lemma StepKeepsInv(s: System, e: Event)
    requires Inv(s)
    ensures Inv(Step(s, e))
  {
    match e
    case Tick(_) =>
    case IssueCode(key, ip, code, id) => IssueKeepsInv(s, key, ip, code, id);
    case VerifyCode(key, guess, consume) =>
      if !HasCode(s.cache, key, s.now) || s.cache.codes[key].errors >= MAX_ERRORS {
        assert s.log + [] == s.log;
      } else if s.cache.codes[key].code != guess {
        MismatchKeepsInv(s, key, guess, consume);
      } else if consume {
        AcceptanceKeepsInv(s, key, guess);
      } else {
        NeutralKeepsInv(s, Answer(key, s.cache.codes[key].id, guess));
      }
    case ConsumeReceipt(key, id) =>
      if HasCode(s.cache, key, s.now) && s.cache.codes[key].id == id {
        RemovalKeepsInv(s, key);
        NeutralKeepsInv(s.(cache := s.cache.(codes := s.cache.codes - {key})), Removal(key, id));
      } else {
        assert s.log + [] == s.log;
      }
  }

  lemma {:induction false} RunKeepsInv(start: Time, events: seq<Event>)
    ensures Inv(Run(Initial(start), events))
  {
    if events != [] {
      RunKeepsInv(start, events[..|events| - 1]);
      StepKeepsInv(Run(Initial(start), events[..|events| - 1]), events[|events| - 1]);
    }
  }

  /** Over every run: at most five wrong guesses per issued code, at most ten issues per
      address and fifty per IP in [start, start + one hour) of a counter's window, issues of
      one key at least a minute apart, and no code accepted without being issued or
      accepted twice. */
  lemma CodesStayWithinLimits(start: Time, events: seq<Event>)
    ensures WithinLimits(Run(Initial(start), events).log)
  {
    RunKeepsInv(start, events);
  }

  // ----- The cache, read off the log -----

  /** The code of a key: what its latest issue stored, unless it was consumed or removed
      since, with the wrong guesses since that issue. */
  datatype Current = Current(code: string, id: nat, at: Time, mismatches: nat)

  function CodeAfter(before: Option<Current>, entry: Entry, key: Key): Option<Current> {
    if entry.key != key then before
    else
      match entry
      case Issue(_, id, code, _, at, _, _) => Some(Current(code, id, at, 0))
      case Refusal(_, _, _) => before
      case Mismatch(_, _) => if before.Some? then Some(before.value.(mismatches := before.value.mismatches + 1)) else None
      case Acceptance(_, _, _) => None
      case Answer(_, _, _) => before
      case Removal(_, _) => None
  }

  function CodeOf(log: seq<Entry>, key: Key): Option<Current> {
    if log == [] then None else CodeAfter(CodeOf(log[..|log| - 1], key), log[|log| - 1], key)
  }

  function LastIssue(log: seq<Entry>, key: Key): Option<Time> {
    if log == [] then None
    else if log[|log| - 1].Issue? && log[|log| - 1].key == key then Some(log[|log| - 1].at)
    else LastIssue(log[..|log| - 1], key)
  }

  /** How many requests, granted or refused, a counter has seen in its present hour. */
  function RequestsAfter(before: Option<Counter>, entry: Entry, k: CounterKey): Option<Counter> {
    if !(entry.Issue? || entry.Refusal?) then before
    else if k != PerEmail(entry.key.email) && k != PerIp(entry.ip) then before
    else if before.Some? && entry.at <= before.value.deadline then Some(before.value.(count := before.value.count + 1))
    else Some(Counter(1, entry.at + 3_600_000))
  }

  function RequestsOf(log: seq<Entry>, k: CounterKey): Option<Counter> {
    if log == [] then None else RequestsAfter(RequestsOf(log[..|log| - 1], k), log[|log| - 1], k)
  }

  function CodeStored(c: Cache, key: Key): Option<Current> {
    if key !in c.codes then None
    else Some(Current(c.codes[key].code, c.codes[key].id, c.codes[key].deadline - CODE_LIFETIME, c.codes[key].errors))
  }

  ghost predicate CodesMatch(c: Cache, log: seq<Entry>) {
    && (forall key :: CodeStored(c, key) == CodeOf(log, key))
    && (forall key :: LastIssue(log, key) == if key in c.cooldowns then Some(c.cooldowns[key] - COOLDOWN) else None)
  }

  ghost predicate CountersMatch(c: Cache, log: seq<Entry>) {
    forall k :: RequestsOf(log, k) == if k in c.counters then Some(c.counters[k]) else None
  }

  ghost predicate IsHistory(s: System) {
    CodesMatch(s.cache, s.log) && CountersMatch(s.cache, s.log)
  }

  lemma HistoryOfMore(log: seq<Entry>, entry: Entry)
    ensures forall key :: CodeOf(log + [entry], key) == CodeAfter(CodeOf(log, key), entry, key)
    ensures forall key :: LastIssue(log + [entry], key) == if entry.Issue? && entry.key == key then Some(entry.at) else LastIssue(log, key)
    ensures forall k :: RequestsOf(log + [entry], k) == RequestsAfter(RequestsOf(log, k), entry, k)
  {
    assert (log + [entry])[..|log|] == log;
  }

  lemma IssueMatchesCounters(c: Cache, log: seq<Entry>, key: Key, ip: string, code: string, id: nat, entry: Entry)
    requires CountersMatch(c, log) && entry.key == key && (entry.Issue? || entry.Refusal?) && entry.ip == ip
    ensures CountersMatch(Issued(c, key, ip, code, id, entry.at).1, log + [entry])
  {
    var c', email, address := Issued(c, key, ip, code, id, entry.at).1, PerEmail(key.email), PerIp(ip);
    assert c'.counters == c.counters[email := Incremented(c, email, entry.at)][address := Incremented(c, address, entry.at)];
    HistoryOfMore(log, entry);
    forall k ensures RequestsOf(log + [entry], k) == if k in c'.counters then Some(c'.counters[k]) else None {
      assert RequestsOf(log, k) == if k in c.counters then Some(c.counters[k]) else None;
    }
  }

  lemma IssueMatchesCodes(c: Cache, log: seq<Entry>, key: Key, ip: string, code: string, id: nat, entry: Entry)
    requires CodesMatch(c, log) && entry.key == key && (entry.Issue? || entry.Refusal?)
    requires entry.Issue? <==> Issued(c, key, ip, code, id, entry.at).0 == 0
    requires entry.Issue? ==> entry.code == code && entry.id == id
    ensures CodesMatch(Issued(c, key, ip, code, id, entry.at).1, log + [entry])
  {
    HistoryOfMore(log, entry);
  }

  lemma IssueIsHistory(s: System, e: Event)
    requires IsHistory(s) && e.IssueCode?
    ensures IsHistory(Step(s, e))
  {
    if e.newId !in s.used {
      var entry := Step(s, e).log[|s.log|];
      IssueMatchesCounters(s.cache, s.log, e.issueKey, e.ip, e.newCode, e.newId, entry);
      IssueMatchesCodes(s.cache, s.log, e.issueKey, e.ip, e.newCode, e.newId, entry);
    }
  }

  lemma VerifyIsHistory(s: System, e: Event)
    requires IsHistory(s) && (e.VerifyCode? || e.ConsumeReceipt?)
    ensures IsHistory(Step(s, e))
  {
    var s' := Step(s, e);
    if |s'.log| > |s.log| {
      HistoryOfMore(s.log, s'.log[|s.log|]);
    } else {
      assert s'.log == s.log;
    }
  }

  /** Codes, cooldowns and counters are just what the log says. */
  lemma {:induction false} CacheIsHistory(start: Time, events: seq<Event>)
    ensures IsHistory(Run(Initial(start), events))
  {
    if events != [] {
      var before, e := Run(Initial(start), events[..|events| - 1]), events[|events| - 1];
      CacheIsHistory(start, events[..|events| - 1]);
      if e.IssueCode? {
        IssueIsHistory(before, e);
      } else if !e.Tick? {
        VerifyIsHistory(before, e);
      }
    }
  }

  /** The key's code can still be answered. */
  predicate Answerable(cur: Option<Current>, now: Time) {
    cur.Some? && now <= cur.value.at + 600_000 && cur.value.mismatches < 5
  }

  /** A guess is answered exactly when it is the code of the latest issue, while that lives
      and fewer than five guesses were wrong; while it lives, any other guess is counted. */
  lemma GuessIsAnsweredExactly(start: Time, events: seq<Event>, key: Key, guess: string, consume: bool)
    ensures var s := Run(Initial(start), events);
            var cur := CodeOf(s.log, key);
            Step(s, VerifyCode(key, guess, consume)).log ==
            s.log + if !Answerable(cur, s.now) then []
                    else if guess != cur.value.code then [Mismatch(key, guess)]
                    else if consume then [Acceptance(key, cur.value.id, guess)]
                    else [Answer(key, cur.value.id, guess)]
  {
    CacheIsHistory(start, events);
    var s := Run(Initial(start), events);
    assert CodeStored(s.cache, key) == CodeOf(s.log, key);
  }

  /** The guess of an entry was the code its key had then, or, for a mismatch, was not. */
  ghost predicate GuessRight(log: seq<Entry>, i: nat)
    requires i < |log|
  {
    var cur := CodeOf(log[..i], log[i].key);
    match log[i]
    case Acceptance(_, id, guess) => cur.Some? && cur.value.code == guess && cur.value.id == id
    case Answer(_, id, guess) => cur.Some? && cur.value.code == guess && cur.value.id == id
    case Mismatch(_, guess) => cur.Some? && cur.value.code != guess && cur.value.mismatches < 5
    case _ => true
  }

  lemma GuessesStayRight(log: seq<Entry>, entry: Entry)
    requires forall i :: 0 <= i < |log| ==> GuessRight(log, i)
    requires GuessRight(log + [entry], |log|)
    ensures forall i :: 0 <= i < |log| + 1 ==> GuessRight(log + [entry], i)
  {
    forall i | 0 <= i < |log| ensures GuessRight(log + [entry], i) {
      assert (log + [entry])[..i] == log[..i];
      assert GuessRight(log, i);
    }
  }

  /** Every guess that was ever accepted, answered or counted as wrong was so rightly. */
  lemma {:induction false} GuessesAreRight(start: Time, events: seq<Event>)
    ensures var log := Run(Initial(start), events).log;
            forall i :: 0 <= i < |log| ==> GuessRight(log, i)
  {
    if events != [] {
      var before, e := Run(Initial(start), events[..|events| - 1]), events[|events| - 1];
      GuessesAreRight(start, events[..|events| - 1]);
      var log := Run(Initial(start), events).log;
      if e.VerifyCode? {
        GuessIsAnsweredExactly(start, events[..|events| - 1], e.verifyKey, e.guess, e.consume);
      }
      if log != before.log {
        assert log[..|before.log|] == before.log;
        assert log == before.log + [log[|before.log|]];
        GuessesStayRight(before.log, log[|before.log|]);
      }
    }
  }

  /** A receipt removes a code exactly while the code lives and is the receipt's. */
  lemma ReceiptRemovesExactly(start: Time, events: seq<Event>, key: Key, id: nat)
    ensures var s := Run(Initial(start), events);
            var cur := CodeOf(s.log, key);
            Step(s, ConsumeReceipt(key, id)).log ==
            s.log + if cur.Some? && s.now <= cur.value.at + 600_000 && cur.value.id == id then [Removal(key, id)] else []
  {
    CacheIsHistory(start, events);
    var s := Run(Initial(start), events);
    assert CodeStored(s.cache, key) == CodeOf(s.log, key);
  }

  /** The counter with one more request. */
  function OneMore(before: Option<Counter>, now: Time): Counter {
    if before.Some? && now <= before.value.deadline then before.value.(count := before.value.count + 1) else Counter(1, now + 3_600_000)
  }

  /** A request gets its code exactly when both hourly counts have room for it and a minute
      has passed since the key's last issue. */
  lemma RequestIsGrantedExactly(start: Time, events: seq<Event>, key: Key, ip: string, code: string, id: nat)
    requires id !in Run(Initial(start), events).used
    ensures var s := Run(Initial(start), events);
            var last := LastIssue(s.log, key);
            Step(s, IssueCode(key, ip, code, id)).log[|s.log|].Issue? <==>
            && HasRoom(PerEmail(key.email), OneMore(RequestsOf(s.log, PerEmail(key.email)), s.now), s.now)
            && HasRoom(PerIp(ip), OneMore(RequestsOf(s.log, PerIp(ip)), s.now), s.now)
            && (last.Some? ==> s.now - last.value >= 60_000)
  {
    CacheIsHistory(start, events);
    var s := Run(Initial(start), events);
    GrantedExactly(s, key, ip, code, id);
  }

  lemma GrantedExactly(s: System, key: Key, ip: string, code: string, id: nat)
    requires IsHistory(s) && id !in s.used
    ensures var last := LastIssue(s.log, key);
            Step(s, IssueCode(key, ip, code, id)).log[|s.log|].Issue? <==>
            && HasRoom(PerEmail(key.email), OneMore(RequestsOf(s.log, PerEmail(key.email)), s.now), s.now)
            && HasRoom(PerIp(ip), OneMore(RequestsOf(s.log, PerIp(ip)), s.now), s.now)
            && (last.Some? ==> s.now - last.value >= 60_000)
  {
    IssueGoesThroughExactly(s.cache, key, ip, code, id, s.now);
    assert LastIssue(s.log, key) == if key in s.cache.cooldowns then Some(s.cache.cooldowns[key] - COOLDOWN) else None;
    assert OneMore(RequestsOf(s.log, PerEmail(key.email)), s.now) == Incremented(s.cache, PerEmail(key.email), s.now);
    assert OneMore(RequestsOf(s.log, PerIp(ip)), s.now) == Incremented(s.cache, PerIp(ip), s.now);
  }

  // ----- The last millisecond of an hour -----

  const PACE := 360 * SECOND

  /** n codes for a key, six minutes apart. */
  function Issues(key: Key, ip: string, n: nat): seq<Event> {
    if n == 0 then [] else Issues(key, ip, n - 1) + [IssueCode(key, ip, "", n - 1)] + [Tick(PACE)]
  }

  lemma RunOfMore(s: System, events: seq<Event>, e: Event)
    ensures Run(s, events + [e]) == Step(Run(s, events), e)
  {
    assert (events + [e])[..|events|] == events;
  }

  /** All n went through, and both counters count them in the hour of the first. */
  ghost predicate AfterIssues(s: System, key: Key, ip: string, start: Time, n: nat) {
    && s.now == start + n * PACE && |s.log| == n && (forall id :: id in s.used ==> id < n)
    && (forall i :: 0 <= i < n ==> s.log[i] == Issue(key, i, "", ip, start + i * PACE, start, start))
    && s.cache.counters == (if n == 0 then map[] else map[PerEmail(key.email) := Counter(n, start + HOUR), PerIp(ip) := Counter(n, start + HOUR)])
    && (key in s.cache.cooldowns ==> s.cache.cooldowns[key] <= s.now)
  }

  lemma NextIssue(s: System, key: Key, ip: string, start: Time, n: nat)
    requires AfterIssues(s, key, ip, start, n) && n < 10
    ensures AfterIssues(Step(Step(s, IssueCode(key, ip, "", n)), Tick(PACE)), key, ip, start, n + 1)
  {
    IssueGoesThroughExactly(s.cache, key, ip, "", n, s.now);
  }

  lemma {:induction false} TenIssues(key: Key, ip: string, start: Time, n: nat)
    requires n <= 10
    ensures AfterIssues(Run(Initial(start), Issues(key, ip, n)), key, ip, start, n)
  {
    if n > 0 {
      TenIssues(key, ip, start, n - 1);
      var before := Issues(key, ip, n - 1);
      RunOfMore(Initial(start), before, IssueCode(key, ip, "", n - 1));
      RunOfMore(Initial(start), before + [IssueCode(key, ip, "", n - 1)], Tick(PACE));
      NextIssue(Run(Initial(start), before), key, ip, start, n - 1);
    }
  }

  /** An eleventh code for the address goes out one hour after the first, while its counter
      is still there: the limit does not hold of [start, start + one hour]. */
  lemma EleventhIssueAtTheDeadline(key: Key, ip: string, start: Time)
    ensures var s := Run(Initial(start), Issues(key, ip, 10) + [IssueCode(key, ip, "", 10)]);
            && |s.log| == 11 && s.now == start + HOUR
            && (forall i :: 0 <= i < 11 ==> s.log[i].Issue? && s.log[i].key == key && s.log[i].window == start <= s.log[i].at <= start + HOUR)
            && PerEmail(key.email) in s.cache.counters && s.cache.counters[PerEmail(key.email)] == Counter(11, start + HOUR)
  {
    TenIssues(key, ip, start, 10);
    RunOfMore(Initial(start), Issues(key, ip, 10), IssueCode(key, ip, "", 10));
    var s := Run(Initial(start), Issues(key, ip, 10));
    IssueGoesThroughExactly(s.cache, key, ip, "", 10, s.now);
  }

  /** In every run, cleaning up with a receipt removes a code only if it is the
      receipt's own and no code of the key was issued since. */
  lemma CleanupSparesNewerCode(start: Time, events: seq<Event>, key: Key, id: nat)
    requires var s := Run(Initial(start), events);
             Step(s, ConsumeReceipt(key, id)) != s
    ensures var s := Run(Initial(start), events);
            && (exists i :: IsLatestIssue(s.log, i, key, id))
            && Step(s, ConsumeReceipt(key, id)).cache == s.cache.(codes := s.cache.codes - {key})
  {
    RunKeepsInv(start, events);
  }
}
