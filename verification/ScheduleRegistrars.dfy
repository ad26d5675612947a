/** pkg/platform/scheduler/asynq.go: the registrar keeps a cache of the entries it
    registered and brings the live scheduler in line with a list of schedules, although
    any call to the scheduler may fail. */
module ScheduleRegistrars {
  import opened Common

  type ScheduleId = string
  type EntryId = nat

  /** Raw JSON up to formatting, or bytes that do not marshal. */
  datatype Payload = Json(canonical: string) | Malformed

  datatype Schedule = Schedule(
    id: ScheduleId,
    definitionId: string,
    cron: string,
    timezone: string,
    payload: Payload,
    enabled: bool,
    taskType: string,
    maxRetries: int,
    timeout: int)

  /** The digest is injective on the encoded fields, so those stand for it. */
  datatype Fingerprint = Fingerprint(
    definitionId: string, cron: string, timezone: string, payload: string, taskType: string, maxRetries: int, timeout: int)

  function FingerprintOf(s: Schedule): Option<Fingerprint> {
    if s.payload.Malformed? then None
    else Some(Fingerprint(s.definitionId, s.cron, s.timezone, s.payload.canonical, s.taskType, s.maxRetries, s.timeout))
  }

  function Spec(cron: string, timezone: string): string {
    if timezone == "" then cron else "CRON_TZ=" + timezone + " " + cron
  }

  /** The schedules that have a live entry. */
  ghost function Owners(live: map<EntryId, Registration>): set<ScheduleId> {
    set e | e in live :: live[e].owner
  }

  /** What a live entry runs, when, and on whose behalf it was registered. */
  datatype Registration = Registration(owner: ScheduleId, spec: string, content: Fingerprint)

  /** The scheduler behind the registrar. Its k-th call fails when `fails(k)` says so; a
      call that fails changes nothing. */
  class PeriodicScheduler {
    const fails: nat -> bool
    var live: map<EntryId, Registration>
    var handedOut: nat
    var calls: nat
    /** Of the schedules being watched, those that had a live entry after every call. */
    ghost var steady: set<ScheduleId>

    ghost predicate Valid()
      reads this
    {
      forall e :: e in live ==> e < handedOut
    }

    ghost method Watch(ids: set<ScheduleId>)
      requires Valid()
      modifies this`steady
      ensures Valid() && steady == ids
    {
      steady := ids;
    }

    constructor (fails: nat -> bool)
      ensures Valid() && live == map[] && this.fails == fails
    {
      this.fails, live, handedOut, calls, steady := fails, map[], 0, 0, {};
    }

    method Register(registration: Registration) returns (entry: Option<EntryId>)
      requires Valid()
      modifies this
      ensures Valid() && calls == old(calls) + 1 && steady == old(steady) * Owners(live)
      ensures entry.None? <==> fails(old(calls))
      ensures entry.None? ==> live == old(live)
      ensures entry.Some? ==> entry.value !in old(live) && live == old(live)[entry.value := registration]
    {
      calls := calls + 1;
      if fails(calls - 1) {
        steady := steady * Owners(live);
        return None;
      }
      entry := Some(handedOut);
      live := live[handedOut := registration];
      handedOut := handedOut + 1;
      steady := steady * Owners(live);
    }

    method Unregister(entry: EntryId) returns (ok: bool)
      requires Valid()
      modifies this
      ensures Valid() && calls == old(calls) + 1 && steady == old(steady) * Owners(live)
      ensures ok <==> !fails(old(calls))
      ensures live == if ok then old(live) - {entry} else old(live)
    {
      calls := calls + 1;
      ok := !fails(calls - 1);
      if ok {
        live := live - {entry};
      }
      steady := steady * Owners(live);
    }
  }

  datatype Entry = Entry(entryId: EntryId, fingerprint: Fingerprint)

  datatype Result =
    | Ok
    | ContextError
    | FingerprintError(id: ScheduleId)
    | FactoryError(id: ScheduleId)
    | RegisterError(id: ScheduleId)
    | UnregisterReplacedError(id: ScheduleId)
    | UnregisterRemovedError(id: ScheduleId)

  function EnabledIds(schedules: seq<Schedule>): set<ScheduleId> {
    if schedules == [] then {}
    else
      var last := schedules[|schedules| - 1];
      EnabledIds(schedules[..|schedules| - 1]) + if last.enabled then {last.id} else {}
  }

  lemma {:induction false} EnabledIdsAreComplete(schedules: seq<Schedule>, id: ScheduleId)
    ensures id in EnabledIds(schedules) <==> exists s :: s in schedules && s.enabled && s.id == id
  {
    if schedules != [] {
      var rest, last := schedules[..|schedules| - 1], schedules[|schedules| - 1];
      assert schedules == rest + [last];
      EnabledIdsAreComplete(rest, id);
    }
  }

  /** The fingerprint an ID should end up with: that of its last enabled schedule. */
  function LastFingerprint(schedules: seq<Schedule>, id: ScheduleId): Option<Fingerprint> {
    if schedules == [] then None
    else
      var last := schedules[|schedules| - 1];
      if last.enabled && last.id == id then FingerprintOf(last) else LastFingerprint(schedules[..|schedules| - 1], id)
  }

  /** The cache has, for every one of these schedules that is enabled, its fingerprint. */
  ghost predicate Matches(entries: map<ScheduleId, Entry>, schedules: seq<Schedule>) {
    forall s :: s in schedules && s.enabled ==>
      s.id in entries && FingerprintOf(s) == Some(entries[s.id].fingerprint)
  }

  /** The cache already says what the schedules say. */
  ghost predicate Settled(entries: map<ScheduleId, Entry>, schedules: seq<Schedule>) {
    entries.Keys == EnabledIds(schedules) && Matches(entries, schedules)
  }

  /** No two enabled schedules with one ID ask for different things. */
  ghost predicate Consistent(schedules: seq<Schedule>) {
    forall s, t :: s in schedules && t in schedules && s.enabled && t.enabled && s.id == t.id ==>
      FingerprintOf(s) == FingerprintOf(t)
  }

  lemma EnabledIdsOfMore(schedules: seq<Schedule>, s: Schedule)
    ensures EnabledIds(schedules + [s]) == EnabledIds(schedules) + if s.enabled then {s.id} else {}
  {
  }

  lemma {:induction false} LastFingerprintWhenConsistent(schedules: seq<Schedule>, s: Schedule)
    requires Consistent(schedules) && s in schedules && s.enabled
    ensures LastFingerprint(schedules, s.id) == FingerprintOf(s)
  {
    var last := schedules[|schedules| - 1];
    if !(last.enabled && last.id == s.id) {
      var rest := schedules[..|schedules| - 1];
      assert schedules == rest + [last];
      assert s in rest;
      LastFingerprintWhenConsistent(rest, s);
    }
  }

  ghost function EntryIds(entries: map<ScheduleId, Entry>): set<EntryId> {
    set id | id in entries :: entries[id].entryId
  }

  /** The cached entries are distinct, and together with what leaked they are exactly
      the live ones, each doing what its schedule asked for. */
  ghost predicate Agrees(live: map<EntryId, Registration>, entries: map<ScheduleId, Entry>, leaked: set<EntryId>) {
    && (forall id :: id in entries ==>
          var f := entries[id].fingerprint;
          && entries[id].entryId in live
          && live[entries[id].entryId] == Registration(id, Spec(f.cron, f.timezone), f)
          && entries[id].entryId !in leaked)
    && (forall e :: e in live && e !in leaked ==>
          live[e].owner in entries && entries[live[e].owner].entryId == e)
    && leaked <= live.Keys
  }

  /** No two schedules share an entry, and as long as nothing leaked the live entries
      are exactly the cached ones. */
  lemma CacheIsExact(live: map<EntryId, Registration>, entries: map<ScheduleId, Entry>, leaked: set<EntryId>)
    requires Agrees(live, entries, leaked)
    ensures forall a, b :: a in entries && b in entries && a != b ==> entries[a].entryId != entries[b].entryId
    ensures live.Keys == EntryIds(entries) + leaked
  {
  }

  lemma InstalledAgrees(live: map<EntryId, Registration>, entries: map<ScheduleId, Entry>, leaked: set<EntryId>,
                        id: ScheduleId, e: EntryId, f: Fingerprint)
    requires Agrees(live, entries, leaked) && e !in live
    ensures var both := live[e := Registration(id, Spec(f.cron, f.timezone), f)];
            Agrees(if id in entries then both - {entries[id].entryId} else both, entries[id := Entry(e, f)], leaked)
  {
  }

  lemma LeakedAgrees(live: map<EntryId, Registration>, entries: map<ScheduleId, Entry>, leaked: set<EntryId>,
                     e: EntryId, registration: Registration)
    requires Agrees(live, entries, leaked) && e !in live
    ensures Agrees(live[e := registration], entries, leaked + {e})
  {
  }

  lemma RemovedAgrees(live: map<EntryId, Registration>, entries: map<ScheduleId, Entry>, leaked: set<EntryId>, id: ScheduleId)
    requires Agrees(live, entries, leaked) && id in entries
    ensures Agrees(live - {entries[id].entryId}, entries - {id}, leaked)
  {
  }

  /** Every cached schedule has a live entry. */
  lemma CachedIsLive(live: map<EntryId, Registration>, entries: map<ScheduleId, Entry>, leaked: set<EntryId>)
    requires Agrees(live, entries, leaked)
    ensures entries.Keys <= Owners(live)
  {
  }

  /** How the scheduler reads a specification: a time zone may stand in front of the cron
      expression, up to the first space. */
  function ReadSpec(spec: string): (string, string) {
    if TimezonePrefix <= spec then UpToSpace(spec[|TimezonePrefix|..]) else ("", spec)
  }

  const TimezonePrefix := "CRON_TZ="

  function UpToSpace(s: string): (string, string) {
    if s == "" then ("", "")
    else if s[0] == ' ' then ("", s[1..])
    else
      var rest := UpToSpace(s[1..]);
      ([s[0]] + rest.0, rest.1)
  }

  lemma {:induction false} UpToSpaceReads(zone: string, cron: string)
    ensures ' ' !in zone ==> UpToSpace(zone + " " + cron) == (zone, cron)
    ensures ' ' in zone ==> UpToSpace(zone + " " + cron).0 != zone
  {
    var s := zone + " " + cron;
    if zone == "" {
      assert s[1..] == cron;
    } else {
      assert s[1..] == zone[1..] + " " + cron;
      UpToSpaceReads(zone[1..], cron);
      assert zone == [zone[0]] + zone[1..];
      assert zone[0] != ' ' ==> (' ' in zone <==> ' ' in zone[1..]);
    }
  }

  lemma {:induction false} UpToSpaceShortens(s: string)
    ensures |UpToSpace(s).1| <= |s|
  {
    if s != "" {
      UpToSpaceShortens(s[1..]);
    }
  }

  /** A specification is one that the scheduler reads back as the schedule's own zone and
      expression. */
  predicate Readable(cron: string, timezone: string) {
    if timezone == "" then !(TimezonePrefix <= cron) else ' ' !in timezone
  }

  /** The scheduler reads what the registrar wrote exactly when the zone is a single word
      and an expression without one does not bring its own. */
  lemma SpecRoundTrip(cron: string, timezone: string)
    ensures ReadSpec(Spec(cron, timezone)) == (timezone, cron) <==> Readable(cron, timezone)
  {
    if timezone == "" {
      if TimezonePrefix <= cron {
        UpToSpaceShortens(cron[|TimezonePrefix|..]);
      }
    } else {
      assert Spec(cron, timezone)[|TimezonePrefix|..] == timezone + " " + cron;
      UpToSpaceReads(timezone, cron);
    }
  }

  /** A fingerprint tells schedules apart exactly by what they ask for. */
  lemma FingerprintsTellApart(s: Schedule, t: Schedule)
    requires s.payload.Json? && t.payload.Json?
    ensures FingerprintOf(s) == FingerprintOf(t) <==> t.(id := s.id, enabled := s.enabled) == s
  {
  }

  /** The registration does what the schedule asks for, when it asks for it. */
  ghost predicate Runs(registration: Registration, s: Schedule) {
    && registration.owner == s.id
    && (Readable(s.cron, s.timezone) ==> ReadSpec(registration.spec) == (s.timezone, s.cron))
    && s.payload == Json(registration.content.payload)
    && registration.content.definitionId == s.definitionId
    && registration.content.taskType == s.taskType
    && registration.content.maxRetries == s.maxRetries
    && registration.content.timeout == s.timeout
  }

  /** The k-th schedule is on, and none after it is on with the same ID. */
  ghost predicate HasLastWord(schedules: seq<Schedule>, k: nat) {
    && k < |schedules|
    && schedules[k].enabled
    && forall j :: k < j < |schedules| && schedules[j].enabled ==> schedules[j].id != schedules[k].id
  }

  /** Apart from what leaked, every schedule with the last word on its ID has one live
      entry, which runs it, and there are no other live entries. */
  ghost predicate Shows(live: map<EntryId, Registration>, leaked: set<EntryId>, schedules: seq<Schedule>) {
    && (forall k: nat :: HasLastWord(schedules, k) ==>
          exists e :: e in live && e !in leaked && Runs(live[e], schedules[k]))
    && (forall e :: e in live && e !in leaked ==>
          exists k: nat :: HasLastWord(schedules, k) && Runs(live[e], schedules[k]))
    && (forall d, e :: d in live && e in live && d !in leaked && e !in leaked && live[d].owner == live[e].owner ==> d == e)
  }

  lemma {:induction false} LastWordIsFingerprint(schedules: seq<Schedule>, id: ScheduleId)
    ensures forall k: nat :: HasLastWord(schedules, k) && schedules[k].id == id ==>
              LastFingerprint(schedules, id) == FingerprintOf(schedules[k])
    ensures id in EnabledIds(schedules) ==>
              exists k: nat :: HasLastWord(schedules, k) && schedules[k].id == id
  {
    if schedules != [] {
      var n := |schedules| - 1;
      var rest := schedules[..n];
      LastWordIsFingerprint(rest, id);
      if schedules[n].enabled && schedules[n].id == id {
        assert HasLastWord(schedules, n);
      } else {
        assert forall k: nat :: k < n && schedules[k].id == id ==> (HasLastWord(schedules, k) <==> HasLastWord(rest, k));
      }
    }
  }

  /** A cache with the last word on every enabled ID shows in the live entries. */
  lemma CacheShows(live: map<EntryId, Registration>, entries: map<ScheduleId, Entry>, leaked: set<EntryId>,
                   schedules: seq<Schedule>)
    requires Agrees(live, entries, leaked) && entries.Keys == EnabledIds(schedules)
    requires forall id :: id in entries ==> LastFingerprint(schedules, id) == Some(entries[id].fingerprint)
    ensures Shows(live, leaked, schedules)
  {
    forall k: nat | HasLastWord(schedules, k)
      ensures exists e :: e in live && e !in leaked && Runs(live[e], schedules[k])
    {
      var s := schedules[k];
      EnabledIdsAreComplete(schedules, s.id);
      LastWordIsFingerprint(schedules, s.id);
      SpecRoundTrip(s.cron, s.timezone);
      assert Runs(live[entries[s.id].entryId], s);
    }
    forall e | e in live && e !in leaked
      ensures exists k: nat :: HasLastWord(schedules, k) && Runs(live[e], schedules[k])
    {
      var id := live[e].owner;
      LastWordIsFingerprint(schedules, id);
      var k: nat :| HasLastWord(schedules, k) && schedules[k].id == id;
      SpecRoundTrip(schedules[k].cron, schedules[k].timezone);
      assert Runs(live[e], schedules[k]);
    }
  }

  class AsynqRegistrar {
    const scheduler: PeriodicScheduler
    var entries: map<ScheduleId, Entry>
    /** Entries left behind because unregistering them as a rollback failed. */
    ghost var leaked: set<EntryId>

    ghost predicate Valid()
      reads this, scheduler
    {
      scheduler.Valid() && Agrees(scheduler.live, entries, leaked)
    }

    constructor (scheduler: PeriodicScheduler)
      requires scheduler.Valid() && scheduler.live == map[]
      ensures Valid() && this.scheduler == scheduler && entries == map[] && leaked == {}
    {
      this.scheduler, entries, leaked := scheduler, map[], {};
    }

    /** Unregister the entry that `e` replaces; if that fails, try to take `e` back. */
    method Retire(replaced: EntryId, e: EntryId, ghost before: map<EntryId, Registration>, ghost registration: Registration)
      returns (ok: bool)
      requires scheduler.Valid() && Agrees(before, entries, leaked) && e !in before
      requires scheduler.live == before[e := registration]
      requires replaced in before && before[replaced].owner == registration.owner
      modifies this`leaked, scheduler
      ensures scheduler.Valid() && scheduler.calls > old(scheduler.calls)
      ensures ok ==> scheduler.live == before[e := registration] - {replaced} && leaked == old(leaked)
      ensures !ok ==> Agrees(scheduler.live, entries, leaked)
      ensures leaked != old(leaked) ==> !ok && LastCallFailed()
      ensures old(scheduler.steady) * entries.Keys <= scheduler.steady
    {
      CachedIsLive(before, entries, leaked);
      LeakedAgrees(before, entries, leaked, e, registration);
      ghost var both := scheduler.live;
      OwnersKept(before, both, e, replaced, registration);
      ok := scheduler.Unregister(replaced);
      if !ok {
        var undone := scheduler.Unregister(e);
        assert both - {e} == before;
        if !undone {
          leaked := leaked + {e};
        }
      }
    }

    ghost predicate LastCallFailed()
      reads this, scheduler
    {
      scheduler.calls > 0 && scheduler.fails(scheduler.calls - 1)
    }

    /** Register the new entry first, and retire the one it replaces only then. */
    method Install(schedule: Schedule, fingerprint: Fingerprint) returns (r: Result)
      requires Valid() && FingerprintOf(schedule) == Some(fingerprint)
      modifies this, scheduler
      ensures Valid() && old(scheduler.calls) < scheduler.calls
      ensures r in {Ok, RegisterError(schedule.id), UnregisterReplacedError(schedule.id)}
      ensures r != Ok ==> entries == old(entries)
      ensures r == Ok ==> schedule.id in entries && entries[schedule.id].fingerprint == fingerprint
                          && entries == old(entries)[schedule.id := entries[schedule.id]]
      ensures leaked != old(leaked) ==> r == UnregisterReplacedError(schedule.id) && LastCallFailed()
      ensures old(scheduler.steady) * old(entries).Keys <= scheduler.steady
    {
      ghost var before := scheduler.live;
      CachedIsLive(before, entries, leaked);
      var registration := Registration(schedule.id, Spec(fingerprint.cron, fingerprint.timezone), fingerprint);
      var entry := scheduler.Register(registration);
      if entry.None? {
        return RegisterError(schedule.id);
      }
      var e := entry.value;
      OwnersGrow(before, e, registration);
      InstalledAgrees(before, entries, leaked, schedule.id, e, fingerprint);
      if schedule.id in entries {
        var retired := Retire(entries[schedule.id].entryId, e, before, registration);
        if !retired {
          return UnregisterReplacedError(schedule.id);
        }
      }
      entries := entries[schedule.id := Entry(e, fingerprint)];
      return Ok;
    }

    /** Removing a schedule touches no other schedule's entry. */
    method Remove(id: ScheduleId) returns (r: Result)
      requires Valid() && id in entries
      modifies this, scheduler
      ensures Valid() && old(scheduler.calls) < scheduler.calls && leaked == old(leaked)
      ensures r in {Ok, UnregisterRemovedError(id)}
      ensures entries == if r == Ok then old(entries) - {id} else old(entries)
      ensures old(scheduler.steady) * (old(entries).Keys - {id}) <= scheduler.steady
    {
      RemovedAgrees(scheduler.live, entries, leaked, id);
      CachedIsLive(scheduler.live, entries, leaked);
      CachedIsLive(scheduler.live - {entries[id].entryId}, entries - {id}, leaked);
      var ok := scheduler.Unregister(entries[id].entryId);
      if !ok {
        return UnregisterRemovedError(id);
      }
      entries := entries - {id};
      return Ok;
    }

    /** Where the first loop stands: the seen schedules are in, and there have been no
        calls exactly when the cache matched them all from the start. */
    ghost predicate Progress(before: map<ScheduleId, Entry>, start: nat, seen: seq<Schedule>)
      reads this, scheduler
    {
      && Reconciled(before, entries, seen)
      && start <= scheduler.calls
      && (scheduler.calls == start <==> Matches(before, seen))
      && (scheduler.calls == start ==> entries == before)
    }

    /** The body of the first loop: a schedule that matches the cache needs no call. The
        ghost arguments say where the loop stands: the cache and the number of calls at
        its start, and the schedules it has seen. */
    method RegisterOne(schedule: Schedule, done: bool, broken: bool,
                       ghost before: map<ScheduleId, Entry>, ghost start: nat, ghost seen: seq<Schedule>)
      returns (r: Result)
      requires Valid() && Progress(before, start, seen)
      modifies this, scheduler
      ensures Valid()
      ensures leaked != old(leaked) ==> r.UnregisterReplacedError? && LastCallFailed()
      ensures old(scheduler.steady) * before.Keys <= scheduler.steady
      ensures r == Ok ==> Progress(before, start, seen + [schedule])
      ensures r != Ok && r != ContextError ==> !Matches(before, seen + [schedule])
      ensures r == ContextError ==> scheduler.calls == old(scheduler.calls)
      ensures scheduler.calls == start ==> entries == before
    {
      MatchesMore(before, seen, schedule);
      ReconciledMore(before, entries, seen, schedule);
      if !schedule.enabled {
        return Ok;
      }
      if done {
        return ContextError;
      }
      var fingerprint := FingerprintOf(schedule);
      if fingerprint.None? {
        return FingerprintError(schedule.id);
      }
      if schedule.id in entries && entries[schedule.id].fingerprint == fingerprint.value {
        return Ok;
      }
      if broken {
        return FactoryError(schedule.id);
      }
      r := Install(schedule, fingerprint.value);
    }

    /** The first loop: bring in every enabled schedule that is new or has changed. */
    method RegisterAll(schedules: seq<Schedule>, done: nat -> bool, broken: nat -> bool)
      returns (r: Result, desired: set<ScheduleId>, looks: nat)
      requires Valid()
      modifies this, scheduler
      ensures Valid()
      ensures leaked != old(leaked) ==> r.UnregisterReplacedError? && LastCallFailed()
      ensures old(scheduler.steady) * old(entries).Keys <= scheduler.steady
      ensures r == Ok ==> desired == EnabledIds(schedules) && Progress(old(entries), old(scheduler.calls), schedules)
      ensures scheduler.calls == old(scheduler.calls) ==> entries == old(entries)
      ensures Matches(old(entries), schedules) ==> r in {Ok, ContextError} && scheduler.calls == old(scheduler.calls)
    {
      ghost var before, start, seen := entries, scheduler.calls, [];
      desired, looks, r := {}, 0, Ok;
      for i := 0 to |schedules|
        invariant Valid() && leaked == old(leaked) && r == Ok
        invariant seen == schedules[..i]
        invariant old(scheduler.steady) * before.Keys <= scheduler.steady
        invariant desired == EnabledIds(seen)
        invariant Progress(before, start, seen)
      {
        var schedule := schedules[i];
        assert schedules[..i + 1] == seen + [schedule];
        EnabledIdsOfMore(seen, schedule);
        if schedule.enabled {
          looks, desired := looks + 1, desired + {schedule.id};
        }
        r := RegisterOne(schedule, looks > 0 && done(looks - 1), broken(i), before, start, seen);
        if r != Ok {
          MatchesPrefix(before, schedules, i);
          MatchesPrefix(before, schedules, i + 1);
          return;
        }
        seen := seen + [schedule];
      }
      assert schedules[..|schedules|] == schedules;
    }

    /** The second loop: unregister what is no longer wanted. */
    method RemoveOthers(desired: set<ScheduleId>, done: nat -> bool, before: nat) returns (r: Result)
      requires Valid() && desired <= entries.Keys
      modifies this, scheduler
      ensures Valid() && leaked == old(leaked)
      ensures r in {Ok, ContextError} || r.UnregisterRemovedError?
      ensures old(scheduler.calls) <= scheduler.calls
      ensures old(scheduler.steady) * desired <= scheduler.steady
      ensures forall id :: id in desired ==> id in entries && entries[id] == old(entries)[id]
      ensures r == Ok ==> entries.Keys == desired
      ensures r == Ok ==> (scheduler.calls == old(scheduler.calls) <==> old(entries).Keys == desired)
      ensures old(entries).Keys == desired ==> r == Ok && entries == old(entries) && scheduler.calls == old(scheduler.calls)
    {
      var looks := before;
      var remaining := entries.Keys - desired;
      while remaining != {}
        invariant Valid() && leaked == old(leaked)
        invariant old(scheduler.calls) <= scheduler.calls
        invariant old(scheduler.steady) * desired <= scheduler.steady
        invariant remaining == entries.Keys - desired && desired <= entries.Keys
        invariant forall id :: id in desired ==> id in old(entries) && entries[id] == old(entries)[id]
        invariant scheduler.calls == old(scheduler.calls) ==> entries == old(entries)
        invariant old(entries).Keys == desired ==> scheduler.calls == old(scheduler.calls)
      {
        var id :| id in remaining;
        looks := looks + 1;
        if done(looks - 1) {
          return ContextError;
        }
        var removed := Remove(id);
        if removed != Ok {
          return removed;
        }
        remaining := remaining - {id};
      }
      assert entries.Keys == (entries.Keys - desired) + desired;
      return Ok;
    }

    /** The context may be done at the k-th time it is looked at (`done`), and building
        the task of the k-th schedule may fail (`broken`). Whatever fails, the cache
        agrees with the live scheduler, up to an entry whose rollback failed too, and no
        schedule that stays was without a live entry after any call. Success leaves
        exactly the enabled schedules, running as they say; doing it again makes no calls, unless two
        schedules with one ID contradict each other. */
    method Replace(schedules: seq<Schedule>, done: nat -> bool, broken: nat -> bool) returns (r: Result)
      requires Valid()
      modifies this, scheduler
      ensures Valid()
      ensures leaked != old(leaked) ==> r.UnregisterReplacedError? && LastCallFailed()
      ensures old(entries).Keys * EnabledIds(schedules) <= scheduler.steady
      ensures r == Ok ==> Shows(scheduler.live, leaked, schedules)
      ensures r == Ok ==> entries.Keys == EnabledIds(schedules)
      ensures r == Ok ==> forall id :: id in entries ==> LastFingerprint(schedules, id) == Some(entries[id].fingerprint)
      ensures r == Ok ==> (Settled(entries, schedules) <==> Consistent(schedules))
      ensures r == Ok ==> (scheduler.calls == old(scheduler.calls) <==> Settled(old(entries), schedules))
      ensures Settled(old(entries), schedules) ==>
                r in {Ok, ContextError} && entries == old(entries) && scheduler.calls == old(scheduler.calls)
    {
      scheduler.Watch(entries.Keys * EnabledIds(schedules));
      var registered, desired, looks := RegisterAll(schedules, done, broken);
      if registered != Ok {
        return registered;
      }
      r := RemoveOthers(desired, done, looks);
      if r == Ok {
        SettledWhenConsistent(entries, schedules);
        CacheShows(scheduler.live, entries, leaked, schedules);
      }
    }
  }

  /** The cache after the first loop has seen these schedules. */
  ghost predicate Reconciled(before: map<ScheduleId, Entry>, entries: map<ScheduleId, Entry>, schedules: seq<Schedule>) {
    && entries.Keys == before.Keys + EnabledIds(schedules)
    && (forall id :: id in entries && id !in EnabledIds(schedules) ==> entries[id] == before[id])
    && (forall id :: id in EnabledIds(schedules) ==> LastFingerprint(schedules, id) == Some(entries[id].fingerprint))
  }

  /** A schedule that is off or already matches changes nothing; one that is installed
      becomes the last word on its ID. */
  lemma ReconciledMore(before: map<ScheduleId, Entry>, entries: map<ScheduleId, Entry>, schedules: seq<Schedule>, s: Schedule)
    requires Reconciled(before, entries, schedules)
    ensures !s.enabled || (s.id in entries && FingerprintOf(s) == Some(entries[s.id].fingerprint)) ==>
              Reconciled(before, entries, schedules + [s])
    ensures s.enabled ==>
              forall entry: Entry :: FingerprintOf(s) == Some(entry.fingerprint) ==>
                Reconciled(before, entries[s.id := entry], schedules + [s])
  {
  }

  lemma MatchesMore(entries: map<ScheduleId, Entry>, schedules: seq<Schedule>, s: Schedule)
    ensures Matches(entries, schedules + [s]) <==>
              Matches(entries, schedules) &&
              (s.enabled ==> s.id in entries && FingerprintOf(s) == Some(entries[s.id].fingerprint))
  {
  }

  lemma MatchesPrefix(entries: map<ScheduleId, Entry>, schedules: seq<Schedule>, i: nat)
    requires i <= |schedules|
    ensures Matches(entries, schedules) ==> Matches(entries, schedules[..i])
  {
  }

  lemma SettledWhenConsistent(entries: map<ScheduleId, Entry>, schedules: seq<Schedule>)
    requires entries.Keys == EnabledIds(schedules)
    requires forall id :: id in entries ==> LastFingerprint(schedules, id) == Some(entries[id].fingerprint)
    ensures Settled(entries, schedules) <==> Consistent(schedules)
  {
    if Consistent(schedules) {
      forall s | s in schedules && s.enabled
        ensures s.id in entries && FingerprintOf(s) == Some(entries[s.id].fingerprint)
      {
        EnabledIdsAreComplete(schedules, s.id);
        LastFingerprintWhenConsistent(schedules, s);
      }
    }
  }

  lemma OwnersGrow(before: map<EntryId, Registration>, e: EntryId, registration: Registration)
    requires e !in before
    ensures Owners(before) <= Owners(before[e := registration])
  {
    var after := before[e := registration];
    forall id | id in Owners(before) ensures id in Owners(after) {
      var x :| x in before && before[x].owner == id;
      assert x in after && after[x].owner == id;
    }
  }

  /** With the new entry in place, the old one can go without leaving its schedule bare. */
  lemma OwnersKept(before: map<EntryId, Registration>, both: map<EntryId, Registration>, e: EntryId,
                   replaced: EntryId, registration: Registration)
    requires e !in before && both == before[e := registration] && replaced in before
    requires before[replaced].owner == registration.owner
    ensures Owners(before) <= Owners(both - {replaced}) && Owners(before) <= Owners(both)
  {
    OwnersGrow(before, e, registration);
    var after := both - {replaced};
    assert e in after && after[e].owner == before[replaced].owner;
    forall id | id in Owners(before) ensures id in Owners(after) {
      var x :| x in before && before[x].owner == id;
      assert x != replaced ==> x in after && after[x].owner == id;
    }
  }
}
