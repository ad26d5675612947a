/** pkg/platform/resilience/breaker.go: the circuit breaker as an object, the state
    transformers its methods are proved against, and what holds over every run in
    which any number of operations are in flight at once. */
module CircuitBreakers {
  import opened Common

  /** `generation` is a uint64: it wraps at this value. */
  const GENERATIONS := 0x1_0000_0000_0000_0000
  const MAX_UINT32 := 0xffff_ffff

  datatype Phase = Closed | Open | HalfOpen

  datatype Config = Config(threshold: nat, timeout: Time)

  /** What NewCircuitBreaker accepts. */
  predicate ValidConfig(c: Config) {
    1 <= c.threshold <= MAX_UINT32 && c.timeout > 0
  }

  datatype Breaker = Breaker(phase: Phase, generation: nat, failures: nat, openedAt: Time, probing: bool)

  /** How an operation ended, as record sees it: an error that is the caller's own
      context error is a cancellation, and a panic is a failure. */
  datatype Outcome = Succeeded | CallerCancelled | Failed

  /** What is left of a count of generations in 64 bits. */
  function Stamp(epoch: nat): nat {
    epoch % GENERATIONS
  }

  function NextGeneration(generation: nat): nat {
    Stamp(generation + 1)
  }

  function Opened(b: Breaker, now: Time): Breaker {
    Breaker(Open, NextGeneration(b.generation), 0, now, false)
  }

  function Advanced(c: Config, b: Breaker, now: Time): Breaker {
    if b.phase.Open? && now - b.openedAt >= c.timeout
    then b.(phase := HalfOpen, generation := NextGeneration(b.generation), probing := false)
    else b
  }

  /** The breaker after acquire, and the generation it hands out, if it does. */
  function Acquired(c: Config, b: Breaker, now: Time): (Breaker, Option<nat>) {
    var a := Advanced(c, b, now);
    if a.phase.Open? || (a.phase.HalfOpen? && a.probing) then (a, None)
    else if a.phase.HalfOpen? then (a.(probing := true), Some(a.generation))
    else (a, Some(a.generation))
  }

  function Recorded(c: Config, b: Breaker, now: Time, generation: nat, outcome: Outcome): Breaker {
    if generation != b.generation then b
    else if b.phase.HalfOpen? then
      var released := b.(probing := false);
      match outcome
      case CallerCancelled => released
      case Succeeded => released.(phase := Closed, generation := NextGeneration(b.generation), failures := 0)
      case Failed => Opened(released, now)
    else
      match outcome
      case Succeeded => b.(failures := 0)
      case CallerCancelled => b
      case Failed =>
        var counted := b.(failures := b.failures + 1);
        if counted.failures >= c.threshold then Opened(counted, now) else counted
  }

  class CircuitBreaker {
    const config: Config
    var phase: Phase
    var generation: nat
    var failures: nat
    var openedAt: Time
    var probing: bool

    /** What every method keeps: the uint32 and uint64 fields stay in range. */
    ghost predicate Valid()
      reads this
    {
      && ValidConfig(config)
      && generation < GENERATIONS
      && failures < config.threshold
    }

    function View(): Breaker
      reads this
    {
      Breaker(phase, generation, failures, openedAt, probing)
    }

    constructor (threshold: nat, timeout: Time)
      requires ValidConfig(Config(threshold, timeout))
      ensures Valid() && config == Config(threshold, timeout) && View() == Breaker(Closed, 0, 0, 0, false)
    {
      config := Config(threshold, timeout);
      phase, generation, failures, openedAt, probing := Closed, 0, 0, 0, false;
    }

    method OpenNow(now: Time)
      requires ValidConfig(config) && generation < GENERATIONS
      modifies this
      ensures Valid() && View() == Opened(old(View()), now)
    {
      phase := Open;
      generation := NextGeneration(generation);
      failures := 0;
      openedAt := now;
      probing := false;
    }

    method AdvanceState(now: Time)
      requires Valid()
      modifies this
      ensures Valid() && View() == Advanced(config, old(View()), now)
    {
      if phase == Open && now - openedAt >= config.timeout {
        phase := HalfOpen;
        generation := NextGeneration(generation);
        probing := false;
      }
    }

    method State(now: Time) returns (current: Phase)
      requires Valid()
      modifies this
      ensures Valid() && View() == Advanced(config, old(View()), now) && current == phase
    {
      AdvanceState(now);
      current := phase;
    }

    method Acquire(now: Time) returns (admitted: Option<nat>)
      requires Valid()
      modifies this
      ensures Valid() && (View(), admitted) == Acquired(config, old(View()), now)
    {
      AdvanceState(now);
      if phase == Open {
        return None;
      }
      if phase == HalfOpen {
        if probing {
          return None;
        }
        probing := true;
      }
      return Some(generation);
    }

    method Record(now: Time, stamp: nat, outcome: Outcome)
      requires Valid()
      modifies this
      ensures Valid() && View() == Recorded(config, old(View()), now, stamp, outcome)
    {
      if stamp != generation {
        return;
      }
      if phase == HalfOpen {
        probing := false;
        if outcome == CallerCancelled {
          return;
        }
        if outcome == Succeeded {
          phase := Closed;
          generation := NextGeneration(generation);
          failures := 0;
          return;
        }
        OpenNow(now);
        return;
      }
      if outcome == Succeeded {
        failures := 0;
        return;
      }
      if outcome == CallerCancelled {
        return;
      }
      failures := failures + 1;
      if failures >= config.threshold {
        OpenNow(now);
      }
    }
  }

  // ----- Runs -----

  /** One entry per thing an observer of the breaker can see happen; an opening names the
      epoch it ends. */
  datatype Entry =
    | Admission(at: Time)
    | Opening(at: Time, epoch: nat)
    | Ending(at: Time, epoch: nat, outcome: Outcome)

  /** `epoch` counts the generation changes without wrapping; `running` holds, for
      every operation in flight, the epoch in which it was admitted. */
  datatype System = System(breaker: Breaker, epoch: nat, running: multiset<nat>, log: seq<Entry>, now: Time)

  datatype Event =
    | Tick(delay: nat)
    | Observe
    | Call
    | Finish(epoch: nat, outcome: Outcome)

  function Initial(start: Time): System {
    System(Breaker(Closed, 0, 0, 0, false), 0, multiset{}, [], start)
  }

  function EpochAfter(s: System, b: Breaker): nat {
    if b.generation == s.breaker.generation then s.epoch else s.epoch + 1
  }

  /** One locked section of the breaker, or the passing of time. An operation finishes
      with the generation it was admitted under, reduced to 64 bits. */
  function Step(c: Config, s: System, e: Event): System {
    match e
    case Tick(delay) => s.(now := s.now + delay)
    case Observe =>
      var b := Advanced(c, s.breaker, s.now);
      s.(breaker := b, epoch := EpochAfter(s, b))
    case Call =>
      var (b, admitted) := Acquired(c, s.breaker, s.now);
      var s' := s.(breaker := b, epoch := EpochAfter(s, b));
      if admitted.None? then s'
      else s'.(running := s.running + multiset{s'.epoch}, log := s.log + [Admission(s.now)])
    case Finish(epoch, outcome) =>
      if epoch !in s.running then s
      else
        var b := Recorded(c, s.breaker, s.now, Stamp(epoch), outcome);
        var opening := if b.phase.Open? && b.generation != s.breaker.generation then [Opening(s.now, s.epoch)] else [];
        System(b, EpochAfter(s, b), s.running - multiset{epoch},
               s.log + [Ending(s.now, epoch, outcome)] + opening, s.now)
  }

  function Run(c: Config, s: System, events: seq<Event>): System {
    if events == [] then s else Step(c, Run(c, s, events[..|events| - 1]), events[|events| - 1])
  }

  /** The reference for the failure counter: the failures of one generation since its
      last success, read off the log; cancellations by the caller do not count. */
  function Streak(log: seq<Entry>, epoch: nat): nat {
    if log == [] then 0
    else
      var before := Streak(log[..|log| - 1], epoch);
      match log[|log| - 1]
      case Ending(_, e, outcome) =>
        if e != epoch || outcome.CallerCancelled? then before
        else if outcome.Succeeded? then 0
        else before + 1
      case _ => before
  }

  /** No operation was admitted sooner than the timeout after any earlier opening. */
  ghost predicate CoolsDown(c: Config, log: seq<Entry>) {
    forall i, j :: 0 <= i < j < |log| && log[i].Opening? && log[j].Admission? ==> log[j].at - log[i].at >= c.timeout
  }

  /** The breaker opened only on a failure of an operation of the epoch it ended. */
  ghost predicate Justified(log: seq<Entry>) {
    forall i :: 0 <= i < |log| && log[i].Opening? ==> i > 0 && FailedIn(log[i - 1], log[i].epoch)
  }

  predicate FailedIn(entry: Entry, epoch: nat) {
    entry.Ending? && entry.epoch == epoch && entry.outcome.Failed?
  }

  /** What the breaker promises about the operations in flight and its counter. */
  ghost predicate Accurate(c: Config, s: System) {
    && (s.breaker.phase.HalfOpen? ==> s.running[s.epoch] == if s.breaker.probing then 1 else 0)
    && (s.breaker.phase.Open? ==> s.running[s.epoch] == 0)
    && (s.breaker.phase.Closed? ==> s.breaker.failures == Streak(s.log, s.epoch) < c.threshold)
    && (!s.breaker.phase.Closed? ==> s.breaker.failures == 0)
    && CoolsDown(c, s.log) && Justified(s.log)
  }

  ghost predicate Inv(c: Config, s: System) {
    && s.breaker.generation == Stamp(s.epoch)
    && (forall e :: e in s.running ==> e <= s.epoch)
    && (forall i :: 0 <= i < |s.log| && s.log[i].Ending? ==> s.log[i].epoch <= s.epoch)
    && (s.breaker.phase.Open? ==> s.breaker.openedAt <= s.now)
    && (forall i :: 0 <= i < |s.log| && s.log[i].Opening? ==>
          if s.breaker.phase.Open? then s.log[i].at <= s.breaker.openedAt else s.now - s.log[i].at >= c.timeout)
    && (!s.breaker.phase.HalfOpen? ==> !s.breaker.probing)
    && Accurate(c, s)
  }

  lemma {:induction false} NoStreakYet(log: seq<Entry>, epoch: nat)
    requires forall i :: 0 <= i < |log| && log[i].Ending? ==> log[i].epoch < epoch
    ensures Streak(log, epoch) == 0
  {
    if log != [] {
      NoStreakYet(log[..|log| - 1], epoch);
    }
  }

  lemma StreakOfMore(log: seq<Entry>, entry: Entry, epoch: nat)
    ensures (log + [entry])[..|log|] == log
    ensures !entry.Ending? ==> Streak(log + [entry], epoch) == Streak(log, epoch)
    ensures entry.Ending? ==> Streak(log + [entry], epoch) ==
                              if entry.epoch != epoch || entry.outcome.CallerCancelled? then Streak(log, epoch)
                              else if entry.outcome.Succeeded? then 0 else Streak(log, epoch) + 1
  {
  }

  lemma GenerationOfNext(epoch: nat)
    ensures NextGeneration(Stamp(epoch)) == Stamp(epoch + 1)
    ensures NextGeneration(Stamp(epoch)) != Stamp(epoch)
  {
  }

  lemma AdvanceKeepsInv(c: Config, s: System)
    requires ValidConfig(c) && Inv(c, s)
    ensures var b := Advanced(c, s.breaker, s.now);
            Inv(c, s.(breaker := b, epoch := EpochAfter(s, b)))
  {
  }

  lemma AdmissionKeepsLog(c: Config, log: seq<Entry>, now: Time)
    requires CoolsDown(c, log) && Justified(log)
    requires forall i :: 0 <= i < |log| && log[i].Opening? ==> now - log[i].at >= c.timeout
    ensures CoolsDown(c, log + [Admission(now)]) && Justified(log + [Admission(now)])
  {
  }

  lemma AdmissionKeepsInv(c: Config, s: System)
    requires ValidConfig(c) && Inv(c, s) && Advanced(c, s.breaker, s.now) == s.breaker
    ensures Inv(c, Step(c, s, Call))
  {
    if Acquired(c, s.breaker, s.now).1.Some? {
      AdmissionKeepsLog(c, s.log, s.now);
      StreakOfMore(s.log, Admission(s.now), s.epoch);
    }
  }

  lemma CallKeepsInv(c: Config, s: System)
    requires ValidConfig(c) && Inv(c, s)
    ensures Inv(c, Step(c, s, Call))
  {
    AdvanceKeepsInv(c, s);
    var b := Advanced(c, s.breaker, s.now);
    var a := s.(breaker := b, epoch := EpochAfter(s, b));
    AdmissionKeepsInv(c, a);
    assert Step(c, s, Call) == Step(c, a, Call);
  }

  /** The generation of the operation has wrapped around to the present one: a 64-bit
      stamp cannot tell them apart. */
  predicate Mistaken(s: System, epoch: nat) {
    epoch in s.running && epoch != s.epoch && Stamp(epoch) == Stamp(s.epoch)
  }

  lemma LogOfMore(c: Config, log: seq<Entry>, entry: Entry)
    requires CoolsDown(c, log) && Justified(log) && !entry.Admission?
    requires entry.Opening? ==> log != [] && FailedIn(log[|log| - 1], entry.epoch)
    ensures CoolsDown(c, log + [entry]) && Justified(log + [entry])
  {
  }

  /** An operation of another generation is ignored. */
  lemma StrangerKeepsInv(c: Config, s: System, epoch: nat, outcome: Outcome)
    requires ValidConfig(c) && Inv(c, s) && epoch in s.running && Stamp(epoch) != Stamp(s.epoch)
    ensures Inv(c, Step(c, s, Finish(epoch, outcome)))
  {
    var ending := Ending(s.now, epoch, outcome);
    StreakOfMore(s.log, ending, s.epoch);
    LogOfMore(c, s.log, ending);
    assert s.log + [ending] + [] == s.log + [ending];
  }

  /** One of this generation that does not open the breaker. */
  lemma MemberKeepsInv(c: Config, s: System, outcome: Outcome)
    requires ValidConfig(c) && Inv(c, s) && s.epoch in s.running
    requires !Recorded(c, s.breaker, s.now, s.breaker.generation, outcome).phase.Open?
    ensures Inv(c, Step(c, s, Finish(s.epoch, outcome)))
  {
    var ending := Ending(s.now, s.epoch, outcome);
    GenerationOfNext(s.epoch);
    StreakOfMore(s.log, ending, s.epoch);
    NoStreakYet(s.log + [ending], s.epoch + 1);
    LogOfMore(c, s.log, ending);
    assert s.log + [ending] + [] == s.log + [ending];
  }

  lemma FailureKeepsInv(c: Config, s: System)
    requires ValidConfig(c) && Inv(c, s) && s.epoch in s.running
    requires Recorded(c, s.breaker, s.now, s.breaker.generation, Failed).phase.Open?
    ensures Inv(c, Step(c, s, Finish(s.epoch, Failed)))
  {
    var ending := Ending(s.now, s.epoch, Failed);
    GenerationOfNext(s.epoch);
    LogOfMore(c, s.log, ending);
    LogOfMore(c, s.log + [ending], Opening(s.now, s.epoch));
  }

  lemma FinishKeepsInv(c: Config, s: System, epoch: nat, outcome: Outcome)
    requires ValidConfig(c) && Inv(c, s) && epoch in s.running && !Mistaken(s, epoch)
    ensures Inv(c, Step(c, s, Finish(epoch, outcome)))
  {
    if epoch != s.epoch {
      StrangerKeepsInv(c, s, epoch, outcome);
    } else if Recorded(c, s.breaker, s.now, s.breaker.generation, outcome).phase.Open? {
      assert s.running[s.epoch] > 0;
      FailureKeepsInv(c, s);
    } else {
      MemberKeepsInv(c, s, outcome);
    }
  }

  /** An operation of any other generation, however late, is ignored; only one that is
      mistaken for the present generation can break the invariant. */
  lemma StepKeepsInv(c: Config, s: System, e: Event)
    requires ValidConfig(c) && Inv(c, s)
    requires e.Finish? ==> !Mistaken(s, e.epoch)
    ensures Inv(c, Step(c, s, e)) && s.epoch <= Step(c, s, e).epoch
  {
    match e
    case Tick(_) =>
    case Observe => AdvanceKeepsInv(c, s);
    case Call => CallKeepsInv(c, s);
    case Finish(epoch, outcome) =>
      if epoch in s.running {
        FinishKeepsInv(c, s, epoch, outcome);
      }
  }

  /** No operation of the run is mistaken for one of a later generation. */
  ghost predicate Unmistaken(c: Config, s: System, events: seq<Event>) {
    events == [] ||
    (var last := |events| - 1;
     && Unmistaken(c, s, events[..last])
     && (events[last].Finish? ==> !Mistaken(Run(c, s, events[..last]), events[last].epoch)))
  }

  lemma {:induction false} RunKeepsInv(c: Config, start: Time, events: seq<Event>)
    requires ValidConfig(c) && Unmistaken(c, Initial(start), events)
    ensures Inv(c, Run(c, Initial(start), events))
  {
    if events != [] {
      var before := events[..|events| - 1];
      RunKeepsInv(c, start, before);
      StepKeepsInv(c, Run(c, Initial(start), before), events[|events| - 1]);
    }
  }

  /** Whatever is called, finishes and is cancelled in whatever order: half-open means
      exactly the probe is in flight, open means nothing of this generation is, the
      failure counter is the streak in the log and below the threshold, nothing is
      admitted before the timeout has run since every earlier opening, and every opening
      came from a failure of its own generation. */
  lemma {:induction false} BreakerIsAccurate(c: Config, start: Time, events: seq<Event>)
    requires ValidConfig(c) && Unmistaken(c, Initial(start), events)
    ensures Accurate(c, Run(c, Initial(start), events))
  {
    RunKeepsInv(c, start, events);
  }

  // ----- The phase, read off the log -----

  datatype OpenedLast = OpenedLast(at: Time, epoch: nat)

  /** When the breaker opened last, and the epoch that ended then. */
  function LastOpening(log: seq<Entry>): Option<OpenedLast> {
    if log == [] then None
    else
      match log[|log| - 1]
      case Opening(at, epoch) => Some(OpenedLast(at, epoch))
      case _ => LastOpening(log[..|log| - 1])
  }

  /** The probe after the last opening has the epoch two after the one that ended: the
      breaker is open in between. */
  predicate IsProbe(log: seq<Entry>, epoch: nat) {
    LastOpening(log).Some? && epoch == LastOpening(log).value.epoch + 2
  }

  predicate SucceedsProbe(log: seq<Entry>, entry: Entry) {
    entry.Ending? && entry.outcome.Succeeded? && IsProbe(log, entry.epoch)
  }

  /** The log says closed: nothing opened yet, or the probe after the last opening succeeded. */
  predicate SaysClosed(log: seq<Entry>) {
    if log == [] then true
    else
      var before, last := log[..|log| - 1], log[|log| - 1];
      !last.Opening? && (SaysClosed(before) || SucceedsProbe(before, last))
  }

  ghost predicate PhaseInv(c: Config, s: System) {
    && (s.breaker.phase.Closed? <==> SaysClosed(s.log))
    && (!s.breaker.phase.Closed? ==> LastOpening(s.log).Some?)
    && (LastOpening(s.log).Some? ==>
          var last := LastOpening(s.log).value;
          match s.breaker.phase
          case Open => s.breaker.openedAt == last.at && s.epoch == last.epoch + 1
          case HalfOpen => s.epoch == last.epoch + 2 && s.now - last.at >= c.timeout
          case Closed => s.epoch > last.epoch + 2)
  }

  lemma LogOfMoreSays(log: seq<Entry>, entry: Entry)
    ensures LastOpening(log + [entry]) == if entry.Opening? then Some(OpenedLast(entry.at, entry.epoch)) else LastOpening(log)
    ensures SaysClosed(log + [entry]) == (!entry.Opening? && (SaysClosed(log) || SucceedsProbe(log, entry)))
  {
    assert (log + [entry])[..|log|] == log;
  }

  lemma CallKeepsPhase(c: Config, s: System)
    requires ValidConfig(c) && Inv(c, s) && PhaseInv(c, s)
    ensures PhaseInv(c, Step(c, s, Call))
  {
    GenerationOfNext(s.epoch);
    LogOfMoreSays(s.log, Admission(s.now));
  }

  lemma FinishKeepsPhase(c: Config, s: System, epoch: nat, outcome: Outcome)
    requires ValidConfig(c) && Inv(c, s) && PhaseInv(c, s) && epoch in s.running && !Mistaken(s, epoch)
    ensures PhaseInv(c, Step(c, s, Finish(epoch, outcome)))
  {
    var ending := Ending(s.now, epoch, outcome);
    GenerationOfNext(s.epoch);
    LogOfMoreSays(s.log, ending);
    LogOfMoreSays(s.log + [ending], Opening(s.now, s.epoch));
    assert s.log + [ending] + [] == s.log + [ending];
    assert epoch == s.epoch ==> s.running[s.epoch] > 0;
  }

  lemma StepKeepsPhase(c: Config, s: System, e: Event)
    requires ValidConfig(c) && Inv(c, s) && PhaseInv(c, s)
    requires e.Finish? ==> !Mistaken(s, e.epoch)
    ensures PhaseInv(c, Step(c, s, e))
  {
    match e
    case Tick(_) =>
    case Observe => GenerationOfNext(s.epoch);
    case Call => CallKeepsPhase(c, s);
    case Finish(epoch, outcome) =>
      if epoch in s.running {
        FinishKeepsPhase(c, s, epoch, outcome);
      }
  }

  lemma {:induction false} RunKeepsPhase(c: Config, start: Time, events: seq<Event>)
    requires ValidConfig(c) && Unmistaken(c, Initial(start), events)
    ensures PhaseInv(c, Run(c, Initial(start), events))
  {
    if events != [] {
      var before := events[..|events| - 1];
      RunKeepsPhase(c, start, before);
      RunKeepsInv(c, start, before);
      StepKeepsPhase(c, Run(c, Initial(start), before), events[|events| - 1]);
    }
  }

  /** The breaker is closed exactly when the log says so: until something opens it, and
      again from the moment the probe after the last opening succeeds. */
  lemma {:induction false} PhaseFollowsLog(c: Config, start: Time, events: seq<Event>)
    requires ValidConfig(c) && Unmistaken(c, Initial(start), events)
    ensures var s := Run(c, Initial(start), events); s.breaker.phase.Closed? <==> SaysClosed(s.log)
  {
    RunKeepsPhase(c, start, events);
  }

  /** What the log and the operations in flight say about the next call. */
  predicate Admissible(c: Config, s: System) {
    || SaysClosed(s.log)
    || (LastOpening(s.log).Some?
        && s.now - LastOpening(s.log).value.at >= c.timeout && s.running[LastOpening(s.log).value.epoch + 2] == 0)
  }

  /** A call is admitted exactly when the breaker is closed, however many operations are in
      flight, or when the timeout has run since it opened and no probe is in flight. */
  lemma CallIsAdmittedExactly(c: Config, start: Time, events: seq<Event>)
    requires ValidConfig(c) && Unmistaken(c, Initial(start), events)
    ensures var s := Run(c, Initial(start), events);
            var s' := Step(c, s, Call);
            s'.log == s.log + (if Admissible(c, s) then [Admission(s.now)] else [])
            && s'.running == s.running + (if Admissible(c, s) then multiset{s'.epoch} else multiset{})
  {
    RunKeepsInv(c, start, events);
    RunKeepsPhase(c, start, events);
    AdmittedExactly(c, Run(c, Initial(start), events));
  }

  lemma AdmittedExactly(c: Config, s: System)
    requires ValidConfig(c) && Inv(c, s) && PhaseInv(c, s)
    ensures var s' := Step(c, s, Call);
            s'.log == s.log + (if Admissible(c, s) then [Admission(s.now)] else [])
            && s'.running == s.running + (if Admissible(c, s) then multiset{s'.epoch} else multiset{})
  {
    GenerationOfNext(s.epoch);
  }

  /** The operation that finishes next opens the breaker exactly when it failed in the
      present epoch, and, if the breaker is closed, was the last failure it takes. */
  lemma FinishOpensExactly(c: Config, start: Time, events: seq<Event>, epoch: nat, outcome: Outcome)
    requires ValidConfig(c) && Unmistaken(c, Initial(start), events)
    requires var s := Run(c, Initial(start), events); epoch in s.running && !Mistaken(s, epoch)
    ensures var s := Run(c, Initial(start), events);
            var opens := epoch == s.epoch && outcome.Failed? && (SaysClosed(s.log) ==> Streak(s.log, epoch) + 1 >= c.threshold);
            Step(c, s, Finish(epoch, outcome)).log ==
            s.log + [Ending(s.now, epoch, outcome)] + (if opens then [Opening(s.now, epoch)] else [])
  {
    RunKeepsInv(c, start, events);
    RunKeepsPhase(c, start, events);
    OpensExactly(c, Run(c, Initial(start), events), epoch, outcome);
  }

  lemma OpensExactly(c: Config, s: System, epoch: nat, outcome: Outcome)
    requires ValidConfig(c) && Inv(c, s) && PhaseInv(c, s) && epoch in s.running && !Mistaken(s, epoch)
    ensures var opens := epoch == s.epoch && outcome.Failed? && (SaysClosed(s.log) ==> Streak(s.log, epoch) + 1 >= c.threshold);
            Step(c, s, Finish(epoch, outcome)).log ==
            s.log + [Ending(s.now, epoch, outcome)] + (if opens then [Opening(s.now, epoch)] else [])
  {
    GenerationOfNext(s.epoch);
    assert epoch == s.epoch ==> s.running[s.epoch] > 0;
  }

  // ----- Mistakes -----

  /** A mistaken operation that failed shows in whichever phase the breaker is: it counts
      where it must not, or opens the breaker for a generation that did not fail. */
  lemma MistakeShows(c: Config, s: System, epoch: nat)
    requires ValidConfig(c) && Inv(c, s) && Mistaken(s, epoch)
    ensures !Accurate(c, Step(c, s, Finish(epoch, Failed)))
  {
    var ending := Ending(s.now, epoch, Failed);
    var s' := Step(c, s, Finish(epoch, Failed));
    GenerationOfNext(s.epoch);
    StreakOfMore(s.log, ending, s.epoch);
    assert s.log + [ending] + [] == s.log + [ending];
    if s'.breaker.generation != s.breaker.generation {
      assert s'.log[|s.log|] == ending && s'.log[|s.log| + 1] == Opening(s.now, s.epoch);
    }
  }

  /** So after any run without a mistake, the operation that finishes next leaves the
      breaker accurate, however it ended, exactly when it is not mistaken. */
  lemma AccurateExactlyUnlessMistaken(c: Config, start: Time, events: seq<Event>, epoch: nat)
    requires ValidConfig(c) && Unmistaken(c, Initial(start), events)
    ensures var s := Run(c, Initial(start), events);
            (forall outcome :: Accurate(c, Step(c, s, Finish(epoch, outcome)))) <==> !Mistaken(s, epoch)
  {
    var s := Run(c, Initial(start), events);
    RunKeepsInv(c, start, events);
    if Mistaken(s, epoch) {
      MistakeShows(c, s, epoch);
    } else {
      forall outcome ensures Accurate(c, Step(c, s, Finish(epoch, outcome))) {
        StepKeepsInv(c, s, Finish(epoch, outcome));
      }
    }
  }

  lemma EpochGrows(c: Config, s: System, e: Event)
    ensures s.epoch <= Step(c, s, e).epoch
  {
  }

  lemma NoEarlyMistake(s: System, epoch: nat)
    requires (epoch in s.running ==> epoch <= s.epoch) && s.epoch < GENERATIONS
    ensures !Mistaken(s, epoch)
  {
  }

  /** Before 2^64 generations there is no mistake to make. */
  lemma {:induction false} EarlyRunsAreUnmistaken(c: Config, start: Time, events: seq<Event>)
    requires ValidConfig(c) && Run(c, Initial(start), events).epoch < GENERATIONS
    ensures Unmistaken(c, Initial(start), events)
  {
    if events != [] {
      var before := events[..|events| - 1];
      EpochGrows(c, Run(c, Initial(start), before), events[|events| - 1]);
      EarlyRunsAreUnmistaken(c, start, before);
      RunKeepsInv(c, start, before);
      if events[|events| - 1].Finish? {
        NoEarlyMistake(Run(c, Initial(start), before), events[|events| - 1].epoch);
      }
    }
  }

  // ----- A run that makes the mistake -----

  /** n probes that fail, one timeout apart; the first starts in epoch 1. */
  function FailingProbes(n: nat): seq<Event> {
    if n == 0 then [] + [Call] + [Call] + [Finish(0, Failed)]
    else FailingProbes(n - 1) + [Tick(1)] + [Call] + [Finish(2 * n, Failed)]
  }

  lemma RunOfMore(c: Config, s: System, events: seq<Event>, e: Event)
    ensures Run(c, s, events + [e]) == Step(c, Run(c, s, events), e)
  {
  }

  /** Open in `epoch`, opened just now, with one old operation still in flight. */
  ghost predicate OpenWithStraggler(s: System, epoch: nat, now: nat) {
    && s.breaker == Breaker(Open, Stamp(epoch), 0, now, false)
    && s.epoch == epoch && s.now == now && s.running == multiset{0}
  }

  lemma ProbeIsAdmitted(s: System, g: nat, now: nat)
    requires s.breaker == Breaker(Open, g, 0, now, false) && s.now == now + 1 && NextGeneration(g) != g
    ensures var p := Step(Config(1, 1), s, Call);
            && p.breaker == Breaker(HalfOpen, NextGeneration(g), 0, now, true)
            && p.epoch == s.epoch + 1 && p.now == s.now && p.running == s.running + multiset{s.epoch + 1}
  {
    assert Advanced(Config(1, 1), s.breaker, s.now) == Breaker(HalfOpen, NextGeneration(g), 0, now, false);
  }

  lemma ProbeStarts(s: System, epoch: nat, now: nat)
    requires OpenWithStraggler(s, epoch, now)
    ensures var p := Step(Config(1, 1), Step(Config(1, 1), s, Tick(1)), Call);
            && p.breaker == Breaker(HalfOpen, Stamp(epoch + 1), 0, now, true)
            && p.epoch == epoch + 1 && p.now == now + 1 && p.running == multiset{0, epoch + 1}
  {
    GenerationOfNext(epoch);
    ProbeIsAdmitted(s.(now := now + 1), Stamp(epoch), now);
    assert Step(Config(1, 1), s, Tick(1)) == s.(now := now + 1);
    assert multiset{0} + multiset{epoch + 1} == multiset{0, epoch + 1};
  }

  lemma ProbeFails(s: System, epoch: nat, now: nat)
    requires OpenWithStraggler(s, epoch, now)
    ensures var c := Config(1, 1);
            OpenWithStraggler(Step(c, Step(c, Step(c, s, Tick(1)), Call), Finish(epoch + 1, Failed)), epoch + 2, now + 1)
  {
    ProbeStarts(s, epoch, now);
    GenerationOfNext(epoch + 1);
    assert multiset{0, epoch + 1} - multiset{epoch + 1} == multiset{0};
  }

  lemma FirstCall(s: System, calls: multiset<nat>)
    requires s.breaker == Breaker(Closed, 0, 0, 0, false) && s.epoch == 0 && s.now == 0 && s.running == calls
    ensures var s' := Step(Config(1, 1), s, Call);
            s'.breaker == s.breaker && s'.epoch == 0 && s'.now == 0 && s'.running == calls + multiset{0}
  {
  }

  lemma FirstFailure(s: System)
    requires s.breaker == Breaker(Closed, 0, 0, 0, false) && s.epoch == 0 && s.now == 0 && s.running == multiset{0, 0}
    ensures OpenWithStraggler(Step(Config(1, 1), s, Finish(0, Failed)), 1, 0)
  {
  }

  lemma AfterFirstFailure(s: System)
    requires s == Initial(0)
    ensures OpenWithStraggler(Run(Config(1, 1), s, [] + [Call] + [Call] + [Finish(0, Failed)]), 1, 0)
  {
    var c := Config(1, 1);
    RunOfMore(c, s, [], Call);
    RunOfMore(c, s, [] + [Call], Call);
    RunOfMore(c, s, [] + [Call] + [Call], Finish(0, Failed));
    FirstCall(s, multiset{});
    FirstCall(Step(c, s, Call), multiset{0});
    assert multiset{} + multiset{0} == multiset{0} && multiset{0} + multiset{0} == multiset{0, 0};
    FirstFailure(Step(c, Step(c, s, Call), Call));
  }

  lemma {:induction false} AfterFailingProbes(n: nat)
    ensures OpenWithStraggler(Run(Config(1, 1), Initial(0), FailingProbes(n)), 1 + 2 * n, n)
  {
    var c := Config(1, 1);
    if n == 0 {
      AfterFirstFailure(Initial(0));
    } else {
      AfterFailingProbes(n - 1);
      var before := FailingProbes(n - 1);
      ProbeFails(Run(c, Initial(0), before), 2 * n - 1, n - 1);
      RunOfMore(c, Initial(0), before, Tick(1));
      RunOfMore(c, Initial(0), before + [Tick(1)], Call);
      RunOfMore(c, Initial(0), before + [Tick(1)] + [Call], Finish(2 * n, Failed));
    }
  }

  /** An operation that outlives 2^64 generations is taken for the current probe: its
      cancellation frees the probe slot while the real probe is still in flight. */
  lemma LateOperationIsMistaken(late: seq<Event>)
    requires late == FailingProbes(GENERATIONS / 2 - 1) + [Tick(1)] + [Call] + [Finish(0, CallerCancelled)]
    ensures !Accurate(Config(1, 1), Run(Config(1, 1), Initial(0), late))
  {
    var c := Config(1, 1);
    var n := GENERATIONS / 2 - 1;
    var before := FailingProbes(n);
    AfterFailingProbes(n);
    ProbeStarts(Run(c, Initial(0), before), GENERATIONS - 1, n);
    RunOfMore(c, Initial(0), before, Tick(1));
    RunOfMore(c, Initial(0), before + [Tick(1)], Call);
    RunOfMore(c, Initial(0), before + [Tick(1)] + [Call], Finish(0, CallerCancelled));
    ProbeForgotten(Run(c, Initial(0), before + [Tick(1)] + [Call]));
  }

  lemma ProbeForgotten(p: System)
    requires p.breaker.phase.HalfOpen? && p.breaker.generation == 0 && p.epoch == GENERATIONS
    requires p.running == multiset{0, GENERATIONS}
    ensures !Accurate(Config(1, 1), Step(Config(1, 1), p, Finish(0, CallerCancelled)))
  {
  }
}
