/** When an attempt can be ended by the failure handler of a delivery that did not claim
    it: the exact condition for the latest claimant to be the only one who ends it. */
module TaskFailures {
  import opened Common
  import opened TaskRows
  import opened TaskProtocol
  import opened TaskAttempts
  import TaskLoss

  /** Between two states the present attempt of the execution was ended, as failed, by a
      delivery other than its claimant. */
  ghost predicate EndedByOther(s: System, s': System, id: ExecutionId)
    requires id in s.db.executions
  {
    var k := (id, s.db.executions[id].attempt);
    exists f :: f in s'.finishes && f !in s.finishes && EndedBy(s', f, k)
  }

  ghost predicate EndedBy(s': System, f: Finish, k: (ExecutionId, int)) {
    && f.execution == k.0 && f.attempt == k.1 && f.writer.ByFailureHandler?
    && k in s'.claims && s'.claims[k] != f.writer.pid
  }

  /** The delivery can still come to record a failure: its retries are used up, and it has
      not ended, been revoked, or been cancelled. */
  predicate MayFail(d: Delivery) {
    match d.stage
    case Failing(_) => true
    case Done => false
    case Cancelling(_) => false
    case Errored(revoked) => !revoked && d.message.last
    case _ => d.message.last
  }

  /** Another delivery of the attempt, not its claimant, that can still record a failure. */
  ghost predicate OtherLeft(s: System, k: (ExecutionId, int), q: Pid) {
    q in s.deliveries && Key(s.deliveries[q].message) == k && MayFail(s.deliveries[q])
    && k in s.claims && s.claims[k] != q
  }

  // ----- What a run keeps -----

  ghost predicate HistoryKept(s: System, s': System) {
    && s.finishes <= s'.finishes
    && (forall k :: k in s.claims ==> k in s'.claims && s'.claims[k] == s.claims[k])
  }

  lemma ClaimKeepsOldClaims(s: System, e: Event)
    requires Inv(s) && e.Claim?
    ensures HistoryKept(s, ClaimStep(s, e))
  {
    if ClaimStep(s, e) != s {
      ClaimEffect(s, e);
      if !Quiet(s, ClaimStep(s, e)) {
        var key := Key(s.deliveries[e.pid].message);
        ClaimKeepsHistory(s, ClaimStep(s, e), key, e.pid, ClaimStep(s, e).db.executions[key.0]);
      }
    }
  }

  lemma ResultsKeepHistory(s: System, e: Event)
    requires e.Return? || e.WriteResult? || e.HandleFailure? || e.WriteFailure?
    ensures HistoryKept(s, ResultStep(s, e))
  {
  }

  lemma OthersKeepHistory(s: System, e: Event)
    requires !e.Claim? && !e.Return? && !e.WriteResult? && !e.HandleFailure? && !e.WriteFailure?
    ensures HistoryKept(s, Step(s, e))
  {
  }

  lemma FinishesAndClaimsStay(s: System, e: Event)
    requires Inv(s)
    ensures HistoryKept(s, Step(s, e))
  {
    if e.Claim? {
      ClaimKeepsOldClaims(s, e);
    } else if e.Return? || e.WriteResult? || e.HandleFailure? || e.WriteFailure? {
      ResultsKeepHistory(s, e);
    } else {
      OthersKeepHistory(s, e);
    }
  }

  lemma {:induction false} HistoryStays(s: System, rest: seq<Event>)
    requires Inv(s)
    ensures Inv(Run(s, rest))
    ensures forall f :: f in s.finishes ==> f in Run(s, rest).finishes
    ensures forall k :: k in s.claims ==> k in Run(s, rest).claims && Run(s, rest).claims[k] == s.claims[k]
  {
    if rest != [] {
      var before := Run(s, rest[..|rest| - 1]);
      HistoryStays(s, rest[..|rest| - 1]);
      StepAdvances(before, rest[|rest| - 1]);
      FinishesAndClaimsStay(before, rest[|rest| - 1]);
    }
  }

  /** Without new deliveries nobody gets a second chance to fail, and who records a failure
      still had it. */
  ghost predicate ChancesShrink(s: System, s': System) {
    && s'.deliveries.Keys == s.deliveries.Keys && MessagesKept(s, s')
    && (forall q :: q in s.deliveries && MayFail(s'.deliveries[q]) ==> MayFail(s.deliveries[q]))
    && (forall f :: f in s'.finishes && f !in s.finishes && f.writer.ByFailureHandler? ==>
          f.writer.pid in s.deliveries && MayFail(s.deliveries[f.writer.pid]))
  }

  /** One delivery moves on without gaining a chance, and writes one end at most. */
  ghost predicate MovesToEnd(s: System, s': System, pid: Pid) {
    && Moves(s, s', pid)
    && (MayFail(s'.deliveries[pid]) ==> MayFail(s.deliveries[pid]))
    && (s'.deliveries[pid].stage.Failing? ==> s.deliveries[pid].message.last)
    && (|| s'.finishes == s.finishes
        || (&& |s'.finishes| == |s.finishes| + 1 && s'.finishes == s.finishes + [s'.finishes[|s.finishes|]]
            && var writer := s'.finishes[|s.finishes|].writer;
               writer.ByFailureHandler? ==> writer.pid == pid && s.deliveries[pid].stage.Failing?))
  }

  lemma MoveShrinksChances(s: System, s': System, pid: Pid)
    requires MovesToEnd(s, s', pid)
    ensures ChancesShrink(s, s')
  {
  }

  predicate ByWorker(e: Event) {
    || e.ReadExecution? || e.Claim? || e.Handle?
    || e.Return? || e.WriteResult? || e.HandleFailure? || e.WriteFailure?
  }

  /** Publishers and the queue leave the deliveries alone and record no failure of one. */
  lemma OthersLeaveDeliveries(s: System, e: Event)
    requires !ByWorker(e) && !e.Deliver?
    ensures Step(s, e).deliveries == s.deliveries
    ensures forall f :: f in Step(s, e).finishes && f !in s.finishes ==> f.writer.BySubmitter?
  {
  }

  lemma ReaderMovesToEnd(s: System, e: Event)
    requires e.ReadExecution? && ClaimStep(s, e) != s
    ensures MovesToEnd(s, ClaimStep(s, e), e.pid)
  {
  }

  lemma HandlerMovesToEnd(s: System, e: Event)
    requires e.Handle? && ClaimStep(s, e) != s
    ensures MovesToEnd(s, ClaimStep(s, e), e.pid)
  {
  }

  lemma ClaimerMovesToEnd(s: System, e: Event)
    requires e.Claim? && ClaimStep(s, e) != s
    ensures MovesToEnd(s, ClaimStep(s, e), e.pid)
  {
  }

  lemma ReturnMovesToEnd(s: System, e: Event)
    requires (e.Return? || e.HandleFailure?) && ResultStep(s, e) != s
    ensures MovesToEnd(s, ResultStep(s, e), e.pid)
  {
  }

  lemma ResultMovesToEnd(s: System, e: Event)
    requires e.WriteResult? && ResultStep(s, e) != s
    ensures MovesToEnd(s, ResultStep(s, e), e.pid)
  {
  }

  lemma FailureMovesToEnd(s: System, e: Event)
    requires e.WriteFailure? && ResultStep(s, e) != s
    ensures MovesToEnd(s, ResultStep(s, e), e.pid)
  {
  }

  lemma WorkerMovesToEnd(s: System, e: Event)
    requires ByWorker(e) && Step(s, e) != s
    ensures MovesToEnd(s, Step(s, e), e.pid)
  {
    match e
    case Claim(_, _) => ClaimerMovesToEnd(s, e);
    case ReadExecution(_, _) => ReaderMovesToEnd(s, e);
    case Handle(_, _) => HandlerMovesToEnd(s, e);
    case WriteResult(_, _, _) => ResultMovesToEnd(s, e);
    case WriteFailure(_, _, _) => FailureMovesToEnd(s, e);
    case _ => ReturnMovesToEnd(s, e);
  }

  lemma StepShrinksChances(s: System, e: Event)
    requires !e.Deliver?
    ensures ChancesShrink(s, Step(s, e))
  {
    if !ByWorker(e) {
      OthersLeaveDeliveries(s, e);
    } else if Step(s, e) != s {
      WorkerMovesToEnd(s, e);
      MoveShrinksChances(s, Step(s, e), e.pid);
    }
  }

  // ----- Only a delivery out of retries records a failure -----

  /** A delivery knows the maximum of retries of its task, and comes to fail only at that. */
  ghost predicate RetriesOk(s: System, pid: Pid) {
    && pid in s.deliveries && s.deliveries[pid].message.execution in s.db.executions
    && var m := s.deliveries[pid].message;
       && 1 <= m.attempt <= 0x8000_0000
       && (m.last <==> m.attempt - 1 >= s.db.executions[m.execution].maxRetries)
       && (s.deliveries[pid].stage.Failing? ==> m.last)
  }

  ghost predicate RetryInv(s: System) {
    && (forall pid :: pid in s.deliveries ==> RetriesOk(s, pid))
    && (forall f :: f in s.finishes && f.writer.ByFailureHandler? ==>
          f.writer.pid in s.deliveries && s.deliveries[f.writer.pid].message.last)
  }

  lemma MoveKeepsRetries(s: System, s': System, pid: Pid)
    requires RetryInv(s) && Advances(s, s') && MovesToEnd(s, s', pid)
    ensures RetryInv(s')
  {
    forall p | p in s'.deliveries ensures RetriesOk(s', p) {
      assert RetriesOk(s, p) && RowAdvances(s.db, s'.db, s.deliveries[p].message.execution);
    }
  }

  lemma OthersKeepRetries(s: System, s': System)
    requires RetryInv(s) && Advances(s, s') && s'.deliveries == s.deliveries
    requires forall f :: f in s'.finishes && f !in s.finishes ==> f.writer.BySubmitter?
    ensures RetryInv(s')
  {
    forall p | p in s'.deliveries ensures RetriesOk(s', p) {
      assert RetriesOk(s, p) && RowAdvances(s.db, s'.db, s.deliveries[p].message.execution);
    }
  }

  lemma DeliveryKeepsRetries(s: System, e: Event)
    requires RetryInv(s) && e.Deliver?
    ensures RetryInv(ClaimStep(s, e))
  {
    forall p | p in ClaimStep(s, e).deliveries ensures RetriesOk(ClaimStep(s, e), p) {
      assert p in s.deliveries ==> RetriesOk(s, p);
    }
  }

  lemma StepKeepsRetries(s: System, e: Event)
    requires RetryInv(s) && Advances(s, Step(s, e))
    ensures RetryInv(Step(s, e))
  {
    if e.Deliver? {
      DeliveryKeepsRetries(s, e);
    } else if !ByWorker(e) {
      OthersLeaveDeliveries(s, e);
      OthersKeepRetries(s, Step(s, e));
    } else if Step(s, e) != s {
      WorkerMovesToEnd(s, e);
      MoveKeepsRetries(s, Step(s, e), e.pid);
    }
  }

  lemma {:induction false} RunKeepsRetries(start: Time, events: seq<Event>)
    ensures RetryInv(Run(Initial(start), events))
  {
    if events != [] {
      var before := Run(Initial(start), events[..|events| - 1]);
      RunKeepsRetries(start, events[..|events| - 1]);
      RunKeepsInv(start, events[..|events| - 1]);
      StepAdvances(before, events[|events| - 1]);
      StepKeepsRetries(before, events[|events| - 1]);
    }
  }

  // ----- Chances without new deliveries -----

  ghost predicate NoDeliveries(rest: seq<Event>) {
    forall e :: e in rest ==> !e.Deliver?
  }

  lemma {:induction false} RunShrinksChances(s: System, rest: seq<Event>)
    requires NoDeliveries(rest)
    ensures ChancesShrink(s, Run(s, rest))
  {
    if rest != [] {
      RunShrinksChances(s, rest[..|rest| - 1]);
      assert rest[|rest| - 1] in rest;
      StepShrinksChances(Run(s, rest[..|rest| - 1]), rest[|rest| - 1]);
    }
  }

  // ----- Only a running attempt can be ended so -----

  lemma EndedOnce(s: System, s': System, id: ExecutionId)
    requires RowOk(s, id) && Terminal(s.db.executions[id].status) && FinishesDiffer(s'.finishes)
    requires forall f :: f in s.finishes ==> f in s'.finishes
    ensures forall f :: f in s'.finishes && f.execution == id ==> f in s.finishes
  {
    var g :| g in s.finishes && g.execution == id;
    var j :| 0 <= j < |s'.finishes| && s'.finishes[j] == g;
    forall i | 0 <= i < |s'.finishes| && s'.finishes[i].execution == id ensures i == j {}
  }

  lemma OnlyRunningEndsByOther(start: Time, events: seq<Event>, rest: seq<Event>, id: ExecutionId)
    requires var s := Run(Initial(start), events); id in s.db.executions && EndedByOther(s, Run(s, rest), id)
    ensures Run(Initial(start), events).db.executions[id].status.Running?
  {
    var s := Run(Initial(start), events);
    RunKeepsInv(start, events);
    HistoryStays(s, rest);
    EndIsOfRunning(s, Run(s, rest), id);
  }

  lemma EndIsOfRunning(s: System, s': System, id: ExecutionId)
    requires Inv(s) && Inv(s') && id in s.db.executions && EndedByOther(s, s', id)
    requires forall f :: f in s.finishes ==> f in s'.finishes
    ensures s.db.executions[id].status.Running?
  {
    var k := (id, s.db.executions[id].attempt);
    assert RowOk(s, id) && ClaimOk(s', k);
    if Terminal(s.db.executions[id].status) {
      EndedOnce(s, s', id);
    }
  }

  // ----- The steps to such an end -----

  ghost predicate LeadsTo(s: System, events: seq<Event>, s': System) {
    Run(s, events) == s' && NoDeliveries(events)
  }

  lemma LeadsOn(s: System, e: Event, rest: seq<Event>, s': System)
    requires LeadsTo(Step(s, e), rest, s') && !e.Deliver?
    ensures LeadsTo(s, [e] + rest, s')
  {
    RunInTwoParts(s, [e], rest);
    assert Run(s, []) == s && [e][..0] == [];
    assert Run(s, [e]) == Step(s, e);
  }

  /** Failing: the write goes through, since the attempt is the running one. */
  lemma FailureIsWritten(s: System, q: Pid, id: ExecutionId)
    requires id in s.db.executions && s.db.executions[id].status.Running?
    requires OtherLeft(s, (id, s.db.executions[id].attempt), q) && s.deliveries[q].stage.Failing?
    requires forall f :: f in s.finishes ==> f.execution != id
    ensures EndedByOther(s, Step(s, WriteFailure(q, Executed, "")), id)
  {
    var s' := ResultStep(s, WriteFailure(q, Executed, ""));
    var k := (id, s.db.executions[id].attempt);
    var f := Finish(id, k.1, Failed, ByFailureHandler(q));
    assert s'.finishes == s.finishes + [f];
    assert f in s'.finishes && EndedBy(s', f, k);
  }

  /** The next step of a delivery that did not claim the attempt, towards its failure. */
  function NextOf(s: System, q: Pid): Event
    requires q in s.deliveries
  {
    match s.deliveries[q].stage
    case Received => ReadExecution(q, true)
    case Validated(_) => Claim(q, NotExecuted)
    case Errored(_) => HandleFailure(q, false)
    case _ => WriteFailure(q, Executed, "")
  }

  lemma NextLeavesOther(s: System, q: Pid, id: ExecutionId)
    requires id in s.db.executions && s.db.executions[id].status.Running?
    requires OtherLeft(s, (id, s.db.executions[id].attempt), q)
    requires s.deliveries[q].stage.Received? || s.deliveries[q].stage.Validated? || s.deliveries[q].stage.Errored?
    ensures var s' := Step(s, NextOf(s, q));
            && s'.db == s.db && s'.finishes == s.finishes && s'.claims == s.claims
            && OtherLeft(s', (id, s.db.executions[id].attempt), q)
            && s'.deliveries[q].stage == if s.deliveries[q].stage.Errored? then Failing(s.now) else Errored(false)
  {
  }

  lemma OtherCanEndIt(s: System, q: Pid, id: ExecutionId) returns (rest: seq<Event>)
    requires Inv(s) && id in s.db.executions && s.db.executions[id].status.Running?
    requires OtherLeft(s, (id, s.db.executions[id].attempt), q)
    ensures NoDeliveries(rest) && EndedByOther(s, Run(s, rest), id)
  {
    assert DeliveryOk(s, q);
    assert forall f :: f in s.finishes ==> FinishOk(s, f);
    rest := EndsIn(s, q, id);
  }

  lemma EndsIn(s: System, q: Pid, id: ExecutionId) returns (rest: seq<Event>)
    requires id in s.db.executions && s.db.executions[id].status.Running?
    requires OtherLeft(s, (id, s.db.executions[id].attempt), q) && !HoldsClaim(s.deliveries[q].stage)
    requires forall f :: f in s.finishes ==> f.execution != id
    ensures NoDeliveries(rest) && EndedByOther(s, Run(s, rest), id)
    decreases if s.deliveries[q].stage.Failing? then 0 else if s.deliveries[q].stage.Errored? then 1 else 2
  {
    var e := NextOf(s, q);
    if s.deliveries[q].stage.Failing? {
      FailureIsWritten(s, q, id);
      rest := [e];
      LeadsOn(s, e, [], Step(s, e));
      assert [e] + [] == [e];
    } else {
      NextLeavesOther(s, q, id);
      rest := EndsIn(Step(s, e), q, id);
      LeadsOn(s, e, rest, Run(Step(s, e), rest));
      rest := [e] + rest;
    }
  }

  // ----- The exact conditions -----

  /** Who ends it without a new delivery was left to do so. */
  lemma EnderWasLeft(s: System, rest: seq<Event>, id: ExecutionId)
    requires Inv(s) && id in s.db.executions && s.db.executions[id].status.Running?
    requires NoDeliveries(rest) && EndedByOther(s, Run(s, rest), id)
    ensures exists q :: OtherLeft(s, (id, s.db.executions[id].attempt), q)
  {
    var s' := Run(s, rest);
    var k := (id, s.db.executions[id].attempt);
    HistoryStays(s, rest);
    RunShrinksChances(s, rest);
    var f :| f in s'.finishes && f !in s.finishes && EndedBy(s', f, k);
    assert FinishOk(s', f) && RowOk(s, id);
    assert OtherLeft(s, k, f.writer.pid);
  }

  /** Without further deliveries, the present attempt of an execution can be ended by
      someone other than its claimant exactly when it is running and another delivery of
      that attempt, out of retries, can still record a failure. */
  lemma EndedByOtherExactlyWhenOneIsLeft(start: Time, events: seq<Event>, id: ExecutionId)
    requires id in Run(Initial(start), events).db.executions
    ensures var s := Run(Initial(start), events);
            (exists rest :: NoDeliveries(rest) && EndedByOther(s, Run(s, rest), id)) <==>
            s.db.executions[id].status.Running? && exists q :: OtherLeft(s, (id, s.db.executions[id].attempt), q)
  {
    var s := Run(Initial(start), events);
    RunKeepsInv(start, events);
    if rest :| NoDeliveries(rest) && EndedByOther(s, Run(s, rest), id) {
      OnlyRunningEndsByOther(start, events, rest, id);
      EnderWasLeft(s, rest, id);
    }
    if s.db.executions[id].status.Running? {
      if q :| OtherLeft(s, (id, s.db.executions[id].attempt), q) {
        var rest := OtherCanEndIt(s, q, id);
      }
    }
  }

  ghost predicate CanBeEndedByOther(s: System, id: ExecutionId)
    requires id in s.db.executions
  {
    exists rest :: EndedByOther(s, Run(s, rest), id)
  }

  /** The attempt is the last the task was submitted for. */
  predicate IsLastTry(s: System, id: ExecutionId) {
    id in s.db.executions && s.db.executions[id].attempt - 1 >= s.db.executions[id].maxRetries
  }

  /** With the queue free to deliver again, exactly the running attempts that have no retry
      left can be ended so. While retries are left, only its claimant ends an attempt. */
  lemma EndedByOtherExactlyOnLastTry(start: Time, events: seq<Event>, id: ExecutionId)
    requires id in Run(Initial(start), events).db.executions
    ensures var s := Run(Initial(start), events);
            CanBeEndedByOther(s, id) <==> s.db.executions[id].status.Running? && IsLastTry(s, id)
  {
    var s := Run(Initial(start), events);
    if CanBeEndedByOther(s, id) {
      var rest :| EndedByOther(s, Run(s, rest), id);
      OnlyRunningEndsByOther(start, events, rest, id);
      OnlyLastTryEndsByOther(start, events, rest, id);
    }
    if s.db.executions[id].status.Running? && IsLastTry(s, id) {
      LastTryCanBeEnded(start, events, id);
    }
  }

  lemma OnlyLastTryEndsByOther(start: Time, events: seq<Event>, rest: seq<Event>, id: ExecutionId)
    requires var s := Run(Initial(start), events); id in s.db.executions && EndedByOther(s, Run(s, rest), id)
    ensures IsLastTry(Run(Initial(start), events), id)
  {
    var s := Run(Initial(start), events);
    RunKeepsInv(start, events);
    RunAdvances(s, rest);
    RunInTwoParts(Initial(start), events, rest);
    RunKeepsRetries(start, events + rest);
    EndIsOfLastTry(s, Run(s, rest), id);
  }

  lemma EndIsOfLastTry(s: System, s': System, id: ExecutionId)
    requires Inv(s') && RetryInv(s') && id in s.db.executions && EndedByOther(s, s', id)
    requires id in s'.db.executions && s'.db.executions[id].maxRetries == s.db.executions[id].maxRetries
    ensures IsLastTry(s, id)
  {
    var k := (id, s.db.executions[id].attempt);
    var f :| f in s'.finishes && f !in s.finishes && EndedBy(s', f, k);
    assert FinishOk(s', f) && ClaimOk(s', k) && RetriesOk(s', f.writer.pid);
  }

  /** A delivery with the attempt of a row that is running, and out of retries, can come. */
  lemma AnotherCanCome(start: Time, events: seq<Event>, id: ExecutionId, q: Pid)
    requires var s := Run(Initial(start), events);
             id in s.db.executions && s.db.executions[id].status.Running? && IsLastTry(s, id) && q !in s.deliveries
    ensures var s := Run(Initial(start), events);
            var k := (id, s.db.executions[id].attempt);
            var m := Message(id, k.1, true);
            Step(s, Deliver(q, m)) == s.(deliveries := s.deliveries[q := Delivery(m, Received)])
            && OtherLeft(Step(s, Deliver(q, m)), k, q)
  {
    var s := Run(Initial(start), events);
    var k := (id, s.db.executions[id].attempt);
    RunKeepsInv(start, events);
    TaskLoss.RunKeepsLossInv(start, events);
    assert RowOk(s, id) && ClaimOk(s, k);
    assert TaskLoss.DeliveryOk(s, s.deliveries[s.claims[k]]);
    assert CanDeliver(s, Message(id, k.1, true));
  }

  lemma LastTryCanBeEnded(start: Time, events: seq<Event>, id: ExecutionId)
    requires var s := Run(Initial(start), events);
             id in s.db.executions && s.db.executions[id].status.Running? && IsLastTry(s, id)
    ensures CanBeEndedByOther(Run(Initial(start), events), id)
  {
    var s := Run(Initial(start), events);
    var q := Unused(s.deliveries.Keys);
    var e := Deliver(q, Message(id, s.db.executions[id].attempt, true));
    AnotherCanCome(start, events, id, q);
    RunKeepsInv(start, events);
    StepAdvances(s, e);
    var more := OtherCanEndIt(Step(s, e), q, id);
    RunInTwoParts(s, [e], more);
    assert Run(s, []) == s && [e][..0] == [];
    assert Run(s, [e]) == Step(s, e);
    assert EndedByOther(s, Run(s, [e] + more), id);
  }

  lemma {:induction false} Unused(pids: set<Pid>) returns (q: Pid)
    ensures forall p :: p in pids ==> p < q
  {
    if pids == {} {
      q := 0;
    } else {
      var p :| p in pids;
      var rest := pids - {p};
      assert pids == rest + {p};
      q := Unused(rest);
      q := Max(q, p + 1);
    }
  }
}
