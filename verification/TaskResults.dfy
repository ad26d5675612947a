/** Every end of an execution is what its handler returned, or a recorded failure. */
module TaskResults {
  import opened Common
  import opened TaskRows
  import opened TaskProtocol
  import opened TaskAttempts

  /** At this event of the run the handler that the delivery had called returned. */
  ghost predicate ReturnsAt(start: Time, events: seq<Event>, i: int, pid: Pid, result: HandlerResult, at: Time) {
    && 0 <= i < |events| && events[i] == Return(pid, result)
    && var s := Run(Initial(start), events[..i]);
       pid in s.deliveries && s.deliveries[pid].stage.Handling? && s.now == at
  }

  ghost predicate Returned(start: Time, events: seq<Event>, pid: Pid, result: HandlerResult, at: Time) {
    exists i :: ReturnsAt(start, events, i, pid, result, at)
  }

  lemma ReturnedBefore(start: Time, events: seq<Event>, e: Event, pid: Pid, result: HandlerResult, at: Time)
    requires Returned(start, events, pid, result, at)
    ensures Returned(start, events + [e], pid, result, at)
  {
    var i :| ReturnsAt(start, events, i, pid, result, at);
    assert (events + [e])[..i] == events[..i];
    assert ReturnsAt(start, events + [e], i, pid, result, at);
  }

  lemma ReturnsNow(start: Time, events: seq<Event>, pid: Pid, result: HandlerResult, at: Time)
    requires ReturnsAt(start, events + [Return(pid, result)], |events|, pid, result, at)
    ensures Returned(start, events + [Return(pid, result)], pid, result, at)
  {
  }

  predicate AfterReturn(stage: Stage) {
    stage.Succeeding? || stage.Cancelling? || stage.Errored? || stage.Failing? || stage.Done?
  }

  /** The stages that carry a result got it from a return of the handler, which is a step of
      its own, and nothing calls the handler again. */
  ghost predicate StageFollows(s: System, s': System, e: Event, pid: Pid) {
    && pid in s.deliveries && pid in s'.deliveries
    && var a, b := s.deliveries[pid].stage, s'.deliveries[pid].stage;
       && (AfterReturn(a) ==> AfterReturn(b))
       && (e.Return? && e.pid == pid && a.Handling? ==> AfterReturn(b))
       && (b.Succeeding? ==> a == b || (a.Handling? && e == Return(pid, HandlerOk(b.rows)) && b.finishedAt == s.now))
       && (b.Cancelling? ==> a == b || (a.Handling? && e == Return(pid, ContextEnded) && b.finishedAt == s.now))
  }

  lemma ClaimFollows(s: System, e: Event)
    requires e.Claim? && ClaimStep(s, e) != s
    ensures Moves(s, ClaimStep(s, e), e.pid) && StageFollows(s, ClaimStep(s, e), e, e.pid)
    ensures ClaimStep(s, e).finishes == s.finishes
  {
  }

  lemma CallersFollow(s: System, e: Event)
    requires (e.ReadExecution? || e.Handle?) && ClaimStep(s, e) != s
    ensures Moves(s, ClaimStep(s, e), e.pid) && StageFollows(s, ClaimStep(s, e), e, e.pid)
    ensures ClaimStep(s, e).finishes == s.finishes
  {
  }

  lemma ReturnFollows(s: System, e: Event)
    requires (e.Return? || e.HandleFailure?) && ResultStep(s, e) != s
    ensures Moves(s, ResultStep(s, e), e.pid) && StageFollows(s, ResultStep(s, e), e, e.pid)
    ensures ResultStep(s, e).finishes == s.finishes
  {
  }

  /** The end that a result leads to, and the row it leaves. */
  ghost predicate EndOf(stage: Stage, f: Finish, row: Execution, pid: Pid) {
    && f.writer == ByHandler(pid) && f.status == row.status
    && match stage
       case Succeeding(rows, _, at) =>
         f.status == Succeeded && row.processedRows == rows && row.finishedAt == Some(at) && row.errorSummary.None?
       case Cancelling(at) => f.status == TaskRows.Cancelled && row.finishedAt == Some(at)
       case _ => false
  }

  lemma WritersFollow(s: System, e: Event)
    requires (e.WriteResult? || e.WriteFailure?) && ResultStep(s, e) != s
    ensures Moves(s, ResultStep(s, e), e.pid) && StageFollows(s, ResultStep(s, e), e, e.pid)
  {
  }

  /** A step that records an end at all records this one. */
  ghost predicate Records(s: System, s': System, f: Finish) {
    s'.finishes == s.finishes || s'.finishes == s.finishes + [f]
  }

  lemma ResultIsRecorded(s: System, e: Event) returns (f: Finish)
    requires e.WriteResult?
    ensures Records(s, ResultStep(s, e), f)
    ensures ResultStep(s, e).finishes != s.finishes ==>
              && e.pid in s.deliveries && f.execution in ResultStep(s, e).db.executions
              && EndOf(s.deliveries[e.pid].stage, f, ResultStep(s, e).db.executions[f.execution], e.pid)
  {
    var s' := ResultStep(s, e);
    f := if |s'.finishes| > |s.finishes| then s'.finishes[|s.finishes|] else Finish(0, 0, Failed, BySubmitter);
  }

  lemma FailureIsRecorded(s: System, e: Event) returns (f: Finish)
    requires e.WriteFailure?
    ensures Records(s, ResultStep(s, e), f) && f.status == Failed && !f.writer.ByHandler?
  {
    var s' := ResultStep(s, e);
    f := if |s'.finishes| > |s.finishes| then s'.finishes[|s.finishes|] else Finish(0, 0, Failed, BySubmitter);
  }

  lemma OthersReturnNothing(s: System, e: Event)
    requires !e.ReadExecution? && !e.Claim? && !e.Handle?
    requires !e.Return? && !e.WriteResult? && !e.HandleFailure? && !e.WriteFailure?
    ensures forall pid :: pid in s.deliveries ==> pid in Step(s, e).deliveries && Step(s, e).deliveries[pid] == s.deliveries[pid]
    ensures forall pid :: pid in Step(s, e).deliveries && pid !in s.deliveries ==> Step(s, e).deliveries[pid].stage.Received?
    ensures forall f :: f in Step(s, e).finishes && f !in s.finishes ==> f.writer.BySubmitter? && f.status.Failed?
  {
  }

  // ----- The invariant, on the run and its events -----

  ghost predicate StageReturned(start: Time, events: seq<Event>, pid: Pid, stage: Stage) {
    match stage
    case Succeeding(rows, _, at) => Returned(start, events, pid, HandlerOk(rows), at)
    case Cancelling(at) => Returned(start, events, pid, ContextEnded, at)
    case _ => true
  }

  /** A handler's end says what the handler returned, and when; any other end is a failure. */
  ghost predicate EndReturned(start: Time, events: seq<Event>, s: System, f: Finish) {
    && f.execution in s.db.executions
    && var row := s.db.executions[f.execution];
       match f.writer
       case ByHandler(pid) =>
         row.finishedAt.Some? &&
         (|| (f.status.Succeeded? && row.errorSummary.None? && Returned(start, events, pid, HandlerOk(row.processedRows), row.finishedAt.value))
          || (f.status.Cancelled? && Returned(start, events, pid, ContextEnded, row.finishedAt.value)))
       case _ => f.status.Failed?
  }

  ghost predicate ResultInv(start: Time, events: seq<Event>, s: System) {
    && (forall pid :: pid in s.deliveries ==> StageReturned(start, events, pid, s.deliveries[pid].stage))
    && (forall pid, result, at :: Returned(start, events, pid, result, at) ==>
          pid in s.deliveries && AfterReturn(s.deliveries[pid].stage))
    && (forall f :: f in s.finishes ==> EndReturned(start, events, s, f))
  }

  /** What one event adds to the returns. */
  lemma ReturnsOfMore(start: Time, events: seq<Event>, e: Event, pid: Pid, result: HandlerResult, at: Time)
    requires Returned(start, events + [e], pid, result, at)
    ensures var s := Run(Initial(start), events);
            || Returned(start, events, pid, result, at)
            || (e == Return(pid, result) && pid in s.deliveries && s.deliveries[pid].stage.Handling? && s.now == at)
  {
    var i :| ReturnsAt(start, events + [e], i, pid, result, at);
    if i < |events| {
      assert (events + [e])[..i] == events[..i];
      assert ReturnsAt(start, events, i, pid, result, at);
    } else {
      assert (events + [e])[..i] == events;
    }
  }

  lemma StagesStayReturned(start: Time, events: seq<Event>, e: Event, pid: Pid)
    requires var s := Run(Initial(start), events);
             && ResultInv(start, events, s)
             && (pid in s.deliveries ==> StageFollows(s, Step(s, e), e, pid))
             && (pid !in s.deliveries ==> pid in Step(s, e).deliveries && Step(s, e).deliveries[pid].stage.Received?)
    ensures StageReturned(start, events + [e], pid, Step(Run(Initial(start), events), e).deliveries[pid].stage)
  {
    var s := Run(Initial(start), events);
    if pid in s.deliveries {
      var a, b := s.deliveries[pid].stage, Step(s, e).deliveries[pid].stage;
      if a == b {
        assert StageReturned(start, events, pid, a);
        match a {
          case Succeeding(rows, _, at) => ReturnedBefore(start, events, e, pid, HandlerOk(rows), at);
          case Cancelling(at) => ReturnedBefore(start, events, e, pid, ContextEnded, at);
          case _ =>
        }
      } else if b.Succeeding? || b.Cancelling? {
        assert (events + [e])[..|events|] == events;
        ReturnsNow(start, events, pid, e.result, s.now);
      }
    }
  }

  lemma EndsStayReturned(start: Time, events: seq<Event>, e: Event, s: System, s': System, f: Finish)
    requires EndReturned(start, events, s, f) && Terminal(s.db.executions[f.execution].status) && RowAdvances(s.db, s'.db, f.execution)
    ensures EndReturned(start, events + [e], s', f)
  {
    var row := s.db.executions[f.execution];
    if f.writer.ByHandler? {
      if f.status.Succeeded? {
        ReturnedBefore(start, events, e, f.writer.pid, HandlerOk(row.processedRows), row.finishedAt.value);
      } else {
        ReturnedBefore(start, events, e, f.writer.pid, ContextEnded, row.finishedAt.value);
      }
    }
  }

  ghost predicate AllFollow(s: System, s': System, e: Event) {
    && (forall pid :: pid in s.deliveries ==> StageFollows(s, s', e, pid))
    && (forall pid :: pid in s'.deliveries && pid !in s.deliveries ==> s'.deliveries[pid].stage.Received?)
  }

  lemma OneFollows(s: System, s': System, e: Event, pid: Pid)
    requires Moves(s, s', pid) && StageFollows(s, s', e, pid) && (e.Return? ==> e.pid == pid)
    ensures AllFollow(s, s', e)
  {
  }

  /** The stages of all deliveries follow, whatever the step. */
  lemma StagesFollow(s: System, e: Event)
    ensures AllFollow(s, Step(s, e), e)
  {
    var s' := Step(s, e);
    if s' != s {
      match e
      case ReadExecution(pid, _) => CallersFollow(s, e); OneFollows(s, s', e, pid);
      case Claim(pid, _) => ClaimFollows(s, e); OneFollows(s, s', e, pid);
      case Handle(pid, _) => CallersFollow(s, e); OneFollows(s, s', e, pid);
      case Return(pid, _) => ReturnFollows(s, e); OneFollows(s, s', e, pid);
      case HandleFailure(pid, _) => ReturnFollows(s, e); OneFollows(s, s', e, pid);
      case WriteResult(pid, _, _) => WritersFollow(s, e); OneFollows(s, s', e, pid);
      case WriteFailure(pid, _, _) => WritersFollow(s, e); OneFollows(s, s', e, pid);
      case _ => OthersReturnNothing(s, e);
    } else if e.Return? {
      NothingReturned(s, e);
    }
  }

  /** A return that changes nothing is not one of a handler that was called. */
  lemma NothingReturned(s: System, e: Event)
    requires e.Return? && ResultStep(s, e) == s
    ensures e.pid in s.deliveries ==> !s.deliveries[e.pid].stage.Handling?
  {
  }

  lemma NewEndsAreReturned(start: Time, events: seq<Event>, e: Event, f: Finish)
    requires var s := Run(Initial(start), events);
             && Inv(s) && Inv(Step(s, e)) && ResultInv(start, events, s) && f in Step(s, e).finishes && f !in s.finishes
    ensures EndReturned(start, events + [e], Step(Run(Initial(start), events), e), f)
  {
    var s := Run(Initial(start), events);
    var s' := Step(s, e);
    assert FinishOk(s', f);
    if e.WriteResult? {
      var g := ResultIsRecorded(s, e);
      assert f == g;
      assert StageReturned(start, events, e.pid, s.deliveries[e.pid].stage);
      match s.deliveries[e.pid].stage {
        case Succeeding(rows, _, at) => ReturnedBefore(start, events, e, e.pid, HandlerOk(rows), at);
        case Cancelling(at) => ReturnedBefore(start, events, e, e.pid, ContextEnded, at);
        case _ =>
      }
    } else if e.WriteFailure? {
      var g := FailureIsRecorded(s, e);
      assert f == g;
    } else {
      OnlyWritersRecord(s, e);
    }
  }

  lemma OnlyWritersRecord(s: System, e: Event)
    requires !e.WriteResult? && !e.WriteFailure?
    ensures forall f :: f in Step(s, e).finishes && f !in s.finishes ==> f.writer.BySubmitter? && f.status.Failed?
  {
    if Step(s, e) != s {
      match e
      case ReadExecution(_, _) => CallersFollow(s, e);
      case Claim(_, _) => ClaimFollows(s, e);
      case Handle(_, _) => CallersFollow(s, e);
      case Return(_, _) => ReturnFollows(s, e);
      case HandleFailure(_, _) => ReturnFollows(s, e);
      case _ => OthersReturnNothing(s, e);
    }
  }

  lemma StepKeepsResults(start: Time, events: seq<Event>, e: Event)
    requires var s := Run(Initial(start), events); Inv(s) && ResultInv(start, events, s)
    ensures ResultInv(start, events + [e], Step(Run(Initial(start), events), e))
  {
    var s := Run(Initial(start), events);
    var s' := Step(s, e);
    StepAdvances(s, e);
    StagesFollow(s, e);
    forall pid | pid in s'.deliveries ensures StageReturned(start, events + [e], pid, s'.deliveries[pid].stage) {
      StagesStayReturned(start, events, e, pid);
    }
    forall pid, result, at | Returned(start, events + [e], pid, result, at)
      ensures pid in s'.deliveries && AfterReturn(s'.deliveries[pid].stage)
    {
      ReturnsOfMore(start, events, e, pid, result, at);
      assert pid in s.deliveries && StageFollows(s, s', e, pid);
    }
    forall f | f in s'.finishes ensures EndReturned(start, events + [e], s', f) {
      if f in s.finishes {
        assert FinishOk(s, f) && RowAdvances(s.db, s'.db, f.execution);
        EndsStayReturned(start, events, e, s, s', f);
      } else {
        NewEndsAreReturned(start, events, e, f);
      }
    }
  }

  lemma {:induction false} RunKeepsResults(start: Time, events: seq<Event>)
    ensures ResultInv(start, events, Run(Initial(start), events))
  {
    if events != [] {
      var before, e := events[..|events| - 1], events[|events| - 1];
      RunKeepsResults(start, before);
      RunKeepsInv(start, before);
      StepKeepsResults(start, before, e);
      assert before + [e] == events;
    }
  }

  /** A delivery's handler returns once. */
  lemma ReturnsOnce(start: Time, events: seq<Event>, i: nat, j: nat, pid: Pid, r1: HandlerResult, r2: HandlerResult, t1: Time, t2: Time)
    requires ReturnsAt(start, events, i, pid, r1, t1) && ReturnsAt(start, events, j, pid, r2, t2)
    ensures i == j && r1 == r2 && t1 == t2
  {
    if i < j {
      ReturnedOnceBefore(start, events, i, j, pid, r1, t1);
    } else if j < i {
      ReturnedOnceBefore(start, events, j, i, pid, r2, t2);
    }
  }

  lemma ReturnedOnceBefore(start: Time, events: seq<Event>, i: nat, j: nat, pid: Pid, result: HandlerResult, at: Time)
    requires ReturnsAt(start, events, i, pid, result, at) && i < j < |events|
    ensures pid in Run(Initial(start), events[..j]).deliveries
    ensures !Run(Initial(start), events[..j]).deliveries[pid].stage.Handling?
  {
    assert events[..j][..i] == events[..i];
    assert ReturnsAt(start, events[..j], i, pid, result, at);
    assert Returned(start, events[..j], pid, result, at);
    RunKeepsResults(start, events[..j]);
  }

  /** A terminal write by a delivery is a success exactly when its handler returned one, and
      then the row has the rows it counted and the time of its return; it is a cancellation
      exactly when the handler ended with its context. Failures are written by a failure
      handler or a submitter, and only by them. */
  lemma EndIsHandlersResult(start: Time, events: seq<Event>, f: Finish)
    requires f in Run(Initial(start), events).finishes
    ensures f.execution in Run(Initial(start), events).db.executions
    ensures var row := Run(Initial(start), events).db.executions[f.execution];
            match f.writer
            case ByHandler(pid) =>
              && row.finishedAt.Some?
              && (f.status.Succeeded? <==> exists rows, at :: Returned(start, events, pid, HandlerOk(rows), at))
              && (f.status.Succeeded? ==> Returned(start, events, pid, HandlerOk(row.processedRows), row.finishedAt.value))
              && (f.status.Cancelled? <==> exists at :: Returned(start, events, pid, ContextEnded, at))
              && !f.status.Failed?
            case _ => f.status.Failed?
  {
    RunKeepsResults(start, events);
    assert EndReturned(start, events, Run(Initial(start), events), f);
    if f.writer.ByHandler? {
      var pid := f.writer.pid;
      forall rows, at, at' | Returned(start, events, pid, HandlerOk(rows), at) && Returned(start, events, pid, ContextEnded, at')
        ensures false
      {
        var i :| ReturnsAt(start, events, i, pid, HandlerOk(rows), at);
        var j :| ReturnsAt(start, events, j, pid, ContextEnded, at');
        ReturnsOnce(start, events, i, j, pid, HandlerOk(rows), ContextEnded, at, at');
      }
    }
  }
}
