/** No submission that reached its outbox is lost, whatever the publishers, the
    dispatchers, the workers and the queue do. */
module TaskLoss {
  import opened Common
  import opened TaskRows
  import opened TaskProtocol

  /** A submission keeps its outbox row; once that row is marked published, or the
      execution is no longer queued, the queue has accepted the task. */
  ghost predicate SubmissionSafe(s: System, id: ExecutionId) {
    && id in s.db.executions
    && var q := s.db.executions[id].queueId;
       && q in s.db.outbox && s.db.outbox[q].execution == id
       && (s.db.outbox[q].publishedAt.Some? ==> q in s.accepted)
       && (!s.db.executions[id].status.Queued? ==> q in s.accepted)
  }

  ghost predicate NothingLost(s: System) {
    forall id :: id in s.submitted ==> SubmissionSafe(s, id)
  }

  ghost predicate OutboxOk(s: System, q: QueueId) {
    && q in s.db.outbox
    && var id := s.db.outbox[q].execution;
       id in s.submitted && id in s.db.executions && s.db.executions[id].queueId == q
  }

  ghost predicate SubmitterOk(s: System, p: Submitter) {
    match p
    case Publishing(q) => q in s.db.outbox
    case Marking(q) => q in s.accepted
    case DirectPublishing(id, _) => id in s.db.executions && id !in s.submitted
    case DirectFailing(id) => id in s.db.executions && id !in s.submitted
  }

  ghost predicate ListedOk(s: System, p: PendingPublish) {
    p.queueId in s.db.outbox && (!p.status.Queued? ==> p.queueId in s.accepted)
  }

  ghost predicate DispatcherOk(s: System, d: Dispatcher) {
    && (forall p :: p in d.list ==> ListedOk(s, p))
    && (d.settled && d.list != [] ==> d.list[0].queueId in s.accepted)
  }

  ghost predicate DeliveryOk(s: System, d: Delivery) {
    var id := d.message.execution;
    id in s.db.executions && s.db.executions[id].queueId in s.accepted
  }

  ghost predicate RowsOk(s: System) {
    NothingLost(s) && forall q :: q in s.db.outbox ==> OutboxOk(s, q)
  }

  ghost predicate ProcessesOk(s: System) {
    && (forall pid :: pid in s.submitters ==> SubmitterOk(s, s.submitters[pid]))
    && (forall pid :: pid in s.dispatchers ==> DispatcherOk(s, s.dispatchers[pid]))
    && (forall pid :: pid in s.deliveries ==> DeliveryOk(s, s.deliveries[pid]))
  }

  ghost predicate LossInv(s: System) {
    RowsOk(s) && ProcessesOk(s)
  }

  /** What no step takes back. */
  ghost predicate Grows(s: System, s': System) {
    && s.accepted <= s'.accepted
    && s.db.outbox.Keys <= s'.db.outbox.Keys
    && (forall id :: id in s.db.executions ==>
          && id in s'.db.executions
          && s'.db.executions[id].queueId == s.db.executions[id].queueId
          && (id in s'.submitted <==> id in s.submitted))
  }

  /** Whatever a step does to the rows, the processes it leaves alone stay right. */
  lemma GrowthKeepsProcesses(s: System, s': System)
    requires ProcessesOk(s) && Grows(s, s')
    requires forall pid :: pid in s'.submitters ==>
               || (pid in s.submitters && s'.submitters[pid] == s.submitters[pid])
               || SubmitterOk(s', s'.submitters[pid])
    requires forall pid :: pid in s'.dispatchers ==>
               || (pid in s.dispatchers && s'.dispatchers[pid] == s.dispatchers[pid])
               || DispatcherOk(s', s'.dispatchers[pid])
    requires forall pid :: pid in s'.deliveries ==>
               || (pid in s.deliveries && s'.deliveries[pid].message == s.deliveries[pid].message)
               || DeliveryOk(s', s'.deliveries[pid])
    ensures ProcessesOk(s')
  {
  }

  /** The rows stay right when an execution leaves the queued status, or an outbox row
      is marked, only after the queue accepted the task. */
  lemma UpdatesKeepRows(s: System, s': System)
    requires RowsOk(s) && Grows(s, s') && s'.submitted == s.submitted
    requires s'.db.outbox.Keys == s.db.outbox.Keys
    requires forall q :: q in s.db.outbox ==>
               && s'.db.outbox[q].execution == s.db.outbox[q].execution
               && (s'.db.outbox[q].publishedAt == s.db.outbox[q].publishedAt || q in s'.accepted)
    requires forall id :: id in s.submitted && id in s.db.executions ==>
               || s'.db.executions[id].status == s.db.executions[id].status
               || s.db.executions[id].queueId in s'.accepted
    ensures RowsOk(s')
  {
  }

  lemma MarkingKeepsRows(s: System, s': System, q: QueueId, now: Time)
    requires LossInv(s) && q in s.accepted
    requires s' == s.(db := Marked(s.db, q, now), submitters := s'.submitters, dispatchers := s'.dispatchers)
    ensures Grows(s, s') && RowsOk(s')
  {
  }

  lemma SubmitKeepsNothingLost(s: System, e: Event)
    requires LossInv(s) && e.Submit?
    ensures LossInv(Step(s, e))
  {
    var s' := Step(s, e);
    if s' == s { return; }
    assert Grows(s, s');
    forall id | id in s'.submitted ensures SubmissionSafe(s', id) {
      if id in s.submitted { assert SubmissionSafe(s, id); }
    }
    forall q | q in s'.db.outbox ensures OutboxOk(s', q) {
      if q in s.db.outbox { assert OutboxOk(s, q); }
    }
    GrowthKeepsProcesses(s, s');
  }

  lemma SubmitterKeepsNothingLost(s: System, e: Event)
    requires LossInv(s) && (e.PublishSubmission? || e.MarkSubmission?)
    ensures LossInv(Step(s, e))
  {
  }

  lemma SubmitDirectlyKeepsNothingLost(s: System, e: Event)
    requires LossInv(s) && e.SubmitDirectly?
    ensures LossInv(Step(s, e))
  {
    var s' := Step(s, e);
    if s' == s { return; }
    assert forall id :: id in s.submitted ==> SubmissionSafe(s, id);
    assert Grows(s, s');
    UpdatesKeepRows(s, s');
    GrowthKeepsProcesses(s, s');
  }

  lemma PublishDirectlyKeepsNothingLost(s: System, e: Event)
    requires LossInv(s) && e.PublishDirectly?
    ensures LossInv(Step(s, e))
  {
  }

  lemma FailSubmissionKeepsNothingLost(s: System, e: Event)
    requires LossInv(s) && e.FailSubmission?
    ensures LossInv(Step(s, e))
  {
    var s' := Step(s, e);
    if s' == s { return; }
    assert SubmitterOk(s, s.submitters[e.pid]);
    UpdatesKeepRows(s, s');
    GrowthKeepsProcesses(s, s');
  }

  lemma ListingKeepsNothingLost(s: System, e: Event)
    requires LossInv(s) && e.ListPending?
    ensures LossInv(Step(s, e))
  {
  }

  lemma DispatcherKeepsNothingLost(s: System, e: Event)
    requires LossInv(s) && (e.DispatchPublish? || e.DispatchMark?)
    ensures LossInv(Step(s, e))
  {
    var s' := Step(s, e);
    if s' == s { return; }
    var d := s.dispatchers[e.pid];
    assert DispatcherOk(s, d) && d.list[0] in d.list && ListedOk(s, d.list[0]);
    if e.DispatchMark? && Reached(e.reply) {
      MarkingKeepsRows(s, s', d.list[0].queueId, s.now);
    } else {
      UpdatesKeepRows(s, s');
    }
    if e.pid in s'.dispatchers {
      assert forall p :: p in s'.dispatchers[e.pid].list ==> p in d.list;
      assert forall p :: ListedOk(s, p) ==> ListedOk(s', p);
      assert DispatcherOk(s', s'.dispatchers[e.pid]);
    }
    GrowthKeepsProcesses(s, s');
  }

  /** A worker changes no row, or the row of its own message. */
  ghost predicate WritesItsRow(s: System, s': System, id: ExecutionId) {
    || s'.db == s.db
    || (&& id in s.db.executions && id in s'.db.executions
        && s'.db.executions[id].queueId == s.db.executions[id].queueId
        && s'.db == s.db.(executions := s.db.executions[id := s'.db.executions[id]]))
  }

  ghost predicate WorksOn(s: System, s': System, pid: Pid) {
    && pid in s.deliveries && pid in s'.deliveries
    && s'.deliveries[pid].message == s.deliveries[pid].message
    && WritesItsRow(s, s', s.deliveries[pid].message.execution)
    && s'.deliveries == s.deliveries[pid := s'.deliveries[pid]]
    && s' == s.(db := s'.db, deliveries := s'.deliveries, claims := s'.claims,
                handled := s'.handled, finishes := s'.finishes)
  }

  lemma ReaderWorksOnItsRow(s: System, e: Event)
    requires e.ReadExecution? || e.Handle?
    requires ClaimStep(s, e) != s
    ensures WorksOn(s, ClaimStep(s, e), e.pid)
  {
  }

  lemma ClaimerWorksOnItsRow(s: System, e: Event)
    requires e.Claim?
    requires ClaimStep(s, e) != s
    ensures WorksOn(s, ClaimStep(s, e), e.pid)
  {
  }

  /** A stage and a row are all that finishing changes. */
  lemma FinishingWorksOnItsRow(s: System, pid: Pid, row: Option<Execution>, status: Status, stage: Stage)
    requires pid in s.deliveries
    requires row.Some? ==>
               && s.deliveries[pid].message.execution in s.db.executions
               && row.value.queueId == s.db.executions[s.deliveries[pid].message.execution].queueId
    ensures WorksOn(s, Staged(s, pid, stage), pid)
    ensures WorksOn(s, Staged(Finished(s, s.deliveries[pid].message, row, status, ByHandler(pid)), pid, stage), pid)
  {
  }

  lemma FinisherWorksOnItsRow(s: System, e: Event)
    requires e.WriteResult? && ResultStep(s, e) != s
    ensures WorksOn(s, ResultStep(s, e), e.pid)
  {
    var d, stage := s.deliveries[e.pid], ResultStep(s, e).deliveries[e.pid].stage;
    var status := if d.stage.Succeeding? then Succeeded else TaskRows.Cancelled;
    var u := if d.stage.Succeeding? then Finishing(d.message, Succeeded, Some(d.stage.startedAt), d.stage.finishedAt, d.stage.rows, "")
             else Finishing(d.message, TaskRows.Cancelled, None, d.stage.finishedAt, 0, e.summary);
    FinishingWorksOnItsRow(s, e.pid, UpdateIn(s.db, d.message.execution, u), status, stage);
  }

  lemma FailerWorksOnItsRow(s: System, e: Event)
    requires (e.Return? || e.HandleFailure? || e.WriteFailure?) && ResultStep(s, e) != s
    ensures WorksOn(s, ResultStep(s, e), e.pid)
  {
  }

  lemma WorkKeepsNothingLost(s: System, s': System, pid: Pid)
    requires LossInv(s) && WorksOn(s, s', pid)
    ensures LossInv(s')
  {
  }

  lemma DeliverKeepsNothingLost(s: System, e: Event)
    requires LossInv(s) && e.Deliver?
    ensures LossInv(Step(s, e))
  {
  }

  lemma StepKeepsLossInv(s: System, e: Event)
    requires LossInv(s)
    ensures LossInv(Step(s, e))
  {
    if Step(s, e) != s {
      match e
      case Deliver(_, _) => DeliverKeepsNothingLost(s, e);
      case ReadExecution(_, _) => ReaderWorksOnItsRow(s, e); WorkKeepsNothingLost(s, Step(s, e), e.pid);
      case Claim(_, _) => ClaimerWorksOnItsRow(s, e); WorkKeepsNothingLost(s, Step(s, e), e.pid);
      case Handle(_, _) => ReaderWorksOnItsRow(s, e); WorkKeepsNothingLost(s, Step(s, e), e.pid);
      case Return(_, _) => FailerWorksOnItsRow(s, e); WorkKeepsNothingLost(s, Step(s, e), e.pid);
      case WriteResult(_, _, _) => FinisherWorksOnItsRow(s, e); WorkKeepsNothingLost(s, Step(s, e), e.pid);
      case HandleFailure(_, _) => FailerWorksOnItsRow(s, e); WorkKeepsNothingLost(s, Step(s, e), e.pid);
      case WriteFailure(_, _, _) => FailerWorksOnItsRow(s, e); WorkKeepsNothingLost(s, Step(s, e), e.pid);
      case Submit(_, _, _, _) => SubmitKeepsNothingLost(s, e);
      case PublishSubmission(_, _) => SubmitterKeepsNothingLost(s, e);
      case MarkSubmission(_, _) => SubmitterKeepsNothingLost(s, e);
      case SubmitDirectly(_, _, _, _) => SubmitDirectlyKeepsNothingLost(s, e);
      case PublishDirectly(_, _) => PublishDirectlyKeepsNothingLost(s, e);
      case FailSubmission(_, _, _) => FailSubmissionKeepsNothingLost(s, e);
      case ListPending(_, _) => ListingKeepsNothingLost(s, e);
      case Tick(_) =>
        UpdatesKeepRows(s, Step(s, e));
        GrowthKeepsProcesses(s, Step(s, e));
      case _ => DispatcherKeepsNothingLost(s, e);
    }
  }

  lemma {:induction false} RunKeepsLossInv(start: Time, events: seq<Event>)
    ensures LossInv(Run(Initial(start), events))
  {
    if events != [] {
      RunKeepsLossInv(start, events[..|events| - 1]);
      StepKeepsLossInv(Run(Initial(start), events[..|events| - 1]), events[|events| - 1]);
    }
  }

  /** In every reachable state a queued submission waits in the outbox or was accepted by
      the queue, and an outbox row marked published stands for an accepted task. */
  lemma {:induction false} NoSubmissionIsLost(start: Time, events: seq<Event>, id: ExecutionId)
    ensures var s := Run(Initial(start), events);
            && (id in s.submitted ==>
                  && id in s.db.executions
                  && (Pending(s.db, s.db.executions[id].queueId) || s.db.executions[id].queueId in s.accepted))
            && (forall q :: q in s.db.outbox && s.db.outbox[q].publishedAt.Some? ==> q in s.accepted)
  {
    var s := Run(Initial(start), events);
    RunKeepsLossInv(start, events);
    if id in s.submitted { assert SubmissionSafe(s, id); }
    forall q | q in s.db.outbox && s.db.outbox[q].publishedAt.Some? ensures q in s.accepted {
      assert OutboxOk(s, q) && SubmissionSafe(s, s.db.outbox[q].execution);
    }
  }
}
