/** Submitters, dispatchers, workers and an unreliable queue, step by step:
    pkg/modules/task/service.go and pkg/platform/queue/asynq.go over the statements of
    TaskRows. The queue may deliver anything it ever accepted, any number of times, with
    any retry count, and may forget that it did. */
module TaskProtocol {
  import opened Common
  import opened TaskRows

  type Pid = nat

  /** A submitter between two of its calls. */
  datatype Submitter =
    | Publishing(queueId: QueueId)
    | Marking(queueId: QueueId)
    | DirectPublishing(execution: ExecutionId, queueId: QueueId)
    | DirectFailing(execution: ExecutionId)

  /** One row of the list a dispatcher read, with the execution status it saw. */
  datatype PendingPublish = PendingPublish(queueId: QueueId, status: Status)

  /** The rest of the list, and whether its first row may be marked now. */
  datatype Dispatcher = Dispatcher(list: seq<PendingPublish>, settled: bool)

  /** A delivered message. `attempt` is the retry count plus one, and `last` says that
      the retry count has reached the maximum of the task. */
  datatype Message = Message(execution: ExecutionId, attempt: int, last: bool)

  /** How far Process, or the failure handler after it, has come, with the times read off
      the clock on the way. The queue drops a revoked task, while any other error is
      retried or, at the last retry, recorded as a failure. */
  datatype Stage =
    | Received
    | Validated(startedAt: Time)
    | Claimed(startedAt: Time)
    | Handling(startedAt: Time)
    | Succeeding(rows: int, startedAt: Time, finishedAt: Time)
    | Cancelling(finishedAt: Time)
    | Errored(revoked: bool)
    | Failing(finishedAt: Time)
    | Done

  datatype Delivery = Delivery(message: Message, stage: Stage)

  datatype Writer = ByHandler(pid: Pid) | ByFailureHandler(pid: Pid) | BySubmitter

  datatype Finish = Finish(execution: ExecutionId, attempt: int, status: Status, writer: Writer)

  /** The last four fields are history: which executions went through the outbox, which
      delivery claimed which attempt, which handler calls were made, and which writes
      of a terminal status committed. */
  datatype System = System(
    db: Database,
    accepted: set<QueueId>,
    submitters: map<Pid, Submitter>,
    dispatchers: map<Pid, Dispatcher>,
    deliveries: map<Pid, Delivery>,
    now: Time,
    submitted: set<ExecutionId>,
    claims: map<(ExecutionId, int), Pid>,
    handled: seq<(ExecutionId, int)>,
    finishes: seq<Finish>)

  /** What enqueueing answers. A conflict of task IDs can only come from a task with this
      ID, and IDs are never reused; a failed call may have arrived all the same. */
  datatype QueueReply = Enqueued | IdConflict | DuplicateTask | QueueFailure(arrived: bool)

  /** What a database write answers: it may commit although its caller sees an error. */
  datatype DbReply = Executed | ReplyLost | NotExecuted

  /** How the handler ends: with a result, with its cancelled context's error, or with
      another error, which may also read as a cancellation. */
  datatype HandlerResult = HandlerOk(rows: int) | ContextEnded | HandlerError(revoked: bool)

  datatype Event =
    | Tick(delay: nat)
    | Submit(pid: Pid, execution: ExecutionId, queueId: QueueId, maxRetries: nat)
    | PublishSubmission(pid: Pid, answer: QueueReply)
    | MarkSubmission(pid: Pid, reply: DbReply)
    | SubmitDirectly(pid: Pid, execution: ExecutionId, queueId: QueueId, maxRetries: nat)
    | PublishDirectly(pid: Pid, answer: QueueReply)
    | FailSubmission(pid: Pid, reply: DbReply, summary: string)
    | ListPending(pid: Pid, ids: seq<QueueId>)
    | DispatchPublish(pid: Pid, answer: QueueReply)
    | DispatchMark(pid: Pid, reply: DbReply)
    | Deliver(pid: Pid, message: Message)
    | ReadExecution(pid: Pid, failed: bool)
    | Claim(pid: Pid, reply: DbReply)
    | Handle(pid: Pid, registered: bool)
    | Return(pid: Pid, result: HandlerResult)
    | WriteResult(pid: Pid, reply: DbReply, summary: string)
    | HandleFailure(pid: Pid, failed: bool)
    | WriteFailure(pid: Pid, reply: DbReply, summary: string)

  function Initial(start: Time): System {
    System(Database(map[], map[]), {}, map[], map[], map[], start, {}, map[], [], [])
  }

  predicate Possible(accepted: set<QueueId>, queueId: QueueId, reply: QueueReply) {
    reply.IdConflict? ==> queueId in accepted
  }

  function AcceptedAfter(accepted: set<QueueId>, queueId: QueueId, reply: QueueReply): set<QueueId> {
    if reply.Enqueued? || (reply.QueueFailure? && reply.arrived) then accepted + {queueId} else accepted
  }

  /** Publish succeeds when the task was enqueued or is known to the queue already. */
  predicate PublishOk(reply: QueueReply) {
    reply.Enqueued? || reply.IdConflict?
  }

  predicate Reached(reply: DbReply) {
    !reply.NotExecuted?
  }

  // ----- Submitting and dispatching -----

  function SubmitterStep(s: System, e: Event): System
    requires e.Submit? || e.PublishSubmission? || e.MarkSubmission?
  {
    match e
    case Submit(pid, execution, queueId, maxRetries) =>
      if pid in s.submitters || execution in s.db.executions || queueId in UsedQueueIds(s) then s
      else s.(db := CreatedWithPendingPublish(s.db, execution, queueId, maxRetries, s.now),
              submitted := s.submitted + {execution},
              submitters := s.submitters[pid := Publishing(queueId)])
    case PublishSubmission(pid, reply) =>
      if pid !in s.submitters || !s.submitters[pid].Publishing? then s
      else
        var queueId := s.submitters[pid].queueId;
        if !Possible(s.accepted, queueId, reply) then s
        else s.(accepted := AcceptedAfter(s.accepted, queueId, reply),
                submitters := if PublishOk(reply) then s.submitters[pid := Marking(queueId)] else s.submitters - {pid})
    case MarkSubmission(pid, reply) =>
      if pid !in s.submitters || !s.submitters[pid].Marking? then s
      else s.(db := if Reached(reply) then Marked(s.db, s.submitters[pid].queueId, s.now) else s.db,
              submitters := s.submitters - {pid})
  }

  function UsedQueueIds(s: System): set<QueueId> {
    (set id | id in s.db.executions :: s.db.executions[id].queueId) + s.db.outbox.Keys
  }

  /** The branch of Submit for a store without an outbox. */
  function DirectStep(s: System, e: Event): System
    requires e.SubmitDirectly? || e.PublishDirectly? || e.FailSubmission?
  {
    match e
    case SubmitDirectly(pid, execution, queueId, maxRetries) =>
      if pid in s.submitters || execution in s.db.executions || queueId in UsedQueueIds(s) then s
      else s.(db := Created(s.db, execution, queueId, maxRetries),
              submitters := s.submitters[pid := DirectPublishing(execution, queueId)])
    case PublishDirectly(pid, reply) =>
      if pid !in s.submitters || !s.submitters[pid].DirectPublishing? then s
      else
        var p := s.submitters[pid];
        if !Possible(s.accepted, p.queueId, reply) then s
        else s.(accepted := AcceptedAfter(s.accepted, p.queueId, reply),
                submitters := if PublishOk(reply) then s.submitters - {pid}
                              else s.submitters[pid := DirectFailing(p.execution)])
    case FailSubmission(pid, reply, summary) =>
      if pid !in s.submitters || !s.submitters[pid].DirectFailing? then s
      else
        var execution := s.submitters[pid].execution;
        var row := UpdateIn(s.db, execution, Update(Failed, None, Some(s.now), summary, 0, 0, Queued, 0));
        var s' := s.(submitters := s.submitters - {pid});
        if row.None? || !Reached(reply) then s'
        else s'.(db := WithRow(s.db, execution, row),
                 finishes := s.finishes + [Finish(execution, 0, Failed, BySubmitter)])
  }

  function Snapshot(db: Database, ids: seq<QueueId>): seq<PendingPublish>
    requires forall k :: 0 <= k < |ids| ==> Pending(db, ids[k]) && db.outbox[ids[k]].execution in db.executions
  {
    seq(|ids|, k requires 0 <= k < |ids| && Pending(db, ids[k]) && db.outbox[ids[k]].execution in db.executions => PendingPublish(ids[k], db.executions[db.outbox[ids[k]].execution].status))
  }

  /** A dispatcher publishes a row its list shows as queued before marking it, and marks
      every other row without publishing; it stops at the first error it sees. */
  function DispatcherStep(s: System, e: Event): System
    requires e.ListPending? || e.DispatchPublish? || e.DispatchMark?
  {
    match e
    case ListPending(pid, ids) =>
      if pid in s.dispatchers then s
      else if exists k :: 0 <= k < |ids| && !(Pending(s.db, ids[k]) && s.db.outbox[ids[k]].execution in s.db.executions) then s
      else s.(dispatchers := s.dispatchers[pid := Dispatcher(Snapshot(s.db, ids), false)])
    case DispatchPublish(pid, reply) =>
      if pid !in s.dispatchers || s.dispatchers[pid].list == [] || s.dispatchers[pid].settled then s
      else
        var first := s.dispatchers[pid].list[0];
        if !first.status.Queued? || !Possible(s.accepted, first.queueId, reply) then s
        else s.(accepted := AcceptedAfter(s.accepted, first.queueId, reply),
                dispatchers := if PublishOk(reply) then s.dispatchers[pid := s.dispatchers[pid].(settled := true)]
                               else s.dispatchers - {pid})
    case DispatchMark(pid, reply) =>
      if pid !in s.dispatchers || s.dispatchers[pid].list == [] then s
      else
        var d := s.dispatchers[pid];
        if d.list[0].status.Queued? && !d.settled then s
        else s.(db := if Reached(reply) then Marked(s.db, d.list[0].queueId, s.now) else s.db,
                dispatchers := if reply.Executed? then s.dispatchers[pid := Dispatcher(d.list[1..], false)]
                               else s.dispatchers - {pid})
  }

  // ----- Processing -----

  function Staged(s: System, pid: Pid, stage: Stage): System
    requires pid in s.deliveries
  {
    s.(deliveries := s.deliveries[pid := s.deliveries[pid].(stage := stage)])
  }

  /** A delivery carries the retry count that the queue keeps, as an int32, and is the last
      one exactly when that has reached the task's own maximum. */
  predicate CanDeliver(s: System, m: Message) {
    && m.execution in s.db.executions
    && var row := s.db.executions[m.execution];
       && row.queueId in s.accepted
       && 1 <= m.attempt <= 0x8000_0000
       && (m.last <==> m.attempt - 1 >= row.maxRetries)
  }

  /** Deliver to Handle: Process up to the call of the handler. */
  function ClaimStep(s: System, e: Event): System
    requires e.Deliver? || e.ReadExecution? || e.Claim? || e.Handle?
  {
    match e
    case Deliver(pid, message) =>
      if pid in s.deliveries || !CanDeliver(s, message) then s
      else s.(deliveries := s.deliveries[pid := Delivery(message, Received)])
    case ReadExecution(pid, failed) =>
      if pid !in s.deliveries || !s.deliveries[pid].stage.Received? then s
      else
        var id := s.deliveries[pid].message.execution;
        if failed || id !in s.db.executions || !ValidTransition(s.db.executions[id].status, Running)
        then Staged(s, pid, Errored(false))
        else Staged(s, pid, Validated(s.now))
    case Claim(pid, reply) =>
      if pid !in s.deliveries || !s.deliveries[pid].stage.Validated? then s
      else
        var m := s.deliveries[pid].message;
        var row := ClaimIn(s.db, m.execution, m.attempt, s.deliveries[pid].stage.startedAt);
        if reply.NotExecuted? then Staged(s, pid, Errored(false))
        else if row.None? then Staged(s, pid, Errored(reply.Executed?))
        else
          Staged(s, pid, if reply.Executed? then Claimed(s.deliveries[pid].stage.startedAt) else Errored(false))
          .(db := WithRow(s.db, m.execution, row), claims := s.claims[(m.execution, Int32(m.attempt)) := pid])
    case Handle(pid, registered) =>
      if pid !in s.deliveries || !s.deliveries[pid].stage.Claimed? then s
      else if !registered then Staged(s, pid, Errored(false))
      else
        var m := s.deliveries[pid].message;
        Staged(s, pid, Handling(s.deliveries[pid].stage.startedAt)).(handled := s.handled + [(m.execution, Int32(m.attempt))])
  }

  /** A write of a terminal status for the running attempt of the message. */
  function Finishing(m: Message, status: Status, startedAt: Option<Time>, finishedAt: Time, rows: int, summary: string): Update {
    Update(status, startedAt, Some(finishedAt), summary, rows, m.attempt, Running, m.attempt)
  }

  function Finished(s: System, m: Message, row: Option<Execution>, status: Status, writer: Writer): System {
    if row.None? then s
    else s.(db := WithRow(s.db, m.execution, row),
            finishes := s.finishes + [Finish(m.execution, Int32(m.attempt), status, writer)])
  }

  /** Return to WriteFailure: the rest of Process, and the failure handler after it. */
  function ResultStep(s: System, e: Event): System
    requires e.Return? || e.WriteResult? || e.HandleFailure? || e.WriteFailure?
  {
    match e
    case Return(pid, result) =>
      if pid !in s.deliveries || !s.deliveries[pid].stage.Handling? then s
      else
        Staged(s, pid, match result
                       case HandlerOk(rows) => Succeeding(rows, s.deliveries[pid].stage.startedAt, s.now)
                       case ContextEnded => Cancelling(s.now)
                       case HandlerError(revoked) => Errored(revoked))
    case WriteResult(pid, reply, summary) =>
      if pid !in s.deliveries || !(s.deliveries[pid].stage.Succeeding? || s.deliveries[pid].stage.Cancelling?) then s
      else
        var d := s.deliveries[pid];
        var status := if d.stage.Succeeding? then Succeeded else TaskRows.Cancelled;
        var u := if d.stage.Succeeding? then Finishing(d.message, Succeeded, Some(d.stage.startedAt), d.stage.finishedAt, d.stage.rows, "")
                 else Finishing(d.message, TaskRows.Cancelled, None, d.stage.finishedAt, 0, summary);
        var row := UpdateIn(s.db, d.message.execution, u);
        var s' := if Reached(reply) then Finished(s, d.message, row, status, ByHandler(pid)) else s;
        // A cancellation, a conflict and success end the delivery; after any other
        // error the task is retried.
        if d.stage.Cancelling? || (reply.Executed? && row.Some?) then Staged(s', pid, Done)
        else Staged(s', pid, Errored(reply.Executed?))
    case HandleFailure(pid, failed) =>
      if pid !in s.deliveries || !s.deliveries[pid].stage.Errored? then s
      else
        var d := s.deliveries[pid];
        var id := d.message.execution;
        if d.stage.revoked || !d.message.last || failed || id !in s.db.executions
           || !ValidTransition(s.db.executions[id].status, Failed)
        then Staged(s, pid, Done)
        else Staged(s, pid, Failing(s.now))
    case WriteFailure(pid, reply, summary) =>
      if pid !in s.deliveries || !s.deliveries[pid].stage.Failing? then s
      else
        var m := s.deliveries[pid].message;
        var row := UpdateIn(s.db, m.execution, Finishing(m, Failed, None, s.deliveries[pid].stage.finishedAt, 0, summary));
        var s' := if Reached(reply) then Finished(s, m, row, Failed, ByFailureHandler(pid)) else s;
        Staged(s', pid, Done)
  }

  /** One atomic step of anyone. */
  function Step(s: System, e: Event): System {
    if e.Tick? then s.(now := s.now + e.delay)
    else if e.Submit? || e.PublishSubmission? || e.MarkSubmission? then SubmitterStep(s, e)
    else if e.SubmitDirectly? || e.PublishDirectly? || e.FailSubmission? then DirectStep(s, e)
    else if e.ListPending? || e.DispatchPublish? || e.DispatchMark? then DispatcherStep(s, e)
    else if e.Deliver? || e.ReadExecution? || e.Claim? || e.Handle? then ClaimStep(s, e)
    else ResultStep(s, e)
  }

  function Run(s: System, events: seq<Event>): System {
    if events == [] then s else Step(Run(s, events[..|events| - 1]), events[|events| - 1])
  }
}
