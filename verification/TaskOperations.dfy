/** What each operation of TaskProtocol does when nothing interrupts it, from any state. */
module TaskOperations {
  import opened Common
  import opened TaskRows
  import opened TaskProtocol

  /** One more step after some. */
  lemma Then(s: System, events: seq<Event>, e: Event, mid: System, s': System)
    requires Run(s, events) == mid && Step(mid, e) == s'
    ensures Run(s, events + [e]) == s'
  {
    assert (events + [e])[..|events|] == events;
  }

  lemma First(s: System, e: Event, s': System)
    requires Step(s, e) == s'
    ensures Run(s, [e]) == s'
  {
    assert [e][..0] == [];
    assert Run(s, []) == s;
  }

  lemma ThreeSteps(s: System, e1: Event, e2: Event, e3: Event)
    ensures Run(s, [e1, e2, e3]) == Step(Step(Step(s, e1), e2), e3)
  {
    First(s, e1, Step(s, e1));
    Then(s, [e1], e2, Step(s, e1), Step(Step(s, e1), e2));
    assert [e1] + [e2] == [e1, e2];
    Then(s, [e1, e2], e3, Step(Step(s, e1), e2), Step(Step(Step(s, e1), e2), e3));
    assert [e1, e2] + [e3] == [e1, e2, e3];
  }

  lemma FourSteps(s: System, e1: Event, e2: Event, e3: Event, e4: Event)
    ensures Run(s, [e1, e2, e3, e4]) == Step(Step(Step(Step(s, e1), e2), e3), e4)
  {
    ThreeSteps(s, e1, e2, e3);
    Then(s, [e1, e2, e3], e4, Step(Step(Step(s, e1), e2), e3), Step(Step(Step(Step(s, e1), e2), e3), e4));
    assert [e1, e2, e3] + [e4] == [e1, e2, e3, e4];
  }

  // ----- Submit -----

  function Accepted(s: System, pid: Pid, id: ExecutionId, queueId: QueueId, maxRetries: nat): System {
    s.(db := CreatedWithPendingPublish(s.db, id, queueId, maxRetries, s.now),
       accepted := s.accepted + {queueId}, submitted := s.submitted + {id},
       submitters := s.submitters[pid := Marking(queueId)])
  }

  /** The submission is stored, and then accepted by the queue. */
  lemma SubmissionIsAccepted(s: System, pid: Pid, id: ExecutionId, queueId: QueueId, maxRetries: nat)
    requires pid !in s.submitters && id !in s.db.executions && queueId !in UsedQueueIds(s)
    ensures Step(Step(s, Submit(pid, id, queueId, maxRetries)), PublishSubmission(pid, Enqueued)) ==
            Accepted(s, pid, id, queueId, maxRetries)
  {
    var s1 := SubmitterStep(s, Submit(pid, id, queueId, maxRetries));
    assert s1.submitters[pid := Marking(queueId)] == s.submitters[pid := Marking(queueId)];
  }

  lemma AcceptedIsMarked(s: System, pid: Pid, id: ExecutionId, queueId: QueueId, maxRetries: nat)
    ensures var s' := Step(Accepted(s, pid, id, queueId, maxRetries), MarkSubmission(pid, Executed));
            && s'.db == Database(s.db.executions[id := NewExecution(queueId, maxRetries)],
                                 s.db.outbox[queueId := OutboxRow(id, s.now, Some(s.now))])
            && s'.accepted == s.accepted + {queueId} && s'.submitted == s.submitted + {id}
  {
    var s' := SubmitterStep(Accepted(s, pid, id, queueId, maxRetries), MarkSubmission(pid, Executed));
    assert s'.db.outbox == s.db.outbox[queueId := OutboxRow(id, s.now, Some(s.now))];
  }

  /** A submission creates its row, is accepted, and is marked published. */
  lemma SubmissionIsPublished(s: System, pid: Pid, id: ExecutionId, queueId: QueueId, maxRetries: nat)
    requires pid !in s.submitters && id !in s.db.executions && queueId !in UsedQueueIds(s)
    ensures var s' := Run(s, [Submit(pid, id, queueId, maxRetries), PublishSubmission(pid, Enqueued), MarkSubmission(pid, Executed)]);
            && s'.db == Database(s.db.executions[id := NewExecution(queueId, maxRetries)],
                                 s.db.outbox[queueId := OutboxRow(id, s.now, Some(s.now))])
            && s'.accepted == s.accepted + {queueId} && s'.submitted == s.submitted + {id}
  {
    ThreeSteps(s, Submit(pid, id, queueId, maxRetries), PublishSubmission(pid, Enqueued), MarkSubmission(pid, Executed));
    SubmissionIsAccepted(s, pid, id, queueId, maxRetries);
    AcceptedIsMarked(s, pid, id, queueId, maxRetries);
  }

  /** A direct submission that the queue did not take, before that is recorded. */
  function NotTaken(s: System, pid: Pid, id: ExecutionId, queueId: QueueId, maxRetries: nat, arrived: bool): System {
    s.(db := Created(s.db, id, queueId, maxRetries),
       accepted := if arrived then s.accepted + {queueId} else s.accepted,
       submitters := s.submitters[pid := DirectFailing(id)])
  }

  lemma SubmissionIsNotTaken(s: System, pid: Pid, id: ExecutionId, queueId: QueueId, maxRetries: nat, arrived: bool)
    requires pid !in s.submitters && id !in s.db.executions && queueId !in UsedQueueIds(s)
    ensures Step(Step(s, SubmitDirectly(pid, id, queueId, maxRetries)), PublishDirectly(pid, QueueFailure(arrived))) ==
            NotTaken(s, pid, id, queueId, maxRetries, arrived)
  {
    var s1 := Step(s, SubmitDirectly(pid, id, queueId, maxRetries));
    assert s1.submitters[pid := DirectFailing(id)] == s.submitters[pid := DirectFailing(id)];
  }

  /** Without an outbox, a submission the queue did not take is recorded as failed. */
  lemma DirectSubmissionFails(s: System, pid: Pid, id: ExecutionId, queueId: QueueId, maxRetries: nat, arrived: bool, summary: string)
    requires pid !in s.submitters && id !in s.db.executions && queueId !in UsedQueueIds(s)
    ensures var e := PublishDirectly(pid, QueueFailure(arrived));
            var s' := Step(Step(Step(s, SubmitDirectly(pid, id, queueId, maxRetries)), e), FailSubmission(pid, Executed, summary));
            && s'.db == s.db.(executions := s.db.executions[id :=
                 NewExecution(queueId, maxRetries).(status := Failed, finishedAt := Some(s.now), errorSummary := NullableText(summary))])
            && s'.accepted == if arrived then s.accepted + {queueId} else s.accepted
  {
    SubmissionIsNotTaken(s, pid, id, queueId, maxRetries, arrived);
    var s2 := NotTaken(s, pid, id, queueId, maxRetries, arrived);
    assert Int32(0) == 0 && s2.db.executions[id] == NewExecution(queueId, maxRetries);
  }

  // ----- DispatchPending -----

  predicate Listable(db: Database, ids: seq<QueueId>) {
    forall k :: 0 <= k < |ids| ==> Pending(db, ids[k]) && db.outbox[ids[k]].execution in db.executions
  }

  predicate IsQueued(db: Database, q: QueueId) {
    && q in db.outbox && db.outbox[q].execution in db.executions
    && db.executions[db.outbox[q].execution].status.Queued?
  }

  /** What a dispatcher does for these rows: publish the queued ones, and mark them all. */
  function RowEvents(db: Database, pid: Pid, ids: seq<QueueId>): seq<Event> {
    if ids == [] then []
    else
      var last := ids[|ids| - 1];
      RowEvents(db, pid, ids[..|ids| - 1])
      + (if IsQueued(db, last) then [DispatchPublish(pid, Enqueued)] else []) + [DispatchMark(pid, Executed)]
  }

  function MarkedAll(db: Database, ids: seq<QueueId>, now: Time): Database {
    if ids == [] then db else Marked(MarkedAll(db, ids[..|ids| - 1], now), ids[|ids| - 1], now)
  }

  lemma {:induction false} AllAreMarked(db: Database, ids: seq<QueueId>, now: Time)
    requires forall q :: q in ids ==> Pending(db, q)
    ensures var db' := MarkedAll(db, ids, now);
            && db'.executions == db.executions && db'.outbox.Keys == db.outbox.Keys
            && forall q :: q in db.outbox ==>
                 db'.outbox[q] == if q in ids then db.outbox[q].(publishedAt := Some(now)) else db.outbox[q]
  {
    if ids != [] {
      AllAreMarked(db, ids[..|ids| - 1], now);
      assert ids == ids[..|ids| - 1] + [ids[|ids| - 1]];
    }
  }

  /** A dispatcher that has done the first n rows of its list. */
  function Dispatched(s: System, pid: Pid, ids: seq<QueueId>, n: nat): System
    requires n <= |ids| && Listable(s.db, ids)
  {
    s.(db := MarkedAll(s.db, ids[..n], s.now),
       accepted := s.accepted + (set q | q in ids[..n] && IsQueued(s.db, q)),
       dispatchers := s.dispatchers[pid := Dispatcher(Snapshot(s.db, ids)[n..], false)])
  }

  /** The same with the next row published, if it is to be. */
  function NextPublished(s: System, pid: Pid, ids: seq<QueueId>, n: nat): System
    requires n < |ids| && Listable(s.db, ids)
  {
    var s1, q := Dispatched(s, pid, ids, n), ids[n];
    if IsQueued(s.db, q)
    then s1.(accepted := s1.accepted + {q}, dispatchers := s.dispatchers[pid := Dispatcher(Snapshot(s.db, ids)[n..], true)])
    else s1
  }

  lemma RowIsPublished(s: System, pid: Pid, ids: seq<QueueId>, n: nat)
    requires n < |ids| && Listable(s.db, ids) && IsQueued(s.db, ids[n])
    ensures Step(Dispatched(s, pid, ids, n), DispatchPublish(pid, Enqueued)) == NextPublished(s, pid, ids, n)
  {
    var s1, list := Dispatched(s, pid, ids, n), Snapshot(s.db, ids);
    assert list[n..][0] == list[n];
    assert s1.dispatchers[pid := Dispatcher(list[n..], true)] == s.dispatchers[pid := Dispatcher(list[n..], true)];
  }

  lemma RowIsMarked(s: System, pid: Pid, ids: seq<QueueId>, n: nat)
    requires n < |ids| && Listable(s.db, ids)
    ensures Step(NextPublished(s, pid, ids, n), DispatchMark(pid, Executed)) == Dispatched(s, pid, ids, n + 1)
  {
    var s2, q, list := NextPublished(s, pid, ids, n), ids[n], Snapshot(s.db, ids);
    assert list[n..][0] == list[n] && list[n..][1..] == list[n + 1..];
    assert ids[..n + 1][..n] == ids[..n] && ids[..n + 1] == ids[..n] + [q];
    assert s2.accepted == Dispatched(s, pid, ids, n + 1).accepted;
    assert s2.dispatchers[pid := Dispatcher(list[n + 1..], false)] == Dispatched(s, pid, ids, n + 1).dispatchers;
  }

  /** One more row after the events that did the first n. */
  lemma NextRowIsDispatched(s: System, pid: Pid, ids: seq<QueueId>, n: nat, before: seq<Event>)
    requires n < |ids| && Listable(s.db, ids) && Run(s, before) == Dispatched(s, pid, ids, n)
    ensures var publish := if IsQueued(s.db, ids[n]) then [DispatchPublish(pid, Enqueued)] else [];
            Run(s, before + publish + [DispatchMark(pid, Executed)]) == Dispatched(s, pid, ids, n + 1)
  {
    RowIsMarked(s, pid, ids, n);
    if IsQueued(s.db, ids[n]) {
      RowIsPublished(s, pid, ids, n);
      Then(s, before, DispatchPublish(pid, Enqueued), Dispatched(s, pid, ids, n), NextPublished(s, pid, ids, n));
      Then(s, before + [DispatchPublish(pid, Enqueued)], DispatchMark(pid, Executed), NextPublished(s, pid, ids, n),
           Dispatched(s, pid, ids, n + 1));
    } else {
      Then(s, before, DispatchMark(pid, Executed), NextPublished(s, pid, ids, n), Dispatched(s, pid, ids, n + 1));
      assert before + [] == before;
    }
  }

  lemma ListIsRead(s: System, pid: Pid, ids: seq<QueueId>)
    requires pid !in s.dispatchers && Listable(s.db, ids)
    ensures Run(s, [ListPending(pid, ids)] + RowEvents(s.db, pid, ids[..0])) == Dispatched(s, pid, ids, 0)
  {
    assert [ListPending(pid, ids)] + RowEvents(s.db, pid, ids[..0]) == [ListPending(pid, ids)];
    First(s, ListPending(pid, ids), Dispatched(s, pid, ids, 0));
  }

  lemma {:induction false} RowsAreDispatched(s: System, pid: Pid, ids: seq<QueueId>, n: nat)
    requires pid !in s.dispatchers && n <= |ids| && Listable(s.db, ids)
    ensures Run(s, [ListPending(pid, ids)] + RowEvents(s.db, pid, ids[..n])) == Dispatched(s, pid, ids, n)
  {
    if n == 0 {
      ListIsRead(s, pid, ids);
    } else {
      assert ids[..n][..n - 1] == ids[..n - 1];
      RowsAreDispatched(s, pid, ids, n - 1);
      var before := [ListPending(pid, ids)] + RowEvents(s.db, pid, ids[..n - 1]);
      NextRowIsDispatched(s, pid, ids, n - 1, before);
      var publish := if IsQueued(s.db, ids[n - 1]) then [DispatchPublish(pid, Enqueued)] else [];
      assert [ListPending(pid, ids)] + RowEvents(s.db, pid, ids[..n]) == before + publish + [DispatchMark(pid, Executed)];
    }
  }

  /** A pass that nothing interrupts publishes the listed rows of queued executions, and
      marks all listed rows. */
  lemma PassDispatchesAll(s: System, pid: Pid, ids: seq<QueueId>)
    requires pid !in s.dispatchers && Listable(s.db, ids)
    ensures var s' := Run(s, [ListPending(pid, ids)] + RowEvents(s.db, pid, ids));
            && s'.db.executions == s.db.executions && s'.db.outbox.Keys == s.db.outbox.Keys
            && (forall q :: q in s.db.outbox ==>
                  s'.db.outbox[q] == if q in ids then s.db.outbox[q].(publishedAt := Some(s.now)) else s.db.outbox[q])
            && forall q :: q in s'.accepted <==> q in s.accepted || (q in ids && IsQueued(s.db, q))
  {
    RowsAreDispatched(s, pid, ids, |ids|);
    assert ids[..|ids|] == ids;
    AllAreMarked(s.db, ids, s.now);
  }

  // ----- Process and the failure handler -----

  /** A delivery at this stage, and the row its message is about. */
  function At(s: System, pid: Pid, m: Message, row: Execution, stage: Stage): System {
    s.(db := s.db.(executions := s.db.executions[m.execution := row]),
       deliveries := s.deliveries[pid := Delivery(m, stage)])
  }

  function ClaimedRow(row: Execution, attempt: int, now: Time): Execution {
    row.(status := Running, attempt := attempt, startedAt := if row.startedAt.None? then Some(now) else row.startedAt)
  }

  /** The attempt can be claimed by a delivery that is yet to come. */
  ghost predicate Claimable(s: System, pid: Pid, m: Message) {
    && pid !in s.deliveries && CanDeliver(s, m)
    && s.db.executions[m.execution].status in {Queued, Running}
    && s.db.executions[m.execution].attempt < m.attempt < 0x8000_0000
  }

  /** The handler's call: the row is running and claimed, and this delivery is the claimant. */
  function InHandler(s: System, pid: Pid, m: Message): System
    requires m.execution in s.db.executions
  {
    At(s, pid, m, ClaimedRow(s.db.executions[m.execution], m.attempt, s.now), Handling(s.now))
    .(claims := s.claims[(m.execution, m.attempt) := pid], handled := s.handled + [(m.execution, m.attempt)])
  }

  function UpToHandler(pid: Pid, m: Message): seq<Event> {
    [Deliver(pid, m), ReadExecution(pid, false), Claim(pid, Executed), Handle(pid, true)]
  }

  lemma DeliveryArrives(s: System, pid: Pid, m: Message)
    requires Claimable(s, pid, m)
    ensures Step(s, Deliver(pid, m)) == At(s, pid, m, s.db.executions[m.execution], Received)
  {
    assert s.db.executions == s.db.executions[m.execution := s.db.executions[m.execution]];
  }

  lemma DeliveryIsValidated(s: System, pid: Pid, m: Message)
    requires Claimable(s, pid, m)
    ensures Step(At(s, pid, m, s.db.executions[m.execution], Received), ReadExecution(pid, false)) ==
            At(s, pid, m, s.db.executions[m.execution], Validated(s.now))
  {
    assert s.deliveries[pid := Delivery(m, Received)][pid := Delivery(m, Validated(s.now))] == s.deliveries[pid := Delivery(m, Validated(s.now))];
  }

  /** The claim: the row is running, and this delivery is the claimant. */
  function IsClaimed(s: System, pid: Pid, m: Message): System
    requires m.execution in s.db.executions
  {
    At(s, pid, m, ClaimedRow(s.db.executions[m.execution], m.attempt, s.now), Claimed(s.now))
    .(claims := s.claims[(m.execution, m.attempt) := pid])
  }

  lemma ValidatedIsClaimed(s: System, pid: Pid, m: Message)
    requires Claimable(s, pid, m)
    ensures Step(At(s, pid, m, s.db.executions[m.execution], Validated(s.now)), Claim(pid, Executed)) == IsClaimed(s, pid, m)
  {
  }

  lemma ClaimedIsHandled(s: System, pid: Pid, m: Message)
    requires Claimable(s, pid, m)
    ensures Step(IsClaimed(s, pid, m), Handle(pid, true)) == InHandler(s, pid, m)
  {
    assert IsClaimed(s, pid, m).deliveries[pid := Delivery(m, Handling(s.now))] == s.deliveries[pid := Delivery(m, Handling(s.now))];
  }

  /** A claimable attempt is claimed and its handler called. */
  lemma AttemptReachesHandler(s: System, pid: Pid, m: Message)
    requires Claimable(s, pid, m)
    ensures Run(s, UpToHandler(pid, m)) == InHandler(s, pid, m)
  {
    DeliveryArrives(s, pid, m);
    DeliveryIsValidated(s, pid, m);
    ValidatedIsClaimed(s, pid, m);
    ClaimedIsHandled(s, pid, m);
    FourSteps(s, Deliver(pid, m), ReadExecution(pid, false), Claim(pid, Executed), Handle(pid, true));
  }

  function StageAfter(result: HandlerResult, now: Time): Stage {
    match result
    case HandlerOk(rows) => Succeeding(rows, now, now)
    case ContextEnded => Cancelling(now)
    case HandlerError(revoked) => Errored(revoked)
  }

  function HasReturned(s: System, pid: Pid, m: Message, result: HandlerResult): System
    requires m.execution in s.db.executions
  {
    InHandler(s, pid, m).(deliveries := s.deliveries[pid := Delivery(m, StageAfter(result, s.now))])
  }

  lemma HandlerReturns(s: System, pid: Pid, m: Message, result: HandlerResult)
    requires Claimable(s, pid, m)
    ensures Step(InHandler(s, pid, m), Return(pid, result)) == HasReturned(s, pid, m, result)
  {
    assert s.deliveries[pid := Delivery(m, Handling(s.now))][pid := Delivery(m, StageAfter(result, s.now))] ==
           s.deliveries[pid := Delivery(m, StageAfter(result, s.now))];
  }

  /** A handler's success is written to the row of its attempt, with the rows it counted. */
  lemma SuccessIsWritten(s: System, pid: Pid, m: Message, rows: int)
    requires Claimable(s, pid, m)
    ensures var s' := Step(HasReturned(s, pid, m, HandlerOk(rows)), WriteResult(pid, Executed, ""));
            var row := ClaimedRow(s.db.executions[m.execution], m.attempt, s.now);
            && s'.db == s.db.(executions := s.db.executions[m.execution :=
                 row.(status := Succeeded, startedAt := Some(s.now), finishedAt := Some(s.now), processedRows := rows, errorSummary := None)])
            && pid in s'.deliveries && s'.deliveries[pid].stage.Done?
  {
  }

  /** A handler that ends with its context has its attempt cancelled, with its error. */
  lemma CancellationIsWritten(s: System, pid: Pid, m: Message, summary: string)
    requires Claimable(s, pid, m)
    ensures var s' := Step(HasReturned(s, pid, m, ContextEnded), WriteResult(pid, Executed, summary));
            var row := ClaimedRow(s.db.executions[m.execution], m.attempt, s.now);
            && s'.db == s.db.(executions := s.db.executions[m.execution :=
                 row.(status := TaskRows.Cancelled, finishedAt := Some(s.now), processedRows := 0, errorSummary := NullableText(summary))])
            && pid in s'.deliveries && s'.deliveries[pid].stage.Done?
  {
  }

  /** After another error the row stays as claimed and the delivery ends, so that the task
      is retried or dropped; but the last time, unless revoked, it goes on to fail. */
  function AfterError(s: System, pid: Pid, m: Message, revoked: bool): System
    requires m.execution in s.db.executions
  {
    InHandler(s, pid, m).(deliveries := s.deliveries[pid := Delivery(m, if m.last && !revoked then Failing(s.now) else Done)])
  }

  lemma ErrorIsHandled(s: System, pid: Pid, m: Message, revoked: bool)
    requires Claimable(s, pid, m)
    ensures Step(HasReturned(s, pid, m, HandlerError(revoked)), HandleFailure(pid, false)) == AfterError(s, pid, m, revoked)
  {
  }

  /** Then the failure is written. */
  lemma LastErrorIsWritten(s: System, pid: Pid, m: Message, summary: string)
    requires Claimable(s, pid, m) && m.last
    ensures var row := ClaimedRow(s.db.executions[m.execution], m.attempt, s.now);
            Step(AfterError(s, pid, m, false), WriteFailure(pid, Executed, summary)).db ==
            s.db.(executions := s.db.executions[m.execution :=
              row.(status := Failed, finishedAt := Some(s.now), processedRows := 0, errorSummary := NullableText(summary))])
  {
  }
}
