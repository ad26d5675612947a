/** The task tables: pkg/modules/task/model.go gives the state machine, and the
    statements of dbgen/tasks.sql.go, called through taskstore/postgres.go, are the only
    writers of the rows. */
module TaskRows {
  import opened Common

  type ExecutionId = nat
  type QueueId = nat

  datatype Status = Queued | Running | Succeeded | Failed | Cancelled

  predicate Terminal(status: Status) {
    status in {Succeeded, Failed, Cancelled}
  }

  /** ValidateTransition. */
  predicate ValidTransition(from: Status, to: Status) {
    || (from == to == Running)
    || (from == Queued && to in {Running, Failed, Cancelled})
    || (from == Running && to in {Succeeded, Failed, Cancelled})
  }

  /** `maxRetries` is what the task was submitted with. It is a column of the outbox row and
      an option of the queued task, and goes with every publication; it stands here for
      both. */
  datatype Execution = Execution(
    queueId: QueueId,
    maxRetries: nat,
    status: Status,
    attempt: int,
    processedRows: int,
    errorSummary: Option<string>,
    startedAt: Option<Time>,
    finishedAt: Option<Time>)

  datatype OutboxRow = OutboxRow(execution: ExecutionId, createdAt: Time, publishedAt: Option<Time>)

  datatype Database = Database(executions: map<ExecutionId, Execution>, outbox: map<QueueId, OutboxRow>)

  datatype Update = Update(
    status: Status,
    startedAt: Option<Time>,
    finishedAt: Option<Time>,
    errorSummary: string,
    processedRows: int,
    attempt: int,
    expectedStatus: Status,
    expectedAttempt: int)

  function NullableText(value: string): Option<string> {
    if value == "" then None else Some(value)
  }

  function Coalesce<T>(a: Option<T>, b: Option<T>): Option<T> {
    if a.Some? then a else b
  }

  function NewExecution(queueId: QueueId, maxRetries: nat): Execution {
    Execution(queueId, maxRetries, Queued, 0, 0, None, None, None)
  }

  /** ClaimTaskExecution: the row it leaves, if its WHERE clause matches. */
  function Claimed(e: Execution, attempt: int, startedAt: Time): Option<Execution> {
    if e.status in {Queued, Running} && e.attempt < Int32(attempt)
    then Some(e.(status := Running, startedAt := Coalesce(e.startedAt, Some(startedAt)), attempt := Int32(attempt)))
    else None
  }

  /** UpdateTaskExecutionStatus: the row it leaves, if its WHERE clause matches. */
  function Updated(e: Execution, u: Update): Option<Execution> {
    if e.status == u.expectedStatus && e.attempt == Int32(u.expectedAttempt)
    then Some(e.(status := u.status, startedAt := Coalesce(u.startedAt, e.startedAt),
                 finishedAt := Coalesce(u.finishedAt, e.finishedAt), errorSummary := NullableText(u.errorSummary),
                 processedRows := u.processedRows, attempt := Int32(u.attempt)))
    else None
  }

  function WithRow(db: Database, id: ExecutionId, row: Option<Execution>): Database {
    if row.None? then db else db.(executions := db.executions[id := row.value])
  }

  function ClaimIn(db: Database, id: ExecutionId, attempt: int, startedAt: Time): Option<Execution> {
    if id in db.executions then Claimed(db.executions[id], attempt, startedAt) else None
  }

  function UpdateIn(db: Database, id: ExecutionId, u: Update): Option<Execution> {
    if id in db.executions then Updated(db.executions[id], u) else None
  }

  /** CreateTaskExecutionWithPendingPublish: both rows in one statement. */
  function CreatedWithPendingPublish(db: Database, id: ExecutionId, queueId: QueueId, maxRetries: nat, now: Time): Database {
    Database(db.executions[id := NewExecution(queueId, maxRetries)], db.outbox[queueId := OutboxRow(id, now, None)])
  }

  function Created(db: Database, id: ExecutionId, queueId: QueueId, maxRetries: nat): Database {
    db.(executions := db.executions[id := NewExecution(queueId, maxRetries)])
  }

  predicate Pending(db: Database, queueId: QueueId) {
    queueId in db.outbox && db.outbox[queueId].publishedAt.None?
  }

  /** MarkTaskOutboxMessagePublished: a row is marked once. */
  function Marked(db: Database, queueId: QueueId, now: Time): Database {
    if Pending(db, queueId) then db.(outbox := db.outbox[queueId := db.outbox[queueId].(publishedAt := Some(now))])
    else db
  }

  datatype StoreResult = StoreOk | DuplicateSubmission | DefinitionNotFound | ExecutionConflict

  type DefinitionId = nat

  class TaskDatabase {
    var db: Database
    var definitions: set<DefinitionId>
    /** The task types and idempotency keys of the executions that have a key. */
    var keys: set<(string, string)>

    constructor (definitions: set<DefinitionId>)
      ensures db == Database(map[], map[]) && keys == {} && this.definitions == definitions
    {
      db, keys, this.definitions := Database(map[], map[]), {}, definitions;
    }

    /** The primary keys and the idempotency constraint refuse what is taken, the foreign
        key refuses an unknown definition, and then neither row is inserted. An empty
        idempotency key is no key. */
    method CreateExecutionWithPendingPublish(id: ExecutionId, queueId: QueueId, maxRetries: nat,
                                             definition: Option<DefinitionId>, taskType: string, key: string, now: Time)
      returns (r: StoreResult)
      modifies this`db, this`keys
      ensures r == if id in old(db).executions || queueId in old(db).outbox || (key != "" && (taskType, key) in old(keys))
                   then DuplicateSubmission
                   else if definition.Some? && definition.value !in definitions then DefinitionNotFound
                   else StoreOk
      ensures db == if r.StoreOk? then CreatedWithPendingPublish(old(db), id, queueId, maxRetries, now) else old(db)
      ensures keys == if r.StoreOk? && key != "" then old(keys) + {(taskType, key)} else old(keys)
    {
      if id in db.executions || queueId in db.outbox {
        return DuplicateSubmission;
      }
      if key != "" && (taskType, key) in keys {
        return DuplicateSubmission;
      }
      if definition.Some? && definition.value !in definitions {
        return DefinitionNotFound;
      }
      db := db.(executions := db.executions[id := NewExecution(queueId, maxRetries)]);
      db := db.(outbox := db.outbox[queueId := OutboxRow(id, now, None)]);
      if key != "" {
        keys := keys + {(taskType, key)};
      }
      return StoreOk;
    }

    method ClaimExecution(id: ExecutionId, attempt: int, startedAt: Time) returns (r: StoreResult)
      modifies this`db
      ensures db == WithRow(old(db), id, ClaimIn(old(db), id, attempt, startedAt))
      ensures r == if ClaimIn(old(db), id, attempt, startedAt).Some? then StoreOk else ExecutionConflict
    {
      if id !in db.executions {
        return ExecutionConflict;
      }
      var e := db.executions[id];
      if e.status !in {Queued, Running} || e.attempt >= Int32(attempt) {
        return ExecutionConflict;
      }
      var started := if e.startedAt.Some? then e.startedAt else Some(startedAt);
      db := db.(executions := db.executions[id := e.(status := Running, startedAt := started, attempt := Int32(attempt))]);
      return StoreOk;
    }

    method UpdateExecution(id: ExecutionId, u: Update) returns (r: StoreResult)
      modifies this`db
      ensures db == WithRow(old(db), id, UpdateIn(old(db), id, u))
      ensures r == if UpdateIn(old(db), id, u).Some? then StoreOk else ExecutionConflict
    {
      if id !in db.executions {
        return ExecutionConflict;
      }
      var e := db.executions[id];
      if e.status != u.expectedStatus || e.attempt != Int32(u.expectedAttempt) {
        return ExecutionConflict;
      }
      e := e.(status := u.status, attempt := Int32(u.attempt), processedRows := u.processedRows);
      if u.startedAt.Some? {
        e := e.(startedAt := u.startedAt);
      }
      if u.finishedAt.Some? {
        e := e.(finishedAt := u.finishedAt);
      }
      e := e.(errorSummary := if u.errorSummary == "" then None else Some(u.errorSummary));
      db := db.(executions := db.executions[id := e]);
      return StoreOk;
    }

    method MarkPublishSucceeded(queueId: QueueId, now: Time)
      modifies this`db
      ensures db == Marked(old(db), queueId, now)
    {
      if queueId in db.outbox && db.outbox[queueId].publishedAt.None? {
        db := db.(outbox := db.outbox[queueId := db.outbox[queueId].(publishedAt := Some(now))]);
      }
    }
  }

  /** Claiming and updating follow the state machine: whoever expects a status they may
      leave, leaves it the allowed way, and a claim only ever raises the attempt. The time
      of a start or an end, once written, is never erased, and a claim never moves a start. */
  lemma StatementsFollowStateMachine(e: Execution, attempt: int, now: Time, u: Update)
    ensures Claimed(e, attempt, now).Some? ==>
              && ValidTransition(e.status, Claimed(e, attempt, now).value.status)
              && e.attempt < Claimed(e, attempt, now).value.attempt
    ensures Updated(e, u).Some? && ValidTransition(u.expectedStatus, u.status) ==>
              ValidTransition(e.status, Updated(e, u).value.status)
    ensures Terminal(e.status) ==>
              && Claimed(e, attempt, now).None?
              && (!Terminal(u.expectedStatus) ==> Updated(e, u).None?)
    ensures Claimed(e, attempt, now).Some? && e.startedAt.Some? ==> Claimed(e, attempt, now).value.startedAt == e.startedAt
    ensures Updated(e, u).Some? && e.finishedAt.Some? ==> Updated(e, u).value.finishedAt.Some?
    ensures Updated(e, u).Some? && e.startedAt.Some? ==> Updated(e, u).value.startedAt.Some?
  {
  }
}
