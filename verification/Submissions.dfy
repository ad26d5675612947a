/** A submission through the outbox: pkg/modules/task/service.go:266-287 bounds it,
    pkg/platform/database/taskstore/postgres.go keeps its durations as whole seconds in
    int32 columns, and the dispatcher publishes what it reads back. Durations are int64
    nanoseconds. Payloads are JSON texts. The column is JSONB, so it gives back a normal
    form of what went in, `normal`; and encoding a message for the queue rewrites the
    payload without changing what it says, `compact`: it strips insignificant space and
    escapes the characters special to HTML. Both functions are parameters. */
module Submissions {
  import opened Common

  const SECOND: int := 1_000_000_000
  const HOUR: int := 3600 * SECOND
  const MAX_RETRIES := 25
  const MAX_TIMEOUT := 24 * HOUR
  const MAX_UNIQUE_FOR := 7 * 24 * HOUR
  const MAX_PROCESS_AFTER := 30 * 24 * HOUR

  datatype Message = Message(execution: string, taskType: string, payload: string)

  datatype PublishOptions = PublishOptions(queueId: string, maxRetries: int, timeout: int, uniqueFor: int, processAfter: int)

  datatype Refusal =
    | NegativeRetries | TooManyRetries
    | TimeoutNotPositive | TimeoutTooLong
    | NegativeUniqueFor | UniqueForTooLong
    | NegativeProcessAfter | ProcessAfterTooLong

  /** ValidateSubmission, on the options Submit passes on. */
  function Validate(o: PublishOptions): (r: Option<Refusal>)
    ensures r.None? <==>
            && 0 <= o.maxRetries <= MAX_RETRIES && 0 < o.timeout <= MAX_TIMEOUT
            && 0 <= o.uniqueFor <= MAX_UNIQUE_FOR && 0 <= o.processAfter <= MAX_PROCESS_AFTER
  {
    if o.maxRetries < 0 then Some(NegativeRetries)
    else if o.maxRetries > MAX_RETRIES then Some(TooManyRetries)
    else if o.timeout <= 0 then Some(TimeoutNotPositive)
    else if o.timeout > MAX_TIMEOUT then Some(TimeoutTooLong)
    else if o.uniqueFor < 0 then Some(NegativeUniqueFor)
    else if o.uniqueFor > MAX_UNIQUE_FOR then Some(UniqueForTooLong)
    else if o.processAfter < 0 then Some(NegativeProcessAfter)
    else if o.processAfter > MAX_PROCESS_AFTER then Some(ProcessAfterTooLong)
    else None
  }

  // ----- The outbox row -----

  datatype Row = Row(
    execution: string, queueId: string, taskType: string, payload: string,
    maxRetries: int, timeoutSeconds: int, uniqueForSeconds: int, processAfterSeconds: int)

  function StoredSeconds(d: int): int {
    Int32(TruncDiv(d, 1_000_000_000))
  }

  function Stored(normal: string -> string, m: Message, o: PublishOptions): Row {
    Row(m.execution, o.queueId, m.taskType, normal(m.payload), Int32(o.maxRetries),
        StoredSeconds(o.timeout), StoredSeconds(o.uniqueFor), StoredSeconds(o.processAfter))
  }

  function ReadDuration(seconds: int): int {
    Int64(seconds * 1_000_000_000)
  }

  /** ListPendingPublishes: what the dispatcher publishes for a row. */
  function ReadMessage(row: Row): Message {
    Message(row.execution, row.taskType, row.payload)
  }

  function ReadOptions(row: Row): PublishOptions {
    PublishOptions(row.queueId, row.maxRetries, ReadDuration(row.timeoutSeconds),
                   ReadDuration(row.uniqueForSeconds), ReadDuration(row.processAfterSeconds))
  }

  // ----- What Publish passes to the queue -----

  datatype EnqueueOption =
    | MaxRetry(retries: int) | Queue(name: string) | TaskId(id: string)
    | Timeout(duration: int) | Unique(duration: int) | ProcessIn(duration: int)

  function OptionsOf(queue: string, o: PublishOptions): seq<EnqueueOption> {
    [MaxRetry(o.maxRetries)]
    + (if queue != "" then [Queue(queue)] else [])
    + (if o.queueId != "" then [TaskId(o.queueId)] else [])
    + (if o.timeout > 0 then [Timeout(o.timeout)] else [])
    + (if o.uniqueFor > 0 then [Unique(o.uniqueFor)] else [])
    + (if o.processAfter > 0 then [ProcessIn(o.processAfter)] else [])
  }

  method EnqueueOptions(queue: string, o: PublishOptions) returns (options: seq<EnqueueOption>)
    ensures options == OptionsOf(queue, o)
  {
    options := [MaxRetry(o.maxRetries)];
    if queue != "" {
      options := options + [Queue(queue)];
    }
    if o.queueId != "" {
      options := options + [TaskId(o.queueId)];
    }
    if o.timeout > 0 {
      options := options + [Timeout(o.timeout)];
    }
    if o.uniqueFor > 0 {
      options := options + [Unique(o.uniqueFor)];
    }
    if o.processAfter > 0 {
      options := options + [ProcessIn(o.processAfter)];
    }
  }

  /** What the queue gets: the encoded message and the options. */
  datatype QueueTask = QueueTask(message: Message, options: seq<EnqueueOption>)

  function Published(compact: string -> string, queue: string, m: Message, o: PublishOptions): QueueTask {
    QueueTask(m.(payload := compact(m.payload)), OptionsOf(queue, o))
  }

  /** The queue sees the retries as given, the names that are not empty, and each positive
      duration, and nothing else. */
  lemma OptionsShowAll(queue: string, o: PublishOptions, option: EnqueueOption)
    ensures option in OptionsOf(queue, o) <==>
            match option
            case MaxRetry(n) => n == o.maxRetries
            case Queue(name) => name == queue && queue != ""
            case TaskId(id) => id == o.queueId && o.queueId != ""
            case Timeout(d) => 0 < d == o.timeout
            case Unique(d) => 0 < d == o.uniqueFor
            case ProcessIn(d) => 0 < d == o.processAfter
  {
  }

  lemma OptionsShowDurations(queue: string, o: PublishOptions, d: int)
    ensures Timeout(d) in OptionsOf(queue, o) <==> 0 < d == o.timeout
    ensures Unique(d) in OptionsOf(queue, o) <==> 0 < d == o.uniqueFor
    ensures ProcessIn(d) in OptionsOf(queue, o) <==> 0 < d == o.processAfter
  {
  }

  // ----- The round trip -----

  /** A duration within the bounds loses its part below one second and nothing else. */
  lemma DurationRoundTrip(d: int)
    requires 0 <= d <= MAX_PROCESS_AFTER
    ensures StoredSeconds(d) == d / SECOND
    ensures var back := ReadDuration(StoredSeconds(d));
            0 <= d - back < SECOND && (back == d <==> d % SECOND == 0)
  {
  }

  /** A duration comes back whole to the second exactly when it is below 2^31 seconds. */
  lemma DurationSurvivesExactlyBelow(d: int)
    requires 0 <= d
    ensures 0 <= d - ReadDuration(StoredSeconds(d)) < SECOND <==> d < 0x8000_0000 * SECOND
  {
    if d < 0x8000_0000 * SECOND {
      assert StoredSeconds(d) == d / 1_000_000_000;
    } else {
      assert StoredSeconds(d) <= 0x7fff_ffff;
    }
  }

  /** No column overflows: the payload comes back in its normal form, the rest of the
      message and the retries as given, and each duration at most as given and less than
      one second below it. */
  lemma SubmissionSurvivesOutbox(normal: string -> string, m: Message, o: PublishOptions)
    requires Validate(o).None?
    ensures ReadMessage(Stored(normal, m, o)) == m.(payload := normal(m.payload))
    ensures var back := ReadOptions(Stored(normal, m, o));
            && back.queueId == o.queueId && back.maxRetries == o.maxRetries
            && 0 <= o.timeout - back.timeout < SECOND
            && 0 <= o.uniqueFor - back.uniqueFor < SECOND
            && 0 <= o.processAfter - back.processAfter < SECOND
  {
  }

  /** What was read back once comes back unchanged for ever. */
  lemma SecondTripChangesNothing(normal: string -> string, m: Message, o: PublishOptions)
    requires Validate(o).None? && normal(normal(m.payload)) == normal(m.payload)
    ensures var row := Stored(normal, m, o); Stored(normal, ReadMessage(row), ReadOptions(row)) == row
  {
    DurationRoundTrip(o.timeout);
    DurationRoundTrip(o.uniqueFor);
    DurationRoundTrip(o.processAfter);
  }

  predicate WholeSeconds(o: PublishOptions) {
    o.timeout % SECOND == 0 && o.uniqueFor % SECOND == 0 && o.processAfter % SECOND == 0
  }

  lemma OptionsAlike(normal: string -> string, m: Message, o: PublishOptions, queue: string)
    requires Validate(o).None?
    ensures OptionsOf(queue, ReadOptions(Stored(normal, m, o))) == OptionsOf(queue, o) <==> WholeSeconds(o)
  {
    var back := ReadOptions(Stored(normal, m, o));
    DurationRoundTrip(o.timeout);
    DurationRoundTrip(o.uniqueFor);
    DurationRoundTrip(o.processAfter);
    OptionsShowDurations(queue, o, o.timeout);
    OptionsShowDurations(queue, back, o.timeout);
    OptionsShowDurations(queue, o, o.uniqueFor);
    OptionsShowDurations(queue, back, o.uniqueFor);
    OptionsShowDurations(queue, o, o.processAfter);
    OptionsShowDurations(queue, back, o.processAfter);
  }

  /** The dispatcher republishes a submission just as it was first published exactly when
      its three durations are whole seconds and its payload is in normal form but for what
      the encoding evens out. */
  lemma RepublishedAlike(normal: string -> string, compact: string -> string, m: Message, o: PublishOptions, queue: string)
    requires Validate(o).None?
    ensures var row := Stored(normal, m, o);
            Published(compact, queue, ReadMessage(row), ReadOptions(row)) == Published(compact, queue, m, o) <==>
            WholeSeconds(o) && compact(normal(m.payload)) == compact(m.payload)
  {
    OptionsAlike(normal, m, o, queue);
  }

  /** A republished task has no timeout at all exactly when the submitted one was below a
      second, and may lose its uniqueness lock or its delay in the same way. */
  lemma OptionsLost(normal: string -> string, m: Message, o: PublishOptions, queue: string)
    requires Validate(o).None?
    ensures var back := OptionsOf(queue, ReadOptions(Stored(normal, m, o)));
            && ((forall d :: Timeout(d) !in back) <==> o.timeout < SECOND)
            && ((forall d :: Unique(d) !in back) <==> o.uniqueFor < SECOND)
            && ((forall d :: ProcessIn(d) !in back) <==> o.processAfter < SECOND)
  {
    var back := ReadOptions(Stored(normal, m, o));
    DurationRoundTrip(o.timeout);
    DurationRoundTrip(o.uniqueFor);
    DurationRoundTrip(o.processAfter);
    forall d ensures Timeout(d) in OptionsOf(queue, back) <==> 0 < d == back.timeout
      ensures Unique(d) in OptionsOf(queue, back) <==> 0 < d == back.uniqueFor
      ensures ProcessIn(d) in OptionsOf(queue, back) <==> 0 < d == back.processAfter
    {
      OptionsShowDurations(queue, back, d);
    }
    assert back.timeout > 0 ==> Timeout(back.timeout) in OptionsOf(queue, back);
    assert back.uniqueFor > 0 ==> Unique(back.uniqueFor) in OptionsOf(queue, back);
    assert back.processAfter > 0 ==> ProcessIn(back.processAfter) in OptionsOf(queue, back);
  }
}
