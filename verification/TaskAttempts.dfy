/** Attempts and terminal writes under arbitrary redelivery and duplicate publishing. */
module TaskAttempts {
  import opened Common
  import opened TaskRows
  import opened TaskProtocol

  function Key(m: Message): (ExecutionId, int) {
    (m.execution, Int32(m.attempt))
  }

  predicate HoldsClaim(stage: Stage) {
    stage.Claimed? || stage.Handling? || stage.Succeeding? || stage.Cancelling?
  }

  ghost predicate RowOk(s: System, id: ExecutionId) {
    && id in s.db.executions
    && var row := s.db.executions[id];
       && 0 <= row.attempt
       && (row.status.Queued? ==> row.attempt == 0)
       && (row.status.Running? ==> row.attempt > 0)
       && (row.attempt > 0 ==> (id, row.attempt) in s.claims)
       && (Terminal(row.status) <==> row.finishedAt.Some?)
       && (Terminal(row.status) ==> exists f :: f in s.finishes && f.execution == id)
  }

  /** A claim was made by a delivery of that attempt, and is no later than the row says. */
  ghost predicate ClaimOk(s: System, k: (ExecutionId, int)) {
    && k in s.claims
    && k.0 in s.db.executions && 0 < k.1 <= s.db.executions[k.0].attempt
    && s.claims[k] in s.deliveries && Key(s.deliveries[s.claims[k]].message) == k
  }

  ghost predicate DeliveryOk(s: System, pid: Pid) {
    && pid in s.deliveries
    && var d := s.deliveries[pid];
       && (HoldsClaim(d.stage) ==> Key(d.message) in s.claims && s.claims[Key(d.message)] == pid)
       && (d.stage.Claimed? ==> Key(d.message) !in s.handled)
  }

  ghost predicate WriterOk(s: System, f: Finish) {
    match f.writer
    case ByHandler(pid) => (f.execution, f.attempt) in s.claims && s.claims[(f.execution, f.attempt)] == pid
    case ByFailureHandler(pid) =>
      && (f.execution, f.attempt) in s.claims
      && pid in s.deliveries && Key(s.deliveries[pid].message) == (f.execution, f.attempt)
    case BySubmitter => f.attempt == 0
  }

  /** A terminal write is still what the row shows, and came from its last attempt. */
  ghost predicate FinishOk(s: System, f: Finish) {
    && f.execution in s.db.executions
    && var row := s.db.executions[f.execution];
       Terminal(f.status) && row.status == f.status && row.attempt == f.attempt && WriterOk(s, f)
  }

  ghost predicate FinishesDiffer(finishes: seq<Finish>) {
    forall i, j :: 0 <= i < j < |finishes| ==> finishes[i].execution != finishes[j].execution
  }

  ghost predicate Inv(s: System) {
    && (forall id :: id in s.db.executions ==> RowOk(s, id))
    && (forall k :: k in s.claims ==> ClaimOk(s, k))
    && (forall pid :: pid in s.deliveries ==> DeliveryOk(s, pid))
    && (forall h :: h in s.handled ==> h in s.claims)
    && NoDuplicates(s.handled)
    && (forall f :: f in s.finishes ==> FinishOk(s, f))
    && FinishesDiffer(s.finishes)
  }

  /** Rows are never removed; an attempt never decreases, a status changes only as the
      state machine allows, and a terminal row never changes. */
  ghost predicate RowAdvances(db: Database, db': Database, id: ExecutionId) {
    id in db.executions ==>
      && id in db'.executions
      && var row, row' := db.executions[id], db'.executions[id];
         && row.queueId == row'.queueId && row.maxRetries == row'.maxRetries
         && row.attempt <= row'.attempt
         && (row.status == row'.status || ValidTransition(row.status, row'.status))
         && (row.startedAt.Some? ==> row'.startedAt.Some?)
         && (Terminal(row.status) ==> row' == row)
  }

  ghost predicate Advances(s: System, s': System) {
    forall id :: RowAdvances(s.db, s'.db, id)
  }

  ghost predicate MessagesKept(s: System, s': System) {
    forall pid :: pid in s.deliveries ==> pid in s'.deliveries && s'.deliveries[pid].message == s.deliveries[pid].message
  }

  /** Every delivery keeps its message, and those that change are right afterwards. */
  ghost predicate DeliveriesFollow(s: System, s': System) {
    && MessagesKept(s, s')
    && (forall pid :: pid in s'.deliveries ==> (pid in s.deliveries && s'.deliveries[pid] == s.deliveries[pid]) || DeliveryOk(s', pid))
  }

  // ----- The five ways the rows and the history change -----

  lemma NothingWritten(s: System, s': System)
    requires Inv(s) && DeliveriesFollow(s, s')
    requires s'.db.executions == s.db.executions && s'.claims == s.claims && s'.handled == s.handled && s'.finishes == s.finishes
    ensures Inv(s') && Advances(s, s')
  {
    forall id | id in s'.db.executions ensures RowOk(s', id) { assert RowOk(s, id); }
    forall k | k in s'.claims ensures ClaimOk(s', k) { assert ClaimOk(s, k); }
    forall pid | pid in s'.deliveries ensures DeliveryOk(s', pid) {
      if pid in s.deliveries { assert DeliveryOk(s, pid); }
    }
    forall f | f in s'.finishes ensures FinishOk(s', f) { assert FinishOk(s, f); }
  }

  lemma RowCreated(s: System, s': System, id: ExecutionId, queueId: QueueId, maxRetries: nat)
    requires Inv(s) && id !in s.db.executions
    requires s'.db.executions == s.db.executions[id := NewExecution(queueId, maxRetries)]
    requires s'.deliveries == s.deliveries && s'.claims == s.claims && s'.handled == s.handled && s'.finishes == s.finishes
    ensures Inv(s') && Advances(s, s')
  {
    forall i | i in s'.db.executions ensures RowOk(s', i) {
      if i in s.db.executions { assert RowOk(s, i); }
    }
    forall k | k in s'.claims ensures ClaimOk(s', k) { assert ClaimOk(s, k); }
    forall pid | pid in s'.deliveries ensures DeliveryOk(s', pid) { assert DeliveryOk(s, pid); }
    forall f | f in s'.finishes ensures FinishOk(s', f) { assert FinishOk(s, f); }
  }

  /** The row a claim leaves, and what the claim records. */
  ghost predicate Claims(s: System, s': System, k: (ExecutionId, int), pid: Pid, row: Execution) {
    && k.0 in s.db.executions
    && (var old' := s.db.executions[k.0];
        && old'.status in {Queued, Running} && old'.attempt < k.1
        && row.queueId == old'.queueId && row.maxRetries == old'.maxRetries && row.status == Running && row.attempt == k.1
        && row.startedAt.Some? && row.finishedAt == old'.finishedAt)
    && s'.db.executions == s.db.executions[k.0 := row]
    && s'.claims == s.claims[k := pid]
    && s'.handled == s.handled && s'.finishes == s.finishes
  }

  lemma ClaimKeepsHistory(s: System, s': System, k: (ExecutionId, int), pid: Pid, row: Execution)
    requires Inv(s) && MessagesKept(s, s') && Claims(s, s', k, pid, row)
    ensures k !in s.claims
    ensures forall id :: id in s'.db.executions ==> RowOk(s', id)
    ensures forall f :: f in s'.finishes ==> FinishOk(s', f)
    ensures Advances(s, s')
  {
    assert RowOk(s, k.0);
    assert k !in s.claims by { assert forall c :: c in s.claims ==> ClaimOk(s, c); }
    forall id | id in s'.db.executions ensures RowOk(s', id) { assert RowOk(s, id); }
    forall f | f in s'.finishes ensures FinishOk(s', f) { assert FinishOk(s, f); }
  }

  lemma RowClaimed(s: System, s': System, pid: Pid, row: Execution)
    requires Inv(s) && DeliveriesFollow(s, s') && pid in s.deliveries
    requires Claims(s, s', Key(s.deliveries[pid].message), pid, row)
    ensures Inv(s') && Advances(s, s')
  {
    var key := Key(s.deliveries[pid].message);
    ClaimKeepsHistory(s, s', key, pid, row);
    forall k | k in s'.claims ensures ClaimOk(s', k) {
      if k != key { assert ClaimOk(s, k); }
    }
    forall p | p in s'.deliveries ensures DeliveryOk(s', p) {
      if p in s.deliveries { assert DeliveryOk(s, p); }
    }
  }

  lemma HandlerCalled(s: System, s': System, pid: Pid)
    requires Inv(s) && pid in s.deliveries && s.deliveries[pid].stage.Claimed?
    requires s' == Staged(s, pid, Handling(s.deliveries[pid].stage.startedAt)).(handled := s.handled + [Key(s.deliveries[pid].message)])
    ensures Inv(s') && Advances(s, s')
  {
    var key := Key(s.deliveries[pid].message);
    assert DeliveryOk(s, pid);
    forall i | i in s'.db.executions ensures RowOk(s', i) { assert RowOk(s, i); }
    forall k | k in s'.claims ensures ClaimOk(s', k) { assert ClaimOk(s, k); }
    forall p | p in s'.deliveries ensures DeliveryOk(s', p) {
      assert DeliveryOk(s, p);
    }
    forall f | f in s'.finishes ensures FinishOk(s', f) { assert FinishOk(s, f); }
  }

  /** The row a terminal write leaves, and what it records. */
  ghost predicate Finishes(s: System, s': System, f: Finish, row: Execution) {
    && f.execution in s.db.executions
    && (var old' := s.db.executions[f.execution];
        && ValidTransition(old'.status, f.status) && Terminal(f.status)
        && row.queueId == old'.queueId && row.maxRetries == old'.maxRetries && row.status == f.status
        && row.attempt == f.attempt == old'.attempt
        && row.finishedAt.Some? && (old'.startedAt.Some? ==> row.startedAt.Some?))
    && s'.db.executions == s.db.executions[f.execution := row]
    && s'.claims == s.claims && s'.handled == s.handled && s'.finishes == s.finishes + [f]
  }

  lemma FinishKeepsHistory(s: System, s': System, f: Finish, row: Execution)
    requires Inv(s) && Finishes(s, s', f, row)
    ensures forall id :: id in s'.db.executions ==> RowOk(s', id)
    ensures forall g :: g in s.finishes ==> g.execution != f.execution
    ensures Advances(s, s')
  {
  }

  lemma RowFinished(s: System, s': System, f: Finish, row: Execution)
    requires Inv(s) && DeliveriesFollow(s, s') && WriterOk(s, f)
    requires Finishes(s, s', f, row)
    ensures Inv(s') && Advances(s, s')
  {
    FinishKeepsHistory(s, s', f, row);
    forall g | g in s'.finishes ensures FinishOk(s', g) {
      if g in s.finishes { assert FinishOk(s, g); }
    }
    forall k | k in s'.claims ensures ClaimOk(s', k) { assert ClaimOk(s, k); }
    forall pid | pid in s'.deliveries ensures DeliveryOk(s', pid) {
      if pid in s.deliveries { assert DeliveryOk(s, pid); }
    }
  }

  // ----- Steps -----

  lemma SubmittersAdvance(s: System, e: Event)
    requires Inv(s) && (e.Submit? || e.PublishSubmission? || e.MarkSubmission? || e.SubmitDirectly? || e.PublishDirectly?)
    ensures Inv(Step(s, e)) && Advances(s, Step(s, e))
  {
    var s' := Step(s, e);
    assert forall pid :: pid in s.deliveries ==> DeliveryOk(s, pid);
    if s' != s && (e.Submit? || e.SubmitDirectly?) {
      RowCreated(s, s', e.execution, e.queueId, e.maxRetries);
    } else {
      NothingWritten(s, s');
    }
  }

  lemma FailedSubmissionAdvances(s: System, e: Event)
    requires Inv(s) && e.FailSubmission?
    ensures Inv(Step(s, e)) && Advances(s, Step(s, e))
  {
    var s' := Step(s, e);
    if s'.finishes == s.finishes {
      NothingWritten(s, s');
    } else {
      var id := s.submitters[e.pid].execution;
      assert RowOk(s, id);
      RowFinished(s, s', Finish(id, 0, Failed, BySubmitter), s'.db.executions[id]);
    }
  }

  lemma ListingAdvances(s: System, e: Event)
    requires Inv(s) && (e.Tick? || e.ListPending?)
    ensures Inv(Step(s, e)) && Advances(s, Step(s, e))
  {
    NothingWritten(s, Step(s, e));
  }

  lemma DispatchersAdvance(s: System, e: Event)
    requires Inv(s) && (e.DispatchPublish? || e.DispatchMark?)
    ensures Inv(DispatcherStep(s, e)) && Advances(s, DispatcherStep(s, e))
  {
    NothingWritten(s, DispatcherStep(s, e));
  }

  /** One delivery moves on. */
  ghost predicate Moves(s: System, s': System, pid: Pid) {
    && pid in s.deliveries && pid in s'.deliveries
    && s'.deliveries[pid].message == s.deliveries[pid].message
    && s'.deliveries == s.deliveries[pid := s'.deliveries[pid]]
  }

  ghost predicate Quiet(s: System, s': System) {
    s'.db.executions == s.db.executions && s'.claims == s.claims && s'.handled == s.handled && s'.finishes == s.finishes
  }

  lemma QuietMove(s: System, s': System, pid: Pid)
    requires Inv(s) && Quiet(s, s') && Moves(s, s', pid)
    requires s'.deliveries[pid].stage.Claimed? ==> s.deliveries[pid].stage.Claimed?
    requires HoldsClaim(s'.deliveries[pid].stage) ==> HoldsClaim(s.deliveries[pid].stage)
    ensures Inv(s') && Advances(s, s')
  {
    assert DeliveryOk(s, pid);
    NothingWritten(s, s');
  }

  lemma DeliverAdvances(s: System, e: Event)
    requires Inv(s) && e.Deliver?
    ensures Inv(Step(s, e)) && Advances(s, Step(s, e))
  {
    NothingWritten(s, Step(s, e));
  }

  ghost predicate MovesQuietly(s: System, s': System, pid: Pid) {
    && Quiet(s, s') && Moves(s, s', pid) && !s'.deliveries[pid].stage.Claimed?
    && (HoldsClaim(s'.deliveries[pid].stage) ==> HoldsClaim(s.deliveries[pid].stage))
  }

  lemma ReadEffect(s: System, e: Event)
    requires e.ReadExecution? && ClaimStep(s, e) != s
    ensures MovesQuietly(s, ClaimStep(s, e), e.pid)
  {
  }

  lemma ReturnEffect(s: System, e: Event)
    requires (e.Return? || e.HandleFailure?) && ResultStep(s, e) != s
    ensures MovesQuietly(s, ResultStep(s, e), e.pid)
  {
  }

  lemma QuietStepAdvances(s: System, e: Event)
    requires Inv(s) && (e.ReadExecution? || e.Return? || e.HandleFailure?)
    ensures Inv(Step(s, e)) && Advances(s, Step(s, e))
  {
    if Step(s, e) != s {
      if e.ReadExecution? {
        ReadEffect(s, e);
      } else {
        ReturnEffect(s, e);
      }
      QuietMove(s, Step(s, e), e.pid);
    } else {
      NothingWritten(s, s);
    }
  }

  lemma ClaimEffect(s: System, e: Event)
    requires e.Claim? && ClaimStep(s, e) != s
    ensures var s' := ClaimStep(s, e);
            && Moves(s, s', e.pid) && s.deliveries[e.pid].stage.Validated?
            && var key := Key(s.deliveries[e.pid].message);
               || (Quiet(s, s') && s'.deliveries[e.pid].stage.Errored?)
               || (key.0 in s'.db.executions && Claims(s, s', key, e.pid, s'.db.executions[key.0]))
  {
    var m := s.deliveries[e.pid].message;
    if e.reply.NotExecuted? || ClaimIn(s.db, m.execution, m.attempt, s.deliveries[e.pid].stage.startedAt).None? {
      assert Quiet(s, ClaimStep(s, e));
    }
  }

  lemma ClaimAdvances(s: System, e: Event)
    requires Inv(s) && e.Claim?
    ensures Inv(ClaimStep(s, e)) && Advances(s, ClaimStep(s, e))
  {
    var s' := ClaimStep(s, e);
    if s' == s {
      NothingWritten(s, s');
    } else {
      ClaimEffect(s, e);
      if Quiet(s, s') {
        QuietMove(s, s', e.pid);
      } else {
        var key := Key(s.deliveries[e.pid].message);
        ClaimKeepsHistory(s, s', key, e.pid, s'.db.executions[key.0]);
        assert key !in s.handled;
        RowClaimed(s, s', e.pid, s'.db.executions[key.0]);
      }
    }
  }

  lemma HandleAdvances(s: System, e: Event)
    requires Inv(s) && e.Handle?
    ensures Inv(ClaimStep(s, e)) && Advances(s, ClaimStep(s, e))
  {
    var s' := ClaimStep(s, e);
    if s' == s {
      NothingWritten(s, s');
    } else if s'.handled == s.handled {
      QuietMove(s, s', e.pid);
    } else {
      HandlerCalled(s, s', e.pid);
    }
  }

  /** The delivery moves on, and either writes nothing or the end of its attempt. */
  ghost predicate EndsAttempt(s: System, s': System, pid: Pid, writer: Writer) {
    && Moves(s, s', pid) && !HoldsClaim(s'.deliveries[pid].stage)
    && var key := Key(s.deliveries[pid].message);
       || Quiet(s, s')
       || (&& key.0 in s.db.executions && key.0 in s'.db.executions && s.db.executions[key.0].status.Running?
           && Finishes(s, s', Finish(key.0, key.1, s'.db.executions[key.0].status, writer), s'.db.executions[key.0]))
  }

  lemma ResultEffect(s: System, e: Event)
    requires e.WriteResult? && ResultStep(s, e) != s
    ensures HoldsClaim(s.deliveries[e.pid].stage) && EndsAttempt(s, ResultStep(s, e), e.pid, ByHandler(e.pid))
  {
  }

  lemma FailureEffect(s: System, e: Event)
    requires e.WriteFailure? && ResultStep(s, e) != s
    ensures EndsAttempt(s, ResultStep(s, e), e.pid, ByFailureHandler(e.pid))
  {
  }

  lemma FinishAdvances(s: System, e: Event)
    requires Inv(s) && (e.WriteResult? || e.WriteFailure?)
    ensures Inv(ResultStep(s, e)) && Advances(s, ResultStep(s, e))
  {
    var s' := ResultStep(s, e);
    if s' == s {
      NothingWritten(s, s');
    } else {
      if e.WriteResult? {
        ResultEffect(s, e);
      } else {
        FailureEffect(s, e);
      }
      if Quiet(s, s') {
        QuietMove(s, s', e.pid);
      } else {
        var f := s'.finishes[|s.finishes|];
        assert DeliveryOk(s, e.pid) && RowOk(s, f.execution);
        RowFinished(s, s', f, s'.db.executions[f.execution]);
      }
    }
  }

  lemma StepAdvances(s: System, e: Event)
    requires Inv(s)
    ensures Inv(Step(s, e)) && Advances(s, Step(s, e))
  {
    if e.ReadExecution? || e.Return? || e.HandleFailure? {
      QuietStepAdvances(s, e);
    } else if e.Tick? || e.ListPending? {
      ListingAdvances(s, e);
    } else if e.DispatchPublish? || e.DispatchMark? {
      DispatchersAdvance(s, e);
    } else {
      match e
      case Claim(_, _) => ClaimAdvances(s, e);
      case Handle(_, _) => HandleAdvances(s, e);
      case Deliver(_, _) => DeliverAdvances(s, e);
      case WriteResult(_, _, _) => FinishAdvances(s, e);
      case WriteFailure(_, _, _) => FinishAdvances(s, e);
      case FailSubmission(_, _, _) => FailedSubmissionAdvances(s, e);
      case _ => SubmittersAdvance(s, e);
    }
  }

  lemma {:induction false} RunKeepsInv(start: Time, events: seq<Event>)
    ensures Inv(Run(Initial(start), events))
  {
    if events != [] {
      RunKeepsInv(start, events[..|events| - 1]);
      StepAdvances(Run(Initial(start), events[..|events| - 1]), events[|events| - 1]);
    }
  }

  // ----- What every run keeps -----

  /** The handler is called at most once for each attempt of an execution, however often
      its messages are delivered. */
  lemma {:induction false} AttemptsAreHandledOnce(start: Time, events: seq<Event>)
    ensures NoDuplicates(Run(Initial(start), events).handled)
  {
    RunKeepsInv(start, events);
  }

  /** An execution is terminal exactly when one write of a terminal status committed, no
      second one ever does, and finishedAt says so. The row keeps the status and the
      attempt of that write, and the attempt is the last one claimed. */
  lemma {:induction false} OneTerminalWrite(start: Time, events: seq<Event>, id: ExecutionId)
    ensures var s := Run(Initial(start), events);
            && FinishesDiffer(s.finishes)
            && (id in s.db.executions ==>
                  && (Terminal(s.db.executions[id].status) <==> s.db.executions[id].finishedAt.Some?)
                  && (Terminal(s.db.executions[id].status) <==> exists f :: f in s.finishes && f.execution == id))
            && (forall f :: f in s.finishes ==>
                  && f.execution in s.db.executions
                  && f.status == s.db.executions[f.execution].status
                  && f.attempt == s.db.executions[f.execution].attempt
                  && (forall k :: k in s.claims && k.0 == f.execution ==> k.1 <= f.attempt)
                  && (f.writer.BySubmitter? || (f.execution, f.attempt) in s.claims))
  {
    var s := Run(Initial(start), events);
    RunKeepsInv(start, events);
    if id in s.db.executions { assert RowOk(s, id); }
    forall f | f in s.finishes
      ensures FinishOk(s, f) && forall k :: k in s.claims && k.0 == f.execution ==> k.1 <= f.attempt
    {
      assert FinishOk(s, f);
      forall k | k in s.claims && k.0 == f.execution ensures k.1 <= f.attempt { assert ClaimOk(s, k); }
    }
    if exists f :: f in s.finishes && f.execution == id {
      var f :| f in s.finishes && f.execution == id;
      assert FinishOk(s, f);
    }
  }

  /** The latest claimant is the one who writes the end, unless the failure handler of
      another delivery with the same attempt number does. */
  lemma {:induction false} LatestClaimantFinishes(start: Time, events: seq<Event>, f: Finish)
    requires f in Run(Initial(start), events).finishes
    ensures var s := Run(Initial(start), events);
            var k := (f.execution, f.attempt);
            match f.writer
            case BySubmitter => forall c :: c in s.claims ==> c.0 != f.execution
            case ByHandler(pid) => k in s.claims && s.claims[k] == pid
            case ByFailureHandler(pid) =>
              && k in s.claims
              && (s.claims[k] != pid ==>
                    && pid in s.deliveries && s.claims[k] in s.deliveries
                    && Key(s.deliveries[pid].message) == Key(s.deliveries[s.claims[k]].message))
  {
    var s := Run(Initial(start), events);
    RunKeepsInv(start, events);
    assert FinishOk(s, f);
    forall c | c in s.claims ensures ClaimOk(s, c) {}
  }

  lemma {:induction false} RunAdvances(s: System, events: seq<Event>)
    requires Inv(s)
    ensures Inv(Run(s, events))
    ensures forall id :: id in s.db.executions ==>
              && id in Run(s, events).db.executions
              && var row, row' := s.db.executions[id], Run(s, events).db.executions[id];
                 && row.maxRetries == row'.maxRetries && row.attempt <= row'.attempt
                 && (Terminal(row.status) ==> row' == row)
  {
    if events != [] {
      var before := Run(s, events[..|events| - 1]);
      RunAdvances(s, events[..|events| - 1]);
      StepAdvances(before, events[|events| - 1]);
      forall id | id in s.db.executions ensures RowAdvances(before.db, Run(s, events).db, id) {}
    }
  }

  lemma {:induction false} RunInTwoParts(s: System, first: seq<Event>, rest: seq<Event>)
    ensures Run(s, first + rest) == Run(Run(s, first), rest)
  {
    if rest == [] {
      assert first + rest == first;
    } else {
      var events := first + rest;
      assert events[..|events| - 1] == first + rest[..|rest| - 1];
      RunInTwoParts(s, first, rest[..|rest| - 1]);
    }
  }

  /** Later in a run attempts are no smaller, and a terminal row is what it was. */
  lemma AttemptsOnlyGrow(start: Time, first: seq<Event>, rest: seq<Event>, id: ExecutionId)
    requires id in Run(Initial(start), first).db.executions
    ensures id in Run(Initial(start), first + rest).db.executions
    ensures var row := Run(Initial(start), first).db.executions[id];
            var row' := Run(Initial(start), first + rest).db.executions[id];
            row.attempt <= row'.attempt && (Terminal(row.status) ==> row' == row)
  {
    RunInTwoParts(Initial(start), first, rest);
    RunKeepsInv(start, first);
    RunAdvances(Run(Initial(start), first), rest);
  }
}
