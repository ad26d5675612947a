/** Single use of an e-mail code receipt: the consumption statements of Register and
    VerifyEmail in pkg/platform/database/iamstore/authentication.go and of
    dbgen/authentication.sql.go, interleaved statement by statement. Register holds the lock
    on the authentication settings from before its check to its end, and VerifyEmail that on
    its account's row; the runs here ignore both locks, so what is proved of them holds of
    the fewer runs that the locks leave. The failing run below has one transaction with a
    receipt under way at a time, so it is one of those. */
module Receipts {
  import opened Common

  type ReceiptId = string
  type Pid = nat

  /** A receipt value: its ID and its expiry. Whoever presents it presents the same value. */
  datatype Receipt = Receipt(id: ReceiptId, expiresAt: Time)

  /** Where a transaction is. `start` is what NOW() means throughout it. */
  datatype Stage =
    | Begun
    | Checked(checkedAt: Time)
    | Pruned(checkedAt: Time)
    | Inserted(checkedAt: Time, insertedAt: Time)

  datatype Transaction = Transaction(receipt: Receipt, start: Time, stage: Stage)

  /** A row is visible to others only when its transaction has committed; until then it
      makes another insert of the same key wait. */
  datatype Row = Row(receipt: Receipt, writer: Option<Pid>)

  datatype Commit = Commit(receipt: Receipt, checkedAt: Time, insertedAt: Time)

  datatype System = System(
    table: map<ReceiptId, Row>,
    transactions: map<Pid, Transaction>,
    commits: seq<Commit>,
    now: Time)

  datatype Event =
    | Tick(delay: nat)
    | Begin(pid: Pid, receipt: Receipt)
    | Check(pid: Pid)
    | Prune(pid: Pid)
    | Insert(pid: Pid)
    | CommitNow(pid: Pid)
    | Rollback(pid: Pid)
    | OtherPrune(start: Time)

  function Initial(start: Time): System {
    System(map[], map[], [], start)
  }

  /** DELETE ... WHERE expires_at < NOW(): committed rows only, by the caller's start. */
  function PruneRows(table: map<ReceiptId, Row>, start: Time): map<ReceiptId, Row> {
    map id | id in table && (table[id].writer.Some? || table[id].receipt.expiresAt >= start) :: table[id]
  }

  /** A transaction that fails or rolls back takes its uncommitted row with it. */
  function Ended(s: System, pid: Pid): System {
    s.(transactions := s.transactions - {pid},
       table := map id | id in s.table && s.table[id].writer != Some(pid) :: s.table[id])
  }

  /** One statement of one transaction, the passing of time, or the pruning that any
      other authentication transaction does. `values` fixes the receipt behind an ID. */
  function Step(values: map<ReceiptId, Time>, s: System, e: Event): System {
    match e
    case Tick(delay) => s.(now := s.now + delay)
    case Begin(pid, receipt) =>
      if pid in s.transactions || receipt.id !in values || values[receipt.id] != receipt.expiresAt then s
      else s.(transactions := s.transactions[pid := Transaction(receipt, s.now, Begun)])
    case Check(pid) =>
      if pid !in s.transactions || !s.transactions[pid].stage.Begun? then s
      else
        var t := s.transactions[pid];
        if t.receipt.id == "" || t.receipt.expiresAt <= s.now then Ended(s, pid)
        else s.(transactions := s.transactions[pid := t.(stage := Checked(s.now))])
    case Prune(pid) =>
      if pid !in s.transactions || !s.transactions[pid].stage.Checked? then s
      else
        var t := s.transactions[pid];
        s.(table := PruneRows(s.table, t.start),
           transactions := s.transactions[pid := t.(stage := Pruned(t.stage.checkedAt))])
    case Insert(pid) =>
      if pid !in s.transactions || !s.transactions[pid].stage.Pruned? then s
      else
        var t := s.transactions[pid];
        if t.receipt.id !in s.table then
          s.(table := s.table[t.receipt.id := Row(t.receipt, Some(pid))],
             transactions := s.transactions[pid := t.(stage := Inserted(t.stage.checkedAt, s.now))])
        else if s.table[t.receipt.id].writer.Some? then s
        else Ended(s, pid)
    case CommitNow(pid) =>
      if pid !in s.transactions || !s.transactions[pid].stage.Inserted? then s
      else
        var t := s.transactions[pid];
        s.(transactions := s.transactions - {pid},
           table := map id | id in s.table ::
                      if s.table[id].writer == Some(pid) then s.table[id].(writer := None) else s.table[id],
           commits := s.commits + [Commit(t.receipt, t.stage.checkedAt, t.stage.insertedAt)])
    case Rollback(pid) => Ended(s, pid)
    case OtherPrune(start) =>
      if start > s.now then s else s.(table := PruneRows(s.table, start))
  }

  function Run(values: map<ReceiptId, Time>, s: System, events: seq<Event>): System {
    if events == [] then s else Step(values, Run(values, s, events[..|events| - 1]), events[|events| - 1])
  }

  ghost predicate UsedBefore(s: System, id: ReceiptId) {
    exists i :: 0 <= i < |s.commits| && s.commits[i].receipt.id == id
  }

  ghost predicate TransactionInv(values: map<ReceiptId, Time>, s: System, pid: Pid)
    requires pid in s.transactions
  {
    var t := s.transactions[pid];
    && t.start <= s.now
    && t.receipt.id in values && values[t.receipt.id] == t.receipt.expiresAt
    && (!t.stage.Begun? ==> t.start <= t.stage.checkedAt <= s.now && t.stage.checkedAt < t.receipt.expiresAt)
    && (t.stage.Inserted? ==>
          && t.stage.checkedAt <= t.stage.insertedAt <= s.now
          && t.receipt.id in s.table && s.table[t.receipt.id] == Row(t.receipt, Some(pid))
          && (UsedBefore(s, t.receipt.id) ==> t.stage.insertedAt > t.receipt.expiresAt))
  }

  ghost predicate Inv(values: map<ReceiptId, Time>, s: System) {
    && (forall pid :: pid in s.transactions ==> TransactionInv(values, s, pid))
    && (forall id :: id in s.table ==>
          && id == s.table[id].receipt.id && id in values && values[id] == s.table[id].receipt.expiresAt
          && (s.table[id].writer.Some? ==>
                var pid := s.table[id].writer.value;
                pid in s.transactions && s.transactions[pid].stage.Inserted? && s.transactions[pid].receipt.id == id))
    && (forall i :: 0 <= i < |s.commits| ==>
          var c := s.commits[i];
          && c.checkedAt <= c.insertedAt <= s.now && c.checkedAt < c.receipt.expiresAt
          && c.receipt.id in values && values[c.receipt.id] == c.receipt.expiresAt
          && (s.now <= c.receipt.expiresAt ==> c.receipt.id in s.table))
    && (forall i, j :: 0 <= i < j < |s.commits| && s.commits[i].receipt.id == s.commits[j].receipt.id ==>
          s.commits[j].insertedAt > s.commits[j].receipt.expiresAt)
  }

  lemma EndedKeepsInv(values: map<ReceiptId, Time>, s: System, pid: Pid)
    requires Inv(values, s)
    ensures Inv(values, Ended(s, pid))
  {
  }

  /** Pruning spares what has not expired, whichever start time it uses. */
  lemma PruneKeepsInv(values: map<ReceiptId, Time>, s: System, start: Time)
    requires Inv(values, s) && start <= s.now
    ensures Inv(values, s.(table := PruneRows(s.table, start)))
  {
  }

  lemma InsertKeepsInv(values: map<ReceiptId, Time>, s: System, pid: Pid)
    requires Inv(values, s)
    ensures Inv(values, Step(values, s, Insert(pid)))
  {
    if pid in s.transactions && s.transactions[pid].stage.Pruned? {
      var id := s.transactions[pid].receipt.id;
      if id in s.table && s.table[id].writer.None? {
        EndedKeepsInv(values, s, pid);
      }
    }
  }

  lemma CommitKeepsInv(values: map<ReceiptId, Time>, s: System, pid: Pid)
    requires Inv(values, s)
    ensures Inv(values, Step(values, s, CommitNow(pid)))
  {
    if pid in s.transactions && s.transactions[pid].stage.Inserted? {
      var s' := Step(values, s, CommitNow(pid));
      var t := s.transactions[pid];
      forall i | 0 <= i < |s.commits| && s.commits[i].receipt.id == t.receipt.id
        ensures t.stage.insertedAt > t.receipt.expiresAt
      {
        assert UsedBefore(s, t.receipt.id);
      }
      forall p | p in s'.transactions ensures TransactionInv(values, s', p) {
        assert TransactionInv(values, s, p);
      }
    }
  }

  lemma CheckKeepsInv(values: map<ReceiptId, Time>, s: System, e: Event)
    requires Inv(values, s) && (e.Tick? || e.Begin? || e.Check?)
    ensures Inv(values, Step(values, s, e))
  {
    if e.Check? {
      EndedKeepsInv(values, s, e.pid);
    }
  }

  lemma StepKeepsInv(values: map<ReceiptId, Time>, s: System, e: Event)
    requires Inv(values, s)
    ensures Inv(values, Step(values, s, e))
  {
    match e
    case Tick(_) => CheckKeepsInv(values, s, e);
    case Begin(_, _) => CheckKeepsInv(values, s, e);
    case Check(_) => CheckKeepsInv(values, s, e);
    case Prune(pid) =>
      if pid in s.transactions && s.transactions[pid].stage.Checked? {
        PruneKeepsInv(values, s, s.transactions[pid].start);
      }
    case Insert(pid) => InsertKeepsInv(values, s, pid);
    case CommitNow(pid) => CommitKeepsInv(values, s, pid);
    case Rollback(pid) => EndedKeepsInv(values, s, pid);
    case OtherPrune(start) =>
      if start <= s.now {
        PruneKeepsInv(values, s, start);
      }
  }

  lemma {:induction false} RunKeepsInv(values: map<ReceiptId, Time>, start: Time, events: seq<Event>)
    ensures Inv(values, Run(values, Initial(start), events))
  {
    if events != [] {
      RunKeepsInv(values, start, events[..|events| - 1]);
      StepKeepsInv(values, Run(values, Initial(start), events[..|events| - 1]), events[|events| - 1]);
    }
  }

  /** In every interleaving of statements, a receipt is committed a second time only if
      that insert ran after the receipt's expiry, although its own check ran before it. */
  lemma SecondUseIsLate(values: map<ReceiptId, Time>, start: Time, events: seq<Event>, i: nat, j: nat)
    requires var commits := Run(values, Initial(start), events).commits;
             i < j < |commits| && commits[i].receipt == commits[j].receipt
    ensures var c := Run(values, Initial(start), events).commits[j];
            c.checkedAt < c.receipt.expiresAt < c.insertedAt
  {
    RunKeepsInv(values, start, events);
  }

  /** Every insert came no later than its receipt's expiry. */
  ghost predicate Punctual(commits: seq<Commit>) {
    forall i :: 0 <= i < |commits| ==> commits[i].insertedAt <= commits[i].receipt.expiresAt
  }

  /** So as long as no transaction stalls across the expiry between check and insert,
      and in particular when transactions run without interruption, at most one Register
      or VerifyEmail ever commits with a receipt, however much is pruned in between. */
  lemma ReceiptIsSingleUse(values: map<ReceiptId, Time>, start: Time, events: seq<Event>)
    requires Punctual(Run(values, Initial(start), events).commits)
    ensures var commits := Run(values, Initial(start), events).commits;
            forall i, j :: 0 <= i < j < |commits| ==> commits[i].receipt != commits[j].receipt
  {
    RunKeepsInv(values, start, events);
  }

  lemma UninterruptedIsPunctual(values: map<ReceiptId, Time>, start: Time, events: seq<Event>)
    requires var commits := Run(values, Initial(start), events).commits;
             forall i :: 0 <= i < |commits| ==> commits[i].insertedAt == commits[i].checkedAt
    ensures Punctual(Run(values, Initial(start), events).commits)
  {
    RunKeepsInv(values, start, events);
  }

  // ----- What the transactions do -----

  /** A row that is not waiting for its transaction stands for a commit. */
  ghost predicate RowsAreCommits(s: System) {
    forall id :: id in s.table && s.table[id].writer.None? ==> UsedBefore(s, id)
  }

  lemma StepKeepsRows(values: map<ReceiptId, Time>, s: System, e: Event)
    requires Inv(values, s) && RowsAreCommits(s)
    ensures RowsAreCommits(Step(values, s, e))
  {
    var s' := Step(values, s, e);
    forall id | id in s'.table && s'.table[id].writer.None? ensures UsedBefore(s', id) {
      if id in s.table && s.table[id].writer.None? {
        var i :| 0 <= i < |s.commits| && s.commits[i].receipt.id == id;
        assert s'.commits[i] == s.commits[i];
      } else {
        assert s'.commits[|s.commits|].receipt.id == id;
      }
    }
  }

  lemma {:induction false} RunKeepsRows(values: map<ReceiptId, Time>, start: Time, events: seq<Event>)
    ensures RowsAreCommits(Run(values, Initial(start), events))
  {
    if events != [] {
      RunKeepsInv(values, start, events[..|events| - 1]);
      RunKeepsRows(values, start, events[..|events| - 1]);
      StepKeepsRows(values, Run(values, Initial(start), events[..|events| - 1]), events[|events| - 1]);
    }
  }

  /** Begin, check and prune, without interruption. */
  function Prepared(s: System, pid: Pid, r: Receipt): System {
    s.(table := PruneRows(s.table, s.now), transactions := s.transactions[pid := Transaction(r, s.now, Pruned(s.now))])
  }

  lemma BeginsAndPrunes(values: map<ReceiptId, Time>, s: System, pid: Pid, r: Receipt)
    requires Inv(values, s) && pid !in s.transactions && r.id in values && values[r.id] == r.expiresAt
    ensures Step(values, Step(values, Step(values, s, Begin(pid, r)), Check(pid)), Prune(pid)) ==
            if r.id != "" && s.now < r.expiresAt then Prepared(s, pid, r) else s
  {
    var s1 := Step(values, s, Begin(pid, r));
    assert s1.transactions - {pid} == s.transactions;
    assert forall id :: id in s.table ==> s.table[id].writer != Some(pid);
    assert Ended(s1, pid) == s;
    assert s1.transactions[pid := Transaction(r, s.now, Checked(s.now))][pid := Transaction(r, s.now, Pruned(s.now))] ==
           Prepared(s, pid, r).transactions;
  }

  lemma InsertsAndCommits(values: map<ReceiptId, Time>, s: System, pid: Pid, r: Receipt)
    requires Inv(values, s) && pid !in s.transactions
    requires r.id in s.table ==> s.table[r.id].writer.None? && r.id in PruneRows(s.table, s.now)
    ensures var s' := Step(values, Step(values, Prepared(s, pid, r), Insert(pid)), CommitNow(pid));
            && s'.transactions == s.transactions
            && s'.commits == s.commits + if r.id in s.table then [] else [Commit(r, s.now, s.now)]
  {
    var s1 := Prepared(s, pid, r);
    assert s1.transactions - {pid} == s.transactions;
    assert s1.transactions[pid := Transaction(r, s.now, Inserted(s.now, s.now))] - {pid} == s.transactions;
  }

  lemma FiveSteps(values: map<ReceiptId, Time>, s: System, e1: Event, e2: Event, e3: Event, e4: Event, e5: Event)
    ensures Run(values, s, [e1, e2, e3, e4, e5]) ==
            Step(values, Step(values, Step(values, Step(values, Step(values, s, e1), e2), e3), e4), e5)
  {
    assert [e1, e2, e3, e4, e5][..4] == [e1, e2, e3, e4];
    assert [e1, e2, e3, e4][..3] == [e1, e2, e3];
    assert [e1, e2, e3][..2] == [e1, e2];
    assert [e1, e2][..1] == [e1];
    assert [e1][..0] == [];
    assert Run(values, s, [e1]) == Step(values, s, e1);
    assert Run(values, s, [e1, e2]) == Step(values, Step(values, s, e1), e2);
    assert Run(values, s, [e1, e2, e3]) == Step(values, Step(values, Step(values, s, e1), e2), e3);
  }

  /** A transaction that runs uninterrupted while nobody holds its receipt's row commits
      exactly when the receipt has an ID, has not expired, and was not committed before. */
  lemma ReceiptIsAcceptedExactly(values: map<ReceiptId, Time>, start: Time, events: seq<Event>, pid: Pid, r: Receipt)
    requires r.id in values && values[r.id] == r.expiresAt
    requires var s := Run(values, Initial(start), events);
             pid !in s.transactions && (r.id in s.table ==> s.table[r.id].writer.None?)
    ensures var s := Run(values, Initial(start), events);
            var s' := Run(values, s, [Begin(pid, r), Check(pid), Prune(pid), Insert(pid), CommitNow(pid)]);
            && s'.transactions == s.transactions
            && s'.commits == s.commits + if r.id != "" && s.now < r.expiresAt && !UsedBefore(s, r.id)
                                         then [Commit(r, s.now, s.now)] else []
  {
    var s := Run(values, Initial(start), events);
    RunKeepsInv(values, start, events);
    RunKeepsRows(values, start, events);
    FiveSteps(values, s, Begin(pid, r), Check(pid), Prune(pid), Insert(pid), CommitNow(pid));
    BeginsAndPrunes(values, s, pid, r);
    if r.id != "" && s.now < r.expiresAt {
      assert r.id in s.table <==> UsedBefore(s, r.id);
      InsertsAndCommits(values, s, pid, r);
    }
  }

  /** An insert waits for the transaction that holds the row: it goes through when that
      one rolls back, and is refused when that one commits. */
  lemma InsertWaitsForHolder(values: map<ReceiptId, Time>, s: System, pid: Pid, holder: Pid)
    requires Inv(values, s) && pid in s.transactions && s.transactions[pid].stage.Pruned?
    requires var id := s.transactions[pid].receipt.id;
             id in s.table && s.table[id].writer == Some(holder)
    ensures Step(values, s, Insert(pid)) == s
    ensures var s' := Step(values, Step(values, s, Rollback(holder)), Insert(pid));
            pid in s'.transactions && s'.transactions[pid].stage == Inserted(s.transactions[pid].stage.checkedAt, s.now)
    ensures pid !in Step(values, Step(values, s, CommitNow(holder)), Insert(pid)).transactions
  {
  }

  // ----- Why the condition is needed -----

  /** Nobody checks before the run begins, and nobody checks out an empty ID. */
  ghost predicate CheckedSince(s: System, start: Time) {
    && start <= s.now
    && (forall pid :: pid in s.transactions && !s.transactions[pid].stage.Begun? ==>
          s.transactions[pid].receipt.id != "" && start <= s.transactions[pid].stage.checkedAt)
    && (forall i :: 0 <= i < |s.commits| ==> s.commits[i].receipt.id != "" && start <= s.commits[i].checkedAt)
  }

  lemma StepChecksSinceStart(values: map<ReceiptId, Time>, start: Time, s: System, e: Event)
    requires CheckedSince(s, start)
    ensures CheckedSince(Step(values, s, e), start)
  {
  }

  lemma {:induction false} RunsCheckSinceStart(values: map<ReceiptId, Time>, start: Time, events: seq<Event>)
    ensures CheckedSince(Run(values, Initial(start), events), start)
  {
    if events != [] {
      RunsCheckSinceStart(values, start, events[..|events| - 1]);
      StepChecksSinceStart(values, start, Run(values, Initial(start), events[..|events| - 1]), events[|events| - 1]);
    }
  }

  /** At no time are two transactions with receipts under way, as if they all held one lock. */
  ghost predicate Serial(values: map<ReceiptId, Time>, start: Time, events: seq<Event>) {
    && |Run(values, Initial(start), events).transactions| <= 1
    && (events != [] ==> Serial(values, start, events[..|events| - 1]))
  }

  ghost predicate Reachable(values: map<ReceiptId, Time>, start: Time, s: System) {
    exists events :: s == Run(values, Initial(start), events) && Serial(values, start, events)
  }

  lemma ReachableStep(values: map<ReceiptId, Time>, start: Time, s: System, e: Event)
    requires Reachable(values, start, s) && |Step(values, s, e).transactions| <= 1
    ensures Reachable(values, start, Step(values, s, e))
  {
    var events :| s == Run(values, Initial(start), events) && Serial(values, start, events);
    assert (events + [e])[..|events|] == events;
    assert Step(values, s, e) == Run(values, Initial(start), events + [e]);
  }

  /** A transaction that begins alone and in time gets as far as its insert, also when
      the receipt's row is there: it has not expired. */
  lemma Prepares(values: map<ReceiptId, Time>, start: Time, s: System, pid: Pid, r: Receipt) returns (s': System)
    requires Reachable(values, start, s) && s.transactions == map[]
    requires s.table == map[] || s.table == map[r.id := Row(r, None)]
    requires r.id in values && values[r.id] == r.expiresAt && r.id != "" && s.now < r.expiresAt
    ensures Reachable(values, start, s')
    ensures s' == s.(transactions := map[pid := Transaction(r, s.now, Pruned(s.now))])
  {
    var begun := Step(values, s, Begin(pid, r));
    ReachableStep(values, start, s, Begin(pid, r));
    var checked := Step(values, begun, Check(pid));
    ReachableStep(values, start, begun, Check(pid));
    s' := Step(values, checked, Prune(pid));
    ReachableStep(values, start, checked, Prune(pid));
    assert s'.table == s.table;
    assert s'.transactions == map[pid := Transaction(r, s.now, Pruned(s.now))];
  }

  /** A prepared transaction that finds no row inserts one and commits, however late. */
  lemma Finishes(values: map<ReceiptId, Time>, start: Time, s: System, pid: Pid, r: Receipt) returns (s': System)
    requires Reachable(values, start, s) && s.table == map[]
    requires s.transactions == map[pid := Transaction(r, start, Pruned(start))]
    ensures Reachable(values, start, s')
    ensures s'.table == map[r.id := Row(r, None)] && s'.transactions == map[] && s'.now == s.now
    ensures s'.commits == s.commits + [Commit(r, start, s.now)]
  {
    var inserted := Step(values, s, Insert(pid));
    ReachableStep(values, start, s, Insert(pid));
    assert inserted.table == map[r.id := Row(r, Some(pid))];
    s' := Step(values, inserted, CommitNow(pid));
    ReachableStep(values, start, inserted, CommitNow(pid));
    assert s'.transactions == map[];
  }

  /** Just after the expiry any other transaction prunes the committed row. */
  lemma Expires(values: map<ReceiptId, Time>, start: Time, s: System, r: Receipt) returns (s': System)
    requires Reachable(values, start, s) && |s.transactions| <= 1
    requires s.table == map[r.id := Row(r, None)] && s.now <= r.expiresAt
    ensures Reachable(values, start, s') && s' == s.(table := map[], now := r.expiresAt + 1)
  {
    var delay := r.expiresAt + 1 - s.now;
    ReachableStep(values, start, s, Tick(delay));
    s' := Step(values, s, Tick(delay));
    ReachableStep(values, start, s', OtherPrune(s'.now));
    s' := Step(values, s', OtherPrune(s'.now));
    assert s'.table == map[];
  }

  /** The first transaction commits; only then the second begins, checks and prunes in
      time; the receipt expires; a transaction that waits for neither lock prunes the row;
      the second inserts it again and commits. */
  lemma StalledTransactionReusesReceipt(values: map<ReceiptId, Time>, start: Time, r: Receipt) returns (s: System)
    requires r.id in values && values[r.id] == r.expiresAt && r.id != "" && start < r.expiresAt
    ensures Reachable(values, start, s)
    ensures s.commits == [Commit(r, start, start), Commit(r, start, r.expiresAt + 1)]
  {
    assert Initial(start) == Run(values, Initial(start), []) && Serial(values, start, []);
    s := Prepares(values, start, Initial(start), 0, r);
    s := Finishes(values, start, s, 0, r);
    s := Prepares(values, start, s, 1, r);
    s := Expires(values, start, s, r);
    s := Finishes(values, start, s, 1, r);
  }

  ghost predicate CommittedTwice(commits: seq<Commit>, r: Receipt) {
    exists i, j :: 0 <= i < j < |commits| && commits[i].receipt == r && commits[j].receipt == r
  }

  /** Some run, even with one transaction at a time, commits twice with a receipt exactly
      when the receipt is usable at all, so no receipt is safe by its value: only the
      punctual inserts make it so. */
  lemma ReuseIsPossibleWhenUsable(values: map<ReceiptId, Time>, start: Time, r: Receipt)
    requires r.id in values && values[r.id] == r.expiresAt
    ensures (exists s :: Reachable(values, start, s) && CommittedTwice(s.commits, r)) <==> r.id != "" && start < r.expiresAt
  {
    if r.id != "" && start < r.expiresAt {
      var s := StalledTransactionReusesReceipt(values, start, r);
      assert s.commits[0].receipt == r && s.commits[1].receipt == r;
      assert CommittedTwice(s.commits, r);
    }
    forall s | Reachable(values, start, s) && CommittedTwice(s.commits, r) ensures r.id != "" && start < r.expiresAt {
      var events :| s == Run(values, Initial(start), events) && Serial(values, start, events);
      RunKeepsInv(values, start, events);
      RunsCheckSinceStart(values, start, events);
    }
  }
}
