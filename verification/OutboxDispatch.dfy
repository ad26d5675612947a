/** One pass of the outbox dispatcher, pkg/platform/queue/asynq.go:158-174, over the list
    that dbgen/tasks.sql.go:298-307 orders by creation time and then by queue ID. */
module OutboxDispatch {
  import opened Common
  import opened TaskRows

  predicate Before(outbox: map<QueueId, OutboxRow>, p: QueueId, q: QueueId)
    requires p in outbox && q in outbox
  {
    outbox[p].createdAt < outbox[q].createdAt || (outbox[p].createdAt == outbox[q].createdAt && p < q)
  }

  ghost predicate Ordered(outbox: map<QueueId, OutboxRow>, list: seq<QueueId>) {
    && (forall q :: q in list ==> q in outbox)
    && forall i, j :: 0 <= i < j < |list| ==> Before(outbox, list[i], list[j])
  }

  /** All pending rows in order; the query returns a prefix of this. */
  ghost predicate IsPendingList(db: Database, list: seq<QueueId>) {
    Ordered(db.outbox, list) && forall q :: q in list <==> Pending(db, q)
  }

  /** The foreign key of the outbox, because of which the join drops no row. */
  ghost predicate Joined(db: Database) {
    forall q :: q in db.outbox ==> db.outbox[q].execution in db.executions
  }

  predicate IsQueued(db: Database, q: QueueId) {
    && q in db.outbox && db.outbox[q].execution in db.executions
    && db.executions[db.outbox[q].execution].status.Queued?
  }

  /** The rows `ids`, and no others, went from pending to published; nothing else changed. */
  ghost predicate MarksExactly(db: Database, db': Database, ids: seq<QueueId>) {
    && db'.executions == db.executions && db'.outbox.Keys == db.outbox.Keys
    && forall q :: q in db.outbox ==>
         if q in ids then
           && db.outbox[q].publishedAt.None? && db'.outbox[q].publishedAt.Some?
           && db'.outbox[q] == db.outbox[q].(publishedAt := db'.outbox[q].publishedAt)
         else db'.outbox[q] == db.outbox[q]
  }

  /** How marking a row ends; a lost reply is an error although the row was marked. */
  datatype MarkReply = MarkOk(at: Time) | MarkLost(at: Time) | MarkFailed

  // ----- The order -----

  function Insert(outbox: map<QueueId, OutboxRow>, list: seq<QueueId>, q: QueueId): seq<QueueId>
    requires q in outbox && forall p :: p in list ==> p in outbox
  {
    if list == [] || Before(outbox, q, list[0]) then [q] + list
    else [list[0]] + Insert(outbox, list[1..], q)
  }

  lemma {:induction false} InsertKeepsOrder(outbox: map<QueueId, OutboxRow>, list: seq<QueueId>, q: QueueId)
    requires Ordered(outbox, list) && q in outbox && q !in list
    ensures var r := Insert(outbox, list, q);
            Ordered(outbox, r) && |r| == |list| + 1 && forall p :: p in r <==> p in list || p == q
  {
    if list != [] {
      assert list == [list[0]] + list[1..];
      if !Before(outbox, q, list[0]) {
        InsertKeepsOrder(outbox, list[1..], q);
        var rest := Insert(outbox, list[1..], q);
        forall p | p in rest ensures Before(outbox, list[0], p) {
          if p != q {
            var k :| 0 <= k < |list| - 1 && list[1..][k] == p;
            assert Before(outbox, list[0], list[k + 1]);
          }
        }
        assert forall i :: 0 <= i < |rest| ==> rest[i] in rest;
      }
    }
  }

  lemma {:induction false} PendingListExists(db: Database, ids: set<QueueId>) returns (list: seq<QueueId>)
    requires forall q :: q in ids ==> q in db.outbox
    ensures Ordered(db.outbox, list) && |list| == |ids|
    ensures forall q :: q in list <==> q in ids
  {
    if ids == {} {
      list := [];
    } else {
      var q :| q in ids;
      list := PendingListExists(db, ids - {q});
      InsertKeepsOrder(db.outbox, list, q);
      list := Insert(db.outbox, list, q);
    }
  }

  lemma OrderedOnce(outbox: map<QueueId, OutboxRow>, list: seq<QueueId>)
    requires Ordered(outbox, list)
    ensures NoDuplicates(list)
    ensures forall n :: 0 <= n <= |list| ==> forall q :: q in list[n..] ==> q !in list[..n]
  {
  }

  /** The order is total, so there is one such list. */
  lemma {:induction false} OrderIsUnique(outbox: map<QueueId, OutboxRow>, a: seq<QueueId>, b: seq<QueueId>)
    requires Ordered(outbox, a) && Ordered(outbox, b)
    requires forall q :: q in a <==> q in b
    ensures a == b
  {
    if a == [] {
      assert forall k :: 0 <= k < |b| ==> b[k] in b;
    } else {
      assert a[0] in b && a[0] in a;
      assert b[0] in a && b[0] in b;
      var i :| 0 <= i < |b| && b[i] == a[0];
      var j :| 0 <= j < |a| && a[j] == b[0];
      assert i == 0 && j == 0;
      OrderedOnce(outbox, a);
      OrderedOnce(outbox, b);
      forall q ensures q in a[1..] <==> q in b[1..] {
        assert q in a <==> q == a[0] || q in a[1..];
        assert q in b <==> q == b[0] || q in b[1..];
      }
      OrderIsUnique(outbox, a[1..], b[1..]);
    }
  }

  function PendingIds(db: Database): set<QueueId> {
    set q | q in db.outbox && Pending(db, q)
  }

  ghost function PendingList(db: Database): (list: seq<QueueId>)
    ensures IsPendingList(db, list)
  {
    SomePendingList(db);
    var list :| IsPendingList(db, list);
    list
  }

  lemma SomePendingList(db: Database)
    ensures exists list :: IsPendingList(db, list)
  {
    var list := PendingListExists(db, PendingIds(db));
    assert IsPendingList(db, list);
  }

  // ----- One pass -----

  /** How many rows a limit lets through: the statement takes it as an int32, and
      PostgreSQL refuses a negative one. */
  function RowsAllowed(limit: int): Option<nat> {
    if Int32(limit) < 0 then None else Some(Int32(limit))
  }

  /** The first n rows of the ordered list. */
  ghost function FirstPending(db: Database, n: nat): seq<QueueId> {
    PendingList(db)[..Min(n, |PendingList(db)|)]
  }

  /** ListPendingTaskOutboxMessages. */
  method ListPending(db: Database, limit: int) returns (list: Option<seq<QueueId>>)
    requires Joined(db)
    ensures list == if RowsAllowed(limit).None? then None else Some(FirstPending(db, RowsAllowed(limit).value))
  {
    var allowed := RowsAllowed(limit);
    if allowed.None? {
      return None;
    }
    var rest := db.outbox.Keys;
    var sorted: seq<QueueId> := [];
    while rest != {}
      invariant rest <= db.outbox.Keys
      invariant Ordered(db.outbox, sorted)
      invariant forall q :: q in sorted <==> q !in rest && Pending(db, q)
      decreases |rest|
    {
      var q :| q in rest;
      if db.outbox[q].publishedAt.None? {
        InsertKeepsOrder(db.outbox, sorted, q);
        sorted := Insert(db.outbox, sorted, q);
      }
      rest := rest - {q};
    }
    OrderIsUnique(db.outbox, sorted, PendingList(db));
    return Some(sorted[..Min(allowed.value, |sorted|)]);
  }

  /** Whether the pass gets past this row. */
  predicate Passes(db: Database, q: QueueId, publishes: QueueId -> bool, marks: QueueId -> MarkReply) {
    (IsQueued(db, q) ==> publishes(q)) && marks(q).MarkOk?
  }

  /** The first n rows that the list shows as queued. */
  function QueuedOf(read: Database, list: seq<QueueId>, n: nat): seq<QueueId>
    requires n <= |list|
  {
    if n == 0 then []
    else if IsQueued(read, list[n - 1]) then QueuedOf(read, list, n - 1) + [list[n - 1]]
    else QueuedOf(read, list, n - 1)
  }

  /** How a pass ended: `marked` rows were marked, and `published` accepted by the queue. */
  datatype Pass = Pass(db: Database, ok: bool, marked: nat, published: seq<QueueId>)

  /** The rest of a pass that has marked list[..i]. `read` is the database the list was
      read from: a row counts as queued if it was then. */
  function PassOver(read: Database, db: Database, list: seq<QueueId>, i: nat, published: seq<QueueId>,
                    publishes: QueueId -> bool, marks: QueueId -> MarkReply): Pass
    requires i <= |list|
    decreases |list| - i
  {
    if i == |list| then Pass(db, true, i, published)
    else if IsQueued(read, list[i]) && !publishes(list[i]) then Pass(db, false, i, published)
    else
      var published' := if IsQueued(read, list[i]) then published + [list[i]] else published;
      match marks(list[i])
      case MarkFailed => Pass(db, false, i, published')
      case MarkLost(at) => Pass(Marked(db, list[i], at), false, i + 1, published')
      case MarkOk(at) => PassOver(read, Marked(db, list[i], at), list, i + 1, published', publishes, marks)
  }

  method DispatchPending(store: TaskDatabase, limit: int, listFails: bool,
                         publishes: QueueId -> bool, marks: QueueId -> MarkReply)
    returns (ok: bool, marked: nat, published: seq<QueueId>)
    requires Joined(store.db)
    modifies store`db
    ensures Pass(store.db, ok, marked, published) ==
            if listFails || RowsAllowed(limit).None? then Pass(old(store.db), false, 0, [])
            else PassOver(old(store.db), old(store.db), FirstPending(old(store.db), RowsAllowed(limit).value), 0, [], publishes, marks)
  {
    var list := ListPending(store.db, limit);
    if listFails || list.None? {
      return false, 0, [];
    }
    ok, marked, published := DispatchAll(store, list.value, publishes, marks);
  }

  /** The loop of DispatchPending. */
  method DispatchAll(store: TaskDatabase, list: seq<QueueId>, publishes: QueueId -> bool, marks: QueueId -> MarkReply)
    returns (ok: bool, marked: nat, published: seq<QueueId>)
    modifies store`db
    ensures Pass(store.db, ok, marked, published) == PassOver(old(store.db), old(store.db), list, 0, [], publishes, marks)
  {
    marked, published := 0, [];
    var read := store.db;
    for i := 0 to |list|
      invariant marked == i
      invariant PassOver(read, read, list, 0, [], publishes, marks)
                == PassOver(read, store.db, list, i, published, publishes, marks)
    {
      var q := list[i];
      if IsQueued(read, q) {
        if !publishes(q) {
          return false, marked, published;
        }
        published := published + [q];
      }
      var reply := marks(q);
      if !reply.MarkFailed? {
        store.MarkPublishSucceeded(q, reply.at);
        marked := marked + 1;
      }
      if !reply.MarkOk? {
        return false, marked, published;
      }
    }
    return true, marked, published;
  }

  /** A pass marks exactly a prefix of the list. */
  lemma {:induction false} PassMarksPrefix(read: Database, db: Database, list: seq<QueueId>, i: nat, published: seq<QueueId>,
                                           publishes: QueueId -> bool, marks: QueueId -> MarkReply)
    requires i <= |list| && NoDuplicates(list)
    requires forall k :: 0 <= k < |list| ==> Pending(read, list[k])
    requires MarksExactly(read, db, list[..i])
    ensures var r := PassOver(read, db, list, i, published, publishes, marks);
            i <= r.marked <= |list| && MarksExactly(read, r.db, list[..r.marked])
    decreases |list| - i
  {
    if i < |list| && (IsQueued(read, list[i]) ==> publishes(list[i])) && !marks(list[i]).MarkFailed? {
      var db' := Marked(db, list[i], marks(list[i]).at);
      MarksOneMore(read, db, list, i, marks(list[i]).at);
      if Passes(read, list[i], publishes, marks) {
        var published' := if IsQueued(read, list[i]) then published + [list[i]] else published;
        PassMarksPrefix(read, db', list, i + 1, published', publishes, marks);
      }
    }
  }

  lemma MarksOneMore(read: Database, db: Database, list: seq<QueueId>, i: nat, at: Time)
    requires i < |list| && NoDuplicates(list) && Pending(read, list[i])
    requires MarksExactly(read, db, list[..i])
    ensures MarksExactly(read, Marked(db, list[i], at), list[..i + 1])
  {
  }

  /** It reports no error exactly when every queued row could be published and every row
      marked, and then it marked the whole list; else it stopped at the first error. */
  lemma {:induction false} PassStopsAtError(read: Database, db: Database, list: seq<QueueId>, i: nat, published: seq<QueueId>,
                                            publishes: QueueId -> bool, marks: QueueId -> MarkReply)
    requires i <= |list|
    ensures var r := PassOver(read, db, list, i, published, publishes, marks);
            && i <= r.marked <= |list|
            && (r.ok <==> forall k :: i <= k < |list| ==> Passes(read, list[k], publishes, marks))
            && (r.ok ==> r.marked == |list|)
            && (forall k :: i <= k < r.marked - 1 ==> Passes(read, list[k], publishes, marks))
    decreases |list| - i
  {
    if i < |list| && Passes(read, list[i], publishes, marks) {
      var published' := if IsQueued(read, list[i]) then published + [list[i]] else published;
      PassStopsAtError(read, Marked(db, list[i], marks(list[i]).at), list, i + 1, published', publishes, marks);
    }
  }

  /** It published the queued rows among those it marked, and the row after them exactly if
      it got there and that could be published but not marked. */
  lemma {:induction false} PassPublishesQueued(read: Database, db: Database, list: seq<QueueId>, i: nat, published: seq<QueueId>,
                                               publishes: QueueId -> bool, marks: QueueId -> MarkReply)
    requires i <= |list| && published == QueuedOf(read, list, i)
    ensures var r := PassOver(read, db, list, i, published, publishes, marks);
            && r.marked <= |list|
            && r.published == QueuedOf(read, list,
                 if r.marked < |list| && publishes(list[r.marked])
                    && forall k :: i <= k < r.marked ==> Passes(read, list[k], publishes, marks)
                 then r.marked + 1 else r.marked)
    decreases |list| - i
  {
    if i < |list| && Passes(read, list[i], publishes, marks) {
      PassPublishesQueued(read, Marked(db, list[i], marks(list[i]).at), list, i + 1, QueuedOf(read, list, i + 1), publishes, marks);
    }
  }

  // ----- Repeated passes -----

  /** What an error-free pass does when nothing else changes the outbox. */
  ghost predicate CleanPass(db: Database, db': Database, limit: nat) {
    MarksExactly(db, db', FirstPending(db, limit))
  }

  lemma PendingListCounts(db: Database, list: seq<QueueId>)
    requires IsPendingList(db, list)
    ensures |list| == |PendingIds(db)|
  {
    var other := PendingListExists(db, PendingIds(db));
    OrderIsUnique(db.outbox, list, other);
  }

  /** What follows the marked prefix is the pending list afterwards. */
  lemma RestStaysPending(db: Database, db': Database, all: seq<QueueId>, n: nat)
    requires IsPendingList(db, all) && n <= |all| && MarksExactly(db, db', all[..n])
    ensures IsPendingList(db', all[n..])
  {
    var rest := all[n..];
    assert all == all[..n] + rest;
    forall i, j | 0 <= i < j < |rest| ensures Before(db'.outbox, rest[i], rest[j]) {
      assert Before(db.outbox, all[n + i], all[n + j]);
    }
    OrderedOnce(db.outbox, all);
    forall q ensures q in rest <==> Pending(db', q) {
      assert q in all <==> q in all[..n] || q in rest;
    }
  }

  lemma PassPublishes(db: Database, db': Database, limit: nat)
    requires CleanPass(db, db', limit)
    ensures |PendingIds(db')| == Max(0, |PendingIds(db)| - limit)
  {
    var all := PendingList(db);
    RestStaysPending(db, db', all, Min(limit, |all|));
    PendingListCounts(db, all);
    PendingListCounts(db', all[Min(limit, |all|)..]);
  }

  /** DispatchPending marks a prefix of the pending list, whatever fails, and a call
      without an error is a clean pass. */
  lemma DispatchMarksPrefix(db: Database, limit: nat, publishes: QueueId -> bool, marks: QueueId -> MarkReply)
    ensures var all := PendingList(db);
            var r := PassOver(db, db, FirstPending(db, limit), 0, [], publishes, marks);
            && r.marked <= Min(limit, |all|)
            && MarksExactly(db, r.db, all[..r.marked]) && PendingList(r.db) == all[r.marked..]
            && (r.ok ==> r.marked == Min(limit, |all|) && CleanPass(db, r.db, limit))
  {
    var all := PendingList(db);
    var list := all[..Min(limit, |all|)];
    var r := PassOver(db, db, list, 0, [], publishes, marks);
    OrderedOnce(db.outbox, all);
    assert forall k :: 0 <= k < |list| ==> list[k] == all[k] && all[k] in all;
    PassMarksPrefix(db, db, list, 0, [], publishes, marks);
    PassStopsAtError(db, db, list, 0, [], publishes, marks);
    assert list[..r.marked] == all[..r.marked];
    RestStaysPending(db, r.db, all, r.marked);
    OrderIsUnique(r.db.outbox, PendingList(r.db), all[r.marked..]);
  }

  /** Error-free passes one after another, each from where the one before it ended. */
  ghost predicate CleanPasses(db: Database, dbs: seq<Database>, limit: nat)
    decreases |dbs|
  {
    dbs != [] ==> CleanPass(db, dbs[0], limit) && CleanPasses(dbs[0], dbs[1..], limit)
  }

  function Last(db: Database, dbs: seq<Database>): Database {
    if dbs == [] then db else dbs[|dbs| - 1]
  }

  function Times(k: nat, limit: nat): nat {
    if k == 0 then 0 else limit + Times(k - 1, limit)
  }

  lemma {:induction false} PassesPublish(db: Database, dbs: seq<Database>, limit: nat)
    requires CleanPasses(db, dbs, limit)
    ensures |PendingIds(Last(db, dbs))| == Max(0, |PendingIds(db)| - Times(|dbs|, limit))
    decreases |dbs|
  {
    if dbs != [] {
      PassPublishes(db, dbs[0], limit);
      PassesPublish(dbs[0], dbs[1..], limit);
      assert Last(dbs[0], dbs[1..]) == Last(db, dbs);
    }
  }

  /** N pending rows are all published after k error-free passes with limit L exactly
      when k >= ceil(N / L). */
  lemma {:induction false} DrainsInCeilingManyPasses(db: Database, dbs: seq<Database>, limit: nat)
    requires limit > 0 && CleanPasses(db, dbs, limit)
    ensures PendingIds(Last(db, dbs)) == {} <==> |dbs| >= CeilDiv(|PendingIds(db)|, limit)
  {
    PassesPublish(db, dbs, limit);
    TimesIs(|dbs|, limit);
    CeilingReached(|dbs|, |PendingIds(db)|, limit);
  }

  lemma {:induction false} TimesIs(k: nat, limit: nat)
    ensures Times(k, limit) == k * limit
  {
    if k > 0 {
      TimesIs(k - 1, limit);
    }
  }

  lemma CeilingReached(k: nat, n: nat, limit: nat)
    requires limit > 0
    ensures k * limit >= n <==> k >= CeilDiv(n, limit)
  {
    var c := CeilDiv(n, limit);
    assert (c - 1) * limit < n <= c * limit;
    if k >= c {
      assert k * limit >= c * limit;
    } else {
      assert k * limit <= (c - 1) * limit;
    }
  }
}
