/** pkg/platform/database/iamstore/repository.go with dbgen/rbac.sql.go: the management
    store never takes away the last active system administrator. In the runs below the lock
    on the administrator role makes other transactions that want it wait, and so do
    assignments of that role, whose foreign key needs the role's row. Other row locks are
    left out, so safety is proved for more interleavings than there are. */
module Administrators {
  import opened Common

  type UserId = string
  type RoleId = string
  type Pid = nat

  const ADMIN := "admin"

  datatype Role = Role(name: string, isSystem: bool)

  /** `users` says who exists and who is active. */
  datatype Database = Database(users: map<UserId, bool>, roles: map<RoleId, Role>, grants: set<(UserId, RoleId)>)

  datatype Outcome =
    | Done
    | NotFound
    | LastActiveAdministrator
    | SystemRoleProtected
    | DuplicateIdentity

  predicate IsAdminRole(db: Database, role: RoleId) {
    role in db.roles && db.roles[role] == Role(ADMIN, true)
  }

  /** The users that lockActiveSystemAdministratorIDs selects. */
  function ActiveAdministrators(db: Database): set<UserId> {
    set a | a in db.grants && a.0 in db.users && db.users[a.0] && IsAdminRole(db, a.1) :: a.0
  }

  ghost predicate UniqueNames(db: Database) {
    forall r1, r2 :: r1 in db.roles && r2 in db.roles && db.roles[r1].name == db.roles[r2].name ==> r1 == r2
  }

  // ----- The statements of each operation, given what it read under the lock -----

  function Deactivated(db: Database, user: UserId, admins: set<UserId>): (Outcome, Database) {
    if user !in db.users then (NotFound, db)
    else if user in admins && |admins| == 1 then (LastActiveAdministrator, db)
    else (Done, db.(users := db.users[user := false]))
  }

  function Activated(db: Database, user: UserId): (Outcome, Database) {
    if user !in db.users then (NotFound, db) else (Done, db.(users := db.users[user := true]))
  }

  function AssignedTo(user: UserId, roles: seq<RoleId>): set<(UserId, RoleId)> {
    set r | r in roles :: (user, r)
  }

  function RolesReplaced(db: Database, user: UserId, roles: seq<RoleId>, admins: set<UserId>, adminRole: RoleId): (Outcome, Database) {
    if user !in db.users then (NotFound, db)
    else if exists r :: r in roles && r !in db.roles then (NotFound, db)
    else if user in admins && |admins| == 1 && adminRole !in roles then (LastActiveAdministrator, db)
    else
      var others := set a | a in db.grants && a.0 != user;
      (Done, db.(grants := others + AssignedTo(user, roles)))
  }

  /** UpdateRole, given the role it read before: the update itself has no guard. */
  function Renamed(db: Database, role: RoleId, name: string, seen: Role): (Outcome, Database) {
    if seen.isSystem && seen.name != name then (SystemRoleProtected, db)
    else if role !in db.roles then (NotFound, db)
    else if exists r :: r in db.roles && r != role && db.roles[r].name == name then (DuplicateIdentity, db)
    else (Done, db.(roles := db.roles[role := db.roles[role].(name := name)]))
  }

  /** DeleteRole, given the role it read before; assignments go with the role. */
  function Deleted(db: Database, role: RoleId, seen: Role): (Outcome, Database) {
    if seen.isSystem then (SystemRoleProtected, db)
    else if role !in db.roles then (NotFound, db)
    else (Done, Database(db.users, db.roles - {role}, set a | a in db.grants && a.1 != role))
  }

  // ----- The store, one transaction at a time -----

  class Store {
    var db: Database

    constructor (db: Database)
      ensures this.db == db
    {
      this.db := db;
    }

    method LockSystemAdminRole() returns (role: Option<RoleId>)
      ensures role.Some? ==> IsAdminRole(db, role.value)
      ensures role.None? ==> forall r :: !IsAdminRole(db, r)
    {
      if r :| r in db.roles && IsAdminRole(db, r) {
        return Some(r);
      }
      return None;
    }

    method SetUserActive(user: UserId, active: bool) returns (outcome: Outcome)
      modifies this
      ensures active ==> (outcome, db) == Activated(old(db), user)
      ensures !active && (forall r :: !IsAdminRole(old(db), r)) ==> outcome == NotFound && db == old(db)
      ensures !active && (exists r :: IsAdminRole(old(db), r)) ==>
                (outcome, db) == Deactivated(old(db), user, ActiveAdministrators(old(db)))
    {
      if user !in db.users {
        return NotFound;
      }
      if active {
        db := db.(users := db.users[user := true]);
        return Done;
      }
      var adminRole := LockSystemAdminRole();
      if adminRole.None? {
        return NotFound;
      }
      var admins := ActiveAdministrators(db);
      if user in admins && |admins| == 1 {
        return LastActiveAdministrator;
      }
      db := db.(users := db.users[user := false]);
      return Done;
    }

    method ReplaceUserRoles(user: UserId, roles: seq<RoleId>) returns (outcome: Outcome)
      requires UniqueNames(db)
      modifies this
      ensures (forall r :: !IsAdminRole(old(db), r)) ==> outcome == NotFound && db == old(db)
      ensures forall r :: IsAdminRole(old(db), r) ==>
                (outcome, db) == RolesReplaced(old(db), user, roles, ActiveAdministrators(old(db)), r)
    {
      if user !in db.users {
        return NotFound;
      }
      var found := LockSystemAdminRole();
      if found.None? {
        return NotFound;
      }
      var adminRole := found.value;
      assert forall r :: IsAdminRole(db, r) ==> r == adminRole;
      var admins := ActiveAdministrators(db);
      for i := 0 to |roles|
        invariant db == old(db)
        invariant forall k :: 0 <= k < i ==> roles[k] in db.roles
      {
        if roles[i] !in db.roles {
          return NotFound;
        }
      }
      if user in admins && |admins| == 1 && adminRole !in roles {
        return LastActiveAdministrator;
      }
      db := db.(grants := set a | a in db.grants && a.0 != user);
      ghost var others := db.grants;
      for i := 0 to |roles|
        invariant db == old(db).(grants := others + AssignedTo(user, roles[..i]))
      {
        db := db.(grants := db.grants + {(user, roles[i])});
        assert AssignedTo(user, roles[..i + 1]) == AssignedTo(user, roles[..i]) + {(user, roles[i])};
      }
      assert roles[..|roles|] == roles;
      return Done;
    }

    method UpdateRole(role: RoleId, name: string) returns (outcome: Outcome)
      modifies this
      ensures role !in old(db).roles ==> outcome == NotFound && db == old(db)
      ensures role in old(db).roles ==> (outcome, db) == Renamed(old(db), role, name, old(db).roles[role])
    {
      if role !in db.roles {
        return NotFound;
      }
      if db.roles[role].isSystem && db.roles[role].name != name {
        return SystemRoleProtected;
      }
      if r :| r in db.roles && r != role && db.roles[r].name == name {
        return DuplicateIdentity;
      }
      db := db.(roles := db.roles[role := db.roles[role].(name := name)]);
      return Done;
    }

    method DeleteRole(role: RoleId) returns (outcome: Outcome)
      modifies this
      ensures role !in old(db).roles ==> outcome == NotFound && db == old(db)
      ensures role in old(db).roles ==> (outcome, db) == Deleted(old(db), role, old(db).roles[role])
    {
      if role !in db.roles {
        return NotFound;
      }
      if db.roles[role].isSystem {
        return SystemRoleProtected;
      }
      db := Database(db.users, db.roles - {role}, set a | a in db.grants && a.1 != role);
      return Done;
    }
  }

  // ----- What each operation does -----

  /** A deactivation, refused for the only listed administrator, makes that user inactive. */
  lemma DeactivationIsExact(db: Database, user: UserId, admins: set<UserId>)
    requires user in db.users
    ensures var (outcome, db') := Deactivated(db, user, admins);
            && (outcome == LastActiveAdministrator <==> admins == {user})
            && (outcome == Done || db' == db)
            && (outcome == Done ==> db'.roles == db.roles && db'.grants == db.grants && db'.users.Keys == db.users.Keys
                                    && forall u :: u in db.users ==> db'.users[u] == (u != user && db.users[u]))
  {
    assert admins == {user} ==> |admins| == 1;
    if user in admins && |admins| == 1 {
      assert |admins - {user}| == 0;
      assert admins == (admins - {user}) + {user};
    }
  }

  /** A replacement that goes through leaves the user with exactly the given roles, and
      everyone else with theirs. */
  lemma ReplacementIsExact(db: Database, user: UserId, roles: seq<RoleId>, admins: set<UserId>, adminRole: RoleId)
    requires user in db.users
    ensures var (outcome, db') := RolesReplaced(db, user, roles, admins, adminRole);
            && (outcome == Done <==> (forall r :: r in roles ==> r in db.roles) && (admins == {user} ==> adminRole in roles))
            && (outcome == Done || db' == db)
            && (outcome == Done ==> db'.roles == db.roles && db'.users == db.users
                                    && (forall r :: (user, r) in db'.grants <==> r in roles)
                                    && (forall u, r :: u != user ==> ((u, r) in db'.grants <==> (u, r) in db.grants)))
  {
    assert admins == {user} ==> |admins| == 1;
    if user in admins && |admins| == 1 {
      assert |admins - {user}| == 0;
      assert admins == (admins - {user}) + {user};
    }
    forall r ensures (user, r) in AssignedTo(user, roles) <==> r in roles {}
  }

  /** A rename, refused for a system role's name and for a taken one, sets the name alone. */
  lemma RenameIsExact(db: Database, role: RoleId, name: string, seen: Role)
    requires role in db.roles
    ensures var (outcome, db') := Renamed(db, role, name, seen);
            && (outcome == Done <==> (seen.isSystem ==> seen.name == name)
                                     && forall r :: r in db.roles && r != role ==> db.roles[r].name != name)
            && (outcome == Done || db' == db)
            && (outcome == Done ==> db'.users == db.users && db'.grants == db.grants && db'.roles.Keys == db.roles.Keys
                                    && db'.roles[role] == Role(name, db.roles[role].isSystem)
                                    && forall r :: r in db.roles && r != role ==> db'.roles[r] == db.roles[r])
  {
  }

  /** A deletion of a role that is not the system's takes it and its assignments. */
  lemma DeletionIsExact(db: Database, role: RoleId, seen: Role)
    requires role in db.roles
    ensures var (outcome, db') := Deleted(db, role, seen);
            && (outcome == Done <==> !seen.isSystem) && (outcome == Done || db' == db)
            && (outcome == Done ==> db'.users == db.users && role !in db'.roles
                                    && (forall r :: r in db.roles && r != role ==> r in db'.roles && db'.roles[r] == db.roles[r])
                                    && (forall r :: r in db'.roles ==> r in db.roles)
                                    && (forall u, r :: (u, r) in db'.grants <==> r != role && (u, r) in db.grants))
  {
  }

  /** The listed administrators are the active users who hold the administrator role. */
  lemma AdministratorsAreExact(db: Database, user: UserId)
    ensures user in ActiveAdministrators(db) <==>
              user in db.users && db.users[user] && exists r :: (user, r) in db.grants && r in db.roles && db.roles[r] == Role("admin", true)
  {
    assert forall r :: r in db.roles && db.roles[r] == Role("admin", true) <==> IsAdminRole(db, r);
  }

  // ----- Concurrent runs -----

  datatype Goal = Deactivate(user: UserId) | Replace(user: UserId, roles: seq<RoleId>)

  /** A transaction takes the lock on the administrator role, lists the administrators,
      and then checks, writes and commits. */
  datatype Stage = Begun | Locked(role: RoleId) | Listed(role: RoleId, admins: set<UserId>)

  datatype Transaction = Transaction(goal: Goal, stage: Stage)

  /** UpdateRole and DeleteRole read the role first, outside any transaction. */
  datatype Edit = Rename(role: RoleId, name: string, seen: Role) | Delete(role: RoleId, seen: Role)

  datatype System = System(db: Database, lock: Option<Pid>, transactions: map<Pid, Transaction>, edits: map<Pid, Edit>)

  datatype Event =
    | Begin(pid: Pid, goal: Goal)
    | Lock(pid: Pid)
    | List(pid: Pid)
    | Finish(pid: Pid)
    | Activate(user: UserId)
    | Assign(user: UserId, role: RoleId)
    | CreateUser(user: UserId)
    | CreateRole(role: RoleId, name: string)
    | ReadForRename(pid: Pid, role: RoleId, name: string)
    | ReadForDelete(pid: Pid, role: RoleId)
    | WriteRole(pid: Pid)

  function Start(db: Database): System {
    System(db, None, map[], map[])
  }

  function AfterFinish(s: System, pid: Pid): Database
    requires pid in s.transactions && s.transactions[pid].stage.Listed?
  {
    var t := s.transactions[pid];
    match t.goal
    case Deactivate(user) => Deactivated(s.db, user, t.stage.admins).1
    case Replace(user, roles) => RolesReplaced(s.db, user, roles, t.stage.admins, t.stage.role).1
  }

  /** One statement of one process. A step that has to wait for the lock, or that is not
      this process's next one, changes nothing. */
  ghost function Step(s: System, e: Event): System {
    match e
    case Begin(pid, goal) =>
      if pid in s.transactions || goal.user !in s.db.users then s
      else s.(transactions := s.transactions[pid := Transaction(goal, Begun)])
    case Lock(pid) =>
      if pid !in s.transactions || !s.transactions[pid].stage.Begun? || s.lock.Some? then s
      else if exists role :: IsAdminRole(s.db, role) then
        var role :| IsAdminRole(s.db, role);
        s.(lock := Some(pid), transactions := s.transactions[pid := s.transactions[pid].(stage := Locked(role))])
      else s.(transactions := s.transactions - {pid})
    case List(pid) =>
      if pid !in s.transactions || !s.transactions[pid].stage.Locked? then s
      else
        var t := s.transactions[pid];
        s.(transactions := s.transactions[pid := t.(stage := Listed(t.stage.role, ActiveAdministrators(s.db)))])
    case Finish(pid) =>
      if pid !in s.transactions || !s.transactions[pid].stage.Listed? then s
      else s.(db := AfterFinish(s, pid), lock := None, transactions := s.transactions - {pid})
    case Activate(user) => s.(db := Activated(s.db, user).1)
    case Assign(user, role) =>
      if user !in s.db.users || role !in s.db.roles || (s.lock.Some? && IsAdminRole(s.db, role)) then s
      else s.(db := s.db.(grants := s.db.grants + {(user, role)}))
    case CreateUser(user) =>
      if user in s.db.users then s else s.(db := s.db.(users := s.db.users[user := true]))
    case CreateRole(role, name) =>
      if role in s.db.roles || exists r :: r in s.db.roles && s.db.roles[r].name == name then s
      else s.(db := s.db.(roles := s.db.roles[role := Role(name, false)]))
    case ReadForRename(pid, role, name) =>
      if role !in s.db.roles then s else s.(edits := s.edits[pid := Rename(role, name, s.db.roles[role])])
    case ReadForDelete(pid, role) =>
      if role !in s.db.roles then s else s.(edits := s.edits[pid := Delete(role, s.db.roles[role])])
    case WriteRole(pid) =>
      if pid !in s.edits then s
      else
        var db := match s.edits[pid]
                  case Rename(role, name, seen) => Renamed(s.db, role, name, seen).1
                  case Delete(role, seen) => Deleted(s.db, role, seen).1;
        s.(db := db, edits := s.edits - {pid})
  }

  ghost function Run(s: System, events: seq<Event>): System {
    if events == [] then s else Step(Run(s, events[..|events| - 1]), events[|events| - 1])
  }

  ghost predicate EditInv(db: Database, edit: Edit) {
    && (edit.role in db.roles ==> db.roles[edit.role].isSystem == edit.seen.isSystem)
    && (edit.seen.isSystem ==> edit.role in db.roles && db.roles[edit.role] == edit.seen)
  }

  /** What a transaction has read stays true: only the holder of the lock takes
      administrators away, so those it listed are still there. */
  ghost predicate TransactionInv(s: System, pid: Pid)
    requires pid in s.transactions
  {
    match s.transactions[pid].stage
    case Begun => s.lock != Some(pid)
    case Locked(role) => s.lock == Some(pid) && IsAdminRole(s.db, role)
    case Listed(role, admins) =>
      s.lock == Some(pid) && IsAdminRole(s.db, role) && admins <= ActiveAdministrators(s.db)
  }

  ghost predicate Inv(s: System) {
    && UniqueNames(s.db)
    && (forall pid :: pid in s.transactions ==> TransactionInv(s, pid))
    && (s.lock.Some? ==> s.lock.value in s.transactions)
    && (forall pid :: pid in s.edits ==> EditInv(s.db, s.edits[pid]))
  }

  /** The change leaves the administrator roles as they are and takes no administrator away. */
  ghost predicate KeepsAdministrators(db: Database, db': Database) {
    && UniqueNames(db')
    && (forall r :: IsAdminRole(db, r) <==> IsAdminRole(db', r))
    && ActiveAdministrators(db) <= ActiveAdministrators(db')
  }

  lemma Administrator(db: Database, user: UserId)
    ensures user in ActiveAdministrators(db) <==>
              user in db.users && db.users[user] && exists r :: (user, r) in db.grants && IsAdminRole(db, r)
  {
  }

  /** A deactivation that goes through takes away that administrator and no other. */
  lemma DeactivationTakesOne(db: Database, user: UserId, admins: set<UserId>)
    requires UniqueNames(db)
    ensures var (outcome, db') := Deactivated(db, user, admins);
            && UniqueNames(db') && db'.roles == db.roles
            && ActiveAdministrators(db') == if outcome.Done? then ActiveAdministrators(db) - {user} else ActiveAdministrators(db)
  {
    var (outcome, db') := Deactivated(db, user, admins);
    forall u ensures u in ActiveAdministrators(db') <==>
                       u in ActiveAdministrators(db) && !(outcome.Done? && u == user)
    {
      Administrator(db, u);
      Administrator(db', u);
    }
  }

  /** So does a replacement of roles, unless the administrator role is among the new ones. */
  lemma ReplacementTakesOne(db: Database, user: UserId, roles: seq<RoleId>, admins: set<UserId>, adminRole: RoleId)
    requires UniqueNames(db) && IsAdminRole(db, adminRole)
    ensures var (outcome, db') := RolesReplaced(db, user, roles, admins, adminRole);
            && UniqueNames(db') && db'.roles == db.roles
            && ActiveAdministrators(db') ==
               if outcome.Done? && !(adminRole in roles && db.users[user]) then ActiveAdministrators(db) - {user}
               else if outcome.Done? then ActiveAdministrators(db) + {user}
               else ActiveAdministrators(db)
  {
    var (outcome, db') := RolesReplaced(db, user, roles, admins, adminRole);
    if outcome.Done? {
      forall u ensures u in ActiveAdministrators(db') <==>
                         if u == user then adminRole in roles && db.users[user] else u in ActiveAdministrators(db)
      {
        Administrator(db, u);
        Administrator(db', u);
        if u == user && adminRole in roles { assert (u, adminRole) in AssignedTo(user, roles); }
      }
    }
  }

  /** A change made without the lock keeps what every transaction has read. */
  lemma UnlockedChangeKeepsInv(s: System, db': Database)
    requires Inv(s) && KeepsAdministrators(s.db, db')
    requires forall pid :: pid in s.edits ==> EditInv(db', s.edits[pid])
    ensures Inv(s.(db := db'))
  {
  }

  lemma ActivationKeepsAdministrators(db: Database, user: UserId)
    requires UniqueNames(db)
    ensures KeepsAdministrators(db, Activated(db, user).1)
  {
  }

  lemma GrantKeepsAdministrators(db: Database, grant: (UserId, RoleId))
    requires UniqueNames(db)
    ensures KeepsAdministrators(db, db.(grants := db.grants + {grant}))
  {
  }

  lemma CreationKeepsAdministrators(db: Database, db': Database)
    requires UniqueNames(db) && UniqueNames(db') && db'.grants == db.grants
    requires forall u :: u in db.users ==> u in db'.users && db'.users[u] == db.users[u]
    requires forall r :: r in db.roles ==> r in db'.roles && db'.roles[r] == db.roles[r]
    requires forall r :: IsAdminRole(db', r) ==> r in db.roles
    ensures KeepsAdministrators(db, db')
  {
  }

  lemma RenameKeepsAdministrators(db: Database, edit: Edit)
    requires UniqueNames(db) && edit.Rename? && EditInv(db, edit)
    ensures KeepsAdministrators(db, Renamed(db, edit.role, edit.name, edit.seen).1)
  {
  }

  lemma DeletionKeepsAdministrators(db: Database, edit: Edit)
    requires UniqueNames(db) && edit.Delete? && EditInv(db, edit)
    ensures KeepsAdministrators(db, Deleted(db, edit.role, edit.seen).1)
  {
  }

  lemma WriteKeepsInv(s: System, pid: Pid)
    requires Inv(s)
    ensures Inv(Step(s, WriteRole(pid))) && KeepsAdministrators(s.db, Step(s, WriteRole(pid)).db)
  {
    if pid in s.edits {
      var edit := s.edits[pid];
      assert EditInv(s.db, edit);
      if edit.Rename? {
        RenameKeepsAdministrators(s.db, edit);
      } else {
        DeletionKeepsAdministrators(s.db, edit);
      }
      var s' := s.(edits := s.edits - {pid});
      UnlockedChangeKeepsInv(s', Step(s, WriteRole(pid)).db);
    }
  }

  lemma FinishKeepsInv(s: System, pid: Pid)
    requires Inv(s)
    ensures Inv(Step(s, Finish(pid))) && Step(s, Finish(pid)).db.roles == s.db.roles
  {
    if pid in s.transactions && s.transactions[pid].stage.Listed? {
      assert TransactionInv(s, pid);
      var t := s.transactions[pid];
      match t.goal {
        case Deactivate(user) => DeactivationTakesOne(s.db, user, t.stage.admins);
        case Replace(user, roles) => ReplacementTakesOne(s.db, user, roles, t.stage.admins, t.stage.role);
      }
      var s' := Step(s, Finish(pid));
      forall p | p in s'.transactions ensures TransactionInv(s', p) {
        assert TransactionInv(s, p);
      }
    }
  }

  lemma CreationKeepsInv(s: System, e: Event)
    requires Inv(s) && (e.CreateUser? || e.CreateRole?)
    ensures Inv(Step(s, e)) && KeepsAdministrators(s.db, Step(s, e).db)
  {
    var db' := Step(s, e).db;
    CreationKeepsAdministrators(s.db, db');
    forall pid | pid in s.edits ensures EditInv(db', s.edits[pid]) {
      assert EditInv(s.db, s.edits[pid]);
    }
    UnlockedChangeKeepsInv(s, db');
  }

  lemma GrantKeepsInv(s: System, e: Event)
    requires Inv(s) && (e.Activate? || e.Assign?)
    ensures Inv(Step(s, e)) && KeepsAdministrators(s.db, Step(s, e).db)
  {
    var db' := Step(s, e).db;
    match e {
      case Activate(user) => ActivationKeepsAdministrators(s.db, user);
      case Assign(user, role) => GrantKeepsAdministrators(s.db, (user, role));
    }
    UnlockedChangeKeepsInv(s, db');
  }

  /** Beginning, locking, listing and reading change no row. */
  lemma ReadingKeepsInv(s: System, e: Event)
    requires Inv(s) && (e.Begin? || e.Lock? || e.List? || e.ReadForRename? || e.ReadForDelete?)
    ensures Inv(Step(s, e)) && Step(s, e).db == s.db
  {
    var s' := Step(s, e);
    forall p | p in s'.transactions ensures TransactionInv(s', p) {
      assert p in s.transactions ==> TransactionInv(s, p);
    }
  }

  lemma StepKeepsInv(s: System, e: Event)
    requires Inv(s)
    ensures Inv(Step(s, e))
    ensures forall r :: IsAdminRole(s.db, r) <==> IsAdminRole(Step(s, e).db, r)
    ensures !e.Finish? ==> ActiveAdministrators(s.db) <= ActiveAdministrators(Step(s, e).db)
  {
    if e.CreateUser? || e.CreateRole? {
      CreationKeepsInv(s, e);
    } else if e.Activate? || e.Assign? {
      GrantKeepsInv(s, e);
    } else if e.WriteRole? {
      WriteKeepsInv(s, e.pid);
    } else if e.Finish? {
      FinishKeepsInv(s, e.pid);
    } else {
      ReadingKeepsInv(s, e);
    }
  }

  lemma {:induction false} RunKeepsInv(db: Database, events: seq<Event>)
    requires UniqueNames(db)
    ensures Inv(Run(Start(db), events))
    ensures forall r :: IsAdminRole(db, r) <==> IsAdminRole(Run(Start(db), events).db, r)
  {
    if events != [] {
      RunKeepsInv(db, events[..|events| - 1]);
      StepKeepsInv(Run(Start(db), events[..|events| - 1]), events[|events| - 1]);
    }
  }

  // ----- When the last administrator goes -----

  /** The one way to lose the last administrator: a transaction that listed nobody when it
      held the lock finishes against the only one there is now. */
  ghost predicate TakesLast(s: System, e: Event) {
    && e.Finish? && e.pid in s.transactions && s.transactions[e.pid].stage.Listed?
    && var t := s.transactions[e.pid];
       && t.stage.admins == {}
       && ActiveAdministrators(s.db) == {t.goal.user}
       && (t.goal.Replace? ==> t.stage.role !in t.goal.roles && forall r :: r in t.goal.roles ==> r in s.db.roles)
  }

  /** In any state a run can reach, a step leaves no administrator exactly when it is that. */
  lemma LastGoesExactlyThen(s: System, e: Event)
    requires Inv(s) && ActiveAdministrators(s.db) != {}
    ensures ActiveAdministrators(Step(s, e).db) == {} <==> TakesLast(s, e)
  {
    StepKeepsInv(s, e);
    if e.Finish? && e.pid in s.transactions && s.transactions[e.pid].stage.Listed? {
      var t := s.transactions[e.pid];
      var user := t.goal.user;
      assert TransactionInv(s, e.pid);
      Administrator(s.db, user);
      var admins := ActiveAdministrators(s.db);
      assert admins - {user} == {} <==> admins == {user} || admins == {};
      assert user in t.stage.admins && admins == {user} ==> t.stage.admins == {user};
      assert t.stage.admins == {user} ==> |t.stage.admins| == 1;
      assert admins == {user} ==> t.stage.admins == {} || t.stage.admins == {user};
      match t.goal {
        case Deactivate(_) => DeactivationTakesOne(s.db, user, t.stage.admins);
        case Replace(_, roles) => ReplacementTakesOne(s.db, user, roles, t.stage.admins, t.stage.role);
      }
    }
  }

  ghost predicate ListsSomeone(s: System) {
    && ActiveAdministrators(s.db) != {}
    && forall pid :: pid in s.transactions && s.transactions[pid].stage.Listed? ==> s.transactions[pid].stage.admins != {}
  }

  lemma StepListsSomeone(s: System, e: Event)
    requires Inv(s) && ListsSomeone(s)
    ensures ListsSomeone(Step(s, e))
  {
    LastGoesExactlyThen(s, e);
  }

  /** From a database with an active system administrator and no transaction under way,
      no interleaving of the store's operations leaves none. */
  lemma {:induction false} AnAdministratorRemains(db: Database, events: seq<Event>)
    requires UniqueNames(db) && ActiveAdministrators(db) != {}
    ensures ListsSomeone(Run(Start(db), events))
  {
    if events != [] {
      AnAdministratorRemains(db, events[..|events| - 1]);
      RunKeepsInv(db, events[..|events| - 1]);
      StepListsSomeone(Run(Start(db), events[..|events| - 1]), events[|events| - 1]);
    }
  }

  ghost predicate Reachable(db: Database, s: System) {
    exists events :: Run(Start(db), events) == s
  }

  lemma ReachableStep(db: Database, s: System, e: Event, s': System)
    requires Reachable(db, s) && Step(s, e) == s'
    ensures Reachable(db, s')
  {
    var events :| Run(Start(db), events) == s;
    assert (events + [e])[..|events|] == events;
    assert Run(Start(db), events + [e]) == s';
  }

  /** A deactivation that holds the lock and has found nobody. */
  function FoundNobody(db: Database, user: UserId, role: RoleId): System {
    System(db, Some(0), map[0 := Transaction(Deactivate(user), Listed(role, {}))], map[])
  }

  lemma FindsNobody(start: Database, db: Database, user: UserId, role: RoleId)
    requires Reachable(start, Start(db)) && UniqueNames(db)
    requires user in db.users && IsAdminRole(db, role) && ActiveAdministrators(db) == {}
    ensures Reachable(start, FoundNobody(db, user, role))
  {
    var s1 := System(db, None, map[0 := Transaction(Deactivate(user), Begun)], map[]);
    var s2 := System(db, Some(0), map[0 := Transaction(Deactivate(user), Locked(role))], map[]);
    ReachableStep(start, Start(db), Begin(0, Deactivate(user)), s1);
    assert Step(s1, Lock(0)).transactions == map[0 := Transaction(Deactivate(user), Locked(role))];
    ReachableStep(start, s1, Lock(0), s2);
    ReachableStep(start, s2, List(0), FoundNobody(db, user, role));
  }

  /** A new user is deactivated, while there is no administrator, and then given the role. */
  lemma InactiveAdministrator(db: Database, user: UserId, role: RoleId)
    requires UniqueNames(db) && ActiveAdministrators(db) == {} && IsAdminRole(db, role)
    requires user !in db.users && forall r :: (user, r) !in db.grants
    ensures var given := db.(users := db.users[user := false], grants := db.grants + {(user, role)});
            Reachable(db, Start(given)) && ActiveAdministrators(given) == {}
  {
    var created := db.(users := db.users[user := true]);
    var inactive := db.(users := db.users[user := false]);
    var given := inactive.(grants := db.grants + {(user, role)});
    assert Run(Start(db), []) == Start(db);
    ReachableStep(db, Start(db), CreateUser(user), Start(created));
    assert ActiveAdministrators(created) == {};
    FindsNobody(db, created, user, role);
    assert created.users[user := false] == inactive.users;
    ReachableStep(db, FoundNobody(created, user, role), Finish(0), Start(inactive));
    ReachableStep(db, Start(inactive), Assign(user, role), Start(given));
    forall u ensures u !in ActiveAdministrators(given) {
      Administrator(given, u);
      Administrator(db, u);
    }
  }

  /** Without any administrator, a transaction can list nobody before the first one is
      activated, which no lock prevents: then the set becomes nonempty and empty again. */
  lemma EmptyListGuardsNothing(db: Database, user: UserId, role: RoleId) returns (first: seq<Event>)
    requires UniqueNames(db) && ActiveAdministrators(db) == {} && IsAdminRole(db, role)
    requires user !in db.users && forall r :: (user, r) !in db.grants
    ensures ActiveAdministrators(Run(Start(db), first).db) == {user}
    ensures ActiveAdministrators(Run(Start(db), first + [Finish(0)]).db) == {}
  {
    var given := db.(users := db.users[user := false], grants := db.grants + {(user, role)});
    var active := given.(users := given.users[user := true]);
    InactiveAdministrator(db, user, role);
    FindsNobody(db, given, user, role);
    ReachableStep(db, FoundNobody(given, user, role), Activate(user), FoundNobody(given, user, role).(db := active));
    forall u ensures u in ActiveAdministrators(active) <==> u == user {
      Administrator(active, u);
      Administrator(given, u);
    }
    DeactivationTakesOne(active, user, {});
    first :| Run(Start(db), first) == FoundNobody(given, user, role).(db := active);
    assert (first + [Finish(0)])[..|first|] == first;
  }

  /** Once nonempty, always nonempty. */
  ghost predicate StaysNonempty(db: Database) {
    forall first, rest ::
      ActiveAdministrators(Run(Start(db), first).db) != {} ==> ActiveAdministrators(Run(Start(db), first + rest).db) != {}
  }

  /** That holds of every run from a database exactly when the database has an active
      administrator to begin with, or has no administrator role at all. */
  lemma ProtectedExactlyWhen(db: Database)
    requires UniqueNames(db)
    ensures StaysNonempty(db) <==> ActiveAdministrators(db) != {} || forall r :: !IsAdminRole(db, r)
  {
    if ActiveAdministrators(db) != {} {
      forall events ensures ActiveAdministrators(Run(Start(db), events).db) != {} {
        AnAdministratorRemains(db, events);
      }
    } else if role :| IsAdminRole(db, role) {
      var user := Newcomer(db);
      var first := EmptyListGuardsNothing(db, user, role);
    } else {
      forall events ensures ActiveAdministrators(Run(Start(db), events).db) == {} {
        RunKeepsInv(db, events);
      }
    }
  }

  lemma Newcomer(db: Database) returns (user: UserId)
    ensures user !in db.users && forall r :: (user, r) !in db.grants
  {
    var known := db.users.Keys + set g | g in db.grants :: g.0;
    var n := LongerThanAll(known);
    user := seq(n, _ => 'x');
    forall r ensures (user, r) !in db.grants {
      assert user !in known;
    }
  }

  lemma {:induction false} LongerThanAll(names: set<string>) returns (n: nat)
    ensures forall x :: x in names ==> |x| < n
  {
    if names == {} {
      n := 0;
    } else {
      var x :| x in names;
      n := LongerThanAll(names - {x});
      n := Max(n, |x| + 1);
    }
  }
}
