/** Logins, challenge verifications, password resets and changes of second factor, of one
    account, step by step: pkg/modules/iam/authentication_service.go over the transactions
    of SecurityRows. Each read and each transaction is one step, and anything may happen in
    between; a process may also stop for good at any step. */
module SecurityProtocol {
  import opened Common
  import opened SecurityRows

  type Pid = nat
  type ChallengeId = nat

  /** The password hash is history: the one that was checked at Login. */
  datatype Challenge = Challenge(version: int, loginHash: string)

  datatype Purpose =
    | ToLogin
    | ToVerify(challenge: ChallengeId)
    | ToSetMode(mode: Mode)
    | ToEnroll
    | ToConfirm
    | ToDisable
    | ToVerifyEmail

  datatype Process =
    | Attempted(challenge: ChallengeId)
    | UserRead(purpose: Purpose, user: User)
    | SecurityRead(purpose: Purpose, snapshot: Security)
    | LoginSecured(loginHash: string, version: int)
    | Issuing(loginHash: string, version: int)
    | Consuming(purpose: Purpose, snapshot: Security, factor: Factor)
    | Saving(purpose: Purpose, security: Security, version: int)
    | HasReceipt(email: string, receipt: Receipt)

  /** A factor that was accepted: at which version of the row, in which enrolment, and, if
      for a challenge, the hash checked at Login beside the one stored at that moment. */
  datatype Acceptance = Acceptance(
    version: int, enrolment: nat, factor: Factor, challenge: Option<ChallengeId>, loginHash: string, storedHash: string)

  /** `enrolment` counts confirmed enrolments, and `epoch` changes of the address;
      `proofs` are the addresses for which a receipt was consumed, each with its epoch. */
  datatype System = System(
    account: Account,
    challenges: map<ChallengeId, Challenge>,
    processes: map<Pid, Process>,
    now: Time,
    enrolment: nat,
    log: seq<Acceptance>,
    epoch: nat,
    proofs: set<(string, nat)>)

  /** `passwordOk` says that the given password verifies against the hash of the user that
      is read, and `matches` that Totp.Verify answers this step for the given code. */
  datatype Event =
    | Tick(delay: nat)
    | Begin(pid: Pid, purpose: Purpose, passwordOk: bool)
    | Attempt(pid: Pid, challenge: ChallengeId)
    | CheckUser(pid: Pid)
    | ReadSecurity(pid: Pid)
    | Recheck(pid: Pid)
    | Issue(pid: Pid, challenge: ChallengeId)
    | ChooseMode(pid: Pid)
    | MakeSecret(pid: Pid, secret: Secret)
    | ConfirmCode(pid: Pid, step: int, matches: bool, hashes: seq<Hash>, lifetime: int)
    | GiveFactor(pid: Pid, factor: Factor, matches: bool)
    | Consume(pid: Pid, inserted: bool)
    | Save(pid: Pid)
    | ReceiveReceipt(pid: Pid, receipt: Receipt)
    | CommitVerification(pid: Pid, inserted: bool)
    | ResetPassword(hash: string)
    | UpdateProfile(profile: Profile, taken: bool)
    | SetActive(active: bool)

  /** An account as it is created: its address is verified only by a consumed receipt. */
  function Initial(user: User, start: Time): System {
    System(Account(user, NewSecurity()), map[], map[], start, 0, [], 0, if user.verified then {(user.email, 0)} else {})
  }

  function At(s: System, pid: Pid, p: Process): System {
    s.(processes := s.processes[pid := p])
  }

  function Gone(s: System, pid: Pid): System {
    s.(processes := s.processes - {pid})
  }

  /** The checks that follow the read of the security row. */
  predicate Proceeds(purpose: Purpose, user: User, row: Security, challenges: map<ChallengeId, Challenge>) {
    match purpose
    case ToLogin => row.mode == Totp && row.secret.Some?
    case ToVerify(c) => c in challenges && row.mode == Totp && row.secret.Some? && row.version == challenges[c].version
    case ToSetMode(mode) =>
      && !(row.secret.Some? && mode != Totp)
      && !(mode == Email && !user.verified)
      && !(mode == Totp && row.secret.None?)
    case ToEnroll => row.secret.None?
    case ToConfirm => row.secret.None?
    case ToDisable => row.secret.Some?
    case ToVerifyEmail => false
  }

  /** Reading users and rows, up to the point where the process decides what to write. */
  function ReadStep(s: System, e: Event): System
    requires e.Begin? || e.Attempt? || e.CheckUser? || e.ReadSecurity? || e.Recheck? || e.Issue?
  {
    match e
    case Begin(pid, purpose, passwordOk) =>
      if pid in s.processes || purpose.ToVerify? || !s.account.user.active
         || ((purpose.ToLogin? || purpose.ToEnroll? || purpose.ToDisable?) && !passwordOk) then s
      else At(s, pid, UserRead(purpose, s.account.user))
    case Attempt(pid, c) =>
      if pid in s.processes || c !in s.challenges then s else At(s, pid, Attempted(c))
    case CheckUser(pid) =>
      if pid !in s.processes || !s.processes[pid].Attempted? then s
      else if !s.account.user.active then Gone(s, pid)
      else At(s, pid, UserRead(ToVerify(s.processes[pid].challenge), s.account.user))
    case ReadSecurity(pid) =>
      if pid !in s.processes || !s.processes[pid].UserRead? then s
      else
        var p := s.processes[pid];
        if !Proceeds(p.purpose, p.user, s.account.security, s.challenges) then Gone(s, pid)
        else if p.purpose.ToLogin? then At(s, pid, LoginSecured(p.user.passwordHash, s.account.security.version))
        else At(s, pid, SecurityRead(p.purpose, s.account.security))
    case Recheck(pid) =>
      if pid !in s.processes || !s.processes[pid].LoginSecured? then s
      else
        var p := s.processes[pid];
        if !s.account.user.active || s.account.user.passwordHash != p.loginHash then Gone(s, pid)
        else At(s, pid, Issuing(p.loginHash, p.version))
    case Issue(pid, c) =>
      if pid !in s.processes || !s.processes[pid].Issuing? || c in s.challenges then s
      else
        var p := s.processes[pid];
        Gone(s, pid).(challenges := s.challenges[c := Challenge(p.version, p.loginHash)])
  }

  const ENROLMENT_LIFETIME := 600

  function Confirmed(row: Security, step: int, hashes: seq<Hash>, expires: Time): Security {
    row.(secret := row.pending, pending := None, pendingExpires := None, recoveryExpires := Some(expires),
         hashes := hashes, mode := Totp, lastStep := step)
  }

  function Disabled(row: Security): Security {
    row.(secret := None, pending := None, pendingExpires := None, recoveryExpires := None,
         hashes := [], mode := Default, lastStep := -1)
  }

  /** What a process decides to write, from its snapshot and the clock alone. */
  function DecideStep(s: System, e: Event): System
    requires e.ChooseMode? || e.MakeSecret? || e.ConfirmCode? || e.GiveFactor?
  {
    if e.pid !in s.processes || !s.processes[e.pid].SecurityRead? then s
    else
      var p := s.processes[e.pid];
      var row := p.snapshot;
      match e
      case ChooseMode(pid) =>
        if !p.purpose.ToSetMode? then s
        else At(s, pid, Saving(p.purpose, row.(mode := p.purpose.mode), row.version))
      case MakeSecret(pid, secret) =>
        if !p.purpose.ToEnroll? then s
        else
          var v := row.(pending := Some(secret), pendingExpires := Some(s.now + ENROLMENT_LIFETIME));
          At(s, pid, Saving(p.purpose, v, row.version))
      case ConfirmCode(pid, step, matches, hashes, lifetime) =>
        if !p.purpose.ToConfirm? then s
        else if !Live(row.pendingExpires, s.now) || row.pending.None? || !matches || step <= -1 then Gone(s, pid)
        else At(s, pid, Saving(p.purpose, Confirmed(row, step, hashes, s.now + lifetime), row.version))
      case GiveFactor(pid, factor, matches) =>
        if !p.purpose.ToVerify? && !p.purpose.ToDisable? then s
        else if match factor
                case TotpStep(step) => !matches || step <= row.lastStep || step < 0
                case RecoveryCode(hash) => !Live(row.recoveryExpires, s.now) || hash !in row.hashes
        then Gone(s, pid)
        else At(s, pid, Consuming(p.purpose, row, factor))
  }

  function Accepted(s: System, p: Process): Acceptance
    requires p.Consuming?
  {
    var c := if p.purpose.ToVerify? then Some(p.purpose.challenge) else None;
    var hash := if p.purpose.ToVerify? && p.purpose.challenge in s.challenges then s.challenges[p.purpose.challenge].loginHash else "";
    Acceptance(s.account.security.version, s.enrolment, p.factor, c, hash, s.account.user.passwordHash)
  }

  /** The transactions on the security row. */
  function WriteStep(s: System, e: Event): System
    requires e.Consume? || e.Save? || e.ResetPassword?
  {
    match e
    case Consume(pid, inserted) =>
      if pid !in s.processes || !s.processes[pid].Consuming? then s
      else
        var p := s.processes[pid];
        var row := s.account.security;
        if !Consumable(row, p.snapshot.version, inserted, p.factor, s.now) then Gone(s, pid)
        else
          var s' := s.(account := s.account.(security := Consumed(row, p.snapshot.version, inserted, p.factor, s.now)),
                       log := s.log + [Accepted(s, p)]);
          // Disable goes on with the version the consumption left.
          if p.purpose.ToDisable? then At(s', pid, Saving(ToDisable, Disabled(p.snapshot), p.snapshot.version + 1))
          else Gone(s', pid)
    case Save(pid) =>
      if pid !in s.processes || !s.processes[pid].Saving? then s
      else
        var p := s.processes[pid];
        var s' := Gone(s, pid).(account := Saved(s.account, p.security, p.version));
        if p.purpose.ToConfirm? && SaveOutcome(s.account, p.security, p.version) == Done
        then s'.(enrolment := s.enrolment + 1,
                 log := s.log + [Acceptance(p.version, s.enrolment + 1, TotpStep(p.security.lastStep), None, "", "")])
        else s'
    case ResetPassword(hash) => s.(account := PasswordUpdated(s.account, hash))
  }

  /** The transactions on the user alone. */
  function UserStep(s: System, e: Event): System
    requires e.ReceiveReceipt? || e.CommitVerification? || e.UpdateProfile? || e.SetActive?
  {
    match e
    case ReceiveReceipt(pid, receipt) =>
      if pid !in s.processes || !s.processes[pid].UserRead? || !s.processes[pid].purpose.ToVerifyEmail? then s
      else At(s, pid, HasReceipt(s.processes[pid].user.email, receipt))
    case CommitVerification(pid, inserted) =>
      if pid !in s.processes || !s.processes[pid].HasReceipt? then s
      else
        var p := s.processes[pid];
        if VerifyEmailOutcome(s.account, p.email, p.receipt, inserted, s.now) != Done then Gone(s, pid)
        else Gone(s, pid).(account := EmailVerified(s.account, p.email, p.receipt, inserted, s.now),
                           proofs := s.proofs + {(p.email, s.epoch)})
    case UpdateProfile(profile, taken) =>
      var account := ProfileUpdated(s.account, profile, taken);
      s.(account := account, epoch := if account.user.email != s.account.user.email then s.epoch + 1 else s.epoch)
    case SetActive(active) => s.(account := s.account.(user := s.account.user.(active := active)))
  }

  function Step(s: System, e: Event): System {
    if e.Tick? then s.(now := s.now + e.delay)
    else if e.Begin? || e.Attempt? || e.CheckUser? || e.ReadSecurity? || e.Recheck? || e.Issue? then ReadStep(s, e)
    else if e.ChooseMode? || e.MakeSecret? || e.ConfirmCode? || e.GiveFactor? then DecideStep(s, e)
    else if e.Consume? || e.Save? || e.ResetPassword? then WriteStep(s, e)
    else UserStep(s, e)
  }

  function Run(s: System, events: seq<Event>): System {
    if events == [] then s else Step(Run(s, events[..|events| - 1]), events[|events| - 1])
  }

  // ----- The rows -----

  /** TOTP is the mode exactly while a secret is stored; the email mode needs a verified
      address, and a verified address a receipt consumed for it since it was set. */
  ghost predicate ModeInv(s: System) {
    && (s.account.security.mode == Totp <==> s.account.security.secret.Some?)
    && (s.account.security.mode == Email ==> s.account.user.verified)
    && (s.account.user.verified ==> (s.account.user.email, s.epoch) in s.proofs)
  }

  // ----- Snapshots and challenges -----

  /** What a save would do to the row it was made from. */
  ghost predicate SaveAllowed(purpose: Purpose, row: Security, v: Security) {
    match purpose
    case ToSetMode(mode) => v == row.(mode := mode) && (row.secret.Some? <==> mode == Totp)
    case ToEnroll => row.secret.None? && v == row.(pending := v.pending, pendingExpires := v.pendingExpires)
    case ToConfirm => row.secret.None? && v.secret.Some? && v.mode == Totp
    case ToDisable => v.secret.None? && v.mode == Default
    case _ => false
  }

  /** No snapshot is newer than the row, and one of the row's own version is the row. */
  ghost predicate ProcessOk(a: Account, challenges: map<ChallengeId, Challenge>, p: Process) {
    match p
    case Attempted(c) => c in challenges
    case UserRead(purpose, _) => purpose.ToVerify? ==> purpose.challenge in challenges
    case SecurityRead(purpose, snapshot) =>
      && SnapshotOk(a, snapshot)
      && (purpose.ToVerify? ==> purpose.challenge in challenges && challenges[purpose.challenge].version == snapshot.version)
      && (purpose.ToSetMode? ==> (snapshot.secret.Some? <==> purpose.mode == Totp))
      && (purpose.ToEnroll? || purpose.ToConfirm? ==> snapshot.secret.None?)
    case LoginSecured(_, version) => version <= a.security.version
    case Issuing(hash, version) => ChallengeOk(a, Challenge(version, hash))
    case Consuming(purpose, snapshot, _) =>
      && SnapshotOk(a, snapshot)
      && (purpose.ToVerify? ==> purpose.challenge in challenges && challenges[purpose.challenge].version == snapshot.version)
    case Saving(purpose, v, version) =>
      version <= a.security.version && (version == a.security.version ==> SaveAllowed(purpose, a.security, v))
    case HasReceipt(_, _) => true
  }

  ghost predicate SnapshotOk(a: Account, snapshot: Security) {
    snapshot.version <= a.security.version && (snapshot.version == a.security.version ==> snapshot == a.security)
  }

  /** A challenge of the row's own version was issued for the password that is stored. */
  ghost predicate ChallengeOk(a: Account, c: Challenge) {
    c.version <= a.security.version && (c.version == a.security.version ==> c.loginHash == a.user.passwordHash)
  }

  ghost predicate ProcessesInv(s: System) {
    && (forall pid :: pid in s.processes ==> ProcessOk(s.account, s.challenges, s.processes[pid]))
    && (forall c :: c in s.challenges ==> ChallengeOk(s.account, s.challenges[c]))
  }

  // ----- Accepted factors -----

  /** A challenge is accepted for its own version and the password that is stored. */
  ghost predicate BoundToPassword(challenges: map<ChallengeId, Challenge>, a: Acceptance) {
    a.challenge.Some? ==>
      && a.challenge.value in challenges && challenges[a.challenge.value] == Challenge(a.version, a.loginHash)
      && a.loginHash == a.storedHash
  }

  /** In one enrolment steps increase, and a recovery code is accepted once. */
  ghost predicate Follows(a: Acceptance, b: Acceptance) {
    && a.version < b.version
    && (a.enrolment == b.enrolment ==>
          && (a.factor.TotpStep? && b.factor.TotpStep? ==> a.factor.step < b.factor.step)
          && (a.factor.RecoveryCode? && b.factor.RecoveryCode? ==> a.factor.hash != b.factor.hash))
  }

  ghost predicate FactorsOnce(log: seq<Acceptance>) {
    forall i, j :: 0 <= i < j < |log| ==> Follows(log[i], log[j])
  }

  /** The row remembers what was accepted in the current enrolment. */
  ghost predicate Remembered(row: Security, enrolment: nat, a: Acceptance) {
    && a.version < row.version && a.enrolment <= enrolment
    && (a.enrolment == enrolment && row.secret.Some? ==>
          match a.factor
          case TotpStep(step) => step <= row.lastStep
          case RecoveryCode(hash) => hash !in row.hashes)
  }

  ghost predicate LogInv(s: System) {
    && FactorsOnce(s.log)
    && (forall a :: a in s.log ==> BoundToPassword(s.challenges, a) && Remembered(s.account.security, s.enrolment, a))
  }

  ghost predicate Inv(s: System) {
    ModeInv(s) && ProcessesInv(s) && LogInv(s)
  }

  /** A step leaves the row and the password alone, or makes a new version of the row. */
  ghost predicate Moves(a: Account, a': Account) {
    || a'.security.version > a.security.version
    || (a'.security == a.security && a'.user.passwordHash == a.user.passwordHash)
  }

  /** Hence whatever was right for a process that did nothing still is. */
  lemma OthersStayRight(s: System, s': System)
    requires ProcessesInv(s) && Moves(s.account, s'.account)
    requires forall c :: c in s.challenges ==> c in s'.challenges && s'.challenges[c] == s.challenges[c]
    requires forall c :: c in s'.challenges ==> c in s.challenges || ChallengeOk(s'.account, s'.challenges[c])
    requires forall pid :: pid in s'.processes ==>
               || (pid in s.processes && s'.processes[pid] == s.processes[pid])
               || ProcessOk(s'.account, s'.challenges, s'.processes[pid])
    ensures ProcessesInv(s')
  {
  }

  lemma ReadingKeepsInv(s: System, e: Event)
    requires Inv(s)
    requires e.Begin? || e.Attempt? || e.CheckUser? || e.ReadSecurity? || e.Recheck? || e.Issue?
    ensures Inv(ReadStep(s, e))
  {
    if !e.Begin? && e.pid in s.processes { assert ProcessOk(s.account, s.challenges, s.processes[e.pid]); }
    OthersStayRight(s, ReadStep(s, e));
  }

  lemma DecidingKeepsInv(s: System, e: Event)
    requires Inv(s) && (e.ChooseMode? || e.MakeSecret? || e.ConfirmCode? || e.GiveFactor?)
    ensures Inv(DecideStep(s, e))
  {
  }

  lemma UsersKeepInv(s: System, e: Event)
    requires Inv(s) && (e.ReceiveReceipt? || e.CommitVerification? || e.UpdateProfile? || e.SetActive?)
    ensures Inv(UserStep(s, e))
  {
  }

  lemma LogGrows(s: System, s': System, a: Acceptance)
    requires LogInv(s) && s'.log == s.log + [a]
    requires s.account.security.version == a.version < s'.account.security.version
    requires s.enrolment <= s'.enrolment == a.enrolment
    requires s'.enrolment == s.enrolment ==> s.account.security.secret.Some?
    requires forall b :: b in s.log && Remembered(s.account.security, s.enrolment, b) ==>
               Remembered(s'.account.security, s'.enrolment, b) && Follows(b, a)
    requires s'.challenges == s.challenges && BoundToPassword(s.challenges, a) && Remembered(s'.account.security, s'.enrolment, a)
    ensures LogInv(s')
  {
  }

  lemma ConsumingKeepsInv(s: System, e: Event)
    requires Inv(s) && e.Consume?
    ensures Inv(WriteStep(s, e))
  {
    var s' := WriteStep(s, e);
    if s' != s {
      var p := s.processes[e.pid];
      assert ProcessOk(s.account, s.challenges, p);
      if s'.log != s.log {
        if p.purpose.ToVerify? { assert ChallengeOk(s.account, s.challenges[p.purpose.challenge]); }
        if p.factor.RecoveryCode? { WithoutKeepsOthers(s.account.security.hashes, p.factor.hash); }
        WithoutShrinks(s.account.security.hashes);
        LogGrows(s, s', Accepted(s, p));
      }
      OthersStayRight(s, s');
    }
  }

  lemma WithoutShrinks(hashes: seq<Hash>)
    ensures forall h, g :: g in Without(hashes, h) ==> g in hashes
  {
    forall h, g | g in Without(hashes, h) ensures g in hashes {
      WithoutKeepsOthers(hashes, h);
      assert g in multiset(Without(hashes, h));
      assert g in multiset(hashes);
    }
  }

  lemma SavingKeepsInv(s: System, e: Event)
    requires Inv(s) && e.Save?
    ensures Inv(WriteStep(s, e))
  {
    var s' := WriteStep(s, e);
    if s' != s {
      var p := s.processes[e.pid];
      assert ProcessOk(s.account, s.challenges, p);
      if s'.log != s.log {
        LogGrows(s, s', s'.log[|s.log|]);
      }
      OthersStayRight(s, s');
    }
  }

  lemma StepKeepsInv(s: System, e: Event)
    requires Inv(s)
    ensures Inv(Step(s, e))
  {
    if e.Tick? || e.ResetPassword? {
      OthersStayRight(s, Step(s, e));
    } else if e.Begin? || e.Attempt? || e.CheckUser? || e.ReadSecurity? || e.Recheck? || e.Issue? {
      ReadingKeepsInv(s, e);
    } else if e.ChooseMode? || e.MakeSecret? || e.ConfirmCode? || e.GiveFactor? {
      DecidingKeepsInv(s, e);
    } else if e.Consume? {
      ConsumingKeepsInv(s, e);
    } else if e.Save? {
      SavingKeepsInv(s, e);
    } else {
      UsersKeepInv(s, e);
    }
  }

  lemma {:induction false} RunKeepsInv(user: User, start: Time, events: seq<Event>)
    ensures Inv(Run(Initial(user, start), events))
  {
    if events != [] {
      RunKeepsInv(user, start, events[..|events| - 1]);
      StepKeepsInv(Run(Initial(user, start), events[..|events| - 1]), events[|events| - 1]);
    }
  }

  // ----- What every run keeps -----

  /** When the factor of a challenge is consumed, the password that Login checked is still
      the stored one, and the row is still of the challenge's version and moves on. */
  lemma PasswordStandsAtConsumption(user: User, start: Time, events: seq<Event>, e: Event)
    requires var s := Run(Initial(user, start), events);
             && e.Consume? && e.pid in s.processes && s.processes[e.pid].Consuming?
             && s.processes[e.pid].purpose.ToVerify? && Step(s, e).log != s.log
    ensures var s := Run(Initial(user, start), events);
            var c := s.processes[e.pid].purpose.challenge;
            && c in s.challenges
            && s.challenges[c].loginHash == s.account.user.passwordHash
            && s.challenges[c].version == s.account.security.version
            && Step(s, e).account.security.version == s.account.security.version + 1
  {
    var s := Run(Initial(user, start), events);
    RunKeepsInv(user, start, events);
    assert ProcessOk(s.account, s.challenges, s.processes[e.pid]);
    assert ChallengeOk(s.account, s.challenges[s.processes[e.pid].purpose.challenge]);
  }

  /** At most one challenge of a version ever succeeds, and it succeeds once. */
  lemma OneChallengePerVersion(user: User, start: Time, events: seq<Event>, i: nat, j: nat)
    requires i < j < |Run(Initial(user, start), events).log|
    ensures var log := Run(Initial(user, start), events).log;
            && log[i].version < log[j].version
            && (log[i].challenge.Some? ==> log[i].challenge != log[j].challenge)
  {
    var s := Run(Initial(user, start), events);
    RunKeepsInv(user, start, events);
    assert Follows(s.log[i], s.log[j]);
    assert s.log[i] in s.log && s.log[j] in s.log;
    assert BoundToPassword(s.challenges, s.log[i]) && BoundToPassword(s.challenges, s.log[j]);
  }

  /** Within one enrolment the accepted steps strictly increase, and no recovery code is
      accepted twice, whatever snapshots are saved in between. */
  lemma FactorsAreOneTime(user: User, start: Time, events: seq<Event>, i: nat, j: nat)
    requires i < j < |Run(Initial(user, start), events).log|
    requires var log := Run(Initial(user, start), events).log; log[i].enrolment == log[j].enrolment
    ensures var log := Run(Initial(user, start), events).log;
            match (log[i].factor, log[j].factor)
            case (TotpStep(a), TotpStep(b)) => a < b
            case (RecoveryCode(a), RecoveryCode(b)) => a != b
            case _ => true
  {
    RunKeepsInv(user, start, events);
    assert Follows(Run(Initial(user, start), events).log[i], Run(Initial(user, start), events).log[j]);
  }

  /** In every reachable state the mode is TOTP exactly while a secret is stored, and the
      email mode means that a receipt for the account's address was consumed since that
      address was set. */
  lemma ModeMatchesFactors(user: User, start: Time, events: seq<Event>)
    ensures var s := Run(Initial(user, start), events);
            && (s.account.security.mode == Totp <==> s.account.security.secret.Some?)
            && (s.account.security.mode == Email ==> s.account.user.verified && (s.account.user.email, s.epoch) in s.proofs)
  {
    RunKeepsInv(user, start, events);
  }
}
