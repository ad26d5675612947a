/** What each operation of SecurityProtocol does when nothing interrupts it, from any state:
    exactly when it goes through, and what it leaves. */
module SecurityOperations {
  import opened Common
  import opened SecurityRows
  import opened SecurityProtocol

  lemma ThreeSteps(s: System, e1: Event, e2: Event, e3: Event)
    ensures Run(s, [e1, e2, e3]) == Step(Step(Step(s, e1), e2), e3)
  {
    assert [e1][..0] == [] && [e1, e2][..1] == [e1] && [e1, e2, e3][..2] == [e1, e2];
    assert Run(s, []) == s;
    assert Run(s, [e1]) == Step(s, e1);
    assert Run(s, [e1, e2]) == Step(Step(s, e1), e2);
  }

  lemma FourSteps(s: System, e1: Event, e2: Event, e3: Event, e4: Event)
    ensures Run(s, [e1, e2, e3, e4]) == Step(Step(Step(Step(s, e1), e2), e3), e4)
  {
    ThreeSteps(s, e1, e2, e3);
    assert [e1, e2, e3, e4][..3] == [e1, e2, e3];
  }

  lemma FiveSteps(s: System, e1: Event, e2: Event, e3: Event, e4: Event, e5: Event)
    ensures Run(s, [e1, e2, e3, e4, e5]) == Step(Step(Step(Step(Step(s, e1), e2), e3), e4), e5)
  {
    FourSteps(s, e1, e2, e3, e4);
    assert [e1, e2, e3, e4, e5][..4] == [e1, e2, e3, e4];
  }

  /** A process that is replaced by its next stage, or ends, leaves the others as they were. */
  lemma OneProcess(s: System, pid: Pid, p: Process)
    requires pid !in s.processes
    ensures Gone(At(s, pid, p), pid) == s
    ensures forall q :: At(At(s, pid, p), pid, q) == At(s, pid, q)
  {
    assert s.processes[pid := p] - {pid} == s.processes;
    forall q ensures At(At(s, pid, p), pid, q) == At(s, pid, q) {
      assert s.processes[pid := p][pid := q] == s.processes[pid := q];
    }
  }

  // ----- Login and VerifyLogin -----

  predicate UsesTotp(v: Security) {
    v.mode == Totp && v.secret.Some?
  }

  /** The first two steps of an operation: the user is read, and then the row. */
  lemma ReadsSecurity(s: System, pid: Pid, purpose: Purpose, ok: bool)
    requires pid !in s.processes && !purpose.ToVerify?
    ensures Step(Step(s, Begin(pid, purpose, ok)), ReadSecurity(pid)) ==
            if !s.account.user.active || ((purpose.ToLogin? || purpose.ToEnroll? || purpose.ToDisable?) && !ok)
               || !Proceeds(purpose, s.account.user, s.account.security, s.challenges) then s
            else if purpose.ToLogin? then At(s, pid, LoginSecured(s.account.user.passwordHash, s.account.security.version))
            else At(s, pid, SecurityRead(purpose, s.account.security))
  {
    OneProcess(s, pid, UserRead(purpose, s.account.user));
  }

  lemma SecuredIsChallenged(s: System, pid: Pid, c: ChallengeId)
    requires pid !in s.processes && c !in s.challenges && s.account.user.active
    ensures var hash, version := s.account.user.passwordHash, s.account.security.version;
            Step(Step(At(s, pid, LoginSecured(hash, version)), Recheck(pid)), Issue(pid, c)) ==
            s.(challenges := s.challenges[c := Challenge(version, hash)])
  {
    var hash, version := s.account.user.passwordHash, s.account.security.version;
    OneProcess(s, pid, LoginSecured(hash, version));
    OneProcess(s, pid, Issuing(hash, version));
    assert ReadStep(At(s, pid, LoginSecured(hash, version)), Recheck(pid)) == At(s, pid, Issuing(hash, version));
  }

  /** A login gets a challenge exactly when the password verifies, the user is active and
      the mode is TOTP with a secret; the challenge is for the row's version. Otherwise
      nothing changes. */
  lemma LoginIsChallengedExactly(s: System, pid: Pid, ok: bool, c: ChallengeId)
    requires pid !in s.processes && c !in s.challenges
    ensures Run(s, [Begin(pid, ToLogin, ok), ReadSecurity(pid), Recheck(pid), Issue(pid, c)]) ==
            if ok && s.account.user.active && UsesTotp(s.account.security)
            then s.(challenges := s.challenges[c := Challenge(s.account.security.version, s.account.user.passwordHash)])
            else s
  {
    FourSteps(s, Begin(pid, ToLogin, ok), ReadSecurity(pid), Recheck(pid), Issue(pid, c));
    ReadsSecurity(s, pid, ToLogin, ok);
    if ok && s.account.user.active && UsesTotp(s.account.security) {
      SecuredIsChallenged(s, pid, c);
    }
  }

  predicate FactorFits(v: Security, factor: Factor, matches: bool, now: Time) {
    match factor
    case TotpStep(step) => matches && step > v.lastStep && step >= 0
    case RecoveryCode(hash) => Live(v.recoveryExpires, now) && hash in v.hashes
  }

  /** The row without the factor. */
  function Spent(v: Security, factor: Factor): Security {
    match factor
    case TotpStep(step) => v.(lastStep := step, version := v.version + 1)
    case RecoveryCode(hash) => v.(hashes := Without(v.hashes, hash), version := v.version + 1)
  }

  lemma ChallengeIsRead(s: System, pid: Pid, c: ChallengeId)
    requires pid !in s.processes && c in s.challenges
    ensures Step(Step(Step(s, Attempt(pid, c)), CheckUser(pid)), ReadSecurity(pid)) ==
            if s.account.user.active && UsesTotp(s.account.security) && s.account.security.version == s.challenges[c].version
            then At(s, pid, SecurityRead(ToVerify(c), s.account.security)) else s
  {
    OneProcess(s, pid, Attempted(c));
    OneProcess(s, pid, UserRead(ToVerify(c), s.account.user));
  }

  lemma FactorIsSpent(s: System, pid: Pid, purpose: Purpose, factor: Factor, matches: bool, inserted: bool)
    requires pid !in s.processes && purpose.ToVerify? && s.account.security.secret.Some?
    ensures var s1 := At(s, pid, SecurityRead(purpose, s.account.security));
            var s' := Step(Step(s1, GiveFactor(pid, factor, matches)), Consume(pid, inserted));
            && s'.processes == s.processes
            && s'.account == s.account.(security :=
                 if inserted && FactorFits(s.account.security, factor, matches, s.now) then Spent(s.account.security, factor) else s.account.security)
            && |s'.log| == |s.log| + (if inserted && FactorFits(s.account.security, factor, matches, s.now) then 1 else 0)
  {
    var row := s.account.security;
    OneProcess(s, pid, SecurityRead(purpose, row));
    OneProcess(s, pid, Consuming(purpose, row, factor));
    assert DecideStep(At(s, pid, SecurityRead(purpose, row)), GiveFactor(pid, factor, matches)) ==
           if FactorFits(row, factor, matches, s.now) then At(s, pid, Consuming(purpose, row, factor)) else s;
  }

  /** A challenge is answered exactly when the user is active, the row is of the challenge's
      version and in use, the factor fits, and the challenge's consumption is new; then the
      factor is spent. */
  lemma ChallengeIsAnsweredExactly(s: System, pid: Pid, c: ChallengeId, factor: Factor, matches: bool, inserted: bool)
    requires pid !in s.processes && c in s.challenges
    ensures var s' := Run(s, [Attempt(pid, c), CheckUser(pid), ReadSecurity(pid), GiveFactor(pid, factor, matches), Consume(pid, inserted)]);
            var v := s.account.security;
            var answered := && s.account.user.active && UsesTotp(v) && v.version == s.challenges[c].version
                            && FactorFits(v, factor, matches, s.now) && inserted;
            && s'.account == s.account.(security := if answered then Spent(v, factor) else v)
            && |s'.log| == |s.log| + (if answered then 1 else 0)
  {
    FiveSteps(s, Attempt(pid, c), CheckUser(pid), ReadSecurity(pid), GiveFactor(pid, factor, matches), Consume(pid, inserted));
    ChallengeIsRead(s, pid, c);
    if s.account.user.active && UsesTotp(s.account.security) && s.account.security.version == s.challenges[c].version {
      FactorIsSpent(s, pid, ToVerify(c), factor, matches, inserted);
    }
  }

  // ----- The settings services -----

  /** A row that was read and is saved uninterrupted is what is stored, one version later. */
  lemma SaveGoesThrough(s: System, pid: Pid, purpose: Purpose, v: Security)
    requires pid !in s.processes && (v.mode == Email ==> s.account.user.verified)
    ensures var s' := Step(At(s, pid, Saving(purpose, v, s.account.security.version)), Save(pid));
            && s'.account == s.account.(security := v.(version := s.account.security.version + 1))
            && s'.processes == s.processes
  {
    OneProcess(s, pid, Saving(purpose, v, s.account.security.version));
  }

  predicate MaySetMode(a: Account, mode: Mode) {
    && (a.security.secret.Some? <==> mode == Totp)
    && (mode == Email ==> a.user.verified)
  }

  /** PutSecurity sets the mode exactly when it may, and nothing else. */
  lemma ModeIsSetExactly(s: System, pid: Pid, mode: Mode, ok: bool)
    requires pid !in s.processes
    ensures Run(s, [Begin(pid, ToSetMode(mode), ok), ReadSecurity(pid), ChooseMode(pid), Save(pid)]).account ==
            if s.account.user.active && MaySetMode(s.account, mode)
            then s.account.(security := s.account.security.(mode := mode, version := s.account.security.version + 1))
            else s.account
  {
    FourSteps(s, Begin(pid, ToSetMode(mode), ok), ReadSecurity(pid), ChooseMode(pid), Save(pid));
    ReadsSecurity(s, pid, ToSetMode(mode), ok);
    if s.account.user.active && MaySetMode(s.account, mode) {
      var v := s.account.security.(mode := mode);
      OneProcess(s, pid, SecurityRead(ToSetMode(mode), s.account.security));
      assert DecideStep(At(s, pid, SecurityRead(ToSetMode(mode), s.account.security)), ChooseMode(pid)) ==
             At(s, pid, Saving(ToSetMode(mode), v, v.version));
      SaveGoesThrough(s, pid, ToSetMode(mode), v);
    }
  }

  /** Enroll leaves the new secret pending for ten minutes exactly when the password
      verifies and there is no secret yet. */
  lemma EnrolmentIsPendingExactly(s: System, pid: Pid, ok: bool, secret: Secret)
    requires pid !in s.processes && (s.account.security.mode == Email ==> s.account.user.verified)
    ensures Run(s, [Begin(pid, ToEnroll, ok), ReadSecurity(pid), MakeSecret(pid, secret), Save(pid)]).account ==
            if ok && s.account.user.active && s.account.security.secret.None?
            then s.account.(security := s.account.security.(pending := Some(secret), pendingExpires := Some(s.now + 600),
                                                            version := s.account.security.version + 1))
            else s.account
  {
    FourSteps(s, Begin(pid, ToEnroll, ok), ReadSecurity(pid), MakeSecret(pid, secret), Save(pid));
    ReadsSecurity(s, pid, ToEnroll, ok);
    if ok && s.account.user.active && s.account.security.secret.None? {
      var v := s.account.security.(pending := Some(secret), pendingExpires := Some(s.now + 600));
      OneProcess(s, pid, SecurityRead(ToEnroll, s.account.security));
      assert DecideStep(At(s, pid, SecurityRead(ToEnroll, s.account.security)), MakeSecret(pid, secret)) ==
             At(s, pid, Saving(ToEnroll, v, v.version));
      SaveGoesThrough(s, pid, ToEnroll, v);
    }
  }

  predicate MayConfirm(v: Security, step: int, matches: bool, now: Time) {
    v.secret.None? && Live(v.pendingExpires, now) && v.pending.Some? && matches && step >= 0
  }

  /** Confirm makes the pending secret the secret, in TOTP mode, with the step of the code
      and new recovery codes, exactly while the secret is pending and the code matches. */
  lemma EnrolmentIsConfirmedExactly(s: System, pid: Pid, ok: bool, step: int, matches: bool, hashes: seq<Hash>, lifetime: int)
    requires pid !in s.processes
    ensures Run(s, [Begin(pid, ToConfirm, ok), ReadSecurity(pid), ConfirmCode(pid, step, matches, hashes, lifetime), Save(pid)]).account ==
            if s.account.user.active && MayConfirm(s.account.security, step, matches, s.now)
            then s.account.(security := Security(Totp, s.account.security.pending, None, None, step, hashes,
                                                 Some(s.now + lifetime), s.account.security.version + 1))
            else s.account
  {
    FourSteps(s, Begin(pid, ToConfirm, ok), ReadSecurity(pid), ConfirmCode(pid, step, matches, hashes, lifetime), Save(pid));
    ReadsSecurity(s, pid, ToConfirm, ok);
    if s.account.user.active && s.account.security.secret.None? {
      OneProcess(s, pid, SecurityRead(ToConfirm, s.account.security));
      if MayConfirm(s.account.security, step, matches, s.now) {
        var v := Confirmed(s.account.security, step, hashes, s.now + lifetime);
        assert DecideStep(At(s, pid, SecurityRead(ToConfirm, s.account.security)), ConfirmCode(pid, step, matches, hashes, lifetime)) ==
               At(s, pid, Saving(ToConfirm, v, v.version));
        SaveGoesThrough(s, pid, ToConfirm, v);
      }
    }
  }

  /** Disable, with the password and a factor that fits, leaves no secret, no recovery codes
      and the default mode, two versions later; without either it changes nothing. */
  lemma FactorIsDisabledExactly(s: System, pid: Pid, ok: bool, factor: Factor, matches: bool)
    requires pid !in s.processes
    ensures var v := s.account.security;
            Run(s, [Begin(pid, ToDisable, ok), ReadSecurity(pid), GiveFactor(pid, factor, matches), Consume(pid, true), Save(pid)]).account ==
            if ok && s.account.user.active && v.secret.Some? && FactorFits(v, factor, matches, s.now)
            then s.account.(security := Security(Default, None, None, None, -1, [], None, v.version + 2))
            else s.account
  {
    FiveSteps(s, Begin(pid, ToDisable, ok), ReadSecurity(pid), GiveFactor(pid, factor, matches), Consume(pid, true), Save(pid));
    ReadsSecurity(s, pid, ToDisable, ok);
    if ok && s.account.user.active && s.account.security.secret.Some? {
      DisablingSpends(s, pid, factor, matches);
    }
  }

  lemma DisablingSpends(s: System, pid: Pid, factor: Factor, matches: bool)
    requires pid !in s.processes && s.account.security.secret.Some?
    ensures var v := s.account.security;
            var s1 := At(s, pid, SecurityRead(ToDisable, v));
            Step(Step(Step(s1, GiveFactor(pid, factor, matches)), Consume(pid, true)), Save(pid)).account ==
            if FactorFits(v, factor, matches, s.now)
            then s.account.(security := Security(Default, None, None, None, -1, [], None, v.version + 2))
            else s.account
  {
    var v := s.account.security;
    OneProcess(s, pid, SecurityRead(ToDisable, v));
    OneProcess(s, pid, Consuming(ToDisable, v, factor));
    var s2 := DecideStep(At(s, pid, SecurityRead(ToDisable, v)), GiveFactor(pid, factor, matches));
    if FactorFits(v, factor, matches, s.now) {
      assert s2 == At(s, pid, Consuming(ToDisable, v, factor));
      var s3 := WriteStep(s2, Consume(pid, true));
      assert s3.account.security == Spent(v, factor);
      assert s3.processes == s.processes[pid := Saving(ToDisable, Disabled(v), v.version + 1)];
    } else {
      assert s2 == s;
    }
  }

  lemma ReceiptIsUsed(s: System, pid: Pid, receipt: Receipt, inserted: bool)
    requires pid !in s.processes
    ensures var s' := Step(At(s, pid, HasReceipt(s.account.user.email, receipt)), CommitVerification(pid, inserted));
            var verifies := s.account.user.active && receipt.id != "" && receipt.expires > s.now && inserted;
            && s'.account == s.account.(user := s.account.user.(verified := s.account.user.verified || verifies))
            && s'.proofs == s.proofs + (if verifies then {(s.account.user.email, s.epoch)} else {})
  {
    OneProcess(s, pid, HasReceipt(s.account.user.email, receipt));
  }

  /** VerifyEmail verifies the address exactly for an active user and a receipt that has an
      ID, has not expired, and is consumed now. */
  lemma EmailIsVerifiedExactly(s: System, pid: Pid, ok: bool, receipt: Receipt, inserted: bool)
    requires pid !in s.processes
    ensures var s' := Run(s, [Begin(pid, ToVerifyEmail, ok), ReceiveReceipt(pid, receipt), CommitVerification(pid, inserted)]);
            var verifies := s.account.user.active && receipt.id != "" && receipt.expires > s.now && inserted;
            && s'.account == s.account.(user := s.account.user.(verified := s.account.user.verified || verifies))
            && s'.proofs == s.proofs + (if verifies then {(s.account.user.email, s.epoch)} else {})
  {
    ThreeSteps(s, Begin(pid, ToVerifyEmail, ok), ReceiveReceipt(pid, receipt), CommitVerification(pid, inserted));
    var s1 := ReadStep(s, Begin(pid, ToVerifyEmail, ok));
    if s.account.user.active {
      OneProcess(s, pid, UserRead(ToVerifyEmail, s.account.user));
      assert UserStep(s1, ReceiveReceipt(pid, receipt)) == At(s, pid, HasReceipt(s.account.user.email, receipt));
      ReceiptIsUsed(s, pid, receipt, inserted);
    } else {
      assert s1 == s && UserStep(s1, ReceiveReceipt(pid, receipt)) == s;
    }
  }

  // ----- The user's own columns -----

  function LastPassword(user: User, events: seq<Event>): string {
    if events == [] then user.passwordHash
    else if events[|events| - 1].ResetPassword? then events[|events| - 1].hash
    else LastPassword(user, events[..|events| - 1])
  }

  function LastActive(user: User, events: seq<Event>): bool {
    if events == [] then user.active
    else if events[|events| - 1].SetActive? then events[|events| - 1].active
    else LastActive(user, events[..|events| - 1])
  }

  lemma OnlyResetsAndActivations(s: System, e: Event)
    ensures Step(s, e).account.user.passwordHash == if e.ResetPassword? then e.hash else s.account.user.passwordHash
    ensures Step(s, e).account.user.active == if e.SetActive? then e.active else s.account.user.active
  {
  }

  /** The stored password is that of the last reset, and the user is active as was last set. */
  lemma {:induction false} UserIsHistory(user: User, start: Time, events: seq<Event>)
    ensures var u := Run(Initial(user, start), events).account.user;
            u.passwordHash == LastPassword(user, events) && u.active == LastActive(user, events)
  {
    if events != [] {
      UserIsHistory(user, start, events[..|events| - 1]);
      OnlyResetsAndActivations(Run(Initial(user, start), events[..|events| - 1]), events[|events| - 1]);
    }
  }

  /** A reset drops a pending enrolment and leaves the rest of the row, one version later. */
  lemma ResetLeavesFactors(s: System, hash: string)
    ensures Step(s, ResetPassword(hash)).account ==
            Account(s.account.user.(passwordHash := hash),
                    s.account.security.(pending := None, pendingExpires := None, version := s.account.security.version + 1))
  {
  }

  /** A profile update is refused for a new address in the email mode and for a taken name
      or address; otherwise it is stored, and a new address is unverified. */
  lemma ProfileIsUpdatedExactly(s: System, p: Profile, taken: bool)
    ensures var u := s.account.user;
            Step(s, UpdateProfile(p, taken)).account ==
            if taken || (p.email != u.email && s.account.security.mode == Email) then s.account
            else s.account.(user := User(p.email, p.username, p.displayName, u.verified && p.email == u.email, u.passwordHash, u.active))
  {
  }
}
