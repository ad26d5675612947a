/** Where the challenges, the saved rows and the accepted factors of SecurityProtocol come
    from: each rests on a check made earlier in the same run. */
module SecurityProvenance {
  import opened Common
  import opened SecurityRows
  import opened SecurityProtocol

  /** The user as created, the time, and the events of a run. */
  datatype History = History(user: User, start: Time, events: seq<Event>)

  function StateAt(h: History, i: nat): System
    requires i <= |h.events|
  {
    Run(Initial(h.user, h.start), h.events[..i])
  }

  function StateOf(h: History): System {
    Run(Initial(h.user, h.start), h.events)
  }

  function More(h: History, e: Event): History {
    h.(events := h.events + [e])
  }

  lemma StateOfMore(h: History, e: Event)
    ensures StateOf(More(h, e)) == Step(StateOf(h), e)
    ensures StateAt(More(h, e), |h.events|) == StateOf(h)
    ensures forall i :: 0 <= i <= |h.events| ==> StateAt(More(h, e), i) == StateAt(h, i)
  {
    assert (h.events + [e])[..|h.events|] == h.events;
    forall i | 0 <= i <= |h.events| ensures StateAt(More(h, e), i) == StateAt(h, i) {
      assert (h.events + [e])[..i] == h.events[..i];
    }
  }

  // ----- Passwords -----

  /** At event i the process began with a password that verified against the hash that was
      stored just then, of an active user. */
  ghost predicate BeganAt(h: History, i: int, pid: Pid, purpose: Purpose, hash: string) {
    && 0 <= i < |h.events| && h.events[i] == Begin(pid, purpose, true)
    && StateAt(h, i).account.user.active && StateAt(h, i).account.user.passwordHash == hash
  }

  ghost predicate Began(h: History, pid: Pid, purpose: Purpose, hash: string) {
    exists i :: BeganAt(h, i, pid, purpose, hash)
  }

  ghost predicate BeganSome(h: History, pid: Pid, purpose: Purpose) {
    exists hash :: Began(h, pid, purpose, hash)
  }

  lemma BeganBefore(h: History, e: Event, pid: Pid, purpose: Purpose, hash: string)
    requires Began(h, pid, purpose, hash)
    ensures Began(More(h, e), pid, purpose, hash)
  {
    var i :| BeganAt(h, i, pid, purpose, hash);
    StateOfMore(h, e);
    assert BeganAt(More(h, e), i, pid, purpose, hash);
  }

  lemma BeganNow(h: History, pid: Pid, purpose: Purpose)
    requires StateOf(h).account.user.active
    ensures Began(More(h, Begin(pid, purpose, true)), pid, purpose, StateOf(h).account.user.passwordHash)
  {
    var e := Begin(pid, purpose, true);
    StateOfMore(h, e);
    assert BeganAt(More(h, e), |h.events|, pid, purpose, StateOf(h).account.user.passwordHash);
  }

  predicate NeedsPassword(purpose: Purpose) {
    purpose.ToLogin? || purpose.ToEnroll? || purpose.ToDisable?
  }

  // ----- Codes -----

  /** At event i this factor was given, and a TOTP step was the one its code has. */
  ghost predicate GivenAt(h: History, i: int, pid: Pid, factor: Factor) {
    && 0 <= i < |h.events|
    && (|| (h.events[i].GiveFactor? && h.events[i].pid == pid && h.events[i].factor == factor && (factor.TotpStep? ==> h.events[i].matches))
        || (h.events[i].ConfirmCode? && h.events[i].pid == pid && factor == TotpStep(h.events[i].step) && h.events[i].matches))
  }

  ghost predicate Given(h: History, pid: Pid, factor: Factor) {
    exists i :: GivenAt(h, i, pid, factor)
  }

  lemma GivenBefore(h: History, e: Event, pid: Pid, factor: Factor)
    requires Given(h, pid, factor)
    ensures Given(More(h, e), pid, factor)
  {
    var i :| GivenAt(h, i, pid, factor);
    assert GivenAt(More(h, e), i, pid, factor);
  }

  lemma GivenNow(h: History, e: Event, factor: Factor)
    requires e.GiveFactor? || e.ConfirmCode?
    requires GivenAt(More(h, e), |h.events|, e.pid, factor)
    ensures Given(More(h, e), e.pid, factor)
  {
  }

  // ----- Receipts -----

  /** At event i a receipt for this address was consumed, unexpired, while the account had
      the address. */
  ghost predicate ReceiptUsedAt(h: History, i: int, email: string, epoch: nat) {
    && 0 <= i < |h.events| && h.events[i].CommitVerification? && h.events[i].inserted
    && var s := StateAt(h, i);
       && h.events[i].pid in s.processes && s.processes[h.events[i].pid].HasReceipt?
       && var p := s.processes[h.events[i].pid];
          && p.email == email == s.account.user.email && epoch == s.epoch && s.account.user.active
          && p.receipt.id != "" && p.receipt.expires > s.now
  }

  ghost predicate ReceiptUsed(h: History, email: string, epoch: nat) {
    exists i :: ReceiptUsedAt(h, i, email, epoch)
  }

  lemma ReceiptUsedBefore(h: History, e: Event, email: string, epoch: nat)
    requires ReceiptUsed(h, email, epoch)
    ensures ReceiptUsed(More(h, e), email, epoch)
  {
    var i :| ReceiptUsedAt(h, i, email, epoch);
    StateOfMore(h, e);
    assert ReceiptUsedAt(More(h, e), i, email, epoch);
  }

  // ----- The invariant -----

  /** What a process has got past. */
  ghost predicate ProcessBegan(h: History, pid: Pid, p: Process) {
    match p
    case UserRead(purpose, user) => NeedsPassword(purpose) ==> Began(h, pid, purpose, user.passwordHash)
    case SecurityRead(purpose, _) => NeedsPassword(purpose) ==> BeganSome(h, pid, purpose)
    case LoginSecured(hash, _) => Began(h, pid, ToLogin, hash)
    case Issuing(hash, _) => Began(h, pid, ToLogin, hash)
    case Consuming(purpose, _, factor) => (NeedsPassword(purpose) ==> BeganSome(h, pid, purpose)) && Given(h, pid, factor)
    case Saving(purpose, v, _) =>
      && (NeedsPassword(purpose) ==> BeganSome(h, pid, purpose))
      && (purpose.ToConfirm? ==> Given(h, pid, TotpStep(v.lastStep)))
    case _ => true
  }

  /** A challenge was issued by a process that began a login before. */
  ghost predicate IssuedAfterLogin(h: History, j: int, c: ChallengeId, hash: string) {
    && 0 <= j < |h.events| && h.events[j].Issue? && h.events[j].challenge == c
    && exists i :: i < j && BeganAt(h, i, h.events[j].pid, ToLogin, hash)
  }

  ghost predicate ChallengeBegan(h: History, c: ChallengeId, hash: string) {
    exists j :: IssuedAfterLogin(h, j, c, hash)
  }

  ghost predicate AcceptanceGiven(h: History, a: Acceptance) {
    exists pid :: Given(h, pid, a.factor)
  }

  ghost predicate Prov(h: History, s: System) {
    && (forall pid :: pid in s.processes ==> ProcessBegan(h, pid, s.processes[pid]))
    && (forall c :: c in s.challenges ==> ChallengeBegan(h, c, s.challenges[c].loginHash))
    && (forall a :: a in s.log ==> AcceptanceGiven(h, a))
    && (forall p :: p in s.proofs ==> ReceiptUsed(h, p.0, p.1) || (h.user.verified && p == (h.user.email, 0)))
  }

  lemma SomeBeganBefore(h: History, e: Event, pid: Pid, purpose: Purpose)
    requires BeganSome(h, pid, purpose)
    ensures BeganSome(More(h, e), pid, purpose)
  {
    var hash :| Began(h, pid, purpose, hash);
    BeganBefore(h, e, pid, purpose, hash);
  }

  lemma ProcessStays(h: History, e: Event, pid: Pid, p: Process)
    requires ProcessBegan(h, pid, p)
    ensures ProcessBegan(More(h, e), pid, p)
  {
    match p
    case UserRead(purpose, user) => if NeedsPassword(purpose) { BeganBefore(h, e, pid, purpose, user.passwordHash); }
    case SecurityRead(purpose, _) => if NeedsPassword(purpose) { SomeBeganBefore(h, e, pid, purpose); }
    case LoginSecured(hash, _) => BeganBefore(h, e, pid, ToLogin, hash);
    case Issuing(hash, _) => BeganBefore(h, e, pid, ToLogin, hash);
    case Consuming(purpose, _, factor) =>
      if NeedsPassword(purpose) { SomeBeganBefore(h, e, pid, purpose); }
      GivenBefore(h, e, pid, factor);
    case Saving(purpose, v, _) =>
      if NeedsPassword(purpose) { SomeBeganBefore(h, e, pid, purpose); }
      if purpose.ToConfirm? { GivenBefore(h, e, pid, TotpStep(v.lastStep)); }
    case _ =>
  }

  /** Nothing but one process changed, or went. */
  ghost predicate OnlyMoves(s: System, s': System, pid: Pid) {
    forall p :: p in s'.processes && p != pid ==> p in s.processes && s'.processes[p] == s.processes[p]
  }

  lemma ProcessesStay(h: History, e: Event, s: System, s': System, pid: Pid)
    requires forall p :: p in s.processes ==> ProcessBegan(h, p, s.processes[p])
    requires OnlyMoves(s, s', pid) && (pid in s'.processes ==> ProcessBegan(More(h, e), pid, s'.processes[pid]))
    ensures forall p :: p in s'.processes ==> ProcessBegan(More(h, e), p, s'.processes[p])
  {
    forall p | p in s'.processes && p != pid ensures ProcessBegan(More(h, e), p, s'.processes[p]) {
      ProcessStays(h, e, p, s.processes[p]);
    }
  }

  /** Steps that leave challenges, log and proofs alone keep the invariant if the process
      they move has got past what it should have. */
  lemma MoveKeepsProv(h: History, e: Event, s': System, pid: Pid)
    requires var s := StateOf(h);
             && Prov(h, s) && s'.challenges == s.challenges && s'.log == s.log && s'.proofs == s.proofs
             && OnlyMoves(s, s', pid) && (pid in s'.processes ==> ProcessBegan(More(h, e), pid, s'.processes[pid]))
    ensures Prov(More(h, e), s')
  {
    ProcessesStay(h, e, StateOf(h), s', pid);
    RecordsStay(h, e);
  }

  /** One process moved, and what was added to the log and to the proofs was checked. */
  lemma WriteKeepsProv(h: History, e: Event, s: System, s': System, pid: Pid)
    requires s == StateOf(h) && Prov(h, s) && s'.challenges == s.challenges && OnlyMoves(s, s', pid)
    requires pid in s'.processes ==> ProcessBegan(More(h, e), pid, s'.processes[pid])
    requires forall a :: a in s'.log && a !in s.log ==> Given(More(h, e), pid, a.factor)
    requires forall p :: p in s'.proofs && p !in s.proofs ==> ReceiptUsed(More(h, e), p.0, p.1)
    ensures Prov(More(h, e), s')
  {
    ProcessesStay(h, e, s, s', pid);
    RecordsStay(h, e);
    forall a | a in s'.log ensures AcceptanceGiven(More(h, e), a) {
      if a !in s.log { assert Given(More(h, e), pid, a.factor); }
    }
  }

  lemma RecordsStay(h: History, e: Event)
    requires Prov(h, StateOf(h))
    ensures var s := StateOf(h);
            && (forall c :: c in s.challenges ==> ChallengeBegan(More(h, e), c, s.challenges[c].loginHash))
            && (forall a :: a in s.log ==> AcceptanceGiven(More(h, e), a))
            && (forall p :: p in s.proofs ==> ReceiptUsed(More(h, e), p.0, p.1) || (h.user.verified && p == (h.user.email, 0)))
  {
    var s := StateOf(h);
    forall c | c in s.challenges ensures ChallengeBegan(More(h, e), c, s.challenges[c].loginHash) {
      var hash := s.challenges[c].loginHash;
      var j :| IssuedAfterLogin(h, j, c, hash);
      var i :| i < j && BeganAt(h, i, h.events[j].pid, ToLogin, hash);
      StateOfMore(h, e);
      assert BeganAt(More(h, e), i, More(h, e).events[j].pid, ToLogin, hash);
      assert IssuedAfterLogin(More(h, e), j, c, hash);
    }
    forall a | a in s.log ensures AcceptanceGiven(More(h, e), a) {
      var pid :| Given(h, pid, a.factor);
      GivenBefore(h, e, pid, a.factor);
    }
    forall p | p in s.proofs ensures ReceiptUsed(More(h, e), p.0, p.1) || (h.user.verified && p == (h.user.email, 0)) {
      if ReceiptUsed(h, p.0, p.1) {
        ReceiptUsedBefore(h, e, p.0, p.1);
      }
    }
  }

  lemma BeginKeepsProv(h: History, e: Event)
    requires Prov(h, StateOf(h)) && e.Begin?
    ensures Prov(More(h, e), ReadStep(StateOf(h), e))
  {
    var s := StateOf(h);
    if s.account.user.active && e.passwordOk {
      BeganNow(h, e.pid, e.purpose);
    }
    if e.pid in s.processes {
      ProcessStays(h, e, e.pid, s.processes[e.pid]);
    }
    MoveKeepsProv(h, e, ReadStep(s, e), e.pid);
  }

  /** What becomes of one process that reads. */
  lemma ReaderBegan(h: History, s: System, e: Event)
    requires e.Attempt? || e.CheckUser? || e.ReadSecurity? || e.Recheck?
    requires e.pid in s.processes ==> ProcessBegan(h, e.pid, s.processes[e.pid])
    ensures var s' := ReadStep(s, e);
            && s'.challenges == s.challenges && s'.log == s.log && s'.proofs == s.proofs && OnlyMoves(s, s', e.pid)
            && (e.pid in s'.processes ==> ProcessBegan(h, e.pid, s'.processes[e.pid]))
  {
  }

  lemma ReadingKeepsProv(h: History, e: Event)
    requires Prov(h, StateOf(h)) && (e.Attempt? || e.CheckUser? || e.ReadSecurity? || e.Recheck?)
    ensures Prov(More(h, e), ReadStep(StateOf(h), e))
  {
    var s := StateOf(h);
    ReaderBegan(h, s, e);
    var s' := ReadStep(s, e);
    if e.pid in s'.processes {
      ProcessStays(h, e, e.pid, s'.processes[e.pid]);
    }
    MoveKeepsProv(h, e, s', e.pid);
  }

  lemma IssueKeepsProv(h: History, e: Event)
    requires Prov(h, StateOf(h)) && e.Issue?
    ensures Prov(More(h, e), ReadStep(StateOf(h), e))
  {
    var s := StateOf(h);
    var s' := ReadStep(s, e);
    RecordsStay(h, e);
    if s' == s {
      if e.pid in s.processes { ProcessStays(h, e, e.pid, s.processes[e.pid]); }
    } else {
      assert ProcessBegan(h, e.pid, s.processes[e.pid]);
      IssuedNow(h, e, s.processes[e.pid].loginHash);
    }
    ProcessesStay(h, e, s, s', e.pid);
  }

  lemma IssuedNow(h: History, e: Event, hash: string)
    requires e.Issue? && Began(h, e.pid, ToLogin, hash)
    ensures ChallengeBegan(More(h, e), e.challenge, hash)
  {
    var i :| BeganAt(h, i, e.pid, ToLogin, hash);
    StateOfMore(h, e);
    assert BeganAt(More(h, e), i, e.pid, ToLogin, hash);
    assert IssuedAfterLogin(More(h, e), |h.events|, e.challenge, hash);
  }

  /** What one process decides, once what it got past is known to hold still. */
  lemma DeciderBegan(h: History, s: System, e: Event)
    requires e.ChooseMode? || e.MakeSecret? || e.ConfirmCode? || e.GiveFactor?
    requires e.pid in s.processes ==> ProcessBegan(h, e.pid, s.processes[e.pid])
    requires e.ConfirmCode? && e.matches ==> Given(h, e.pid, TotpStep(e.step))
    requires e.GiveFactor? && (e.factor.TotpStep? ==> e.matches) ==> Given(h, e.pid, e.factor)
    ensures var s' := DecideStep(s, e);
            && s'.challenges == s.challenges && s'.log == s.log && s'.proofs == s.proofs && OnlyMoves(s, s', e.pid)
            && (e.pid in s'.processes ==> ProcessBegan(h, e.pid, s'.processes[e.pid]))
  {
  }

  lemma DecidingKeepsProv(h: History, e: Event)
    requires Prov(h, StateOf(h)) && (e.ChooseMode? || e.MakeSecret? || e.ConfirmCode? || e.GiveFactor?)
    ensures Prov(More(h, e), DecideStep(StateOf(h), e))
  {
    var s := StateOf(h);
    if e.ConfirmCode? && e.matches {
      GivenNow(h, e, TotpStep(e.step));
    } else if e.GiveFactor? && (e.factor.TotpStep? ==> e.matches) {
      GivenNow(h, e, e.factor);
    }
    if e.pid in s.processes {
      ProcessStays(h, e, e.pid, s.processes[e.pid]);
    }
    DeciderBegan(More(h, e), s, e);
    MoveKeepsProv(h, e, DecideStep(s, e), e.pid);
  }

  lemma WriterBegan(h: History, s: System, e: Event)
    requires e.Consume? || e.Save?
    requires e.pid in s.processes ==> ProcessBegan(h, e.pid, s.processes[e.pid])
    ensures var s' := WriteStep(s, e);
            && s'.challenges == s.challenges && s'.proofs == s.proofs && OnlyMoves(s, s', e.pid)
            && (e.pid in s'.processes ==> ProcessBegan(h, e.pid, s'.processes[e.pid]))
            && (forall a :: a in s'.log && a !in s.log ==> Given(h, e.pid, a.factor))
  {
  }

  lemma WritingKeepsProv(h: History, e: Event)
    requires Prov(h, StateOf(h)) && (e.Consume? || e.Save?)
    ensures Prov(More(h, e), WriteStep(StateOf(h), e))
  {
    var s := StateOf(h);
    if e.pid in s.processes {
      ProcessStays(h, e, e.pid, s.processes[e.pid]);
    }
    WriterBegan(More(h, e), s, e);
    WriteKeepsProv(h, e, s, WriteStep(s, e), e.pid);
  }

  lemma ReceiptUsedNow(h: History, e: Event)
    requires e.CommitVerification? && UserStep(StateOf(h), e).proofs != StateOf(h).proofs
    ensures var s := StateOf(h);
            && e.pid in s.processes && s.processes[e.pid].HasReceipt?
            && UserStep(s, e).proofs == s.proofs + {(s.processes[e.pid].email, s.epoch)}
            && ReceiptUsed(More(h, e), s.processes[e.pid].email, s.epoch)
  {
    StateOfMore(h, e);
    assert ReceiptUsedAt(More(h, e), |h.events|, StateOf(h).processes[e.pid].email, StateOf(h).epoch);
  }

  lemma VerifierBegan(h: History, s: System, e: Event)
    requires e.ReceiveReceipt? || e.CommitVerification?
    requires e.pid in s.processes ==> ProcessBegan(h, e.pid, s.processes[e.pid])
    ensures var s' := UserStep(s, e);
            && s'.challenges == s.challenges && s'.log == s.log && OnlyMoves(s, s', e.pid)
            && (e.pid in s'.processes ==> ProcessBegan(h, e.pid, s'.processes[e.pid]))
            && (s'.proofs != s.proofs ==> e.CommitVerification?)
  {
  }

  lemma VerificationKeepsProv(h: History, e: Event)
    requires Prov(h, StateOf(h)) && (e.ReceiveReceipt? || e.CommitVerification?)
    ensures Prov(More(h, e), UserStep(StateOf(h), e))
  {
    var s := StateOf(h);
    if e.pid in s.processes {
      ProcessStays(h, e, e.pid, s.processes[e.pid]);
    }
    VerifierBegan(More(h, e), s, e);
    if UserStep(s, e).proofs != s.proofs {
      ReceiptUsedNow(h, e);
    }
    WriteKeepsProv(h, e, s, UserStep(s, e), e.pid);
  }

  lemma AccountChangeKeepsProv(h: History, e: Event)
    requires Prov(h, StateOf(h)) && (e.Tick? || e.ResetPassword? || e.UpdateProfile? || e.SetActive?)
    ensures Prov(More(h, e), Step(StateOf(h), e))
  {
    var s := StateOf(h);
    if 0 in s.processes {
      ProcessStays(h, e, 0, s.processes[0]);
    }
    MoveKeepsProv(h, e, Step(s, e), 0);
  }

  lemma StepKeepsProv(h: History, e: Event)
    requires Prov(h, StateOf(h))
    ensures Prov(More(h, e), Step(StateOf(h), e))
  {
    if e.Begin? {
      BeginKeepsProv(h, e);
    } else if e.Issue? {
      IssueKeepsProv(h, e);
    } else if e.Attempt? || e.CheckUser? || e.ReadSecurity? || e.Recheck? {
      ReadingKeepsProv(h, e);
    } else if e.ChooseMode? || e.MakeSecret? || e.ConfirmCode? || e.GiveFactor? {
      DecidingKeepsProv(h, e);
    } else if e.Consume? || e.Save? {
      WritingKeepsProv(h, e);
    } else if e.ReceiveReceipt? || e.CommitVerification? {
      VerificationKeepsProv(h, e);
    } else {
      AccountChangeKeepsProv(h, e);
    }
  }

  lemma {:induction false} RunKeepsProv(user: User, start: Time, events: seq<Event>)
    ensures Prov(History(user, start, events), Run(Initial(user, start), events))
  {
    if events != [] {
      var h, e := History(user, start, events[..|events| - 1]), events[|events| - 1];
      RunKeepsProv(user, start, events[..|events| - 1]);
      StepKeepsProv(h, e);
      StateOfMore(h, e);
      assert More(h, e).events == events;
    }
  }

  // ----- What every run rests on -----

  /** Every challenge was issued by a process that had begun a login with a password that
      verified against the hash stored then, of an active user; and that hash is what the
      challenge is bound to. */
  lemma ChallengesFollowLogin(user: User, start: Time, events: seq<Event>, c: ChallengeId)
    requires c in Run(Initial(user, start), events).challenges
    ensures var h := History(user, start, events);
            ChallengeBegan(h, c, StateOf(h).challenges[c].loginHash)
  {
    RunKeepsProv(user, start, events);
  }

  /** So when a challenge's factor is consumed, the password hash that is stored is one
      that a login of the same run had verified a password against. */
  lemma ConsumptionFollowsLogin(user: User, start: Time, events: seq<Event>, e: Event)
    requires var s := Run(Initial(user, start), events);
             && e.Consume? && e.pid in s.processes && s.processes[e.pid].Consuming?
             && s.processes[e.pid].purpose.ToVerify? && Step(s, e).log != s.log
    ensures var h := History(user, start, events);
            var c := StateOf(h).processes[e.pid].purpose.challenge;
            ChallengeBegan(h, c, StateOf(h).account.user.passwordHash)
  {
    PasswordStandsAtConsumption(user, start, events, e);
    ChallengesFollowLogin(user, start, events, Run(Initial(user, start), events).processes[e.pid].purpose.challenge);
  }

  /** Whoever is about to save an enrolment, or to consume a factor or save for disabling,
      began with a password that verified; a confirmation, with a code of its step. */
  lemma SavesFollowChecks(user: User, start: Time, events: seq<Event>, pid: Pid)
    requires pid in Run(Initial(user, start), events).processes
    ensures var h := History(user, start, events);
            match StateOf(h).processes[pid]
            case Saving(purpose, v, _) =>
              && (purpose.ToEnroll? || purpose.ToDisable? ==> BeganSome(h, pid, purpose))
              && (purpose.ToConfirm? ==> Given(h, pid, TotpStep(v.lastStep)))
            case Consuming(purpose, _, factor) =>
              && (purpose.ToDisable? ==> BeganSome(h, pid, purpose)) && Given(h, pid, factor)
            case _ => true
  {
    RunKeepsProv(user, start, events);
  }

  /** Every accepted factor was given by someone, and every accepted step had its code. */
  lemma AcceptancesFollowCodes(user: User, start: Time, events: seq<Event>, a: Acceptance)
    requires a in Run(Initial(user, start), events).log
    ensures AcceptanceGiven(History(user, start, events), a)
  {
    RunKeepsProv(user, start, events);
  }

  /** A verified address was verified with a receipt for it, consumed before its expiry
      since the address was set, unless the account was created with it. */
  lemma VerificationsFollowReceipts(user: User, start: Time, events: seq<Event>)
    ensures var s := Run(Initial(user, start), events);
            s.account.user.verified ==>
              || ReceiptUsed(History(user, start, events), s.account.user.email, s.epoch)
              || (user.verified && s.account.user.email == user.email && s.epoch == 0)
  {
    RunKeepsProv(user, start, events);
    RunKeepsInv(user, start, events);
  }
}
