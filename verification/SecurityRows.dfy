/** One account's rows in `users` and `user_security_settings`, and the transactions that
    write them: pkg/platform/database/iamstore/authentication.go and repository.go over
    dbgen/authentication.sql.go and users.sql.go. A row of settings that is not there yet
    counts as one with the column defaults. */
module SecurityRows {
  import opened Common

  type Secret = nat
  type Hash = nat

  datatype Mode = Default | Email | Totp

  datatype Security = Security(
    mode: Mode,
    secret: Option<Secret>,
    pending: Option<Secret>,
    pendingExpires: Option<Time>,
    lastStep: int,
    hashes: seq<Hash>,
    recoveryExpires: Option<Time>,
    version: int)

  datatype User = User(email: string, username: string, displayName: string, verified: bool, passwordHash: string, active: bool)

  datatype Account = Account(user: User, security: Security)

  datatype Outcome =
    | Done | EmailNotVerified | SecurityConflict | InvalidCode | Forbidden | InactiveUser | DuplicateIdentity

  function NewSecurity(): Security {
    Security(Default, None, None, None, -1, [], None, 0)
  }

  // ----- What each transaction leaves, and what it answers -----

  function SaveOutcome(a: Account, v: Security, version: int): Outcome {
    if v.mode == Email && !a.user.verified then EmailNotVerified
    else if a.security.version != version then SecurityConflict
    else Done
  }

  /** SaveSecuritySettings writes every column but the version, which it advances. */
  function Saved(a: Account, v: Security, version: int): Account {
    if SaveOutcome(a, v, version) == Done then a.(security := v.(version := a.security.version + 1)) else a
  }

  function Without(hashes: seq<Hash>, h: Hash): seq<Hash> {
    if hashes == [] then []
    else Without(hashes[..|hashes| - 1], h) + (if hashes[|hashes| - 1] == h then [] else [hashes[|hashes| - 1]])
  }

  /** A second factor: a TOTP step, or the hash of a recovery code. */
  datatype Factor = TotpStep(step: int) | RecoveryCode(hash: Hash)

  predicate Live(deadline: Option<Time>, now: Time) {
    deadline.Some? && deadline.value > now
  }

  /** ConsumeCredential accepts; `inserted` says that the challenge's consumption row was
      inserted, or that there was no challenge. */
  predicate Consumable(s: Security, version: int, inserted: bool, f: Factor, now: Time) {
    && s.version == version && s.secret.Some? && inserted
    && match f
       case TotpStep(step) => step > s.lastStep
       case RecoveryCode(hash) => Live(s.recoveryExpires, now) && hash in s.hashes
  }

  function Consumed(s: Security, version: int, inserted: bool, f: Factor, now: Time): Security {
    if !Consumable(s, version, inserted, f, now) then s
    else match f
      case TotpStep(step) => s.(lastStep := step, version := s.version + 1)
      case RecoveryCode(hash) => s.(hashes := Without(s.hashes, hash), version := s.version + 1)
  }

  datatype Receipt = Receipt(id: string, expires: Time)

  function VerifyEmailOutcome(a: Account, email: string, receipt: Receipt, inserted: bool, now: Time): Outcome {
    if !a.user.active then InactiveUser
    else if a.user.email != email then SecurityConflict
    else if receipt.id == "" || receipt.expires <= now || !inserted then InvalidCode
    else Done
  }

  function EmailVerified(a: Account, email: string, receipt: Receipt, inserted: bool, now: Time): Account {
    if VerifyEmailOutcome(a, email, receipt, inserted, now) == Done then a.(user := a.user.(verified := true)) else a
  }

  /** What a profile update asks for. */
  datatype Profile = Profile(email: string, username: string, displayName: string)

  /** `taken` says that another account has the new address or the new name. */
  function UpdateUserOutcome(a: Account, p: Profile, taken: bool): Outcome {
    if a.user.email != p.email && a.security.mode == Email then Forbidden
    else if taken then DuplicateIdentity
    else Done
  }

  /** UpdateUser: an address change clears the verification. */
  function ProfileUpdated(a: Account, p: Profile, taken: bool): Account {
    if UpdateUserOutcome(a, p, taken) != Done then a
    else a.(user := a.user.(email := p.email, username := p.username, displayName := p.displayName,
                            verified := a.user.verified && p.email == a.user.email))
  }

  function PasswordUpdated(a: Account, hash: string): Account {
    Account(a.user.(passwordHash := hash),
            a.security.(version := a.security.version + 1, pending := None, pendingExpires := None))
  }

  // ----- The transactions -----

  class AccountStore {
    var user: User
    var security: Security

    function Rows(): Account
      reads this
    {
      Account(user, security)
    }

    constructor (u: User)
      ensures Rows() == Account(u, NewSecurity())
    {
      user := u;
      security := NewSecurity();
    }

    /** The update matches on the version and advances it. */
    method SaveSecuritySettings(v: Security, version: int) returns (rows: nat)
      modifies this`security
      ensures rows == if old(security).version == version then 1 else 0
      ensures security == if rows == 1 then v.(version := old(security).version + 1) else old(security)
    {
      if security.version != version {
        return 0;
      }
      security := v.(version := security.version + 1);
      return 1;
    }

    method SaveSecurity(v: Security, version: int) returns (r: Outcome)
      modifies this`security
      ensures r == SaveOutcome(old(Rows()), v, version)
      ensures Rows() == Saved(old(Rows()), v, version)
    {
      if v.mode == Email {
        if !user.verified {
          return EmailNotVerified;
        }
        var n := SaveSecuritySettings(v, version);
        return if n == 1 then Done else SecurityConflict;
      }
      var n := SaveSecuritySettings(v, version);
      return if n == 1 then Done else SecurityConflict;
    }

    method ConsumeCredential(version: int, inserted: bool, f: Factor, now: Time) returns (r: Outcome)
      modifies this`security
      ensures r == if Consumable(old(security), version, inserted, f, now) then Done else InvalidCode
      ensures Rows() == old(Rows()).(security := Consumed(old(security), version, inserted, f, now))
    {
      if security.version != version || security.secret.None? || !inserted {
        return InvalidCode;
      }
      var lastStep, hashes := security.lastStep, security.hashes;
      match f {
        case RecoveryCode(hash) =>
          if security.recoveryExpires.None? || security.recoveryExpires.value <= now {
            return InvalidCode;
          }
          var found := false;
          var remaining: seq<Hash> := [];
          for i := 0 to |hashes|
            invariant found <==> hash in hashes[..i]
            invariant remaining == Without(hashes[..i], hash)
          {
            assert hashes[..i + 1][..i] == hashes[..i];
            if hashes[i] == hash {
              found := true;
            } else {
              remaining := remaining + [hashes[i]];
            }
          }
          assert hashes[..|hashes|] == hashes;
          if !found {
            return InvalidCode;
          }
          hashes := remaining;
        case TotpStep(step) =>
          if step <= security.lastStep {
            return InvalidCode;
          }
          lastStep := step;
      }
      security := security.(lastStep := lastStep, hashes := hashes, version := security.version + 1);
      return Done;
    }

    method VerifyEmail(email: string, receipt: Receipt, inserted: bool, now: Time) returns (r: Outcome)
      modifies this`user
      ensures r == VerifyEmailOutcome(old(Rows()), email, receipt, inserted, now)
      ensures Rows() == EmailVerified(old(Rows()), email, receipt, inserted, now)
    {
      if !user.active {
        return InactiveUser;
      }
      if user.email != email {
        return SecurityConflict;
      }
      if receipt.id == "" || receipt.expires <= now {
        return InvalidCode;
      }
      if !inserted {
        return InvalidCode;
      }
      user := user.(verified := true);
      return Done;
    }

    method UpdateUser(p: Profile, taken: bool) returns (r: Outcome)
      modifies this`user
      ensures r == UpdateUserOutcome(old(Rows()), p, taken)
      ensures Rows() == ProfileUpdated(old(Rows()), p, taken)
    {
      if user.email != p.email && security.mode == Email {
        return Forbidden;
      }
      if taken {
        return DuplicateIdentity;
      }
      if user.email != p.email {
        user := user.(verified := false);
      }
      user := user.(email := p.email, username := p.username, displayName := p.displayName);
      return Done;
    }

    method UpdateUserPassword(hash: string)
      modifies this
      ensures Rows() == PasswordUpdated(old(Rows()), hash)
    {
      security := security.(version := security.version + 1, pending := None, pendingExpires := None);
      user := user.(passwordHash := hash);
    }
  }

  // ----- What the rows keep -----

  lemma {:induction false} WithoutKeepsOthers(hashes: seq<Hash>, h: Hash)
    ensures h !in Without(hashes, h)
    ensures forall g :: g != h ==> multiset(Without(hashes, h))[g] == multiset(hashes)[g]
  {
    if hashes != [] {
      WithoutKeepsOthers(hashes[..|hashes| - 1], h);
      assert hashes == hashes[..|hashes| - 1] + [hashes[|hashes| - 1]];
    }
  }

  /** Every committed write of the row advances its version by one, so a version names
      one state of the row. */
  lemma WritesAdvanceVersion(a: Account, v: Security, version: int, inserted: bool, f: Factor, now: Time, hash: string)
    ensures Saved(a, v, version) == a || Saved(a, v, version).security.version == a.security.version + 1
    ensures Consumed(a.security, version, inserted, f, now) == a.security
            || Consumed(a.security, version, inserted, f, now).version == a.security.version + 1
    ensures PasswordUpdated(a, hash).security.version == a.security.version + 1
  {
  }

  /** A consumed factor is not consumable again, at whatever version and time. */
  lemma ConsumedOnce(s: Security, version: int, f: Factor, now: Time, version': int, inserted: bool, now': Time)
    requires Consumable(s, version, true, f, now)
    ensures !Consumable(Consumed(s, version, true, f, now), version', inserted, f, now')
  {
    if f.RecoveryCode? { WithoutKeepsOthers(s.hashes, f.hash); }
  }
}
