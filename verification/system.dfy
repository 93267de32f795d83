/** The whole service as one state machine: every operation of
    `AuthService`, `AdminController` and `GoogleStrategy` as a step over
    `State`, and the invariant every step keeps. */
module System {
  import opened Base
  import opened UserEntity
  import opened UsersService
  import opened LoginAttempts
  import opened Credentials
  import opened AuthService
  import opened AdminController
  import opened GoogleStrategy

  /** Consistency of one row: the login code and its expiry are set and
      cleared together, a code exists only while the second factor is on
      and is always six digits, and the reset token and its expiry go
      together. */
  predicate RowOk(u: User)
  {
    && (u.twoFactorLoginCode.Some? <==> u.twoFactorLoginCodeExpiresAt.Some?)
    && (u.twoFactorLoginCode.Some? ==> u.twoFactorEnabled && IsSixDigitCode(u.twoFactorLoginCode.value))
    && (u.resetPasswordToken.Some? <==> u.resetPasswordExpires.Some?)
  }

  ghost predicate DbOk(db: Db)
  {
    Valid(db) && forall u :: u in db.users ==> RowOk(u)
  }

  /** Activation entries are stored under their own token, and both maps
      only refer to keys that have been generated. */
  predicate TokensOk(activation: map<string, ActivationToken>, emailChange: map<string, EmailChangeToken>, nextId: nat)
  {
    && (forall t :: t in activation ==> activation[t].token == t && activation[t].userId < nextId)
    && (forall t :: t in emailChange ==> emailChange[t].userId < nextId)
  }

  ghost predicate Invariant(s: State)
  {
    DbOk(s.db) && TokensOk(s.activationTokens, s.emailChangeTokens, s.db.nextId)
  }

  /** Rows are never removed and keys never reused or renumbered. */
  predicate Grows(db: Db, db': Db)
  {
    && |db.users| <= |db'.users| && db.nextId <= db'.nextId
    && forall j :: 0 <= j < |db.users| ==> db'.users[j].id == db.users[j].id
  }

  /** The attempt log only ever gains one record at its end. */
  predicate LogExtends(log: Log, log': Log)
  {
    |log| <= |log'| <= |log| + 1 && log'[..|log|] == log
  }

  datatype Op =
    | RegisterOp(email: string, password: string, recaptchaToken: Option<string>, captchaOk: bool, token: string)
    | ActivateOp(token: string)
    | LoginOp(email: string, password: string, draw: nat)
    | EnableTwoFactorOp(email: string, password: string)
    | DisableTwoFactorOp(email: string, password: string)
    | VerifyTwoFactorOp(email: string, code: string)
    | ChangePasswordOp(userId: nat, currentPassword: string, newPassword: string)
    | DeactivateOp(userId: nat, password: string)
    | RequestResetOp(email: string, token: string)
    | ResetPasswordOp(token: string, newPassword: string)
    | RequestEmailChangeOp(userId: nat, newEmail: string, password: string, token: string)
    | ConfirmEmailChangeOp(token: string)
    | ToggleActiveOp(id: nat)
    | ChangeRoleOp(actorId: Option<nat>, id: nat, role: string)
    | AdminResetOp(id: nat, token: string)
    | AdminChangeEmailOp(id: nat, newEmail: string)
    | GoogleSignInOp(profile: Profile)

  /** The random code draw lies in `[0, 900000)`. */
  predicate WellFormed(op: Op)
  {
    op.LoginOp? ==> op.draw < CODE_SPAN
  }

  /** The state after `op` at time `now`, whatever it returned. */
  function Apply(s: State, cfg: Config, op: Op, now: int): State
    requires Valid(s.db) && WellFormed(op)
  {
    match op
    case RegisterOp(email, password, recaptchaToken, captchaOk, token) =>
      Register(s, email, password, recaptchaToken, captchaOk, token, now).state
    case ActivateOp(token) => ActivateAccount(s, token, now).state
    case LoginOp(email, password, draw) => Login(s, email, password, draw, now).state
    case EnableTwoFactorOp(email, password) => EnableTwoFactor(s, email, password).state
    case DisableTwoFactorOp(email, password) => DisableTwoFactor(s, email, password).state
    case VerifyTwoFactorOp(email, code) => VerifyTwoFactorLogin(s, email, code, now).state
    case ChangePasswordOp(userId, currentPassword, newPassword) =>
      ChangePassword(s, userId, currentPassword, newPassword).state
    case DeactivateOp(userId, password) => DeactivateAccount(s, userId, password, now).state
    case RequestResetOp(email, token) => RequestPasswordReset(s, cfg, email, token, now).state
    case ResetPasswordOp(token, newPassword) => ResetPassword(s, token, newPassword, now).state
    case RequestEmailChangeOp(userId, newEmail, password, token) =>
      RequestEmailChange(s, cfg, userId, newEmail, password, token, now).state
    case ConfirmEmailChangeOp(token) => ConfirmEmailChange(s, token, now).state
    case ToggleActiveOp(id) => ToggleUserActive(s, id, now).state
    case ChangeRoleOp(actorId, id, role) => ChangeUserRole(s, actorId, id, role).state
    case AdminResetOp(id, token) => AdminRequestPasswordReset(s, cfg, id, token, now).state
    case AdminChangeEmailOp(id, newEmail) => AdminChangeUserEmail(s, id, newEmail).state
    case GoogleSignInOp(profile) =>
      match Validate(s.db, profile)
      case Ok(v) => s.(db := v.db)
      case Err(_) => s
  }

  // -------------------------------------------------------------------
  // the two shapes of write

  /** Rewriting a row without touching its email or Google id. */
  lemma PutKeepsDbOk(db: Db, u: User)
    requires DbOk(db) && Find(db, ById(u.id)).Some?
    requires Find(db, ById(u.id)).value.email == u.email
    requires Find(db, ById(u.id)).value.googleId == u.googleId
    requires RowOk(u)
    ensures DbOk(Put(db, u)) && Grows(db, Put(db, u))
  {
    PutSameKeysValid(db, u);
    PutRows(db, u);
    PutShape(db, u);
  }

  /** Giving a row an email no other row holds. */
  lemma PutEmailKeepsDbOk(db: Db, u: User)
    requires DbOk(db) && Find(db, ById(u.id)).Some?
    requires Find(db, ById(u.id)).value.googleId == u.googleId
    requires forall v :: v in db.users && v.id != u.id ==> v.email != u.email
    requires RowOk(u)
    ensures DbOk(Put(db, u)) && Grows(db, Put(db, u))
  {
    PutNewEmailValid(db, u);
    PutRows(db, u);
    PutShape(db, u);
  }

  /** The row a lookup finds is consistent. */
  lemma FoundRowOk(db: Db, k: Key)
    requires DbOk(db) && Find(db, k).Some?
    ensures RowOk(Find(db, k).value)
  {
    assert Find(db, k).value in db.users;
  }

  /** Rewriting one row without touching its keys keeps the whole state
      consistent. */
  lemma PutStateKeeps(s: State, u: User)
    requires Invariant(s) && Find(s.db, ById(u.id)).Some?
    requires Find(s.db, ById(u.id)).value.email == u.email
    requires Find(s.db, ById(u.id)).value.googleId == u.googleId
    requires RowOk(u)
    ensures Invariant(s.(db := Put(s.db, u))) && Grows(s.db, Put(s.db, u))
  {
    PutKeepsDbOk(s.db, u);
  }

  /** A step that leaves the log alone, read through an equation between
      states. */
  lemma QuietSame(s: State, s1: State, s2: State)
    requires Invariant(s1) && Grows(s.db, s1.db) && s1.attempts == s.attempts && s1 == s2
    ensures Invariant(s2) && Grows(s.db, s2.db) && s2.attempts == s.attempts
  {
  }

  // -------------------------------------------------------------------
  // preservation, operation by operation

  lemma RegisterKeeps(s: State, email: string, password: string, recaptchaToken: Option<string>,
                      captchaOk: bool, token: string, now: int)
    requires Invariant(s)
    ensures var s' := Register(s, email, password, recaptchaToken, captchaOk, token, now).state;
            Invariant(s') && Grows(s.db, s'.db) && s'.attempts == s.attempts
  {
    var data := NoChange.(passwordHash := Some(Some(Hash(password))), isActive := Some(false));
    var r := Register(s, email, password, recaptchaToken, captchaOk, token, now);
    if r.result.Ok? {
      CreateUserValid(s.db, email, data);
      var c := CreateUser(s.db, email, data).value;
      assert r.state.db == c.db;
      forall v | v in c.db.users
        ensures RowOk(v)
      {
        if v !in s.db.users {
          assert v == c.user;
        }
      }
    }
  }

  lemma ActivateKeeps(s: State, token: string, now: int)
    requires Invariant(s)
    ensures var s' := ActivateAccount(s, token, now).state;
            Invariant(s') && Grows(s.db, s'.db) && s'.attempts == s.attempts
  {
    var r := ActivateAccount(s, token, now);
    if r.result.Ok? {
      var entry := s.activationTokens[token];
      var u := Find(s.db, ById(entry.userId)).value;
      FoundRowOk(s.db, ById(entry.userId));
      PutKeepsDbOk(s.db, u.(isActive := true));
      assert r.state.db == Put(s.db, u.(isActive := true));
      assert r.state.activationTokens == s.activationTokens[token := entry.(used := true)];
    } else {
      assert r.state.db == s.db;
      assert r.state.activationTokens.Keys <= s.activationTokens.Keys;
      assert forall t :: t in r.state.activationTokens ==> r.state.activationTokens[t] == s.activationTokens[t];
    }
  }

  /** A login that writes nothing keeps the state, with or without one
      logged failure. */
  lemma LoginRefusedKeeps(s: State, email: string, password: string, draw: nat, now: int)
    requires Invariant(s) && draw < CODE_SPAN
    requires Find(s.db, ByEmail(email)).None? || Locked(Find(s.db, ByEmail(email)).value, now) ||
             !Find(s.db, ByEmail(email)).value.isActive || Find(s.db, ByEmail(email)).value.passwordHash.None?
    ensures Keeps(s, Login(s, email, password, draw, now).state)
  {
    SameLogExtends(s.attempts);
  }

  /** `Keeps` read through an equation between states. */
  lemma KeepsSame(s: State, s1: State, s2: State)
    requires Keeps(s, s1) && s1 == s2
    ensures Keeps(s, s2)
  {
  }

  /** A logged login attempt that rewrites one row without touching its
      keys keeps the state. */
  lemma LoggedPutKeeps(s: State, u: User, email: string, success: bool, now: int)
    requires Invariant(s) && Find(s.db, ById(u.id)).Some?
    requires Find(s.db, ById(u.id)).value.email == u.email
    requires Find(s.db, ById(u.id)).value.googleId == u.googleId
    requires RowOk(u)
    ensures Keeps(s, Logged(s.(db := Put(s.db, u)), email, success, now))
  {
    PutKeepsDbOk(s.db, u);
  }

  /** The wrong-password write changes only the counter and the lock. */
  lemma LoginWrongPasswordKeeps(s: State, email: string, password: string, draw: nat, now: int)
    requires Invariant(s) && draw < CODE_SPAN
    requires Find(s.db, ByEmail(email)).Some?
    requires var u := Find(s.db, ByEmail(email)).value;
             !Locked(u, now) && u.isActive && u.passwordHash.Some? && u.passwordHash.value != Hash(password)
    ensures Keeps(s, Login(s, email, password, draw, now).state)
  {
    if Find(s.db, ByEmail(email)).value.failedLoginAttempts + 1 >= MAX_FAILED_ATTEMPTS {
      LoginLockKeeps(s, email, password, draw, now);
    } else {
      LoginCountKeeps(s, email, password, draw, now);
    }
  }

  /** A wrong password below the threshold only counts the failure. */
  lemma LoginCountKeeps(s: State, email: string, password: string, draw: nat, now: int)
    requires Invariant(s) && draw < CODE_SPAN
    requires Find(s.db, ByEmail(email)).Some?
    requires var u := Find(s.db, ByEmail(email)).value;
             && !Locked(u, now) && u.isActive && u.passwordHash.Some? && u.passwordHash.value != Hash(password)
             && u.failedLoginAttempts + 1 < MAX_FAILED_ATTEMPTS
    ensures Keeps(s, Login(s, email, password, draw, now).state)
  {
    var u := Find(s.db, ByEmail(email)).value;
    var s1 := Logged(s.(db := Put(s.db, Count(u))), email, false, now);
    CountStep(s, email, password, draw, now, u);
    CountedKeeps(s, email, now, u);
    KeepsSame(s, s1, Login(s, email, password, draw, now).state);
  }

  /** The row after a failure below the threshold. */
  function Count(u: User): User
  {
    u.(failedLoginAttempts := u.failedLoginAttempts + 1)
  }

  /** Counting a failure on a found row keeps the state. */
  lemma CountedKeeps(s: State, email: string, now: int, u: User)
    requires Invariant(s) && Find(s.db, ByEmail(email)) == Some(u)
    ensures Keeps(s, Logged(s.(db := Put(s.db, Count(u))), email, false, now))
  {
    FoundById(s.db, ByEmail(email));
    FoundRowOk(s.db, ByEmail(email));
    LoggedPutKeeps(s, Count(u), email, false, now);
  }

  /** The counting write, spelled out with the table's validity as the only
      invariant. */
  lemma CountStep(s: State, email: string, password: string, draw: nat, now: int, u: User)
    requires Valid(s.db) && draw < CODE_SPAN
    requires Find(s.db, ByEmail(email)) == Some(u)
    requires && !Locked(u, now) && u.isActive && u.passwordHash.Some? && u.passwordHash.value != Hash(password)
             && u.failedLoginAttempts + 1 < MAX_FAILED_ATTEMPTS
    ensures Login(s, email, password, draw, now).state == Logged(s.(db := Put(s.db, Count(u))), email, false, now)
  {
    WrongPasswordStep(s, email, password, draw, now);
  }

  /** The wrong password that reaches the threshold also sets the lock. */
  lemma LoginLockKeeps(s: State, email: string, password: string, draw: nat, now: int)
    requires Invariant(s) && draw < CODE_SPAN
    requires Find(s.db, ByEmail(email)).Some?
    requires var u := Find(s.db, ByEmail(email)).value;
             && !Locked(u, now) && u.isActive && u.passwordHash.Some? && u.passwordHash.value != Hash(password)
             && u.failedLoginAttempts + 1 >= MAX_FAILED_ATTEMPTS
    ensures Keeps(s, Login(s, email, password, draw, now).state)
  {
    var u := Find(s.db, ByEmail(email)).value;
    var s1 := Logged(s.(db := Put(s.db, Lock(u, now))), email, false, now);
    LockStep(s, email, password, draw, now, u);
    LockedKeeps(s, email, now, u);
    KeepsSame(s, s1, Login(s, email, password, draw, now).state);
  }

  /** The row after the failure that reaches the threshold. */
  function Lock(u: User, now: int): User
  {
    u.(failedLoginAttempts := u.failedLoginAttempts + 1, lockedUntil := Some(now + LOCK_DURATION_MS))
  }

  /** Locking a found row keeps the state. */
  lemma LockedKeeps(s: State, email: string, now: int, u: User)
    requires Invariant(s) && Find(s.db, ByEmail(email)) == Some(u)
    ensures Keeps(s, Logged(s.(db := Put(s.db, Lock(u, now))), email, false, now))
  {
    FoundById(s.db, ByEmail(email));
    FoundRowOk(s.db, ByEmail(email));
    LoggedPutKeeps(s, Lock(u, now), email, false, now);
  }

  /** The locking write, spelled out with the table's validity as the only
      invariant. */
  lemma LockStep(s: State, email: string, password: string, draw: nat, now: int, u: User)
    requires Valid(s.db) && draw < CODE_SPAN
    requires Find(s.db, ByEmail(email)) == Some(u)
    requires && !Locked(u, now) && u.isActive && u.passwordHash.Some? && u.passwordHash.value != Hash(password)
             && u.failedLoginAttempts + 1 >= MAX_FAILED_ATTEMPTS
    ensures Login(s, email, password, draw, now).state == Logged(s.(db := Put(s.db, Lock(u, now))), email, false, now)
  {
    WrongPasswordStep(s, email, password, draw, now);
  }

  /** The right-password write clears the counter and the lock and, with
      2FA on, stores a fresh six-digit code with its expiry. */
  lemma LoginAcceptedKeeps(s: State, email: string, password: string, draw: nat, now: int)
    requires Invariant(s) && draw < CODE_SPAN
    requires Find(s.db, ByEmail(email)).Some?
    requires var u := Find(s.db, ByEmail(email)).value;
             !Locked(u, now) && u.isActive && u.passwordHash == Some(Hash(password))
    ensures Keeps(s, Login(s, email, password, draw, now).state)
  {
    var u := Find(s.db, ByEmail(email)).value;
    FoundById(s.db, ByEmail(email));
    FoundRowOk(s.db, ByEmail(email));
    if !u.twoFactorEnabled {
      var u' := u.(failedLoginAttempts := 0, lockedUntil := None);
      PutKeepsDbOk(s.db, u');
      assert Login(s, email, password, draw, now).state == Logged(s.(db := Put(s.db, u')), email, true, now);
    } else {
      var u' := u.(failedLoginAttempts := 0, lockedUntil := None,
                   twoFactorLoginCode := Some(GenerateTwoFactorCode(draw)),
                   twoFactorLoginCodeExpiresAt := Some(now + TWO_FACTOR_TTL_MS));
      PutKeepsDbOk(s.db, u');
      assert Login(s, email, password, draw, now).state == Logged(s.(db := Put(s.db, u')), email, false, now);
    }
  }

  lemma LoginKeeps(s: State, email: string, password: string, draw: nat, now: int)
    requires Invariant(s) && draw < CODE_SPAN
    ensures Keeps(s, Login(s, email, password, draw, now).state)
  {
    if Find(s.db, ByEmail(email)).None? || Locked(Find(s.db, ByEmail(email)).value, now) ||
       !Find(s.db, ByEmail(email)).value.isActive || Find(s.db, ByEmail(email)).value.passwordHash.None? {
      LoginRefusedKeeps(s, email, password, draw, now);
    } else if Find(s.db, ByEmail(email)).value.passwordHash.value != Hash(password) {
      LoginWrongPasswordKeeps(s, email, password, draw, now);
    } else {
      LoginAcceptedKeeps(s, email, password, draw, now);
    }
  }

  lemma EnableTwoFactorKeeps(s: State, email: string, password: string)
    requires Invariant(s)
    ensures var s' := EnableTwoFactor(s, email, password).state;
            Invariant(s') && Grows(s.db, s'.db) && s'.attempts == s.attempts
  {
    var r := EnableTwoFactor(s, email, password);
    if r.result.Ok? {
      var u := Find(s.db, ByEmail(email)).value;
      FoundById(s.db, ByEmail(email));
      FoundRowOk(s.db, ByEmail(email));
      PutKeepsDbOk(s.db, u.(twoFactorEnabled := true));
    }
  }

  lemma DisableTwoFactorKeeps(s: State, email: string, password: string)
    requires Invariant(s)
    ensures var s' := DisableTwoFactor(s, email, password).state;
            Invariant(s') && Grows(s.db, s'.db) && s'.attempts == s.attempts
  {
    var r := DisableTwoFactor(s, email, password);
    if r.result.Ok? {
      var u := Find(s.db, ByEmail(email)).value;
      FoundById(s.db, ByEmail(email));
      FoundRowOk(s.db, ByEmail(email));
      PutKeepsDbOk(s.db, u.(twoFactorEnabled := false, twoFactorLoginCode := None, twoFactorLoginCodeExpiresAt := None));
    }
  }

  lemma VerifyTwoFactorKeeps(s: State, email: string, code: string, now: int)
    requires Invariant(s)
    ensures var s' := VerifyTwoFactorLogin(s, email, code, now).state;
            Invariant(s') && Grows(s.db, s'.db) && LogExtends(s.attempts, s'.attempts)
  {
    var r := VerifyTwoFactorLogin(s, email, code, now);
    match Find(s.db, ByEmail(email))
    case None =>
      assert r.state == s;
    case Some(u) =>
      FoundById(s.db, ByEmail(email));
      FoundRowOk(s.db, ByEmail(email));
      var u' := u.(twoFactorLoginCode := None, twoFactorLoginCodeExpiresAt := None);
      if !u.twoFactorEnabled {
        assert r.state == s;
      } else if !CodeLive(u, now) {
        PutKeepsDbOk(s.db, u');
        assert r.state == s.(db := Put(s.db, u'));
      } else if u.twoFactorLoginCode != Some(code) {
        assert r.state == s;
      } else {
        PutKeepsDbOk(s.db, u');
        assert r.state == Logged(s.(db := Put(s.db, u')), email, true, now);
      }
  }

  lemma ChangePasswordKeeps(s: State, userId: nat, currentPassword: string, newPassword: string)
    requires Invariant(s)
    ensures var s' := ChangePassword(s, userId, currentPassword, newPassword).state;
            Invariant(s') && Grows(s.db, s'.db) && s'.attempts == s.attempts
  {
    var r := ChangePassword(s, userId, currentPassword, newPassword);
    if r.result.Ok? {
      var u := Find(s.db, ById(userId)).value;
      FoundRowOk(s.db, ById(userId));
      PutKeepsDbOk(s.db, u.(passwordHash := Some(Hash(newPassword))));
    }
  }

  lemma DeactivateKeeps(s: State, userId: nat, password: string, now: int)
    requires Invariant(s)
    ensures var s' := DeactivateAccount(s, userId, password, now).state;
            Invariant(s') && Grows(s.db, s'.db) && s'.attempts == s.attempts
  {
    var r := DeactivateAccount(s, userId, password, now);
    if r.result.Ok? {
      var u := Find(s.db, ById(userId)).value;
      FoundRowOk(s.db, ById(userId));
      PutKeepsDbOk(s.db, u.(isActive := false, deactivatedAt := Some(now)));
    }
  }

  lemma RequestResetKeeps(s: State, cfg: Config, email: string, token: string, now: int)
    requires Invariant(s)
    ensures var s' := RequestPasswordReset(s, cfg, email, token, now).state;
            Invariant(s') && Grows(s.db, s'.db) && s'.attempts == s.attempts
  {
    var r := RequestPasswordReset(s, cfg, email, token, now);
    if Find(s.db, ByEmail(email)).Some? && Find(s.db, ByEmail(email)).value.isActive {
      var u := Find(s.db, ByEmail(email)).value;
      FoundById(s.db, ByEmail(email));
      FoundRowOk(s.db, ByEmail(email));
      var u' := u.(resetPasswordToken := Some(token),
                   resetPasswordExpires := Some(now + Minutes(cfg.resetTokenTtlMinutes)));
      PutStateKeeps(s, u');
      RequestResetStep(s, cfg, email, token, now);
      QuietSame(s, s.(db := Put(s.db, u')), r.state);
    } else {
      assert r.state == s;
    }
  }

  /** The state an accepted reset request leaves behind. */
  lemma RequestResetStep(s: State, cfg: Config, email: string, token: string, now: int)
    requires Valid(s.db)
    requires Find(s.db, ByEmail(email)).Some? && Find(s.db, ByEmail(email)).value.isActive
    ensures var u := Find(s.db, ByEmail(email)).value;
            RequestPasswordReset(s, cfg, email, token, now).state ==
            s.(db := Put(s.db, u.(resetPasswordToken := Some(token),
                                  resetPasswordExpires := Some(now + Minutes(cfg.resetTokenTtlMinutes)))))
  {
  }

  lemma ResetPasswordKeeps(s: State, token: string, newPassword: string, now: int)
    requires Invariant(s)
    ensures var s' := ResetPassword(s, token, newPassword, now).state;
            Invariant(s') && Grows(s.db, s'.db) && s'.attempts == s.attempts
  {
    var r := ResetPassword(s, token, newPassword, now);
    match Find(s.db, ByResetToken(token))
    case None =>
      assert r.state == s;
    case Some(u) =>
      FoundById(s.db, ByResetToken(token));
      FoundRowOk(s.db, ByResetToken(token));
      if u.resetPasswordExpires.None? || u.resetPasswordExpires.value < now {
        var u' := u.(resetPasswordToken := None, resetPasswordExpires := None);
        PutStateKeeps(s, u');
        QuietSame(s, s.(db := Put(s.db, u')), r.state);
      } else if !StrongPassword(newPassword) {
        assert r.state == s;
      } else {
        var u' := u.(passwordHash := Some(Hash(newPassword)), resetPasswordToken := None,
                     resetPasswordExpires := None, failedLoginAttempts := 0);
        PutStateKeeps(s, u');
        QuietSame(s, s.(db := Put(s.db, u')), r.state);
      }
  }

  lemma RequestEmailChangeKeeps(s: State, cfg: Config, userId: nat, newEmail: string, password: string,
                                token: string, now: int)
    requires Invariant(s)
    ensures var s' := RequestEmailChange(s, cfg, userId, newEmail, password, token, now).state;
            Invariant(s') && Grows(s.db, s'.db) && s'.attempts == s.attempts
  {
    var r := RequestEmailChange(s, cfg, userId, newEmail, password, token, now);
    if r.result.Ok? {
      FoundBelowNextId(s.db, ById(userId));
      var entry := EmailChangeToken(userId, newEmail, now + Minutes(cfg.emailChangeTokenTtlMinutes), false);
      assert r.state == s.(emailChangeTokens := s.emailChangeTokens[token := entry]);
    }
  }

  lemma ConfirmEmailChangeKeeps(s: State, token: string, now: int)
    requires Invariant(s)
    ensures var s' := ConfirmEmailChange(s, token, now).state;
            Invariant(s') && Grows(s.db, s'.db) && s'.attempts == s.attempts
  {
    var r := ConfirmEmailChange(s, token, now);
    if r.result.Ok? {
      var entry := s.emailChangeTokens[token];
      var u := Find(s.db, ById(entry.userId)).value;
      FoundRowOk(s.db, ById(entry.userId));
      PutEmailKeepsDbOk(s.db, u.(email := entry.newEmail));
      assert r.state.db == Put(s.db, u.(email := entry.newEmail));
      assert r.state.emailChangeTokens == s.emailChangeTokens[token := entry.(used := true)];
    } else {
      assert r.state.db == s.db;
      assert r.state.emailChangeTokens.Keys <= s.emailChangeTokens.Keys;
      assert forall t :: t in r.state.emailChangeTokens ==> r.state.emailChangeTokens[t] == s.emailChangeTokens[t];
    }
  }

  lemma ToggleKeeps(s: State, id: nat, now: int)
    requires Invariant(s)
    ensures var s' := ToggleUserActive(s, id, now).state;
            Invariant(s') && Grows(s.db, s'.db) && s'.attempts == s.attempts
  {
    if Find(s.db, ById(id)).Some? {
      var u := Find(s.db, ById(id)).value;
      FoundRowOk(s.db, ById(id));
      PutKeepsDbOk(s.db, u.(isActive := !u.isActive, deactivatedAt := if u.isActive then Some(now) else None));
    }
  }

  lemma ChangeRoleKeeps(s: State, actorId: Option<nat>, id: nat, role: string)
    requires Invariant(s)
    ensures var s' := ChangeUserRole(s, actorId, id, role).state;
            Invariant(s') && Grows(s.db, s'.db) && s'.attempts == s.attempts
  {
    if Find(s.db, ById(id)).Some? {
      FoundRowOk(s.db, ById(id));
      PutKeepsDbOk(s.db, Find(s.db, ById(id)).value.(role := role));
    }
  }

  lemma AdminResetKeeps(s: State, cfg: Config, id: nat, token: string, now: int)
    requires Invariant(s)
    ensures var s' := AdminRequestPasswordReset(s, cfg, id, token, now).state;
            Invariant(s') && Grows(s.db, s'.db) && s'.attempts == s.attempts
  {
    if Find(s.db, ById(id)).Some? && Find(s.db, ById(id)).value.isActive {
      AdminResetWriteKeeps(s, cfg, id, token, now);
    } else {
      AdminResetRefusedKeeps(s, cfg, id, token, now);
    }
  }

  lemma AdminResetRefusedKeeps(s: State, cfg: Config, id: nat, token: string, now: int)
    requires Invariant(s)
    requires Find(s.db, ById(id)).None? || !Find(s.db, ById(id)).value.isActive
    ensures var s' := AdminRequestPasswordReset(s, cfg, id, token, now).state;
            Invariant(s') && Grows(s.db, s'.db) && s'.attempts == s.attempts
  {
    QuietSame(s, s, AdminRequestPasswordReset(s, cfg, id, token, now).state);
  }

  lemma AdminResetWriteKeeps(s: State, cfg: Config, id: nat, token: string, now: int)
    requires Invariant(s)
    requires Find(s.db, ById(id)).Some? && Find(s.db, ById(id)).value.isActive
    ensures var s' := AdminRequestPasswordReset(s, cfg, id, token, now).state;
            Invariant(s') && Grows(s.db, s'.db) && s'.attempts == s.attempts
  {
    var u := Find(s.db, ById(id)).value;
    FoundRowOk(s.db, ById(id));
    var u' := u.(resetPasswordToken := Some(token),
                 resetPasswordExpires := Some(now + Minutes(cfg.resetTokenTtlMinutes)));
    PutStateKeeps(s, u');
    AdminResetStep(s, cfg, id, token, now);
    QuietSame(s, s.(db := Put(s.db, u')), AdminRequestPasswordReset(s, cfg, id, token, now).state);
  }

  /** The state an accepted admin reset request leaves behind. */
  lemma AdminResetStep(s: State, cfg: Config, id: nat, token: string, now: int)
    requires Valid(s.db)
    requires Find(s.db, ById(id)).Some? && Find(s.db, ById(id)).value.isActive
    ensures var u := Find(s.db, ById(id)).value;
            AdminRequestPasswordReset(s, cfg, id, token, now).state ==
            s.(db := Put(s.db, u.(resetPasswordToken := Some(token),
                                  resetPasswordExpires := Some(now + Minutes(cfg.resetTokenTtlMinutes)))))
  {
  }

  lemma AdminChangeEmailKeeps(s: State, id: nat, newEmail: string)
    requires Invariant(s)
    ensures var s' := AdminChangeUserEmail(s, id, newEmail).state;
            Invariant(s') && Grows(s.db, s'.db) && s'.attempts == s.attempts
  {
    var r := AdminChangeUserEmail(s, id, newEmail);
    if r.result.Ok? && Find(s.db, ById(id)).Some? {
      FoundRowOk(s.db, ById(id));
      PutEmailKeepsDbOk(s.db, Find(s.db, ById(id)).value.(email := newEmail));
    }
  }

  lemma GoogleKeeps(s: State, p: Profile)
    requires Invariant(s)
    ensures Validate(s.db, p).Ok? ==>
              var db' := Validate(s.db, p).value.db;
              Invariant(s.(db := db')) && Grows(s.db, db')
  {
    if Validate(s.db, p).Ok? {
      GoogleWriteOk(s.db, p);
    }
  }

  /** The table a successful sign-in leaves behind is consistent and has
      only grown. */
  lemma GoogleWriteOk(db: Db, p: Profile)
    requires DbOk(db) && Validate(db, p).Ok?
    ensures DbOk(Validate(db, p).value.db) && Grows(db, Validate(db, p).value.db)
  {
    ValidateLinks(db, p);
    if Find(db, ByGoogleId(p.id)).None? {
      if LinkableEmail(p) && Find(db, ByEmail(p.email.value)).Some? {
        var u := Find(db, ByEmail(p.email.value)).value;
        var u' := u.(googleId := Some(p.id), isActive := true);
        GoogleLinkStep(db, p);
        FoundRowOk(db, ByEmail(p.email.value));
        PutRows(db, u');
        PutShape(db, u');
      } else {
        var u := NewAccount(db, p);
        GoogleCreateStep(db, p);
        assert forall v :: v in db.users + [u] ==> v in db.users || v == u;
      }
    }
  }

  /** The table after linking an existing account by its email. */
  lemma GoogleLinkStep(db: Db, p: Profile)
    requires Valid(db) && Find(db, ByGoogleId(p.id)).None?
    requires LinkableEmail(p) && Find(db, ByEmail(p.email.value)).Some?
    ensures var u := Find(db, ByEmail(p.email.value)).value;
            Validate(db, p).value.db == Put(db, u.(googleId := Some(p.id), isActive := true))
  {
  }

  /** The table after creating a new account, when that succeeds. */
  lemma GoogleCreateStep(db: Db, p: Profile)
    requires Valid(db) && Find(db, ByGoogleId(p.id)).None?
    requires !(LinkableEmail(p) && Find(db, ByEmail(p.email.value)).Some?)
    requires Validate(db, p).Ok?
    ensures Validate(db, p).value.db == Db(db.users + [NewAccount(db, p)], db.nextId + 1)
  {
  }

  /** What one operation may do to the whole state: keep the invariant,
      never remove or renumber a row, and add at most one record to the end
      of the attempt log. */
  ghost predicate Keeps(s: State, s': State)
  {
    Invariant(s') && Grows(s.db, s'.db) && LogExtends(s.attempts, s'.attempts)
  }

  /** An operation that leaves the attempt log as it was extends it trivially. */
  lemma SameLogExtends(log: Log)
    ensures LogExtends(log, log)
  {
    assert log[..|log|] == log;
  }

  lemma ApplyAccountKeeps(s: State, cfg: Config, op: Op, now: int)
    requires Invariant(s) && WellFormed(op)
    requires op.RegisterOp? || op.ActivateOp? || op.LoginOp?
    ensures Keeps(s, Apply(s, cfg, op, now))
  {
    SameLogExtends(s.attempts);
    match op
    case RegisterOp(email, password, recaptchaToken, captchaOk, token) =>
      RegisterKeeps(s, email, password, recaptchaToken, captchaOk, token, now);
      assert Apply(s, cfg, op, now) == Register(s, email, password, recaptchaToken, captchaOk, token, now).state;
    case ActivateOp(token) =>
      ActivateKeeps(s, token, now);
      assert Apply(s, cfg, op, now) == ActivateAccount(s, token, now).state;
    case LoginOp(email, password, draw) =>
      LoginKeeps(s, email, password, draw, now);
      assert Apply(s, cfg, op, now) == Login(s, email, password, draw, now).state;
  }

  lemma ApplyTwoFactorKeeps(s: State, cfg: Config, op: Op, now: int)
    requires Invariant(s) && WellFormed(op)
    requires op.EnableTwoFactorOp? || op.DisableTwoFactorOp? || op.VerifyTwoFactorOp?
    ensures Keeps(s, Apply(s, cfg, op, now))
  {
    SameLogExtends(s.attempts);
    match op
    case EnableTwoFactorOp(email, password) =>
      EnableTwoFactorKeeps(s, email, password);
      assert Apply(s, cfg, op, now) == EnableTwoFactor(s, email, password).state;
    case DisableTwoFactorOp(email, password) =>
      DisableTwoFactorKeeps(s, email, password);
      assert Apply(s, cfg, op, now) == DisableTwoFactor(s, email, password).state;
    case VerifyTwoFactorOp(email, code) =>
      VerifyTwoFactorKeeps(s, email, code, now);
      assert Apply(s, cfg, op, now) == VerifyTwoFactorLogin(s, email, code, now).state;
  }

  lemma ApplyPasswordKeeps(s: State, cfg: Config, op: Op, now: int)
    requires Invariant(s) && WellFormed(op)
    requires op.ChangePasswordOp? || op.DeactivateOp? || op.RequestResetOp? || op.ResetPasswordOp?
    ensures Keeps(s, Apply(s, cfg, op, now))
  {
    SameLogExtends(s.attempts);
    match op
    case ChangePasswordOp(userId, currentPassword, newPassword) =>
      ChangePasswordKeeps(s, userId, currentPassword, newPassword);
      assert Apply(s, cfg, op, now) == ChangePassword(s, userId, currentPassword, newPassword).state;
    case DeactivateOp(userId, password) =>
      DeactivateKeeps(s, userId, password, now);
      assert Apply(s, cfg, op, now) == DeactivateAccount(s, userId, password, now).state;
    case RequestResetOp(email, token) =>
      RequestResetKeeps(s, cfg, email, token, now);
      assert Apply(s, cfg, op, now) == RequestPasswordReset(s, cfg, email, token, now).state;
    case ResetPasswordOp(token, newPassword) =>
      ResetPasswordKeeps(s, token, newPassword, now);
      assert Apply(s, cfg, op, now) == ResetPassword(s, token, newPassword, now).state;
  }

  lemma ApplyEmailKeeps(s: State, cfg: Config, op: Op, now: int)
    requires Invariant(s) && WellFormed(op)
    requires op.RequestEmailChangeOp? || op.ConfirmEmailChangeOp? || op.GoogleSignInOp?
    ensures Keeps(s, Apply(s, cfg, op, now))
  {
    SameLogExtends(s.attempts);
    match op
    case RequestEmailChangeOp(userId, newEmail, password, token) =>
      RequestEmailChangeKeeps(s, cfg, userId, newEmail, password, token, now);
      assert Apply(s, cfg, op, now) == RequestEmailChange(s, cfg, userId, newEmail, password, token, now).state;
    case ConfirmEmailChangeOp(token) =>
      ConfirmEmailChangeKeeps(s, token, now);
      assert Apply(s, cfg, op, now) == ConfirmEmailChange(s, token, now).state;
    case GoogleSignInOp(profile) =>
      GoogleKeeps(s, profile);
  }

  lemma ApplyAdminKeeps(s: State, cfg: Config, op: Op, now: int)
    requires Invariant(s) && WellFormed(op)
    requires op.ToggleActiveOp? || op.ChangeRoleOp? || op.AdminResetOp? || op.AdminChangeEmailOp?
    ensures Keeps(s, Apply(s, cfg, op, now))
  {
    SameLogExtends(s.attempts);
    match op
    case ToggleActiveOp(id) =>
      ToggleKeeps(s, id, now);
      assert Apply(s, cfg, op, now) == ToggleUserActive(s, id, now).state;
    case ChangeRoleOp(actorId, id, role) =>
      ChangeRoleKeeps(s, actorId, id, role);
      assert Apply(s, cfg, op, now) == ChangeUserRole(s, actorId, id, role).state;
    case AdminResetOp(id, token) =>
      AdminResetKeeps(s, cfg, id, token, now);
      assert Apply(s, cfg, op, now) == AdminRequestPasswordReset(s, cfg, id, token, now).state;
    case AdminChangeEmailOp(id, newEmail) =>
      AdminChangeEmailKeeps(s, id, newEmail);
      assert Apply(s, cfg, op, now) == AdminChangeUserEmail(s, id, newEmail).state;
  }

  /** Every operation keeps the invariant, never removes or renumbers a
      row, and adds at most one record to the end of the attempt log. */
  lemma ApplyKeepsInvariant(s: State, cfg: Config, op: Op, now: int)
    requires Invariant(s) && WellFormed(op)
    ensures Keeps(s, Apply(s, cfg, op, now))
  {
    if op.RegisterOp? || op.ActivateOp? || op.LoginOp? {
      ApplyAccountKeeps(s, cfg, op, now);
    } else if op.EnableTwoFactorOp? || op.DisableTwoFactorOp? || op.VerifyTwoFactorOp? {
      ApplyTwoFactorKeeps(s, cfg, op, now);
    } else if op.ChangePasswordOp? || op.DeactivateOp? || op.RequestResetOp? || op.ResetPasswordOp? {
      ApplyPasswordKeeps(s, cfg, op, now);
    } else if op.RequestEmailChangeOp? || op.ConfirmEmailChangeOp? || op.GoogleSignInOp? {
      ApplyEmailKeeps(s, cfg, op, now);
    } else {
      ApplyAdminKeeps(s, cfg, op, now);
    }
  }

  // -------------------------------------------------------------------
  // reachable states

  /** The empty table, no tokens and an empty attempt log. */
  const Initial: State := State(Db([], 0), map[], map[], [])

  lemma InitialInvariant()
    ensures Invariant(Initial)
  {
  }

  /** One service call: the operation and the time it runs at. */
  datatype Call = Call(op: Op, now: int)

  /** The state after a sequence of calls, each run on the state the one
      before it left; every intermediate state keeps the invariant, the
      table only grows, and the attempt log is only ever extended. */
  function Run(s: State, cfg: Config, calls: seq<Call>): (r: State)
    requires Invariant(s)
    requires forall i :: 0 <= i < |calls| ==> WellFormed(calls[i].op)
    ensures Invariant(r)
    ensures |s.db.users| <= |r.db.users| && s.db.nextId <= r.db.nextId
    ensures s.attempts <= r.attempts && |r.attempts| <= |s.attempts| + |calls|
    decreases |calls|
  {
    if |calls| == 0 then s
    else
      ApplyKeepsInvariant(s, cfg, calls[0].op, calls[0].now);
      Run(Apply(s, cfg, calls[0].op, calls[0].now), cfg, calls[1..])
  }

  /** Every state reachable from the initial one keeps the invariant. */
  lemma ReachableInvariant(cfg: Config, calls: seq<Call>)
    requires forall i :: 0 <= i < |calls| ==> WellFormed(calls[i].op)
    ensures Invariant(Run(Initial, cfg, calls))
  {
    InitialInvariant();
  }
}
