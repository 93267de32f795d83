/** Properties of `AuthService` that span several calls: the lockout
    threshold, the second-factor round trip, single-use tokens, and the
    registration, reset and email-change flows end to end. */
module AuthProperties {
  import opened Base
  import opened UserEntity
  import opened UsersService
  import opened LoginAttempts
  import opened Credentials
  import opened AuthService

  // -------------------------------------------------------------------
  // lockout

  /** A login against a row that is locked at `now` is refused and only
      logged. */
  lemma LockedLoginRefused(s: State, email: string, password: string, draw: nat, now: int)
    requires Valid(s.db) && draw < CODE_SPAN
    requires Find(s.db, ByEmail(email)).Some? && Locked(Find(s.db, ByEmail(email)).value, now)
    ensures Login(s, email, password, draw, now) ==
            Step(Logged(s, email, false, now), Err(AccountLocked(Find(s.db, ByEmail(email)).value.lockedUntil.value)))
  {
  }

  /** A wrong password that brings the counter to five or more locks the
      account for fifteen minutes; during the lock even the right password
      is refused and the row is left alone. Because the counter is not reset
      when a lock runs out, this applies to every wrong password after the
      fifth until a successful login or a reset. */
  lemma {:induction false} ThresholdFailureLocks(s: State, email: string, wrong: string, password: string,
                                                 draw: nat, now: int, later: int)
    requires Valid(s.db) && draw < CODE_SPAN
    requires Find(s.db, ByEmail(email)).Some?
    requires var u := Find(s.db, ByEmail(email)).value;
             && u.isActive && !Locked(u, now) && u.passwordHash.Some? && u.passwordHash != Some(Hash(wrong))
             && u.failedLoginAttempts + 1 >= MAX_FAILED_ATTEMPTS
    requires now <= later < now + LOCK_DURATION_MS
    ensures var s1 := Login(s, email, wrong, draw, now).state;
            && Find(s1.db, ByEmail(email)).Some?
            && Find(s1.db, ByEmail(email)).value.lockedUntil == Some(now + LOCK_DURATION_MS)
            && Valid(s1.db)
            && Login(s1, email, password, draw, later) ==
               Step(Logged(s1, email, false, later), Err(AccountLocked(now + LOCK_DURATION_MS)))
  {
    var u := Find(s.db, ByEmail(email)).value;
    var u' := u.(failedLoginAttempts := u.failedLoginAttempts + 1, lockedUntil := Some(now + LOCK_DURATION_MS));
    WrongPasswordStep(s, email, wrong, draw, now);
    LockedRowRefuses(s, email, password, draw, now, later, u');
  }

  /** The row the threshold failure leaves behind refuses every login until
      the lock runs out. */
  lemma LockedRowRefuses(s: State, email: string, password: string, draw: nat, now: int, later: int, u': User)
    requires Valid(s.db) && draw < CODE_SPAN
    requires Find(s.db, ByEmail(email)).Some?
    requires u' == Find(s.db, ByEmail(email)).value.(failedLoginAttempts := Find(s.db, ByEmail(email)).value.failedLoginAttempts + 1,
                                                     lockedUntil := Some(now + LOCK_DURATION_MS))
    requires now <= later < now + LOCK_DURATION_MS
    ensures var s1 := Logged(s.(db := Put(s.db, u')), email, false, now);
            && Find(s1.db, ByEmail(email)) == Some(u')
            && Valid(s1.db)
            && Login(s1, email, password, draw, later) ==
               Step(Logged(s1, email, false, later), Err(AccountLocked(now + LOCK_DURATION_MS)))
  {
    var s1 := Logged(s.(db := Put(s.db, u')), email, false, now);
    FoundById(s.db, ByEmail(email));
    PutSameKeysValid(s.db, u');
    FindAfterPut(s.db, u', ByEmail(email));
    LockedLoginRefused(s1, email, password, draw, later);
  }

  /** At the instant `lockedUntil` is reached the lock no longer applies. */
  lemma LockEndsAtItsInstant(s: State, email: string, password: string, draw: nat)
    requires Valid(s.db) && draw < CODE_SPAN
    requires Find(s.db, ByEmail(email)).Some? && Find(s.db, ByEmail(email)).value.lockedUntil.Some?
    ensures var now := Find(s.db, ByEmail(email)).value.lockedUntil.value;
            !Login(s, email, password, draw, now).result.Err? ||
            !Login(s, email, password, draw, now).result.error.AccountLocked?
  {
  }

  /** Every login that gets as far as a stored hash, or fails before it,
      adds exactly one record under the email it was called with. */
  lemma {:induction false} LoginRecordsOneAttempt(s: State, email: string, password: string, draw: nat, now: int)
    requires Valid(s.db) && draw < CODE_SPAN
    requires Login(s, email, password, draw, now).result != Err(MissingHash)
    ensures var log' := Login(s, email, password, draw, now).state.attempts;
            && log' == s.attempts + [log'[|s.attempts|]]
            && log'[|s.attempts|].email == email && log'[|s.attempts|].timestamp == now
            && GetAttemptsByEmail(log', email) ==
               GetAttemptsByEmail(s.attempts, email) + [log'[|s.attempts|]]
  {
    var log' := Login(s, email, password, draw, now).state.attempts;
    assert |log'| == |s.attempts| + 1;
    assert log' == s.attempts + [log'[|s.attempts|]];
    FilterAppend(s.attempts, log'[|s.attempts|], email);
  }

  // -------------------------------------------------------------------
  // second factor

  /** The challenge step of a login with the second factor on. */
  lemma ChallengeStep(s: State, email: string, password: string, draw: nat, now: int)
    requires Valid(s.db) && draw < CODE_SPAN
    requires Find(s.db, ByEmail(email)).Some?
    requires var u := Find(s.db, ByEmail(email)).value;
             u.isActive && !Locked(u, now) && u.passwordHash == Some(Hash(password)) && u.twoFactorEnabled
    ensures var u := Find(s.db, ByEmail(email)).value;
            var u' := u.(failedLoginAttempts := 0, lockedUntil := None,
                         twoFactorLoginCode := Some(GenerateTwoFactorCode(draw)),
                         twoFactorLoginCodeExpiresAt := Some(now + TWO_FACTOR_TTL_MS));
            Login(s, email, password, draw, now) == Step(Logged(s.(db := Put(s.db, u')), email, false, now), Ok(TwoFactorRequired))
  {
  }

  /** Redeeming a live code that matches. */
  lemma CodeAcceptedStep(s: State, email: string, code: string, now: int)
    requires Valid(s.db)
    requires Find(s.db, ByEmail(email)).Some?
    requires var u := Find(s.db, ByEmail(email)).value;
             u.twoFactorEnabled && CodeLive(u, now) && u.twoFactorLoginCode == Some(code)
    ensures var u := Find(s.db, ByEmail(email)).value;
            VerifyTwoFactorLogin(s, email, code, now) ==
            Step(Logged(s.(db := Put(s.db, u.(twoFactorLoginCode := None, twoFactorLoginCodeExpiresAt := None))),
                        email, true, now),
                 Ok(SessionFor(u)))
  {
  }

  /** Redeeming when no code is stored. */
  lemma NoCodeStep(s: State, email: string, code: string, now: int)
    requires Valid(s.db)
    requires Find(s.db, ByEmail(email)).Some?
    requires var u := Find(s.db, ByEmail(email)).value;
             u.twoFactorEnabled && u.twoFactorLoginCode.None?
    ensures VerifyTwoFactorLogin(s, email, code, now).result == Err(CodeExpired)
  {
  }

  /** With the second factor on, the code issued by a login opens a session
      for the same account within ten minutes; it cannot be used twice. */
  lemma {:induction false} TwoFactorRoundTrip(s: State, email: string, password: string, draw: nat,
                                              now: int, later: int, replay: int)
    requires Valid(s.db) && draw < CODE_SPAN
    requires Find(s.db, ByEmail(email)).Some?
    requires var u := Find(s.db, ByEmail(email)).value;
             u.isActive && !Locked(u, now) && u.passwordHash == Some(Hash(password)) && u.twoFactorEnabled
    requires now <= later <= now + TWO_FACTOR_TTL_MS
    ensures var login := Login(s, email, password, draw, now);
            login.result == Ok(TwoFactorRequired) && Valid(login.state.db)
    ensures var s1 := Login(s, email, password, draw, now).state;
            var v := VerifyTwoFactorLogin(s1, email, GenerateTwoFactorCode(draw), later);
            && v.result == Ok(SessionFor(Find(s.db, ByEmail(email)).value))
            && Valid(v.state.db)
            && VerifyTwoFactorLogin(v.state, email, GenerateTwoFactorCode(draw), replay).result == Err(CodeExpired)
  {
    var u := Find(s.db, ByEmail(email)).value;
    var code := GenerateTwoFactorCode(draw);
    var u1 := u.(failedLoginAttempts := 0, lockedUntil := None,
                 twoFactorLoginCode := Some(code), twoFactorLoginCodeExpiresAt := Some(now + TWO_FACTOR_TTL_MS));
    FoundById(s.db, ByEmail(email));
    PutSameKeysValid(s.db, u1);
    FindAfterPut(s.db, u1, ByEmail(email));
    ChallengeStep(s, email, password, draw, now);
    var s1 := Login(s, email, password, draw, now).state;
    assert s1.db == Put(s.db, u1);
    var u2 := u1.(twoFactorLoginCode := None, twoFactorLoginCodeExpiresAt := None);
    FindPutById(s.db, u1);
    PutSameKeysValid(s1.db, u2);
    FindAfterPut(s1.db, u2, ByEmail(email));
    CodeAcceptedStep(s1, email, code, later);
    var v := VerifyTwoFactorLogin(s1, email, code, later);
    assert v.state.db == Put(s1.db, u2);
    NoCodeStep(v.state, email, code, replay);
  }

  // -------------------------------------------------------------------
  // activation

  /** An activation token works once. */
  lemma ActivationIsSingleUse(s: State, token: string, now: int, later: int)
    requires ActivateAccount(s, token, now).result.Ok?
    ensures var s1 := ActivateAccount(s, token, now).state;
            ActivateAccount(s1, token, later) == Step(s1, Err(ActivationTokenUsed))
  {
  }

  /** A registration with a valid CAPTCHA can be activated within 24 hours
      with the issued token, after which the password logs in. */
  lemma {:induction false} RegisterActivateLogin(s: State, email: string, password: string, recaptchaToken: Option<string>,
                                                 token: string, now: int, later: int, draw: nat, loginAt: int)
    requires Valid(s.db) && draw < CODE_SPAN
    requires Truthy(recaptchaToken) && Find(s.db, ByEmail(email)).None?
    requires now <= later <= now + ACTIVATION_TTL_MS
    ensures var s1 := Register(s, email, password, recaptchaToken, true, token, now).state;
            var a := ActivateAccount(s1, token, later);
            && a.result == Ok(email)
            && Valid(a.state.db)
            && Login(a.state, email, password, draw, loginAt).result.Ok?
            && Login(a.state, email, password, draw, loginAt).result.value.LoggedIn?
  {
    var data := NoChange.(passwordHash := Some(Some(Hash(password))), isActive := Some(false));
    CreateUserValid(s.db, email, data);
    var c := CreateUser(s.db, email, data).value;
    var s1 := Register(s, email, password, recaptchaToken, true, token, now).state;
    assert s1.db == c.db;
    FindUnique(c.db, |s.db.users|, ById(s.db.nextId));
    var u' := c.user.(isActive := true);
    PutSameKeysValid(c.db, u');
    FindAfterPut(c.db, u', ByEmail(email));
  }

  // -------------------------------------------------------------------
  // password reset

  /** The reset request answers an unknown address exactly as it answers an
      active account, and changes nothing for it. */
  lemma ResetRequestHidesAccounts(s: State, cfg: Config, unknown: string, known: string, token: string, now: int)
    requires Valid(s.db)
    requires Find(s.db, ByEmail(unknown)).None?
    requires Find(s.db, ByEmail(known)).Some? && Find(s.db, ByEmail(known)).value.isActive
    ensures RequestPasswordReset(s, cfg, unknown, token, now).result ==
            RequestPasswordReset(s, cfg, known, token, now).result
    ensures RequestPasswordReset(s, cfg, unknown, token, now).state == s
  {
  }

  /** A fresh reset token, used before it expires with a strong password,
      sets the new password, zeroes the counter, keeps any lock, and is
      spent: a second use is refused as unknown. */
  lemma {:induction false} ResetRoundTrip(s: State, cfg: Config, email: string, token: string, newPassword: string,
                                          other: string, now: int, later: int, replay: int)
    requires Valid(s.db) && ResetTokenFresh(s, token) && StrongPassword(newPassword)
    requires Find(s.db, ByEmail(email)).Some? && Find(s.db, ByEmail(email)).value.isActive
    requires now <= later <= now + Minutes(cfg.resetTokenTtlMinutes)
    ensures Valid(RequestPasswordReset(s, cfg, email, token, now).state.db)
    ensures var s1 := RequestPasswordReset(s, cfg, email, token, now).state;
            var r := ResetPassword(s1, token, newPassword, later);
            var u := Find(s.db, ByEmail(email)).value;
            && r.result == Ok(())
            && Valid(r.state.db)
            && Find(r.state.db, ByEmail(email)).Some?
            && Find(r.state.db, ByEmail(email)).value.passwordHash == Some(Hash(newPassword))
            && Find(r.state.db, ByEmail(email)).value.failedLoginAttempts == 0
            && Find(r.state.db, ByEmail(email)).value.lockedUntil == u.lockedUntil
            && ResetPassword(r.state, token, other, replay) == Step(r.state, Err(InvalidResetToken))
  {
    var u := Find(s.db, ByEmail(email)).value;
    var expires := now + Minutes(cfg.resetTokenTtlMinutes);
    var u1 := u.(resetPasswordToken := Some(token), resetPasswordExpires := Some(expires));
    var s1 := s.(db := Put(s.db, u1));
    assert RequestPasswordReset(s, cfg, email, token, now).state == s1;
    LiveResetTokenAccepted(s, email, token, newPassword, expires, later, u1);
    var r := ResetPassword(s1, token, newPassword, later);
    SpentResetTokenRefused(r.state, token, other, replay);
  }

  /** A token the request has just stored, redeemed before it expires with a
      strong password, sets the new digest and spends the token. */
  lemma LiveResetTokenAccepted(s: State, email: string, token: string, newPassword: string, expires: int, later: int,
                               u1: User)
    requires Valid(s.db) && ResetTokenFresh(s, token) && StrongPassword(newPassword)
    requires Find(s.db, ByEmail(email)).Some?
    requires u1 == Find(s.db, ByEmail(email)).value.(resetPasswordToken := Some(token), resetPasswordExpires := Some(expires))
    requires later <= expires
    ensures Valid(Put(s.db, u1))
    ensures var r := ResetPassword(s.(db := Put(s.db, u1)), token, newPassword, later);
            var u := Find(s.db, ByEmail(email)).value;
            && r.result == Ok(())
            && Valid(r.state.db)
            && ResetTokenFresh(r.state, token)
            && Find(r.state.db, ByEmail(email)).Some?
            && Find(r.state.db, ByEmail(email)).value.passwordHash == Some(Hash(newPassword))
            && Find(r.state.db, ByEmail(email)).value.failedLoginAttempts == 0
            && Find(r.state.db, ByEmail(email)).value.lockedUntil == u.lockedUntil
  {
    var u := Find(s.db, ByEmail(email)).value;
    FoundById(s.db, ByEmail(email));
    PutSameKeysValid(s.db, u1);
    FindResetTokenAfterPut(s.db, u1, token);
    var s1 := s.(db := Put(s.db, u1));
    var u2 := u1.(passwordHash := Some(Hash(newPassword)), resetPasswordToken := None,
                  resetPasswordExpires := None, failedLoginAttempts := 0);
    FindPutById(s.db, u1);
    PutSameKeysValid(s1.db, u2);
    FindAfterPut(s1.db, u2, ByEmail(email));
    PutTwice(s.db, u1, u2);
    PutRows(s.db, u2);
  }

  /** Once no row holds a token, redeeming it is refused and changes
      nothing. */
  lemma SpentResetTokenRefused(s: State, token: string, newPassword: string, now: int)
    requires Valid(s.db) && ResetTokenFresh(s, token)
    ensures ResetPassword(s, token, newPassword, now) == Step(s, Err(InvalidResetToken))
  {
  }

  // -------------------------------------------------------------------
  // email change

  /** An accepted email-change request, confirmed in time, moves the account
      to the new address; the token then refuses a second use. */
  lemma {:induction false} EmailChangeRoundTrip(s: State, cfg: Config, userId: nat, newEmail: string, password: string,
                                                token: string, now: int, later: int, replay: int)
    requires Valid(s.db)
    requires RequestEmailChange(s, cfg, userId, newEmail, password, token, now).result.Ok?
    requires now <= later <= now + Minutes(cfg.emailChangeTokenTtlMinutes)
    ensures var s1 := RequestEmailChange(s, cfg, userId, newEmail, password, token, now).state;
            var c := ConfirmEmailChange(s1, token, later);
            && c.result == Ok(newEmail)
            && Valid(c.state.db)
            && Find(c.state.db, ByEmail(newEmail)).Some?
            && Find(c.state.db, ByEmail(newEmail)).value.id == userId
            && ConfirmEmailChange(c.state, token, replay) == Step(c.state, Err(InvalidOrUsedToken))
  {
    var s1 := RequestEmailChange(s, cfg, userId, newEmail, password, token, now).state;
    assert s1.db == s.db;
    var u := Find(s.db, ById(userId)).value;
    EmailFreeFor(s.db, userId, newEmail);
    assert !Conflict(s.db, userId, NoChange.(email := Some(newEmail)));
    var u' := u.(email := newEmail);
    forall v | v in s.db.users && v.id != u'.id
      ensures v.email != u'.email
    {
      var j :| 0 <= j < |s.db.users| && s.db.users[j] == v;
    }
    PutNewEmailValid(s.db, u');
    FindAfterPut(s.db, u', ByEmail(newEmail));
  }
}
