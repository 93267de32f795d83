/** `AuthService`: registration, activation, login with lockout, the email
    second factor, password change and reset, email change and
    deactivation. Every service call is one atomic transition from a
    `State` to a `Step`: the next state and what the call returns or throws.
    The current time `now` (milliseconds), the random token and the random
    code draw are inputs. Mail is a no-op and is not modelled. */
module AuthService {
  import opened Base
  import opened UserEntity
  import opened UsersService
  import opened LoginAttempts
  import opened Credentials

  const MAX_FAILED_ATTEMPTS: nat := 5
  const LOCK_DURATION_MS: nat := 15 * MINUTE_MS
  const TWO_FACTOR_TTL_MS: nat := 10 * MINUTE_MS
  const ACTIVATION_TTL_MS: nat := 24 * HOUR_MS

  /** TTLs read from the environment; `DefaultConfig` holds the fallbacks. */
  datatype Config = Config(resetTokenTtlMinutes: int, emailChangeTokenTtlMinutes: int)

  const DefaultConfig: Config := Config(30, 60)

  datatype ActivationToken = ActivationToken(token: string, userId: nat, expiresAt: int, used: bool)

  datatype EmailChangeToken = EmailChangeToken(userId: nat, newEmail: string, expiresAt: int, used: bool)

  /** The user table, the two in-memory token maps and the attempt log. */
  datatype State = State(
    db: Db,
    activationTokens: map<string, ActivationToken>,
    emailChangeTokens: map<string, EmailChangeToken>,
    attempts: Log)

  datatype Step<T> = Step(state: State, result: Result<T>)

  datatype UserSummary = UserSummary(id: nat, email: string)

  /** The signed JWT, kept abstract: its payload is `sub` and `email` only. */
  datatype AccessToken = AccessToken(sub: nat, email: string)

  datatype Session = Session(user: UserSummary, accessToken: AccessToken)

  datatype LoginResponse = LoggedIn(session: Session) | TwoFactorRequired

  datatype Registered = Registered(id: nat, email: string)

  /** `signToken`: the payload is the subject key and the email, and
      nothing else (in particular not the role). */
  function SignToken(u: UserSummary): (t: AccessToken)
    ensures t.sub == u.id && t.email == u.email
  {
    AccessToken(u.id, u.email)
  }

  /** Two users get the same token exactly when their key and email agree. */
  lemma TokenIdentifiesUser(a: UserSummary, b: UserSummary)
    ensures SignToken(a) == SignToken(b) <==> a == b
  {
  }

  function SessionFor(u: User): Session
  {
    var summary := UserSummary(u.id, u.email);
    Session(summary, SignToken(summary))
  }

  /** JavaScript truthiness of a nullable string: null and "" are false. */
  predicate Truthy(s: Option<string>)
  {
    s.Some? && s.value != ""
  }

  /** A lock applies while `lockedUntil` lies strictly in the future. */
  predicate Locked(u: User, now: int)
  {
    u.lockedUntil.Some? && u.lockedUntil.value > now
  }

  /** The stored login code can still be redeemed at `now`. */
  predicate CodeLive(u: User, now: int)
  {
    Truthy(u.twoFactorLoginCode) && u.twoFactorLoginCodeExpiresAt.Some? &&
    u.twoFactorLoginCodeExpiresAt.value >= now
  }

  function Logged(s: State, email: string, success: bool, now: int): State
  {
    s.(attempts := LogAttempt(s.attempts, LoginAttempt(email, success, now)))
  }

  /** No user row holds `token` as its reset token. */
  predicate ResetTokenFresh(s: State, token: string)
  {
    forall u :: u in s.db.users ==> u.resetPasswordToken != Some(token)
  }

  // -------------------------------------------------------------------
  // register / activateAccount

  /** `register`: CAPTCHA, duplicate email, then an inactive account and a
      24-hour activation token. `captchaOk` is the verdict of the CAPTCHA
      provider; `token` is the fresh UUID. */
  function Register(s: State, email: string, password: string, recaptchaToken: Option<string>,
                    captchaOk: bool, token: string, now: int): (r: Step<Registered>)
    ensures !Truthy(recaptchaToken) ==> r == Step(s, Err(CaptchaMissing))
    ensures Truthy(recaptchaToken) && !captchaOk ==> r == Step(s, Err(CaptchaFailed))
    ensures Truthy(recaptchaToken) && captchaOk && Find(s.db, ByEmail(email)).Some? ==>
              r == Step(s, Err(EmailTaken))
    ensures r.result.Ok? <==>
              Truthy(recaptchaToken) && captchaOk && Find(s.db, ByEmail(email)).None?
    ensures r.result.Ok? ==> |r.state.db.users| == |s.db.users| + 1 && r.state.db.nextId == s.db.nextId + 1
    ensures r.result.Ok? && |r.state.db.users| == |s.db.users| + 1 ==>
              var u := r.state.db.users[|s.db.users|];
              && r.result.value == Registered(s.db.nextId, email)
              && r.state.db.users == s.db.users + [u]
              && u.id == s.db.nextId && u.email == email && !u.isActive
              && u.passwordHash == Some(Hash(password)) && u.failedLoginAttempts == 0
              && !u.twoFactorEnabled && u.googleId.None?
              && u == Defaults(s.db.nextId, email).(passwordHash := Some(Hash(password)))
              && r.state.activationTokens ==
                 s.activationTokens[token := ActivationToken(token, u.id, now + ACTIVATION_TTL_MS, false)]
              && r.state.emailChangeTokens == s.emailChangeTokens
              && r.state.attempts == s.attempts
  {
    if !Truthy(recaptchaToken) then Step(s, Err(CaptchaMissing))
    else if !captchaOk then Step(s, Err(CaptchaFailed))
    else if Find(s.db, ByEmail(email)).Some? then Step(s, Err(EmailTaken))
    else
      match CreateUser(s.db, email, NoChange.(passwordHash := Some(Some(Hash(password))), isActive := Some(false)))
      case Err(e) => Step(s, Err(e))
      case Ok(created) =>
        var entry := ActivationToken(token, created.user.id, now + ACTIVATION_TTL_MS, false);
        Step(s.(db := created.db, activationTokens := s.activationTokens[token := entry]),
             Ok(Registered(created.user.id, created.user.email)))
  }

  /** `activateAccount`: not found, then used, then expired (the entry is
      dropped), then a vanished user (dropped); otherwise the account becomes
      active and the entry is spent. Returns the account's email. */
  function ActivateAccount(s: State, token: string, now: int): (r: Step<string>)
    ensures token !in s.activationTokens ==> r == Step(s, Err(InvalidActivationToken))
    ensures token in s.activationTokens && s.activationTokens[token].used ==>
              r == Step(s, Err(ActivationTokenUsed))
    ensures token in s.activationTokens && !s.activationTokens[token].used &&
            s.activationTokens[token].expiresAt < now ==>
              r == Step(s.(activationTokens := s.activationTokens - {token}), Err(ActivationTokenExpired))
    ensures token in s.activationTokens && !s.activationTokens[token].used &&
            s.activationTokens[token].expiresAt >= now &&
            Find(s.db, ById(s.activationTokens[token].userId)).None? ==>
              r == Step(s.(activationTokens := s.activationTokens - {token}), Err(TokenUserNotFound))
    ensures r.result.Ok? <==>
              token in s.activationTokens && !s.activationTokens[token].used &&
              s.activationTokens[token].expiresAt >= now &&
              Find(s.db, ById(s.activationTokens[token].userId)).Some?
    ensures r.result.Ok? ==>
              var entry := s.activationTokens[token];
              var u := Find(s.db, ById(entry.userId)).value;
              r == Step(s.(db := Put(s.db, u.(isActive := true)),
                           activationTokens := s.activationTokens[token := entry.(used := true)]),
                        Ok(u.email))
  {
    if token !in s.activationTokens then Step(s, Err(InvalidActivationToken))
    else
      var entry := s.activationTokens[token];
      if entry.used then Step(s, Err(ActivationTokenUsed))
      else if entry.expiresAt < now then
        Step(s.(activationTokens := s.activationTokens - {token}), Err(ActivationTokenExpired))
      else
        match Find(s.db, ById(entry.userId))
        case None => Step(s.(activationTokens := s.activationTokens - {token}), Err(TokenUserNotFound))
        case Some(user) =>
          match UpdateUser(s.db, user.id, NoChange.(isActive := Some(true)))
          case Err(e) => Step(s, Err(e))
          case Ok(updated) =>
            Step(s.(db := updated.db, activationTokens := s.activationTokens[token := entry.(used := true)]),
                 Ok(user.email))
  }

  // -------------------------------------------------------------------
  // login

  /** `login`: the attempt log gains exactly one record on every path that
      gets past the password hash; the counter and the lock change only on
      a wrong password, and a correct password clears both. `draw` is the
      random part of the 2FA code. */
  function Login(s: State, email: string, password: string, draw: nat, now: int): (r: Step<LoginResponse>)
    requires Valid(s.db)
    requires draw < CODE_SPAN
    // unknown email: same error as a wrong password, nothing but the log changes
    ensures Find(s.db, ByEmail(email)).None? ==>
              r == Step(Logged(s, email, false, now), Err(InvalidCredentials))
    // an active lock is checked first, before activation and password
    ensures Find(s.db, ByEmail(email)).Some? && Locked(Find(s.db, ByEmail(email)).value, now) ==>
              r == Step(Logged(s, email, false, now),
                        Err(AccountLocked(Find(s.db, ByEmail(email)).value.lockedUntil.value)))
    ensures Find(s.db, ByEmail(email)).Some? && !Locked(Find(s.db, ByEmail(email)).value, now) &&
            !Find(s.db, ByEmail(email)).value.isActive ==>
              r == Step(Logged(s, email, false, now), Err(NotActivated))
    ensures Find(s.db, ByEmail(email)).Some? && !Locked(Find(s.db, ByEmail(email)).value, now) &&
            Find(s.db, ByEmail(email)).value.isActive &&
            Find(s.db, ByEmail(email)).value.passwordHash.None? ==>
              r == Step(s, Err(MissingHash))
    // wrong password: one more failure, and a 15-minute lock from the fifth on
    ensures Find(s.db, ByEmail(email)).Some? && !Locked(Find(s.db, ByEmail(email)).value, now) &&
            Find(s.db, ByEmail(email)).value.isActive &&
            Find(s.db, ByEmail(email)).value.passwordHash.Some? &&
            Find(s.db, ByEmail(email)).value.passwordHash.value != Hash(password) ==>
              var u := Find(s.db, ByEmail(email)).value;
              var n := u.failedLoginAttempts + 1;
              var lock := if n >= MAX_FAILED_ATTEMPTS then Some(now + LOCK_DURATION_MS) else u.lockedUntil;
              r == Step(Logged(s.(db := Put(s.db, u.(failedLoginAttempts := n, lockedUntil := lock))), email, false, now),
                        Err(InvalidCredentials))
    // right password, no second factor: counter and lock cleared, success logged
    ensures Find(s.db, ByEmail(email)).Some? && !Locked(Find(s.db, ByEmail(email)).value, now) &&
            Find(s.db, ByEmail(email)).value.isActive &&
            Find(s.db, ByEmail(email)).value.passwordHash == Some(Hash(password)) &&
            !Find(s.db, ByEmail(email)).value.twoFactorEnabled ==>
              var u := Find(s.db, ByEmail(email)).value;
              r == Step(Logged(s.(db := Put(s.db, u.(failedLoginAttempts := 0, lockedUntil := None))), email, true, now),
                        Ok(LoggedIn(SessionFor(u))))
    // right password, second factor on: a fresh code for ten minutes, no token, a failure logged
    ensures Find(s.db, ByEmail(email)).Some? && !Locked(Find(s.db, ByEmail(email)).value, now) &&
            Find(s.db, ByEmail(email)).value.isActive &&
            Find(s.db, ByEmail(email)).value.passwordHash == Some(Hash(password)) &&
            Find(s.db, ByEmail(email)).value.twoFactorEnabled ==>
              var u := Find(s.db, ByEmail(email)).value;
              var u' := u.(failedLoginAttempts := 0, lockedUntil := None,
                           twoFactorLoginCode := Some(GenerateTwoFactorCode(draw)),
                           twoFactorLoginCodeExpiresAt := Some(now + TWO_FACTOR_TTL_MS));
              r == Step(Logged(s.(db := Put(s.db, u')), email, false, now), Ok(TwoFactorRequired))
  {
    match Find(s.db, ByEmail(email))
    case None => Step(Logged(s, email, false, now), Err(InvalidCredentials))
    case Some(user) =>
      FoundById(s.db, ByEmail(email));
      if user.lockedUntil.Some? && user.lockedUntil.value > now then
        Step(Logged(s, user.email, false, now), Err(AccountLocked(user.lockedUntil.value)))
      else if !user.isActive then
        Step(Logged(s, user.email, false, now), Err(NotActivated))
      else
        match Compare(password, user.passwordHash)
        case Err(e) => Step(s, Err(e))
        case Ok(false) => LoginFailure(s, user, now)
        case Ok(true) => LoginSuccess(s, user, draw, now)
  }

  /** The wrong-password step written as the row it leaves behind. */
  lemma WrongPasswordStep(s: State, email: string, wrong: string, draw: nat, now: int)
    requires Valid(s.db) && draw < CODE_SPAN
    requires Find(s.db, ByEmail(email)).Some?
    requires var u := Find(s.db, ByEmail(email)).value;
             u.isActive && !Locked(u, now) && u.passwordHash.Some? && u.passwordHash != Some(Hash(wrong))
    ensures var u := Find(s.db, ByEmail(email)).value;
            var n := u.failedLoginAttempts + 1;
            var lock := if n >= MAX_FAILED_ATTEMPTS then Some(now + LOCK_DURATION_MS) else u.lockedUntil;
            Login(s, email, wrong, draw, now).state ==
            Logged(s.(db := Put(s.db, u.(failedLoginAttempts := n, lockedUntil := lock))), email, false, now)
  {
  }

  /** The wrong-password branch of `login`. */
  function LoginFailure(s: State, user: User, now: int): (r: Step<LoginResponse>)
    requires Find(s.db, ById(user.id)) == Some(user)
    ensures var n := user.failedLoginAttempts + 1;
            var lock := if n >= MAX_FAILED_ATTEMPTS then Some(now + LOCK_DURATION_MS) else user.lockedUntil;
            r == Step(Logged(s.(db := Put(s.db, user.(failedLoginAttempts := n, lockedUntil := lock))), user.email, false, now),
                      Err(InvalidCredentials))
  {
    var counted := user.(failedLoginAttempts := user.failedLoginAttempts + 1);
    IncrementWrites(s.db, user);
    match IncrementFailedAttempts(s.db, user.id)
    case Err(e) => Step(s, Err(e))
    case Ok(inc) =>
      if inc.attempts >= MAX_FAILED_ATTEMPTS then
        var lockedUntil := now + LOCK_DURATION_MS;
        FindPutById(s.db, counted);
        LockWrites(inc.db, counted, lockedUntil);
        match UpdateUser(inc.db, user.id, NoChange.(lockedUntil := Some(Some(lockedUntil))))
        case Err(e) => Step(s.(db := inc.db), Err(e))
        case Ok(updated) =>
          PutTwice(s.db, counted, counted.(lockedUntil := Some(lockedUntil)));
          Step(Logged(s.(db := updated.db), user.email, false, now), Err(InvalidCredentials))
      else
        Step(Logged(s.(db := inc.db), user.email, false, now), Err(InvalidCredentials))
  }

  /** The right-password branch of `login`. */
  function LoginSuccess(s: State, user: User, draw: nat, now: int): (r: Step<LoginResponse>)
    requires Find(s.db, ById(user.id)) == Some(user)
    requires draw < CODE_SPAN
    ensures var cleared := user.(failedLoginAttempts := 0, lockedUntil := None);
            !user.twoFactorEnabled ==>
              r == Step(Logged(s.(db := Put(s.db, cleared)), user.email, true, now), Ok(LoggedIn(SessionFor(user))))
    ensures var challenged := user.(failedLoginAttempts := 0, lockedUntil := None,
                                    twoFactorLoginCode := Some(GenerateTwoFactorCode(draw)),
                                    twoFactorLoginCodeExpiresAt := Some(now + TWO_FACTOR_TTL_MS));
            user.twoFactorEnabled ==>
              r == Step(Logged(s.(db := Put(s.db, challenged)), user.email, false, now), Ok(TwoFactorRequired))
  {
    var cleared := user.(failedLoginAttempts := 0, lockedUntil := None);
    match UpdateUser(s.db, user.id, NoChange.(failedLoginAttempts := Some(0), lockedUntil := Some(None)))
    case Err(e) => Step(s, Err(e))
    case Ok(reset) =>
      if !user.twoFactorEnabled then
        Step(Logged(s.(db := reset.db), user.email, true, now), Ok(LoggedIn(SessionFor(user))))
      else
        var code := GenerateTwoFactorCode(draw);
        var expiresAt := now + TWO_FACTOR_TTL_MS;
        match UpdateUser(reset.db, user.id, NoChange.(twoFactorLoginCode := Some(Some(code)),
                                                      twoFactorLoginCodeExpiresAt := Some(Some(expiresAt))))
        case Err(e) => Step(s.(db := reset.db), Err(e))
        case Ok(challenged) =>
          PutTwice(s.db, cleared, cleared.(twoFactorLoginCode := Some(code), twoFactorLoginCodeExpiresAt := Some(expiresAt)));
          Step(Logged(s.(db := challenged.db), user.email, false, now), Ok(TwoFactorRequired))
  }

  /** `getLoginAttempts`: the whole log in insertion order. */
  function GetLoginAttempts(s: State): (r: Log)
    ensures |r| == |s.attempts|
    ensures forall i :: 0 <= i < |r| ==> r[i] == s.attempts[i]
  {
    GetAllAttempts(s.attempts)
  }

  // -------------------------------------------------------------------
  // second factor

  /** `enableTwoFactor`: unknown, inactive, unverifiable, wrong password,
      already on; otherwise only the flag changes. */
  function EnableTwoFactor(s: State, email: string, password: string): (r: Step<()>)
    requires Valid(s.db)
    ensures Find(s.db, ByEmail(email)).None? ==> r == Step(s, Err(InvalidCredentials))
    ensures r.result.Err? ==> r.state == s
    ensures r.result.Ok? <==>
              && Find(s.db, ByEmail(email)).Some?
              && Find(s.db, ByEmail(email)).value.isActive
              && Find(s.db, ByEmail(email)).value.passwordHash == Some(Hash(password))
              && !Find(s.db, ByEmail(email)).value.twoFactorEnabled
    ensures Find(s.db, ByEmail(email)).Some? && !Find(s.db, ByEmail(email)).value.isActive ==> r == Step(s, Err(NotActivated))
    ensures Find(s.db, ByEmail(email)).Some? && Find(s.db, ByEmail(email)).value.isActive && Find(s.db, ByEmail(email)).value.passwordHash.None? ==>
              r == Step(s, Err(MissingHash))
    ensures Find(s.db, ByEmail(email)).Some? && Find(s.db, ByEmail(email)).value.isActive && Find(s.db, ByEmail(email)).value.passwordHash == Some(Hash(password)) &&
            Find(s.db, ByEmail(email)).value.twoFactorEnabled ==>
              r == Step(s, Err(TwoFactorAlreadyEnabled))
    ensures Find(s.db, ByEmail(email)).Some? && Find(s.db, ByEmail(email)).value.isActive &&
            Find(s.db, ByEmail(email)).value.passwordHash.Some? &&
            Find(s.db, ByEmail(email)).value.passwordHash != Some(Hash(password)) ==>
              r == Step(s, Err(InvalidCredentials))
    ensures r.result.Ok? ==>
              var u := Find(s.db, ByEmail(email)).value;
              r.state == s.(db := Put(s.db, u.(twoFactorEnabled := true)))
  {
    match Find(s.db, ByEmail(email))
    case None => Step(s, Err(InvalidCredentials))
    case Some(user) =>
      FoundById(s.db, ByEmail(email));
      if !user.isActive then Step(s, Err(NotActivated))
      else
        match Compare(password, user.passwordHash)
        case Err(e) => Step(s, Err(e))
        case Ok(valid) =>
          if !valid then Step(s, Err(InvalidCredentials))
          else if user.twoFactorEnabled then Step(s, Err(TwoFactorAlreadyEnabled))
          else
            match UpdateUser(s.db, user.id, NoChange.(twoFactorEnabled := Some(true)))
            case Err(e) => Step(s, Err(e))
            case Ok(updated) => Step(s.(db := updated.db), Ok(()))
  }

  /** `disableTwoFactor`: the mirror image; turning the flag off also drops
      any outstanding login code. */
  function DisableTwoFactor(s: State, email: string, password: string): (r: Step<()>)
    requires Valid(s.db)
    ensures Find(s.db, ByEmail(email)).None? ==> r == Step(s, Err(InvalidCredentials))
    ensures r.result.Err? ==> r.state == s
    ensures r.result.Ok? <==>
              && Find(s.db, ByEmail(email)).Some?
              && Find(s.db, ByEmail(email)).value.isActive
              && Find(s.db, ByEmail(email)).value.passwordHash == Some(Hash(password))
              && Find(s.db, ByEmail(email)).value.twoFactorEnabled
    ensures Find(s.db, ByEmail(email)).Some? && !Find(s.db, ByEmail(email)).value.isActive ==> r == Step(s, Err(NotActivated))
    ensures Find(s.db, ByEmail(email)).Some? && Find(s.db, ByEmail(email)).value.isActive && Find(s.db, ByEmail(email)).value.passwordHash.None? ==>
              r == Step(s, Err(MissingHash))
    ensures Find(s.db, ByEmail(email)).Some? && Find(s.db, ByEmail(email)).value.isActive && Find(s.db, ByEmail(email)).value.passwordHash == Some(Hash(password)) &&
            !Find(s.db, ByEmail(email)).value.twoFactorEnabled ==>
              r == Step(s, Err(TwoFactorNotEnabled))
    ensures Find(s.db, ByEmail(email)).Some? && Find(s.db, ByEmail(email)).value.isActive &&
            Find(s.db, ByEmail(email)).value.passwordHash.Some? &&
            Find(s.db, ByEmail(email)).value.passwordHash != Some(Hash(password)) ==>
              r == Step(s, Err(InvalidCredentials))
    ensures r.result.Ok? ==>
              var u := Find(s.db, ByEmail(email)).value;
              r.state == s.(db := Put(s.db, u.(twoFactorEnabled := false, twoFactorLoginCode := None,
                                               twoFactorLoginCodeExpiresAt := None)))
  {
    match Find(s.db, ByEmail(email))
    case None => Step(s, Err(InvalidCredentials))
    case Some(user) =>
      FoundById(s.db, ByEmail(email));
      if !user.isActive then Step(s, Err(NotActivated))
      else
        match Compare(password, user.passwordHash)
        case Err(e) => Step(s, Err(e))
        case Ok(valid) =>
          if !valid then Step(s, Err(InvalidCredentials))
          else if !user.twoFactorEnabled then Step(s, Err(TwoFactorNotEnabled))
          else
            match UpdateUser(s.db, user.id, NoChange.(twoFactorEnabled := Some(false),
                                                      twoFactorLoginCode := Some(None),
                                                      twoFactorLoginCodeExpiresAt := Some(None)))
            case Err(e) => Step(s, Err(e))
            case Ok(updated) => Step(s.(db := updated.db), Ok(()))
  }

  /** `verifyTwoFactorLogin`: unknown user, 2FA off, then a missing or
      expired code (both code columns are cleared), then a mismatch (nothing
      changes); a match clears the code, logs a success and signs a token. */
  function VerifyTwoFactorLogin(s: State, email: string, code: string, now: int): (r: Step<Session>)
    requires Valid(s.db)
    ensures Find(s.db, ByEmail(email)).None? ==> r == Step(s, Err(InvalidEmailOrCode))
    ensures Find(s.db, ByEmail(email)).Some? && !Find(s.db, ByEmail(email)).value.twoFactorEnabled ==>
              r == Step(s, Err(TwoFactorNotEnabled))
    ensures Find(s.db, ByEmail(email)).Some? && Find(s.db, ByEmail(email)).value.twoFactorEnabled &&
            !CodeLive(Find(s.db, ByEmail(email)).value, now) ==>
              var u := Find(s.db, ByEmail(email)).value;
              r == Step(s.(db := Put(s.db, u.(twoFactorLoginCode := None, twoFactorLoginCodeExpiresAt := None))),
                        Err(CodeExpired))
    ensures Find(s.db, ByEmail(email)).Some? && Find(s.db, ByEmail(email)).value.twoFactorEnabled &&
            CodeLive(Find(s.db, ByEmail(email)).value, now) &&
            Find(s.db, ByEmail(email)).value.twoFactorLoginCode != Some(code) ==>
              r == Step(s, Err(InvalidCode))
    ensures r.result.Ok? <==>
              && Find(s.db, ByEmail(email)).Some?
              && Find(s.db, ByEmail(email)).value.twoFactorEnabled
              && CodeLive(Find(s.db, ByEmail(email)).value, now)
              && Find(s.db, ByEmail(email)).value.twoFactorLoginCode == Some(code)
    ensures r.result.Ok? ==>
              var u := Find(s.db, ByEmail(email)).value;
              r == Step(Logged(s.(db := Put(s.db, u.(twoFactorLoginCode := None, twoFactorLoginCodeExpiresAt := None))),
                               email, true, now),
                        Ok(SessionFor(u)))
  {
    match Find(s.db, ByEmail(email))
    case None => Step(s, Err(InvalidEmailOrCode))
    case Some(user) =>
      FoundById(s.db, ByEmail(email));
      var clear := NoChange.(twoFactorLoginCode := Some(None), twoFactorLoginCodeExpiresAt := Some(None));
      if !user.twoFactorEnabled then Step(s, Err(TwoFactorNotEnabled))
      else if !Truthy(user.twoFactorLoginCode) || user.twoFactorLoginCodeExpiresAt.None? ||
              user.twoFactorLoginCodeExpiresAt.value < now then
        match UpdateUser(s.db, user.id, clear)
        case Err(e) => Step(s, Err(e))
        case Ok(updated) => Step(s.(db := updated.db), Err(CodeExpired))
      else if user.twoFactorLoginCode.value != code then Step(s, Err(InvalidCode))
      else
        match UpdateUser(s.db, user.id, clear)
        case Err(e) => Step(s, Err(e))
        case Ok(updated) => Step(Logged(s.(db := updated.db), user.email, true, now), Ok(SessionFor(user)))
  }

  // -------------------------------------------------------------------
  // operations that re-verify the password

  /** `changePassword`: the caller is the JWT subject `userId`. */
  function ChangePassword(s: State, userId: nat, currentPassword: string, newPassword: string): (r: Step<()>)
    ensures Find(s.db, ById(userId)).None? ==> r == Step(s, Err(UserNotFound))
    ensures r.result.Err? ==> r.state == s
    ensures Find(s.db, ById(userId)).Some? && Find(s.db, ById(userId)).value.isActive &&
            Find(s.db, ById(userId)).value.passwordHash.Some? &&
            Find(s.db, ById(userId)).value.passwordHash != Some(Hash(currentPassword)) ==>
              r == Step(s, Err(CurrentPasswordIncorrect))
    ensures Find(s.db, ById(userId)).Some? && !Find(s.db, ById(userId)).value.isActive ==> r == Step(s, Err(NotActivated))
    ensures Find(s.db, ById(userId)).Some? && Find(s.db, ById(userId)).value.isActive && Find(s.db, ById(userId)).value.passwordHash.None? ==>
              r == Step(s, Err(PasswordChangeUnsupported))
    ensures Find(s.db, ById(userId)).Some? && Find(s.db, ById(userId)).value.isActive && Find(s.db, ById(userId)).value.passwordHash == Some(Hash(currentPassword)) &&
            currentPassword == newPassword ==>
              r == Step(s, Err(SamePassword))
    ensures currentPassword == newPassword ==> r.result.Err?
    ensures r.result.Ok? <==>
              && Find(s.db, ById(userId)).Some?
              && Find(s.db, ById(userId)).value.isActive
              && Find(s.db, ById(userId)).value.passwordHash == Some(Hash(currentPassword))
              && currentPassword != newPassword
    ensures r.result.Ok? ==>
              r.state == s.(db := Put(s.db, Find(s.db, ById(userId)).value.(passwordHash := Some(Hash(newPassword)))))
  {
    match Find(s.db, ById(userId))
    case None => Step(s, Err(UserNotFound))
    case Some(user) =>
      if !user.isActive then Step(s, Err(NotActivated))
      else if user.passwordHash.None? then Step(s, Err(PasswordChangeUnsupported))
      else if Compare(currentPassword, user.passwordHash) != Ok(true) then Step(s, Err(CurrentPasswordIncorrect))
      else if currentPassword == newPassword then Step(s, Err(SamePassword))
      else
        match UpdateUser(s.db, user.id, NoChange.(passwordHash := Some(Some(Hash(newPassword)))))
        case Err(e) => Step(s, Err(e))
        case Ok(updated) => Step(s.(db := updated.db), Ok(()))
  }

  /** `deactivateAccount`: needs a password-bearing account and the right
      password; the account becomes inactive, stamped with `now`. */
  function DeactivateAccount(s: State, userId: nat, password: string, now: int): (r: Step<()>)
    ensures Find(s.db, ById(userId)).None? ==> r == Step(s, Err(UserNotFound))
    ensures r.result.Err? ==> r.state == s
    ensures Find(s.db, ById(userId)).Some? && Find(s.db, ById(userId)).value.passwordHash.None? ==> r == Step(s, Err(DeactivationUnsupported))
    ensures Find(s.db, ById(userId)).Some? && Find(s.db, ById(userId)).value.passwordHash.Some? &&
            Find(s.db, ById(userId)).value.passwordHash != Some(Hash(password)) ==>
              r == Step(s, Err(PasswordIncorrect))
    ensures r.result.Ok? <==>
              Find(s.db, ById(userId)).Some? && Find(s.db, ById(userId)).value.passwordHash == Some(Hash(password))
    ensures r.result.Ok? ==>
              r.state == s.(db := Put(s.db, Find(s.db, ById(userId)).value.(isActive := false, deactivatedAt := Some(now))))
  {
    match Find(s.db, ById(userId))
    case None => Step(s, Err(UserNotFound))
    case Some(user) =>
      if user.passwordHash.None? then Step(s, Err(DeactivationUnsupported))
      else if Compare(password, user.passwordHash) != Ok(true) then Step(s, Err(PasswordIncorrect))
      else
        match UpdateUser(s.db, user.id, NoChange.(isActive := Some(false), deactivatedAt := Some(Some(now))))
        case Err(e) => Step(s, Err(e))
        case Ok(updated) => Step(s.(db := updated.db), Ok(()))
  }

  // -------------------------------------------------------------------
  // password reset

  /** `requestPasswordReset`: an unknown email answers exactly as a known
      active one does and changes nothing; an inactive account is an error;
      otherwise the user's single reset token is (over)written. */
  function RequestPasswordReset(s: State, cfg: Config, email: string, token: string, now: int): (r: Step<()>)
    requires Valid(s.db)
    ensures Find(s.db, ByEmail(email)).None? ==> r == Step(s, Ok(()))
    ensures Find(s.db, ByEmail(email)).Some? && !Find(s.db, ByEmail(email)).value.isActive ==>
              r == Step(s, Err(ResetOnInactiveAccount))
    ensures Find(s.db, ByEmail(email)).Some? && Find(s.db, ByEmail(email)).value.isActive ==>
              var u := Find(s.db, ByEmail(email)).value;
              var expiresAt := now + Minutes(cfg.resetTokenTtlMinutes);
              r == Step(s.(db := Put(s.db, u.(resetPasswordToken := Some(token), resetPasswordExpires := Some(expiresAt)))),
                        Ok(()))
  {
    match Find(s.db, ByEmail(email))
    case None => Step(s, Ok(()))
    case Some(user) =>
      FoundById(s.db, ByEmail(email));
      if !user.isActive then Step(s, Err(ResetOnInactiveAccount))
      else
        var expiresAt := now + Minutes(cfg.resetTokenTtlMinutes);
        Step(s.(db := SetPasswordResetToken(s.db, user.id, token, expiresAt)), Ok(()))
  }

  /** `resetPassword`: unknown token; expired (or expiry-less) token, which
      is cleared; weak password, which changes nothing; otherwise the new
      digest is stored, the token is spent and the failure counter zeroed.
      The lock, if any, is left in place. */
  function ResetPassword(s: State, token: string, newPassword: string, now: int): (r: Step<()>)
    requires Valid(s.db)
    ensures Find(s.db, ByResetToken(token)).None? ==> r == Step(s, Err(InvalidResetToken))
    ensures Find(s.db, ByResetToken(token)).Some? &&
            (Find(s.db, ByResetToken(token)).value.resetPasswordExpires.None? ||
             Find(s.db, ByResetToken(token)).value.resetPasswordExpires.value < now) ==>
              var u := Find(s.db, ByResetToken(token)).value;
              r == Step(s.(db := Put(s.db, u.(resetPasswordToken := None, resetPasswordExpires := None))),
                        Err(ResetTokenExpired))
    ensures Find(s.db, ByResetToken(token)).Some? &&
            Find(s.db, ByResetToken(token)).value.resetPasswordExpires.Some? &&
            Find(s.db, ByResetToken(token)).value.resetPasswordExpires.value >= now &&
            !StrongPassword(newPassword) ==>
              r == Step(s, Err(WeakPassword))
    ensures r.result.Ok? <==>
              && Find(s.db, ByResetToken(token)).Some?
              && Find(s.db, ByResetToken(token)).value.resetPasswordExpires.Some?
              && Find(s.db, ByResetToken(token)).value.resetPasswordExpires.value >= now
              && StrongPassword(newPassword)
    ensures r.result.Ok? ==>
              var u := Find(s.db, ByResetToken(token)).value;
              r.state == s.(db := Put(s.db, u.(passwordHash := Some(Hash(newPassword)), resetPasswordToken := None,
                                               resetPasswordExpires := None, failedLoginAttempts := 0)))
  {
    match Find(s.db, ByResetToken(token))
    case None => Step(s, Err(InvalidResetToken))
    case Some(user) =>
      FoundById(s.db, ByResetToken(token));
      if user.resetPasswordExpires.None? || user.resetPasswordExpires.value < now then
        Step(s.(db := ClearPasswordResetToken(s.db, user.id)), Err(ResetTokenExpired))
      else if !StrongPassword(newPassword) then Step(s, Err(WeakPassword))
      else
        var u1 := user.(passwordHash := Some(Hash(newPassword)));
        var u2 := u1.(resetPasswordToken := None, resetPasswordExpires := None);
        var u3 := u2.(failedLoginAttempts := 0);
        var db1 := UpdatePassword(s.db, user.id, Hash(newPassword));
        var db2 := ClearPasswordResetToken(db1, user.id);
        var db3 := ResetFailedAttempts(db2, user.id);
        PutTwice(s.db, u1, u2);
        PutTwice(s.db, u2, u3);
        Step(s.(db := db3), Ok(()))
  }

  // -------------------------------------------------------------------
  // email change

  /** `requestEmailChange`: the caller is the JWT subject; needs an active,
      password-bearing account, the right password and an address no other
      account holds; stores a single-use token carrying the new address. */
  function RequestEmailChange(s: State, cfg: Config, userId: nat, newEmail: string, password: string,
                              token: string, now: int): (r: Step<()>)
    ensures Find(s.db, ById(userId)).None? ==> r == Step(s, Err(UserNotFound))
    ensures r.result.Err? ==> r.state == s
    ensures Find(s.db, ById(userId)).Some? && !Find(s.db, ById(userId)).value.isActive ==> r == Step(s, Err(InactiveAccount))
    ensures Find(s.db, ById(userId)).Some? && Find(s.db, ById(userId)).value.isActive && Find(s.db, ById(userId)).value.passwordHash.None? ==>
              r == Step(s, Err(EmailChangeUnsupported))
    ensures Find(s.db, ById(userId)).Some? && Find(s.db, ById(userId)).value.isActive && Find(s.db, ById(userId)).value.passwordHash.Some? &&
            Find(s.db, ById(userId)).value.passwordHash != Some(Hash(password)) ==>
              r == Step(s, Err(CurrentPasswordIncorrect))
    ensures Find(s.db, ById(userId)).Some? && Find(s.db, ById(userId)).value.isActive &&
            Find(s.db, ById(userId)).value.passwordHash == Some(Hash(password)) &&
            Find(s.db, ByEmail(newEmail)).Some? && Find(s.db, ByEmail(newEmail)).value.id != userId ==>
              r == Step(s, Err(EmailInUse))
    ensures r.result.Ok? <==>
              && Find(s.db, ById(userId)).Some?
              && Find(s.db, ById(userId)).value.isActive
              && Find(s.db, ById(userId)).value.passwordHash == Some(Hash(password))
              && (Find(s.db, ByEmail(newEmail)).None? || Find(s.db, ByEmail(newEmail)).value.id == userId)
    ensures r.result.Ok? ==>
              var entry := EmailChangeToken(userId, newEmail, now + Minutes(cfg.emailChangeTokenTtlMinutes), false);
              r.state == s.(emailChangeTokens := s.emailChangeTokens[token := entry])
  {
    match Find(s.db, ById(userId))
    case None => Step(s, Err(UserNotFound))
    case Some(user) =>
      if !user.isActive then Step(s, Err(InactiveAccount))
      else if user.passwordHash.None? then Step(s, Err(EmailChangeUnsupported))
      else if Compare(password, user.passwordHash) != Ok(true) then Step(s, Err(CurrentPasswordIncorrect))
      else
        var existing := Find(s.db, ByEmail(newEmail));
        if existing.Some? && existing.value.id != user.id then Step(s, Err(EmailInUse))
        else
          var expiresAt := now + Minutes(cfg.emailChangeTokenTtlMinutes);
          Step(s.(emailChangeTokens := s.emailChangeTokens[token := EmailChangeToken(user.id, newEmail, expiresAt, false)]),
               Ok(()))
  }

  /** `confirmEmailChange`: missing or spent token; expired token (dropped);
      vanished user (dropped); otherwise the address is written and the
      token spent. If the address was taken in the meantime the table
      rejects the write and nothing changes. Returns the new address. */
  function ConfirmEmailChange(s: State, token: string, now: int): (r: Step<string>)
    ensures (token !in s.emailChangeTokens || s.emailChangeTokens[token].used) ==>
              r == Step(s, Err(InvalidOrUsedToken))
    ensures token in s.emailChangeTokens && !s.emailChangeTokens[token].used &&
            s.emailChangeTokens[token].expiresAt < now ==>
              r == Step(s.(emailChangeTokens := s.emailChangeTokens - {token}), Err(TokenExpired))
    ensures token in s.emailChangeTokens && !s.emailChangeTokens[token].used &&
            s.emailChangeTokens[token].expiresAt >= now &&
            Find(s.db, ById(s.emailChangeTokens[token].userId)).None? ==>
              r == Step(s.(emailChangeTokens := s.emailChangeTokens - {token}), Err(TokenUserNotFound))
    ensures r.result.Ok? <==>
              && token in s.emailChangeTokens && !s.emailChangeTokens[token].used
              && s.emailChangeTokens[token].expiresAt >= now
              && Find(s.db, ById(s.emailChangeTokens[token].userId)).Some?
              && forall v :: v in s.db.users && v.id != s.emailChangeTokens[token].userId ==>
                               v.email != s.emailChangeTokens[token].newEmail
    ensures r.result.Ok? ==>
              var entry := s.emailChangeTokens[token];
              var u := Find(s.db, ById(entry.userId)).value;
              r == Step(s.(db := Put(s.db, u.(email := entry.newEmail)),
                           emailChangeTokens := s.emailChangeTokens[token := entry.(used := true)]),
                        Ok(entry.newEmail))
    // the table never lets the change produce a duplicate address
    ensures r.result.Ok? ==>
              var entry := s.emailChangeTokens[token];
              forall v :: v in s.db.users && v.id != entry.userId ==> v.email != entry.newEmail
    ensures r.result == Err(UniqueViolation) ==> r.state == s
    ensures token in s.emailChangeTokens && !s.emailChangeTokens[token].used &&
            s.emailChangeTokens[token].expiresAt >= now &&
            Find(s.db, ById(s.emailChangeTokens[token].userId)).Some? &&
            (exists v :: v in s.db.users && v.id != s.emailChangeTokens[token].userId &&
                         v.email == s.emailChangeTokens[token].newEmail) ==>
              r == Step(s, Err(UniqueViolation))
  {
    if token !in s.emailChangeTokens || s.emailChangeTokens[token].used then Step(s, Err(InvalidOrUsedToken))
    else
      var entry := s.emailChangeTokens[token];
      if entry.expiresAt < now then
        Step(s.(emailChangeTokens := s.emailChangeTokens - {token}), Err(TokenExpired))
      else
        match Find(s.db, ById(entry.userId))
        case None => Step(s.(emailChangeTokens := s.emailChangeTokens - {token}), Err(TokenUserNotFound))
        case Some(user) =>
          match UpdateUser(s.db, user.id, NoChange.(email := Some(entry.newEmail)))
          case Err(e) => Step(s, Err(e))
          case Ok(updated) =>
            Step(s.(db := updated.db, emailChangeTokens := s.emailChangeTokens[token := entry.(used := true)]),
                 Ok(entry.newEmail))
  }
}
