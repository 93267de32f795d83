/** The `User` row of the credential store, its column defaults, and the
    partial update (`Partial<User>`) every write to it goes through. */
module UserEntity {
  import opened Base

  /** An opaque bcrypt digest. The salt is not modelled: `Hash` is injective
      and `Compare` is equality of digests, which is all the services use. */
  datatype Digest = Digest(secret: string)

  function Hash(password: string): Digest
  {
    Digest(password)
  }

  /** Distinct passwords never share a digest. */
  lemma HashInjective(a: string, b: string)
    ensures Hash(a) == Hash(b) ==> a == b
  {
  }

  /** `bcrypt.compare(password, hash)`: rejects when the stored hash is null
      (an account created through Google has none). */
  function Compare(password: string, hash: Option<Digest>): (r: Result<bool>)
    ensures hash.None? <==> r == Err(MissingHash)
    ensures r.Ok? ==> (r.value <==> Hash(password) == hash.value)
  {
    match hash
    case None => Err(MissingHash)
    case Some(d) => Ok(d == Hash(password))
  }

  const USER_ROLE: string := "user"
  const ADMIN_ROLE: string := "admin"

  /** One row of the `user` table. Timestamps are milliseconds. */
  datatype User = User(
    id: nat,
    email: string,
    passwordHash: Option<Digest>,
    isActive: bool,
    deactivatedAt: Option<int>,
    failedLoginAttempts: nat,
    lockedUntil: Option<int>,
    googleId: Option<string>,
    role: string,
    twoFactorEnabled: bool,
    twoFactorSecret: Option<string>,
    twoFactorLoginCode: Option<string>,
    twoFactorLoginCodeExpiresAt: Option<int>,
    resetPasswordToken: Option<string>,
    resetPasswordExpires: Option<int>)

  /** The row the database creates when only the key and the mandatory
      `email` column are given: every column with a default takes it and
      every nullable column is null. */
  function Defaults(id: nat, email: string): (u: User)
    ensures u.id == id && u.email == email
    ensures !u.isActive && !u.twoFactorEnabled && u.failedLoginAttempts == 0
    ensures u.role == USER_ROLE
    ensures u.passwordHash.None? && u.googleId.None? && u.deactivatedAt.None? && u.lockedUntil.None?
    ensures u.twoFactorSecret.None? && u.twoFactorLoginCode.None? && u.twoFactorLoginCodeExpiresAt.None?
    ensures u.resetPasswordToken.None? && u.resetPasswordExpires.None?
  {
    User(id, email, None, false, None, 0, None, None, USER_ROLE, false, None, None, None, None, None)
  }

  /** `Partial<User>`: `None` leaves a column alone (an absent property),
      `Some(v)` writes `v`; for a nullable column `Some(None)` writes null. */
  datatype Patch = Patch(
    email: Option<string>,
    passwordHash: Option<Option<Digest>>,
    isActive: Option<bool>,
    deactivatedAt: Option<Option<int>>,
    failedLoginAttempts: Option<nat>,
    lockedUntil: Option<Option<int>>,
    googleId: Option<Option<string>>,
    role: Option<string>,
    twoFactorEnabled: Option<bool>,
    twoFactorSecret: Option<Option<string>>,
    twoFactorLoginCode: Option<Option<string>>,
    twoFactorLoginCodeExpiresAt: Option<Option<int>>,
    resetPasswordToken: Option<Option<string>>,
    resetPasswordExpires: Option<Option<int>>)

  const NoChange: Patch :=
    Patch(None, None, None, None, None, None, None, None, None, None, None, None, None, None)

  function Pick<T>(field: Option<T>, current: T): T
  {
    match field
    case Some(v) => v
    case None => current
  }

  /** One column after a partial update: the supplied value if there is one,
      the old value otherwise. */
  predicate Column<T(==)>(supplied: Option<T>, before: T, after: T)
  {
    (supplied.None? ==> after == before) && (supplied.Some? ==> after == supplied.value)
  }

  /** Writes the supplied columns of `p` over `u`; the key never changes. */
  function ApplyPatch(u: User, p: Patch): (r: User)
    ensures r.id == u.id
    ensures && Column(p.email, u.email, r.email)
            && Column(p.passwordHash, u.passwordHash, r.passwordHash)
            && Column(p.isActive, u.isActive, r.isActive)
            && Column(p.deactivatedAt, u.deactivatedAt, r.deactivatedAt)
            && Column(p.failedLoginAttempts, u.failedLoginAttempts, r.failedLoginAttempts)
            && Column(p.lockedUntil, u.lockedUntil, r.lockedUntil)
            && Column(p.googleId, u.googleId, r.googleId)
            && Column(p.role, u.role, r.role)
            && Column(p.twoFactorEnabled, u.twoFactorEnabled, r.twoFactorEnabled)
            && Column(p.twoFactorSecret, u.twoFactorSecret, r.twoFactorSecret)
            && Column(p.twoFactorLoginCode, u.twoFactorLoginCode, r.twoFactorLoginCode)
            && Column(p.twoFactorLoginCodeExpiresAt, u.twoFactorLoginCodeExpiresAt, r.twoFactorLoginCodeExpiresAt)
            && Column(p.resetPasswordToken, u.resetPasswordToken, r.resetPasswordToken)
            && Column(p.resetPasswordExpires, u.resetPasswordExpires, r.resetPasswordExpires)
    ensures p.email.None? ==> r.email == u.email
    ensures p.email.Some? ==> r.email == p.email.value
    ensures p.googleId.None? ==> r.googleId == u.googleId
    ensures p.googleId.Some? ==> r.googleId == p.googleId.value
    ensures p == NoChange ==> r == u
  {
    User(
      u.id,
      Pick(p.email, u.email),
      Pick(p.passwordHash, u.passwordHash),
      Pick(p.isActive, u.isActive),
      Pick(p.deactivatedAt, u.deactivatedAt),
      Pick(p.failedLoginAttempts, u.failedLoginAttempts),
      Pick(p.lockedUntil, u.lockedUntil),
      Pick(p.googleId, u.googleId),
      Pick(p.role, u.role),
      Pick(p.twoFactorEnabled, u.twoFactorEnabled),
      Pick(p.twoFactorSecret, u.twoFactorSecret),
      Pick(p.twoFactorLoginCode, u.twoFactorLoginCode),
      Pick(p.twoFactorLoginCodeExpiresAt, u.twoFactorLoginCodeExpiresAt),
      Pick(p.resetPasswordToken, u.resetPasswordToken),
      Pick(p.resetPasswordExpires, u.resetPasswordExpires))
  }

  /** A partial update is a merge: patching twice is patching once with the
      second patch's columns taking precedence. */
  function Merge(first: Patch, second: Patch): Patch
  {
    Patch(
      if second.email.Some? then second.email else first.email,
      if second.passwordHash.Some? then second.passwordHash else first.passwordHash,
      if second.isActive.Some? then second.isActive else first.isActive,
      if second.deactivatedAt.Some? then second.deactivatedAt else first.deactivatedAt,
      if second.failedLoginAttempts.Some? then second.failedLoginAttempts else first.failedLoginAttempts,
      if second.lockedUntil.Some? then second.lockedUntil else first.lockedUntil,
      if second.googleId.Some? then second.googleId else first.googleId,
      if second.role.Some? then second.role else first.role,
      if second.twoFactorEnabled.Some? then second.twoFactorEnabled else first.twoFactorEnabled,
      if second.twoFactorSecret.Some? then second.twoFactorSecret else first.twoFactorSecret,
      if second.twoFactorLoginCode.Some? then second.twoFactorLoginCode else first.twoFactorLoginCode,
      if second.twoFactorLoginCodeExpiresAt.Some? then second.twoFactorLoginCodeExpiresAt else first.twoFactorLoginCodeExpiresAt,
      if second.resetPasswordToken.Some? then second.resetPasswordToken else first.resetPasswordToken,
      if second.resetPasswordExpires.Some? then second.resetPasswordExpires else first.resetPasswordExpires)
  }

  /** Applying a patch is idempotent, and two successive patches compose. */
  lemma PatchComposes(u: User, p: Patch, q: Patch)
    ensures ApplyPatch(ApplyPatch(u, p), p) == ApplyPatch(u, p)
    ensures ApplyPatch(ApplyPatch(u, p), q) == ApplyPatch(u, Merge(p, q))
  {
  }
}
