/** Shared vocabulary of the model: optional values, results, the errors the
    services raise, and the time units every expiry is computed in.
    Time is an integer count of milliseconds, as returned by `Date.getTime()`. */
module Base {

  /** A nullable value (`T | null` or an absent property). */
  datatype Option<+T> = None | Some(value: T)

  /** Either the value an operation returns or the exception it throws. */
  datatype Result<+T> = Ok(value: T) | Err(error: Error)

  /** Every exception the modelled services throw, one constructor per
      message, with the HTTP status of its exception class. */
  datatype Error =
    // login and the 2FA toggles
    | InvalidCredentials          // 401 "Invalid email or password"
    | AccountLocked(until: int)   // 401 "Account is temporarily locked until ..."
    | NotActivated                // 401 "Account is not activated. Please check your email."
    | MissingHash                 // bcrypt.compare rejects a null hash
    | TwoFactorAlreadyEnabled     // 400
    | TwoFactorNotEnabled         // 400
    // second factor
    | InvalidEmailOrCode          // 401 "Invalid email or 2FA code"
    | CodeExpired                 // 401 "2FA code has expired or is invalid"
    | InvalidCode                 // 401 "Invalid 2FA code"
    // re-verified account operations
    | UserNotFound                // 401
    | DeactivationUnsupported     // 400
    | PasswordIncorrect           // 401
    | PasswordChangeUnsupported   // 400
    | CurrentPasswordIncorrect    // 401
    | SamePassword                // 400
    | InactiveAccount             // 401 "Account is not activated" (email change)
    | EmailChangeUnsupported      // 400
    | EmailInUse                  // 400
    // password reset
    | ResetOnInactiveAccount      // 400 "Account is not activated" (reset request)
    | InvalidResetToken           // 400
    | ResetTokenExpired           // 400
    | WeakPassword                // 400
    // email-change tokens
    | InvalidOrUsedToken          // 400
    | TokenExpired                // 400
    | TokenUserNotFound           // 400 "User for this token was not found"
    // activation tokens
    | InvalidActivationToken      // 400
    | ActivationTokenUsed         // 400
    | ActivationTokenExpired      // 400
    // registration
    | CaptchaMissing              // 400
    | CaptchaFailed               // 400
    | EmailTaken                  // 400
    // administration and authorisation
    | OwnAdminRole                // 400 "You cannot remove admin role from your own account."
    | InsufficientPermissions     // 403
    // the store
    | UniqueViolation             // the database rejects a duplicate unique column
    | IncrementMissingUser        // plain Error thrown by incrementFailedAttempts

  const SECOND_MS: nat := 1000
  const MINUTE_MS: nat := 60 * SECOND_MS
  const HOUR_MS: nat := 60 * MINUTE_MS

  /** `m * 60 * 1000`, the conversion every configured TTL goes through. */
  function Minutes(m: int): int
  {
    m * MINUTE_MS
  }
}
