# Account authentication of the NestJS auth service, modelled in Dafny

This project models the account-authentication core of a NestJS backend. The core is made of:

- the `AuthService` state machine: registration, activation, login with lockout, the e-mailed second factor, password change and reset, email change and deactivation;
- the `UsersService` store operations it is built on;
- the in-memory `LoginAttemptsService` log;
- the `RolesGuard` decision;
- the `/admin` controller;
- the Google `validate` rule, which finds, links or creates an account.

Every service call is modelled as a pure transition. It takes a `State` (the user table, the two in-memory token maps and the attempt log) and returns a `Step`: the next state plus what the call returns or throws. Time is passed in as an integer `now` in milliseconds.

The modules follow the source files:

| module | file | content |
|---|---|---|
| `Base` | `base.dfy` | `Option`, `Result`, one `Error` per thrown message, time units |
| `UserEntity` | `user_entity.dfy` | the `User` row, column defaults, `Partial<User>` patches, the bcrypt stand-in |
| `UsersService` | `users_service.dfy` | the table, `findOne` lookups, `update`, `create`, the counter and reset-token writes, and the schema constraints (`Valid`) |
| `LoginAttempts` | `login_attempts.dfy` | the append-only log |
| `Credentials` | `credentials.dfy` | the password-strength regex as a predicate and a scanning method; the six-digit code |
| `AuthService` | `auth_service.dfy` | every `AuthService` operation |
| `RolesGuard` | `roles_guard.dfy` | `canActivate` |
| `AdminController` | `admin_controller.dfy` | the admin routes |
| `GoogleStrategy` | `google_strategy.dfy` | `validate` |
| `System` | `system.dfy` | all operations as one `Op` type, and the invariant every step keeps |
| `AuthProperties` | `auth_properties.dfy` | multi-call properties: lockout, round trips, single use |

## Modelling choices

- **The table.** It is a sequence of rows in insertion order. `findOne` returns the first matching row, and a `where` on a null column never matches. `update` writes only the supplied columns and does nothing for a missing key. A write that would duplicate `email` or a non-null `googleId` fails with `UniqueViolation`.
- **Nullable columns.** They are `Option`. In a patch, `None` means "property absent" and `Some(None)` means "set to null".
- **bcrypt.** `Hash` is an injective digest. `Compare` is digest equality. Comparing against a null hash is an error (`MissingHash`), as `bcrypt.compare` rejects it.
- **Random inputs.** `randomUUID` results arrive as a `token` parameter. `Math.random()` arrives as `draw`, the integer part of `Math.random() * 900000`, so `draw < 900000`. The CAPTCHA provider's verdict is the boolean `captchaOk`.
- **JavaScript semantics are kept where they matter:**
  - Truthiness: `""` counts as a missing code or email.
  - `??` versus `||`: the Google placeholder email keeps `""`, while the roles guard lets any handler array win, even an empty one.
  - Expiry comparisons are strict: a lock applies while `lockedUntil > now`, and a token or code is expired when `expiresAt < now`.
  - The password regex counts UTF-16 code units, and its `.` excludes `\n`, `\r`, U+2028 and U+2029.

## Model

| member | source | states |
|---|---|---|
| UserEntity.Compare | src/auth/auth.service.ts:222-225 | a null hash is an error; otherwise the password verifies exactly when its digest is the stored one |
| UserEntity.HashInjective | src/auth/auth.service.ts:78 | different passwords never share a digest, so only the right password verifies |
| UserEntity.Defaults | src/users/user.entity.ts:5-50 | a new row is inactive, has 0 failed attempts and 2FA off, and every nullable column is null; the role is "user" by assumption, since the entity file declares no role column |
| UserEntity.ApplyPatch | src/users/user.entity.ts:3-62 | a patch keeps the key; each of the fourteen other columns takes the patch's value when one is supplied and keeps the row's value otherwise; the empty patch changes nothing |
| UserEntity.PatchComposes | src/users/users.service.ts:30-33 | applying a patch twice equals applying it once; two patches in a row equal their merge, the later one winning |
| UsersService.FindIndex | src/users/users.service.ts:13-23 | the index found is the first row matching the key; no index means no row matches |
| UsersService.Find | src/users/users.service.ts:13-23 | a found row is in the table and matches the key; nothing is found exactly when no row matches |
| UsersService.FindUnique | src/users/user.entity.ts:5-30 | on a table meeting its unique constraints, a key, email or Google id lookup finds the one row carrying that value |
| UsersService.RepoUpdate | src/users/users.service.ts:30-33 | a missing key is a no-op; the write fails exactly when it would duplicate an email or Google id; otherwise only that row changes, and it reads back as the patched row |
| UsersService.UpdateUser | src/users/users.service.ts:30-33 | the partial update, then a re-read that returns the patched row (or nothing for a missing key) |
| UsersService.CreateUser | src/users/users.service.ts:25-28 | a duplicate email or Google id is rejected; otherwise the new row gets the next key, the defaults and the supplied columns, and is appended |
| UsersService.CreateUserValid | src/users/user.entity.ts:8-30 | an insert the table accepts keeps keys, emails and Google ids unique |
| UsersService.IncrementFailedAttempts | src/users/users.service.ts:35-52 | a missing row throws and writes nothing; otherwise it returns the old count plus one, stores exactly that, and changes no other row |
| UsersService.IncrementWrites | src/users/users.service.ts:35-52 | on an existing row the increment never fails: it writes that row with its counter one higher and returns the new count |
| UsersService.ResetFailedAttempts | src/users/users.service.ts:54-56 | sets only the counter of that row to 0 |
| UsersService.SetPasswordResetToken | src/users/users.service.ts:64-69 | overwrites both reset columns, so a user holds at most one reset token; nothing else changes |
| UsersService.UpdatePassword | src/users/users.service.ts:71-75 | replaces only the stored digest |
| UsersService.ClearPasswordResetToken | src/users/users.service.ts:77-82 | nulls both reset columns and nothing else |
| UsersService.UpdateUserRole | src/admin/admin.controller.ts:82 | the call is taken to be a plain update of the role column: only the role of that row changes, and a missing key changes nothing |
| UsersService.FoundById | src/users/users.service.ts:13-23 | on a valid table, the row any lookup finds is the row its own key finds |
| UsersService.FoundByEmail | src/admin/admin.controller.ts:94-100 | on a valid table, a row's own email finds that row |
| UsersService.PutTwice | src/auth/auth.service.ts:228-233 | two successive writes to one row leave the second |
| UsersService.LockWrites | src/auth/auth.service.ts:230-233 | setting the lock of an existing row always succeeds, writes only `lockedUntil`, and re-reads the row as written |
| UsersService.FindPutById | src/users/users.service.ts:30-33 | a written row reads back by its key |
| UsersService.EmailFreeFor | src/admin/admin.controller.ts:111-114 | if the email lookup finds nothing, or finds row `id`, then no other row holds that email |
| UsersService.FindAfterPut | src/users/user.entity.ts:8-30 | after a write that keeps the table valid, every unique value the written row carries finds it |
| UsersService.FindResetTokenAfterPut | src/users/users.service.ts:58-62 | after a fresh reset token is written, looking the token up finds exactly that row |
| LoginAttempts.LogAttempt | src/security/login-attempts.service.ts:15-19 | the log grows by one, earlier entries are unchanged, and the new entry is last |
| LoginAttempts.ReadBackInOrder | src/security/login-attempts.service.ts:22-24 | whatever is logged reads back in logging order, after what was there before |
| LoginAttempts.GetAllAttempts | src/security/login-attempts.service.ts:21-23 | hands out every logged entry in logging order, with nothing filtered or added |
| LoginAttempts.GetAttemptsByEmail | src/security/login-attempts.service.ts:26-28 | every result carries the email, and an entry is in the result exactly when it is in the log with that email |
| LoginAttempts.FilterAppend | src/security/login-attempts.service.ts:26-28 | the filter keeps log order: appending a record grows the filtered log by that record exactly when its email matches |
| Credentials.TestPasswordRegex | src/auth/auth.service.ts:530-537 | the left-to-right scan accepts exactly the strong passwords: at least 8 UTF-16 units, no line terminator, and a lower-case letter, an upper-case letter, a digit and a non-alphanumeric character |
| Credentials.DecimalStringFacts | src/auth/auth.service.ts:55-57 | `String(n)` has no leading zero, has as many digits as `n`, and reads back as `n` |
| Credentials.GenerateTwoFactorCode | src/auth/auth.service.ts:55-57 | the code is always six digits with a non-zero first digit, and its value is 100000 + draw, in [100000, 999999] |
| Credentials.CodesAreDistinct | src/auth/auth.service.ts:55-57 | different draws give different codes |
| AuthService.Register | src/auth/auth.service.ts:66-116 | a missing CAPTCHA, a failed CAPTCHA or a taken email is refused, in that order, with nothing changed; otherwise exactly one row is appended, and it is the column defaults (inactive, role "user", counter 0, no lock, 2FA off, every nullable column null) plus the password's digest; a 24-hour unused activation token is stored under its own value |
| AuthService.SignToken | src/auth/auth.service.ts:59-64 | the token payload is the user's key as subject plus the email, and nothing else |
| AuthService.TokenIdentifiesUser | src/auth/auth.service.ts:59-64 | two users get the same token exactly when their key and email agree |
| AuthService.GetLoginAttempts | src/auth/auth.service.ts:302-304 | returns the whole attempt log, oldest first, unfiltered |
| AuthService.ActivateAccount | src/auth/auth.service.ts:118-147 | checks run unknown, then used, then expired (entry deleted), then user missing (entry deleted); success activates the account, marks the entry used, and changes nothing else |
| AuthService.Login | src/auth/auth.service.ts:181-300 | unknown email: same error as a wrong password, only a failure is logged. An active lock is checked before activation and password, and does not apply at `now == lockedUntil`. A wrong password adds one to the counter and locks for 15 minutes from the fifth failure on, otherwise leaving the lock. The right password clears counter and lock; with 2FA off it logs a success and signs a token; with 2FA on it stores a six-digit code for 10 minutes, logs a failure and returns no token |
| AuthService.WrongPasswordStep | src/auth/auth.service.ts:227-243 | a wrong password rewrites only that row, with the counter one higher and the lock set to now + 15 minutes exactly when the new count reaches five (otherwise kept), and logs one failure |
| AuthService.LoginFailure | src/auth/auth.service.ts:227-243 | the wrong-password branch is one row write (counter + 1, lock from the fifth failure) plus one logged failure |
| AuthService.LoginSuccess | src/auth/auth.service.ts:245-299 | the right-password branch clears counter and lock, then either logs a success with a session or stores the code and logs a failure |
| AuthService.EnableTwoFactor | src/auth/auth.service.ts:306-337 | an unknown email is `InvalidCredentials`; an inactive account is `NotActivated` whatever the password; a null hash is `MissingHash`; a wrong password is `InvalidCredentials`; 2FA already on is `TwoFactorAlreadyEnabled`; every refusal changes nothing; success happens exactly for an active account with the right password and 2FA off, and only sets the flag |
| AuthService.DisableTwoFactor | src/auth/auth.service.ts:339-372 | an unknown email is `InvalidCredentials`; an inactive account is `NotActivated` whatever the password; a null hash is `MissingHash`; a wrong password is `InvalidCredentials`; 2FA off is `TwoFactorNotEnabled`; every refusal changes nothing; success happens exactly for an active account with the right password and 2FA on, and clears the flag and both code columns |
| AuthService.VerifyTwoFactorLogin | src/auth/auth.service.ts:374-422 | checks run unknown user, then 2FA off, then a missing or expired code (both columns cleared), then a mismatch (nothing changes); success happens exactly on a live matching code, and it clears the code, logs a success and opens a session |
| AuthService.ChangePassword | src/auth/auth.service.ts:424-470 | a missing user is `UserNotFound`; an inactive account is `NotActivated`; a null hash is `PasswordChangeUnsupported`; a wrong current password is `CurrentPasswordIncorrect`; a new password equal to the current one is `SamePassword`; every refusal changes nothing; success happens exactly for an active account with the right current password and a different new one, and replaces only the digest |
| AuthService.DeactivateAccount | src/auth/auth.service.ts:149-179 | a missing user is `UserNotFound`; a null hash is `DeactivationUnsupported`; a wrong password is `PasswordIncorrect`; every refusal changes nothing; success happens exactly for an account whose password is given correctly, and marks it inactive with `deactivatedAt = now` |
| AuthService.RequestPasswordReset | src/auth/auth.service.ts:472-511 | an unknown email answers as success and changes nothing; an inactive account is refused; otherwise the row's reset token and expiry (now + TTL) are overwritten |
| AuthService.ResetPassword | src/auth/auth.service.ts:513-551 | an unknown token is refused; an expired or expiry-less token is cleared and refused; a weak password changes nothing; success stores the new digest, spends the token, zeroes the counter and keeps the lock |
| AuthService.RequestEmailChange | src/auth/auth.service.ts:553-611 | a missing user is `UserNotFound`; an inactive account is `InactiveAccount`; a null hash is `EmailChangeUnsupported`; a wrong password is `CurrentPasswordIncorrect`; an address another account holds is `EmailInUse`; every refusal changes nothing; success happens exactly otherwise, and only stores an unused token carrying the new address for the TTL |
| AuthService.ConfirmEmailChange | src/auth/auth.service.ts:613-642 | a missing or used token is refused; an expired token, or one whose user vanished, is deleted and refused; an address another account holds is refused with `UniqueViolation` and nothing changes; success happens exactly for a live token whose user exists and whose address no other account holds, and it writes the address and spends the token |
| RolesGuard.CanActivate | src/auth/roles.guard.ts:21-52 | allows exactly when no roles are required, or when a non-empty user role is in the list; otherwise it is forbidden |
| RolesGuard.HandlerMetadataWins | src/auth/roles.guard.ts:23-31 | once handler metadata exists, even an empty list, class metadata has no effect |
| RolesGuard.AnonymousOnlyOnOpenRoutes | src/auth/roles.guard.ts:33-43 | a request without a user passes exactly when the route requires no role |
| AdminController.AdminRoutesRequireAdmin | src/admin/admin.controller.ts:21-24 | every admin route opens exactly for users whose role is "admin" |
| AdminController.ToggleUserActive | src/admin/admin.controller.ts:44-67 | a missing user is reported with `isActive: false` and nothing changes; otherwise the flag flips, `deactivatedAt` is stamped on deactivation and cleared on activation, and nothing else changes |
| AdminController.ToggleTwice | src/admin/admin.controller.ts:55-60 | two toggles restore the flag; an active, never-stamped account comes back unchanged |
| AdminController.ChangeUserRole | src/admin/admin.controller.ts:69-88 | refused exactly when admins target their own account with a role other than "admin"; otherwise only the target's role is set, so demoting another admin succeeds |
| AdminController.SelfRoleChangeKeepsAdmin | src/admin/admin.controller.ts:75-80 | a role change admins make to their own account always leaves it "admin" |
| AdminController.AdminRequestPasswordReset | src/admin/admin.controller.ts:90-103 | a missing user issues no token and changes nothing; otherwise it behaves exactly as the self-service request on the user's email |
| AdminController.AdminChangeUserEmail | src/admin/admin.controller.ts:105-119 | refused exactly when another account holds the address; the user's own address is allowed; otherwise only that user's email changes |
| GoogleStrategy.Validate | src/auth/google.strategy.ts:40-74 | a Google id match is returned unchanged; otherwise a truthy email match is linked and activated; otherwise an active, password-less account is created with the profile email (or the placeholder), and the store refuses it if that address is taken; the payload is `{id, email}` |
| GoogleStrategy.ValidateLinks | src/auth/google.strategy.ts:48-67 | validation keeps the table valid, and afterwards the Google id finds the returned account |
| GoogleStrategy.SecondSignInIsStable | src/auth/google.strategy.ts:48-50 | signing in again with the same profile changes nothing and returns the same account |
| System.ApplyKeepsInvariant | src/auth/auth.service.ts:66-642 | every operation keeps the table's unique constraints and the row invariant (code and expiry together, a code only with 2FA on and always six digits, reset token and expiry together); it keeps the token maps well keyed, never removes or renumbers a row, and adds at most one log record at the end |
| System.Run | src/auth/auth.service.ts:66-642 | any sequence of service calls from a state meeting the invariant keeps it at every step, never shrinks the table or its key counter, and only extends the attempt log, by at most one record per call |
| System.ReachableInvariant | src/auth/auth.service.ts:66-642 | every state reachable from the empty table, with no tokens and an empty log, meets the invariant |
| System.LoginKeeps | src/auth/auth.service.ts:181-300 | login keeps the invariant and appends at most one log record |
| System.VerifyTwoFactorKeeps | src/auth/auth.service.ts:374-422 | 2FA verification keeps the invariant and appends at most one log record |
| System.ResetPasswordKeeps | src/auth/auth.service.ts:513-551 | password reset keeps the invariant and leaves the log alone |
| System.ConfirmEmailChangeKeeps | src/auth/auth.service.ts:613-642 | email confirmation keeps emails unique and the maps well keyed |
| System.GoogleKeeps | src/auth/google.strategy.ts:48-67 | Google sign-in keeps the invariant and never removes a row |
| AuthProperties.ThresholdFailureLocks | src/auth/auth.service.ts:198-243 | the wrong password that brings the counter to five or more locks for 15 minutes; during the lock even the right password is refused, and only a failure is logged |
| AuthProperties.LockedRowRefuses | src/auth/auth.service.ts:198-208 | once a failure has stored the lock, any login before the lock ends is refused as locked until that instant, the row is left as it is, and one failure is logged |
| AuthProperties.LockEndsAtItsInstant | src/auth/auth.service.ts:198 | at `now == lockedUntil` login is not refused as locked |
| AuthProperties.LoginRecordsOneAttempt | src/auth/auth.service.ts:188-284 | every login that reaches a verdict adds exactly one record, under the given email, stamped `now`, and the per-email view grows by it |
| AuthProperties.TwoFactorRoundTrip | src/auth/auth.service.ts:245-422 | the code a 2FA login issues opens a session for the same account within 10 minutes; a replay fails as expired |
| AuthProperties.ActivationIsSingleUse | src/auth/auth.service.ts:125-141 | a redeemed activation token is refused as used afterwards |
| AuthProperties.RegisterActivateLogin | src/auth/auth.service.ts:66-147 | after registration, the token activates the account within 24 hours, and the password then logs in |
| AuthProperties.ResetRequestHidesAccounts | src/auth/auth.service.ts:472-482 | an unknown address gets the same answer as an active account, with no change |
| AuthProperties.ResetRoundTrip | src/auth/auth.service.ts:472-551 | a fresh reset token used in time with a strong password sets the new password, zeroes the counter and keeps the lock; reusing the token is refused as unknown |
| AuthProperties.LiveResetTokenAccepted | src/auth/auth.service.ts:513-551 | a freshly stored reset token, used before it expires with a strong password, succeeds: the digest is replaced, the counter zeroed, the lock kept, and no row holds the token any more |
| AuthProperties.SpentResetTokenRefused | src/auth/auth.service.ts:514-518 | a token that no row holds is refused as invalid, and nothing changes |
| AuthProperties.EmailChangeRoundTrip | src/auth/auth.service.ts:553-642 | an accepted request confirmed in time moves the account to the new address; reusing the token is refused as used |

## Left out

- Mail delivery. Every `MailService` call is a no-op, and the confirmation links that are built only for mail are not modelled.
- The development echo of tokens and codes (`APP_ENV`), and `console.log`.
- bcrypt salting and cost. `Hash` is an injective stand-in, so equal passwords get equal digests here.
- JWT signing. The token is the abstract value `AccessToken(sub, email)`. The code signs only these two fields, not the role, and the model follows the code.
- The CAPTCHA network call. It becomes the boolean `captchaOk`.
- `randomUUID` and `Math.random`. They become parameters. Token uniqueness is assumed only where a property needs it (`ResetTokenFresh`). `draw < 900000` stands in for the floating-point product.
- Concurrency. Each service call is one atomic step. The source reads and then writes without compare-and-set (for example in `incrementFailedAttempts` and `activateAccount`), and the model makes no claim about interleavings.
- DTO validation by class-validator, including the six-character code length. The password regex is modelled where `resetPassword` re-checks it.
- `createdAt`/`updatedAt`, and the optional `ip`/`userAgent` of a log entry, which no caller sets.
- UsersService.UpdateUserRole and UserEntity.Defaults: the source calls `updateUserRole` (src/admin/admin.controller.ts:82), but neither the method body nor a `role` column is in the source files. The model assumes a plain `update(id, {role})`, so a missing key is a no-op, and a role column that defaults to "user" and is written as given, since the body is not validated.
- `Number(...)` of a malformed TTL (NaN) and a string-typed email-change TTL from the environment. TTLs are integers in `Config`.
- `findAll`, `deleteUser` and the Google strategy's constructor: listing, deletion and OAuth configuration.
- The `?? 0` in `incrementFailedAttempts`. The column is NOT NULL with default 0, so the counter is a `nat` and that branch cannot occur.
- UsersService.CreateUser: requires the email to come through its own parameter rather than inside the patch. All callers pass it that way.
- Observed but not a defect: activation does not clear `deactivatedAt`, and `resetPassword` keeps an active lock while zeroing the counter. Both are modelled as written. Also, `verifyTwoFactorLogin` checks neither `isActive` nor `lockedUntil` (src/auth/auth.service.ts:374-422), so an outstanding login code still opens a session after an admin deactivates the account or a lock is set; the model keeps this. Finally, `register` reads `dto.recaptchaToken` (src/auth/auth.service.ts:67-71), but `RegisterDto` (src/auth/dto/register.dto.ts) declares no such field, and the global `ValidationPipe` forbids undeclared fields (src/main.ts:12-18). Over HTTP, registration is therefore either refused by validation or answered with `CaptchaMissing`; the successful branch of `AuthService.Register` is reached only by calling the service directly. The model follows the service.
