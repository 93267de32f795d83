/** `AdminController`: the `/admin` routes. The whole controller sits behind
    the JWT guard and `RolesGuard` with class-level `@Roles('admin')`; no
    handler carries its own roles. */
module AdminController {
  import opened Base
  import opened UserEntity
  import opened UsersService
  import opened AuthService
  import opened RolesGuard

  datatype Route = GetAllUsers | DeleteUser | ToggleUserActiveRoute | ChangeUserRoleRoute
                 | AdminRequestPasswordResetRoute | AdminChangeUserEmailRoute

  /** Handler-level `@Roles` metadata: none of the routes has any. */
  function HandlerRoles(route: Route): Option<seq<string>>
  {
    None
  }

  /** Class-level `@Roles('admin')`. */
  const ClassRoles: Option<seq<string>> := Some([ADMIN_ROLE])

  /** Every admin route opens for exactly the requests whose user carries the
      role "admin". */
  lemma AdminRoutesRequireAdmin(route: Route, user: Option<RequestUser>)
    ensures CanActivate(HandlerRoles(route), ClassRoles, user) == Ok(true) <==>
              user.Some? && user.value.role == Some(ADMIN_ROLE)
  {
  }

  // -------------------------------------------------------------------
  // toggle-active

  datatype ToggleMessage = UserNotFoundMessage | ActivatedMessage | DeactivatedMessage

  datatype Toggled = Toggled(message: ToggleMessage, userId: nat, isActive: bool)

  /** `toggleUserActive(id)`: a missing user is reported in the body, not as
      an error; otherwise the flag flips, and `deactivatedAt` is stamped on
      deactivation and cleared on activation. */
  function ToggleUserActive(s: State, id: nat, now: int): (r: Step<Toggled>)
    ensures r.result.Ok?
    ensures r.result.value.userId == id
    ensures Find(s.db, ById(id)).None? ==> r == Step(s, Ok(Toggled(UserNotFoundMessage, id, false)))
    ensures Find(s.db, ById(id)).Some? ==>
              var u := Find(s.db, ById(id)).value;
              && r.result.value.isActive == !u.isActive
              && r.result.value.message == (if u.isActive then DeactivatedMessage else ActivatedMessage)
              && r.state == s.(db := Put(s.db, u.(isActive := !u.isActive,
                                                  deactivatedAt := if u.isActive then Some(now) else None)))
  {
    match Find(s.db, ById(id))
    case None => Step(s, Ok(Toggled(UserNotFoundMessage, id, false)))
    case Some(user) =>
      var newIsActive := !user.isActive;
      var p := NoChange.(isActive := Some(newIsActive),
                         deactivatedAt := Some(if newIsActive then None else Some(now)));
      var db' := RepoUpdate(s.db, id, p).value;
      Step(s.(db := db'), Ok(Toggled(if newIsActive then ActivatedMessage else DeactivatedMessage, id, newIsActive)))
  }

  /** Toggling twice restores the flag; an account that was active and never
      stamped comes back exactly as it was. */
  lemma ToggleTwice(s: State, id: nat, now1: int, now2: int)
    requires Find(s.db, ById(id)).Some?
    ensures var s2 := ToggleUserActive(ToggleUserActive(s, id, now1).state, id, now2).state;
            Find(s2.db, ById(id)).Some? &&
            Find(s2.db, ById(id)).value.isActive == Find(s.db, ById(id)).value.isActive
    ensures Find(s.db, ById(id)).value.isActive && Find(s.db, ById(id)).value.deactivatedAt.None? ==>
              ToggleUserActive(ToggleUserActive(s, id, now1).state, id, now2).state == s
  {
    var u := Find(s.db, ById(id)).value;
    var u1 := u.(isActive := !u.isActive, deactivatedAt := if u.isActive then Some(now1) else None);
    var s1 := ToggleUserActive(s, id, now1).state;
    FindPutById(s.db, u1);
    var u2 := u1.(isActive := !u1.isActive, deactivatedAt := if u1.isActive then Some(now2) else None);
    PutTwice(s.db, u1, u2);
    FindPutById(s.db, u2);
    if u.isActive && u.deactivatedAt.None? {
      assert u2 == u;
      var i := FindIndex(s.db.users, ById(id)).value;
      assert s.db.users[i := u] == s.db.users;
    }
  }

  // -------------------------------------------------------------------
  // role

  datatype RoleChanged = RoleChanged(userId: nat, role: string)

  /** `changeUserRole(id, role)`: `actorId` is `req.user?.id`. An admin may
      not give their own account any role other than "admin"; any other
      change is written, and a missing target is silently ignored. */
  function ChangeUserRole(s: State, actorId: Option<nat>, id: nat, role: string): (r: Step<RoleChanged>)
    ensures r.result.Err? <==> actorId == Some(id) && role != ADMIN_ROLE
    ensures r.result.Err? ==> r == Step(s, Err(OwnAdminRole))
    ensures r.result.Ok? ==> r.result.value == RoleChanged(id, role)
    ensures r.result.Ok? && Find(s.db, ById(id)).None? ==> r.state == s
    ensures r.result.Ok? && Find(s.db, ById(id)).Some? ==>
              r.state == s.(db := Put(s.db, Find(s.db, ById(id)).value.(role := role)))
  {
    if actorId == Some(id) && role != ADMIN_ROLE then Step(s, Err(OwnAdminRole))
    else Step(s.(db := UpdateUserRole(s.db, id, role)), Ok(RoleChanged(id, role)))
  }

  /** An admin acting on their own account can only leave it an admin. */
  lemma SelfRoleChangeKeepsAdmin(s: State, id: nat, role: string)
    requires Find(s.db, ById(id)).Some?
    requires ChangeUserRole(s, Some(id), id, role).result.Ok?
    ensures Find(ChangeUserRole(s, Some(id), id, role).state.db, ById(id)).value.role == ADMIN_ROLE
  {
    FindPutById(s.db, Find(s.db, ById(id)).value.(role := role));
  }

  // -------------------------------------------------------------------
  // reset-password

  datatype AdminResetMessage = ResetUserMissing | ResetEmailSent

  /** `adminRequestPasswordReset(id)`: looks the user up by key and runs the
      self-service reset request on their email. */
  function AdminRequestPasswordReset(s: State, cfg: Config, id: nat, token: string, now: int): (r: Step<AdminResetMessage>)
    requires Valid(s.db)
    ensures Find(s.db, ById(id)).None? ==> r == Step(s, Ok(ResetUserMissing))
    ensures Find(s.db, ById(id)).Some? && !Find(s.db, ById(id)).value.isActive ==>
              r == Step(s, Err(ResetOnInactiveAccount))
    ensures Find(s.db, ById(id)).Some? && Find(s.db, ById(id)).value.isActive ==>
              var u := Find(s.db, ById(id)).value;
              var expiresAt := now + Minutes(cfg.resetTokenTtlMinutes);
              r == Step(s.(db := Put(s.db, u.(resetPasswordToken := Some(token), resetPasswordExpires := Some(expiresAt)))),
                        Ok(ResetEmailSent))
  {
    match Find(s.db, ById(id))
    case None => Step(s, Ok(ResetUserMissing))
    case Some(user) =>
      FoundByEmail(s.db, id);
      var inner := RequestPasswordReset(s, cfg, user.email, token, now);
      match inner.result
      case Err(e) => Step(inner.state, Err(e))
      case Ok(_) => Step(inner.state, Ok(ResetEmailSent))
  }

  // -------------------------------------------------------------------
  // email

  datatype EmailUpdated = EmailUpdated(userId: nat, email: string)

  /** `adminChangeUserEmail(id, newEmail)`: refused when another account
      holds the address; otherwise only the email column of `id` changes
      (a missing `id` changes nothing and still reports success). */
  function AdminChangeUserEmail(s: State, id: nat, newEmail: string): (r: Step<EmailUpdated>)
    requires Valid(s.db)
    ensures r.result.Err? <==> Find(s.db, ByEmail(newEmail)).Some? && Find(s.db, ByEmail(newEmail)).value.id != id
    ensures r.result.Err? ==> r == Step(s, Err(EmailInUse))
    ensures r.result.Ok? ==> r.result.value == EmailUpdated(id, newEmail)
    ensures r.result.Ok? ==> forall v :: v in s.db.users && v.id != id ==> v.email != newEmail
    ensures r.result.Ok? && Find(s.db, ById(id)).None? ==> r.state == s
    ensures r.result.Ok? && Find(s.db, ById(id)).Some? ==>
              r.state == s.(db := Put(s.db, Find(s.db, ById(id)).value.(email := newEmail)))
  {
    var existing := Find(s.db, ByEmail(newEmail));
    if existing.Some? && existing.value.id != id then Step(s, Err(EmailInUse))
    else
      EmailFreeFor(s.db, id, newEmail);
      match UpdateUser(s.db, id, NoChange.(email := Some(newEmail)))
      case Err(e) => Step(s, Err(e))
      case Ok(updated) => Step(s.(db := updated.db), Ok(EmailUpdated(id, newEmail)))
  }
}
