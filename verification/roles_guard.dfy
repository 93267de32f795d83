/** `RolesGuard.canActivate`: the role gate in front of a route. Role
    metadata comes from the `@Roles` decorator on the handler or on its
    controller class; the request user is what the JWT guard attached. */
module RolesGuard {
  import opened Base

  /** The `user` attached to the request; only its role matters here. */
  datatype RequestUser = RequestUser(role: Option<string>)

  /** `reflector.get(handler) || reflector.get(class)`: any array, even an
      empty one, is truthy, so handler metadata wins whenever it is present. */
  function RequiredRoles(handler: Option<seq<string>>, cls: Option<seq<string>>): Option<seq<string>>
  {
    if handler.Some? then handler else cls
  }

  /** True when the guard has nothing to check. */
  predicate NoneRequired(required: Option<seq<string>>)
  {
    required.None? || |required.value| == 0
  }

  /** The guard returns `true` or throws `ForbiddenException`. */
  function CanActivate(handler: Option<seq<string>>, cls: Option<seq<string>>, user: Option<RequestUser>): (r: Result<bool>)
    ensures r == Ok(true) || r == Err(InsufficientPermissions)
    ensures NoneRequired(RequiredRoles(handler, cls)) ==> r == Ok(true)
    ensures !NoneRequired(RequiredRoles(handler, cls)) && (user.None? || user.value.role.None?) ==>
              r == Err(InsufficientPermissions)
    ensures !NoneRequired(RequiredRoles(handler, cls)) && user.Some? && user.value.role.Some? ==>
              (r == Ok(true) <==> user.value.role.value != "" && user.value.role.value in RequiredRoles(handler, cls).value)
  {
    var required := RequiredRoles(handler, cls);
    if required.None? || |required.value| == 0 then Ok(true)
    else if user.None? || user.value.role.None? || user.value.role.value == "" then Err(InsufficientPermissions)
    else if user.value.role.value !in required.value then Err(InsufficientPermissions)
    else Ok(true)
  }

  /** Handler-level metadata, once present, makes the class-level metadata
      irrelevant. */
  lemma HandlerMetadataWins(handler: seq<string>, cls1: Option<seq<string>>, cls2: Option<seq<string>>,
                            user: Option<RequestUser>)
    ensures CanActivate(Some(handler), cls1, user) == CanActivate(Some(handler), cls2, user)
  {
  }

  /** Without a user (or a role) only a route that requires nothing opens. */
  lemma AnonymousOnlyOnOpenRoutes(handler: Option<seq<string>>, cls: Option<seq<string>>)
    ensures CanActivate(handler, cls, None) == Ok(true) <==> NoneRequired(RequiredRoles(handler, cls))
  {
  }
}
