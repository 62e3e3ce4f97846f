/** src/api/auth/role.guard.ts: `RolesGuard.canActivate`, the required roles of a route
    against the roles of the user attached to the request. Roles are the strings of
    `RoleEnum`. */
module RoleGuard {
  import opened Wrappers
  import AuthGuard

  /** `reflector.getAllAndOverride(ROLES_KEY, [handler, class])`: the first metadata that is
      defined, the handler's before the class's. */
  function RequiredRoles(handler: Option<seq<string>>, cls: Option<seq<string>>): (r: Option<seq<string>>)
    ensures handler.Some? ==> r == handler
    ensures handler.None? ==> r == cls
  {
    if handler.Some? then handler else cls
  }

  /** `user.roles?.some((role) => roles.includes(role))`; None stands for undefined roles. */
  function SomeRoleRequired(userRoles: Option<seq<string>>, required: seq<string>): (b: bool)
    ensures b <==> userRoles.Some? && exists k :: 0 <= k < |userRoles.value| && userRoles.value[k] in required
  {
    match userRoles
    case None => false
    case Some(roles) => AnyIn(roles, required)
  }

  function AnyIn(roles: seq<string>, required: seq<string>): (b: bool)
    ensures b <==> exists k :: 0 <= k < |roles| && roles[k] in required
  {
    if roles == [] then false
    else
      assert forall k :: 1 <= k < |roles| ==> roles[k] == roles[1..][k - 1];
      roles[0] in required || AnyIn(roles[1..], required)
  }

  /** `canActivate`: `true`, or Forbidden. */
  function CanActivate(handler: Option<seq<string>>, cls: Option<seq<string>>,
                       userRoles: Option<seq<string>>): (r: Result<bool>)
    ensures r.Ok? ==> r.value
    ensures r.Err? ==> r.error == Forbidden
    ensures handler.None? && cls.None? ==> r.Ok?
    ensures r.Ok? <==>
      var required := if handler.Some? then handler else cls;
      required.None? ||
      (userRoles.Some? && exists k :: 0 <= k < |userRoles.value| && userRoles.value[k] in required.value)
  {
    match RequiredRoles(handler, cls)
    case None => Ok(true)
    case Some(roles) =>
      if !SomeRoleRequired(userRoles, roles) then Err(Forbidden) else Ok(true)
  }

  /** An empty list of required roles is still metadata: it refuses every user. */
  lemma EmptyRequirementRefusesAll(cls: Option<seq<string>>, userRoles: Option<seq<string>>)
    ensures CanActivate(Some([]), cls, userRoles) == Err(Forbidden)
  {
  }

  /** A user with no roles, or whose roles are undefined, is refused whenever any roles are
      required. */
  lemma RolelessUserRefused(handler: Option<seq<string>>, cls: Option<seq<string>>, userRoles: Option<seq<string>>)
    requires handler.Some? || cls.Some?
    requires userRoles.None? || userRoles == Some([])
    ensures CanActivate(handler, cls, userRoles) == Err(Forbidden)
  {
  }

  /** The handler's metadata wins over the class's, whatever the class requires. */
  lemma HandlerOverridesClass(handler: seq<string>, cls: Option<seq<string>>, cls': Option<seq<string>>,
                              userRoles: Option<seq<string>>)
    ensures CanActivate(Some(handler), cls, userRoles) == CanActivate(Some(handler), cls', userRoles)
  {
  }

  /** Holding a required role is enough, whatever else the user holds. */
  lemma {:induction false} HoldingARoleSuffices(handler: Option<seq<string>>, cls: Option<seq<string>>,
                                                roles: seq<string>, role: string, others: seq<string>)
    requires var required := RequiredRoles(handler, cls); required.Some? && role in required.value
    requires role in roles
    ensures CanActivate(handler, cls, Some(others + roles)).Ok?
  {
    var k :| 0 <= k < |roles| && roles[k] == role;
    assert (others + roles)[|others| + k] == role;
  }

  /** `user.roles` of the principal the later guard attaches: it has only `id` and
      `email`, so the property is undefined. */
  function RolesOf(p: AuthGuard.Principal): Option<seq<string>>
  {
    None
  }

  /** Behind the later guard, every route that requires roles is refused. */
  lemma GuardPrincipalRefused(handler: Option<seq<string>>, cls: Option<seq<string>>, p: AuthGuard.Principal)
    requires handler.Some? || cls.Some?
    ensures CanActivate(handler, cls, RolesOf(p)) == Err(Forbidden)
  {
  }
}
