/**
 * RolesGuard: whether the identity on a request may run a handler whose
 * `@Roles(...)` metadata names `required`. The identity's `role` and `roles`
 * are the strings carried in the request (RequestWithUser); required roles
 * are enum members, compared by their string value.
 */
module RolesGuard {
  import opened Wrappers
  import opened Domain

  /** `request.user` as the guard reads it. */
  datatype RequestUser = RequestUser(role: Option<string>, roles: Option<seq<string>>)

  /**
   * The roles the guard compares against: `roles` whenever that field is
   * present (an array is truthy even when empty), otherwise `[role]` for a
   * truthy role, otherwise none.
   */
  function EffectiveRoles(u: RequestUser): (roles: seq<string>)
    ensures u.roles.Some? ==> roles == u.roles.value
    ensures u.roles.None? && Truthy(u.role) ==> roles == [u.role.value]
    ensures u.roles.None? && !Truthy(u.role) ==> roles == []
  {
    if u.roles.Some? then u.roles.value else if Truthy(u.role) then [u.role.value] else []
  }

  /** `requiredRoles.some(role => userRoles.includes(role))`. */
  function SomeRequiredHeld(required: seq<Role>, held: seq<string>): (b: bool)
    ensures b <==> exists i | 0 <= i < |required| :: RoleName(required[i]) in held
  {
    if required == [] then false
    else RoleName(required[0]) in held || SomeRequiredHeld(required[1..], held)
  }

  /** canActivate, branch by branch. */
  function CanActivate(required: Option<seq<Role>>, user: Option<RequestUser>): (allowed: bool)
    ensures required.None? || required.value == [] ==> allowed
    ensures required.Some? && required.value != [] && user.None? ==> !allowed
    ensures (required.Some? && required.value != [] && user.Some? && !Truthy(user.value.role) &&
             (user.value.roles.None? || user.value.roles.value == [])) ==> !allowed
  {
    if required.None? || |required.value| == 0 then true
    else if user.None? then false
    else if !Truthy(user.value.role) && (user.value.roles.None? || |user.value.roles.value| == 0) then false
    else SomeRequiredHeld(required.value, EffectiveRoles(user.value))
  }

  /**
   * What the guard is meant to decide, stated on its own: no roles required,
   * or an identity holding one of them among its effective roles.
   */
  predicate Permits(required: Option<seq<Role>>, user: Option<RequestUser>) {
    required.None? || required.value == [] ||
    (user.Some? && exists r | r in required.value :: RoleName(r) in EffectiveRoles(user.value))
  }

  /** The branch chain decides exactly `Permits`: the check for an identity without any role is subsumed by the intersection. */
  lemma CanActivateIsPermits(required: Option<seq<Role>>, user: Option<RequestUser>)
    ensures CanActivate(required, user) <==> Permits(required, user)
  {
    if required.Some? && required.value != [] && user.Some? {
      var held := EffectiveRoles(user.value);
      if CanActivate(required, user) {
        var i :| 0 <= i < |required.value| && RoleName(required.value[i]) in held;
        assert required.value[i] in required.value;
      }
      if Permits(required, user) {
        var r :| r in required.value && RoleName(r) in held;
        var i :| 0 <= i < |required.value| && required.value[i] == r;
        assert held != [];
      }
    }
  }

  /** A present `roles` array overrides `role` even when empty: ADMIN with `roles = []` is refused an ADMIN route. */
  lemma EmptyRolesOverrideRole(required: seq<Role>, role: string)
    requires required != []
    ensures !CanActivate(Some(required), Some(RequestUser(Some(role), Some([]))))
  {
  }

  /** With `roles` absent, a truthy `role` is admitted exactly to the routes that list it. */
  lemma SingleRoleAdmission(required: seq<Role>, r: Role)
    ensures CanActivate(Some(required), Some(RequestUser(Some(RoleName(r)), None))) <==> required == [] || r in required
  {
    if r in required {
      var i :| 0 <= i < |required| && required[i] == r;
    }
    if CanActivate(Some(required), Some(RequestUser(Some(RoleName(r)), None))) && required != [] {
      var i :| 0 <= i < |required| && RoleName(required[i]) in [RoleName(r)];
      assert ParseRole(RoleName(required[i])) == ParseRole(RoleName(r));
    }
  }
}
