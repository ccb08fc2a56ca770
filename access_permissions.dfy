// The role-based permission classes (permissions/access_permissions.py). Each
// `has_permission` requires an authenticated user with a role and then tests the role's
// name against the literal English names, or a flag of the role.
module AccessPermissions {
  import opened Wrappers
  import opened Roles

  /** The `request.user` a permission sees: whether it is authenticated, and its role. */
  datatype Requester = Requester(authenticated: bool, role: Option<Role>)

  predicate HasRole(u: Requester)
  {
    u.authenticated && u.role.Some?
  }

  predicate IsOwner(u: Requester)
  {
    HasRole(u) && u.role.value.name == "owner"
  }

  predicate IsAdmin(u: Requester)
  {
    HasRole(u) && u.role.value.name in ["admin", "owner"]
  }

  predicate IsManager(u: Requester)
  {
    HasRole(u) && u.role.value.name in ["manager", "admin", "owner"]
  }

  predicate CanManageUsers(u: Requester)
  {
    HasRole(u) && (u.role.value.canManageUsers || u.role.value.name in ["admin", "owner"])
  }

  predicate CanManageSystem(u: Requester)
  {
    HasRole(u) && (u.role.value.canManageSystem || u.role.value.name in ["admin", "owner"])
  }

  predicate CanManageNetwork(u: Requester)
  {
    HasRole(u) && (u.role.value.canManageNetwork || u.role.value.name in ["admin", "owner"])
  }

  /** `getattr(role, 'can_view_logs', False)`: the role row has no such column, so the
      attribute is always missing and reads as false. */
  function ViewLogsAttribute(r: Role): (b: bool)
    ensures !b
  {
    false
  }

  predicate CanViewLogs(u: Requester)
  {
    HasRole(u) && (ViewLogsAttribute(u.role.value) || u.role.value.name in ["admin", "owner"])
  }

  /** Every permission is refused without an authenticated user that has a role. */
  lemma NothingWithoutRole(u: Requester)
    requires !HasRole(u)
    ensures !IsOwner(u) && !IsAdmin(u) && !IsManager(u)
    ensures !CanManageUsers(u) && !CanManageSystem(u) && !CanManageNetwork(u) && !CanViewLogs(u)
  {
  }

  /** The hierarchy: an owner is an admin, an admin is a manager, and an admin passes every
      capability check whatever the role's flags. */
  lemma Hierarchy(u: Requester)
    ensures IsOwner(u) ==> IsAdmin(u)
    ensures IsAdmin(u) ==> IsManager(u)
    ensures IsAdmin(u) ==> CanManageUsers(u) && CanManageSystem(u) && CanManageNetwork(u) && CanViewLogs(u)
  {
  }

  /** Reading logs is reserved for the admin and owner names. */
  lemma ViewLogsOnlyAdmins(u: Requester)
    ensures CanViewLogs(u) <==> IsAdmin(u)
  {
  }

  lemma DefaultNamesAreNotEnglish(r: Role)
    requires r in DefaultRoles
    ensures r.name != "owner" && r.name != "admin" && r.name != "manager"
  {
  }

  /** The default roles carry Russian names, so a user holding one of them is never owner,
      admin or manager by name: only the flags of the role grant anything, and reading logs
      is never granted. */
  lemma DefaultRolesPassOnFlags(u: Requester)
    requires HasRole(u) && u.role.value in DefaultRoles
    ensures !IsOwner(u) && !IsAdmin(u) && !IsManager(u) && !CanViewLogs(u)
    ensures CanManageUsers(u) <==> u.role.value.canManageUsers
    ensures CanManageSystem(u) <==> u.role.value.canManageSystem
    ensures CanManageNetwork(u) <==> u.role.value.canManageNetwork
  {
    DefaultNamesAreNotEnglish(u.role.value);
  }
}
