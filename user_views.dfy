// The user endpoints (views/user.py): which users a requester can address, and the guard
// chains of `set_role`, `create`, `destroy` and `change_password`, with the stored users
// they change. The guards are pure decisions; `UserDirectory` applies them to its table
// in place. The requester is the stored user `me`. Hashing is abstract: a password is
// checked by comparing it with the stored value.
module UserViews {
  import opened Wrappers
  import opened Roles
  import opened AccessPermissions
  import opened UserModel
  import opened UserSerializer

  /** A response: a `{"detail": ...}` body, a rendered user, or an empty body. */
  datatype Reply = Detail(status: int, detail: string) | UserData(status: int, user: UserRec) | Empty(status: int)

  const NoPermission := "You do not have permission to perform this action."
  const NotFound := "Not found."
  const RoleRequired := "Role name is required"
  const OnlyOwnersGrantOwner := "Only owners can assign the owner role"
  const OnlyAdminsGrantAdmin := "Only owners and admins can assign the admin role"
  const NotOwnRole := "You cannot change your own role"
  const OneOwner := "There can only be one system owner. Transfer ownership from the current owner first."
  const OwnerNotDemoted := "Cannot demote the system owner. Transfer ownership to another user first."
  const NotSelfDelete := "You cannot delete your own account"
  const OwnerNotDeleted := "System owners cannot be deleted for security reasons"
  const NoPasswordPermission := "You don't have permission to change this user's password"
  const PasswordsRequired := "Current and new password are required"
  const PasswordIncorrect := "Current password is incorrect"
  const PasswordChanged := "Password changed successfully"

  function RoleMissing(name: string): string
  {
    "Role '" + name + "' does not exist"
  }

  function InvalidPk(name: string): string
  {
    "Invalid pk \"" + name + "\" - object does not exist."
  }

  /** A stored user as the permission classes see it. */
  function AsRequester(u: UserRec): Requester
  {
    Requester(true, u.role)
  }

  predicate IsOwnerUser(u: UserRec)
  {
    u.role.Some? && u.role.value.name == "owner"
  }

  /** Some stored user other than `id` holds the owner role. */
  predicate OtherOwner(users: Users, id: nat)
  {
    exists k :: k in users && k != id && IsOwnerUser(users[k])
  }

  /** The invariant the guards are there to keep. */
  predicate AtMostOneOwner(users: Users)
  {
    forall a, b :: a in users && b in users && IsOwnerUser(users[a]) && IsOwnerUser(users[b]) ==> a == b
  }

  /** The roles table is keyed by role name (the name is its primary key). */
  predicate KeyedByName(roles: RoleTable)
  {
    forall n :: n in roles ==> roles[n].name == n
  }

  /** `get_queryset`: does the requester see every user, or only itself? */
  predicate SeesAll(me: UserRec)
  {
    me.role.Some? && (me.role.value.name in ["owner", "admin"] || me.isStaff || me.isSuperuser
                      || me.role.value.canManageUsers)
  }

  /** `get_object`: the user `pk` when it is in the requester's queryset. */
  function GetObject(users: Users, me: nat, pk: nat): (r: Option<UserRec>)
    requires me in users
    ensures r.Some? <==> pk in users && (pk == me || SeesAll(users[me]))
    ensures r.Some? ==> r.value == users[pk]
  {
    if pk in users && (pk == me || SeesAll(users[me])) then Some(users[pk]) else None
  }

  /** Anyone allowed to manage users sees all of them, so for the managing actions
      `get_object` only fails on an unknown id; without a role a requester sees only
      itself, even when staff. */
  lemma ManagersSeeAll(users: Users, me: nat, pk: nat)
    requires me in users
    ensures CanManageUsers(AsRequester(users[me])) ==> (GetObject(users, me, pk).Some? <==> pk in users)
    ensures users[me].role.None? ==> (GetObject(users, me, pk).Some? <==> pk == me)
  {
  }

  /** What `set_role` decides before touching anything. */
  datatype Decision = Refuse(reply: Reply) | Assign(role: Role)

  /** The guards of `set_role`, in the order they are tried. */
  function SetRoleGuard(users: Users, roles: RoleTable, me: nat, pk: nat, roleName: Option<string>): (d: Decision)
    requires me in users
    ensures d.Assign? ==> pk in users && pk != me && roleName.Some? && roleName.value in roles
                          && d.role == roles[roleName.value]
  {
    var requester := users[me];
    if !CanManageUsers(AsRequester(requester)) then Refuse(Detail(403, NoPermission))
    else if GetObject(users, me, pk).None? then Refuse(Detail(404, NotFound))
    else if roleName.None? || roleName.value == "" then Refuse(Detail(400, RoleRequired))
    else if roleName.value !in roles then Refuse(Detail(400, RoleMissing(roleName.value)))
    else
      var role := roles[roleName.value];
      var mine := requester.role.value.name;
      if role.name == "owner" && mine != "owner" then Refuse(Detail(403, OnlyOwnersGrantOwner))
      else if role.name == "admin" && mine !in ["owner", "admin"] then Refuse(Detail(403, OnlyAdminsGrantAdmin))
      else if pk == me then Refuse(Detail(403, NotOwnRole))
      else if role.name == "owner" && OtherOwner(users, pk) then Refuse(Detail(400, OneOwner))
      else if IsOwnerUser(users[pk]) && role.name != "owner" && !OtherOwner(users, pk)
      then Refuse(Detail(400, OwnerNotDemoted))
      else Assign(role)
  }

  /** The user after `set_role` assigns `role`: the role, and the staff and superuser flags
      that go with it. */
  function Assigned(u: UserRec, role: Role): (r: UserRec)
    ensures r.role == Some(role)
    ensures r.isStaff <==> role.name == "owner" || role.name == "admin"
    ensures r.isSuperuser <==> role.name == "owner"
    ensures r.username == u.username && r.email == u.email && r.password == u.password && r.isActive == u.isActive
  {
    if role.name == "owner" then u.(role := Some(role), isStaff := true, isSuperuser := true)
    else if role.name == "admin" then u.(role := Some(role), isStaff := true, isSuperuser := false)
    else u.(role := Some(role), isStaff := false, isSuperuser := false)
  }

  /** `set_role`: the response and the stored users afterwards. */
  function SetRoleOutcome(users: Users, roles: RoleTable, me: nat, pk: nat, roleName: Option<string>): (Reply, Users)
    requires me in users
  {
    match SetRoleGuard(users, roles, me, pk, roleName)
    case Refuse(reply) => (reply, users)
    case Assign(role) =>
      var u := Assigned(users[pk], role);
      (UserData(200, u), users[pk := u])
  }

  /** A refused `set_role` changes nothing; an accepted one changes only user `pk`, giving
      it the named role with its flags, and answers 200. */
  lemma SetRoleEffect(users: Users, roles: RoleTable, me: nat, pk: nat, roleName: Option<string>)
    requires me in users
    ensures var (reply, users') := SetRoleOutcome(users, roles, me, pk, roleName);
            && (reply.status != 200 ==> users' == users)
            && (reply.status == 200 ==>
                  pk in users && pk != me && roleName.Some? && roleName.value in roles
                  && users' == users[pk := Assigned(users[pk], roles[roleName.value])])
  {
  }

  /** The refusals: no role name gives 400; only an owner grants owner; only an owner or an
      admin grants admin; nobody changes their own role. */
  lemma SetRoleRefusals(users: Users, roles: RoleTable, me: nat, pk: nat, roleName: Option<string>)
    requires me in users
    ensures CanManageUsers(AsRequester(users[me])) && pk in users && (roleName.None? || roleName == Some(""))
            ==> SetRoleOutcome(users, roles, me, pk, roleName) == (Detail(400, RoleRequired), users)
    ensures var (reply, _) := SetRoleOutcome(users, roles, me, pk, roleName);
            reply.status == 200 ==>
              var role := roles[roleName.value];
              && pk != me
              && (role.name == "owner" ==> users[me].role.value.name == "owner")
              && (role.name == "admin" ==> users[me].role.value.name in ["owner", "admin"])
  {
    if CanManageUsers(AsRequester(users[me])) && pk in users {
      ManagersSeeAll(users, me, pk);
    }
  }

  /** `set_role` keeps at most one owner, and while that holds the owner is never demoted. */
  lemma SetRoleKeepsOneOwner(users: Users, roles: RoleTable, me: nat, pk: nat, roleName: Option<string>)
    requires me in users && AtMostOneOwner(users)
    ensures AtMostOneOwner(SetRoleOutcome(users, roles, me, pk, roleName).1)
    ensures forall k :: k in users && IsOwnerUser(users[k]) ==> IsOwnerUser(SetRoleOutcome(users, roles, me, pk, roleName).1[k])
  {
    var d := SetRoleGuard(users, roles, me, pk, roleName);
    if d.Assign? {
      var role := d.role;
      var users' := users[pk := Assigned(users[pk], role)];
      forall a, b | a in users' && b in users' && IsOwnerUser(users'[a]) && IsOwnerUser(users'[b])
        ensures a == b
      {
        if a != pk && b != pk {
          assert IsOwnerUser(users[a]) && IsOwnerUser(users[b]);
        } else if a == pk && b != pk {
          assert OtherOwner(users, pk) by { assert IsOwnerUser(users[b]); }
        } else if b == pk && a != pk {
          assert OtherOwner(users, pk) by { assert IsOwnerUser(users[a]); }
        }
      }
      forall k | k in users && IsOwnerUser(users[k])
        ensures IsOwnerUser(users'[k])
      {
        if k == pk && role.name != "owner" {
          assert false;
        }
      }
    }
  }

  /** The request of `create`: the user fields and the role name posted. */
  datatype NewUser = NewUser(username: string, email: string, password: string, roleName: Option<string>)

  /** `create`: the permission check, the single-owner guard, the serializer's checks, then
      `create_user` under the fresh id `newId`. */
  function CreateAction(users: Users, roles: RoleTable, me: nat, req: NewUser, newId: nat): (r: (Reply, Users))
    requires me in users && newId !in users
    ensures r.0.status == 201 <==> r.1 != users
    ensures r.0.status == 201 ==> r.1.Keys == users.Keys + {newId} && r.1 == users[newId := r.1[newId]]
  {
    if !CanManageUsers(AsRequester(users[me])) then (Detail(403, NoPermission), users)
    else if req.roleName == Some("owner") && exists k :: k in users && IsOwnerUser(users[k])
    then (Detail(400, OneOwner), users)
    else
      match ValidateUsername(req.username, users, None)
      case Err(e) => (Detail(400, e), users)
      case Ok(name) =>
        if req.roleName.Some? && req.roleName.value !in roles then (Detail(400, InvalidPk(req.roleName.value)), users)
        else
          var role := if req.roleName.Some? then Some(roles[req.roleName.value]) else None;
          match Create(ValidatedData(name, req.email, req.password, role, map[]))
          case Err(e) => (Detail(500, e), users)
          case Ok(u) => (UserData(201, u), users[newId := u])
  }

  /** `create` never adds a second owner. */
  lemma CreateKeepsOneOwner(users: Users, roles: RoleTable, me: nat, req: NewUser, newId: nat)
    requires me in users && newId !in users && AtMostOneOwner(users) && KeyedByName(roles)
    ensures AtMostOneOwner(CreateAction(users, roles, me, req, newId).1)
  {
    var (reply, users') := CreateAction(users, roles, me, req, newId);
    if reply.status == 201 {
      var u := users'[newId];
      if IsOwnerUser(u) {
        CreatedOwnerIsFirst(users, roles, me, req, newId);
      } else {
        forall a, b | a in users' && b in users' && IsOwnerUser(users'[a]) && IsOwnerUser(users'[b])
          ensures a == b
        {
          assert a != newId && b != newId;
          assert IsOwnerUser(users[a]) && IsOwnerUser(users[b]);
        }
      }
    }
  }

  /** A user created as owner was asked for as owner, and there was no owner before. */
  lemma CreatedOwnerIsFirst(users: Users, roles: RoleTable, me: nat, req: NewUser, newId: nat)
    requires me in users && newId !in users && KeyedByName(roles)
    requires CreateAction(users, roles, me, req, newId).0.status == 201
    requires IsOwnerUser(CreateAction(users, roles, me, req, newId).1[newId])
    ensures req.roleName == Some("owner") && forall k :: k in users ==> !IsOwnerUser(users[k])
  {
    var name := ValidateUsername(req.username, users, None).value;
    var role := if req.roleName.Some? then Some(roles[req.roleName.value]) else None;
    var u := Create(ValidatedData(name, req.email, req.password, role, map[])).value;
    assert CreateAction(users, roles, me, req, newId).1[newId] == u;
    assert u.role == role;
  }

  /** `destroy`: self-deletion and deleting an owner are refused. */
  function DestroyOutcome(users: Users, me: nat, pk: nat): (r: (Reply, Users))
    requires me in users
    ensures r.0 == Empty(204) <==> r.1 != users
    ensures r.0 == Empty(204) ==> pk in users && pk != me && !IsOwnerUser(users[pk]) && r.1 == users - {pk}
  {
    if !CanManageUsers(AsRequester(users[me])) then (Detail(403, NoPermission), users)
    else if GetObject(users, me, pk).None? then (Detail(404, NotFound), users)
    else if pk == me then (Detail(403, NotSelfDelete), users)
    else if IsOwnerUser(users[pk]) then (Detail(403, OwnerNotDeleted), users)
    else
      assert pk in users;
      (Empty(204), users - {pk})
  }

  /** Deleting never removes an owner or the requester, so the owners afterwards are the
      owners before. */
  lemma DestroyKeepsOwners(users: Users, me: nat, pk: nat)
    requires me in users
    ensures var users' := DestroyOutcome(users, me, pk).1;
            me in users' && forall k :: k in users && IsOwnerUser(users[k]) ==> k in users' && users'[k] == users[k]
    ensures AtMostOneOwner(users) ==> AtMostOneOwner(DestroyOutcome(users, me, pk).1)
  {
  }

  /** `change_password`: only the user itself or a staff member may change it, both
      passwords must be given, and the current one must match. */
  function ChangePasswordOutcome(users: Users, me: nat, pk: nat, current: Option<string>, newPassword: Option<string>)
    : (r: (Reply, Users))
    requires me in users
  {
    if GetObject(users, me, pk).None? then (Detail(404, NotFound), users)
    else if pk != me && !users[me].isStaff then (Detail(403, NoPasswordPermission), users)
    else if current.None? || current == Some("") || newPassword.None? || newPassword == Some("")
    then (Detail(400, PasswordsRequired), users)
    else if users[pk].password != Some(current.value) then (Detail(400, PasswordIncorrect), users)
    else (Detail(200, PasswordChanged), users[pk := users[pk].(password := Some(newPassword.value))])
  }

  /** A password changes only for oneself or by staff, only with the right current password,
      and only the one user's password changes. */
  lemma ChangePasswordRule(users: Users, me: nat, pk: nat, current: Option<string>, newPassword: Option<string>)
    requires me in users
    ensures var (reply, users') := ChangePasswordOutcome(users, me, pk, current, newPassword);
            && (reply.status != 200 ==> users' == users)
            && (reply.status == 200 ==>
                  pk in users && (pk == me || users[me].isStaff)
                  && current.Some? && users[pk].password == Some(current.value)
                  && newPassword.Some? && newPassword.value != ""
                  && users' == users[pk := users[pk].(password := Some(newPassword.value))])
    ensures pk in users && (pk == me || SeesAll(users[me])) && (pk == me || users[me].isStaff)
            && current.Some? && current.value != "" && newPassword.Some? && newPassword.value != ""
            && users[pk].password != Some(current.value)
            ==> ChangePasswordOutcome(users, me, pk, current, newPassword) == (Detail(400, PasswordIncorrect), users)
  {
  }

  /** The stored users, updated in place by the endpoints. */
  class UserDirectory {
    var users: Users

    constructor (initial: Users)
      ensures users == initial
    {
      users := initial;
    }

    /** `UserViewSet.set_role`: decide, then set the role and the two flags on the user. */
    method SetRole(roles: RoleTable, me: nat, pk: nat, roleName: Option<string>) returns (reply: Reply)
      requires me in users
      modifies this
      ensures (reply, users) == SetRoleOutcome(old(users), roles, me, pk, roleName)
    {
      var d := SetRoleGuard(users, roles, me, pk, roleName);
      if d.Refuse? {
        return d.reply;
      }
      var role := d.role;
      var user := users[pk];
      user := user.(role := Some(role));
      if role.name == "owner" {
        user := user.(isStaff := true);
        user := user.(isSuperuser := true);
      } else if role.name == "admin" {
        user := user.(isStaff := true);
        user := user.(isSuperuser := false);
      } else {
        user := user.(isStaff := false);
        user := user.(isSuperuser := false);
      }
      users := users[pk := user];
      reply := UserData(200, user);
    }

    /** `UserViewSet.destroy`. */
    method Destroy(me: nat, pk: nat) returns (reply: Reply)
      requires me in users
      modifies this
      ensures (reply, users) == DestroyOutcome(old(users), me, pk)
    {
      var r := DestroyOutcome(users, me, pk);
      reply := r.0;
      if reply == Empty(204) {
        users := users - {pk};
      }
    }

    /** `UserViewSet.change_password`: `set_password` then `save` on the one user. */
    method ChangePassword(me: nat, pk: nat, current: Option<string>, newPassword: Option<string>) returns (reply: Reply)
      requires me in users
      modifies this
      ensures (reply, users) == ChangePasswordOutcome(old(users), me, pk, current, newPassword)
    {
      var r := ChangePasswordOutcome(users, me, pk, current, newPassword);
      reply := r.0;
      if reply.status == 200 {
        var user := users[pk];
        user := user.(password := Some(newPassword.value));
        users := users[pk := user];
      }
    }
  }
}
