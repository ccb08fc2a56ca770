// User roles (models/role.py): the role row, the table of default roles, and
// `create_default_roles`, which inserts each default role that is missing. Role names are
// the primary key; priorities are unique.
module Roles {

  datatype Role = Role(
    name: string, description: string, priority: int,
    canManageUsers: bool, canManageSystem: bool, canManageNetwork: bool, canViewAllData: bool)

  const OwnerName: string := "Владелец"
  const AdminName: string := "Администратор"
  const ManagerName: string := "Менеджер"
  const UserName: string := "Пользователь"

  const DefaultRoles: seq<Role> := [
    Role(OwnerName, "Владелец системы с полными правами администратора", 1, true, true, true, true),
    Role(AdminName, "Администратор — администратор с повышенными правами доступа к системе.", 2, true, true, true, true),
    Role(ManagerName, "Менеджер с ограниченными административными привилегиями", 3, false, true, true, true),
    Role(UserName, "Стандартный пользователь с базовым доступом", 4, false, false, false, false)]

  /** Every flag of `b` is also a flag of `a`. */
  predicate FlagsCover(a: Role, b: Role)
  {
    (b.canManageUsers ==> a.canManageUsers) && (b.canManageSystem ==> a.canManageSystem)
    && (b.canManageNetwork ==> a.canManageNetwork) && (b.canViewAllData ==> a.canViewAllData)
  }

  predicate AllFlags(r: Role)
  {
    r.canManageUsers && r.canManageSystem && r.canManageNetwork && r.canViewAllData
  }

  predicate NoFlags(r: Role)
  {
    !r.canManageUsers && !r.canManageSystem && !r.canManageNetwork && !r.canViewAllData
  }

  /** The default table: four roles with distinct names and the priorities 1 to 4; owner and
      admin hold every flag, the manager every flag but user management, the user none; and
      a smaller priority number never has fewer flags. */
  lemma DefaultRolesTable()
    ensures |DefaultRoles| == 4
    ensures forall i :: 0 <= i < 4 ==> DefaultRoles[i].priority == i + 1
    ensures forall i, j :: 0 <= i < j < 4 ==> DefaultRoles[i].name != DefaultRoles[j].name
    ensures AllFlags(DefaultRoles[0]) && AllFlags(DefaultRoles[1]) && NoFlags(DefaultRoles[3])
    ensures var m := DefaultRoles[2];
            !m.canManageUsers && m.canManageSystem && m.canManageNetwork && m.canViewAllData
    ensures forall i, j :: 0 <= i < 4 && 0 <= j < 4 && DefaultRoles[i].priority < DefaultRoles[j].priority
                           ==> FlagsCover(DefaultRoles[i], DefaultRoles[j])
  {
    assert OwnerName != AdminName && OwnerName != ManagerName && OwnerName != UserName;
    assert AdminName != ManagerName && AdminName != UserName && ManagerName != UserName;
  }

  /** The role table, keyed by name. */
  type RoleTable = map<string, Role>

  /** One `get_or_create`: an existing name is left as it is; a new row whose priority is
      taken fails the unique constraint (`false`); otherwise the row is inserted. */
  function GetOrCreate(t: RoleTable, r: Role): (res: (RoleTable, bool))
    ensures r.name in t ==> res == (t, true)
    ensures res.1 ==> r.name in res.0 && res.0.Keys == t.Keys + {r.name}
    ensures forall k :: k in t ==> k in res.0 && res.0[k] == t[k]
    ensures !res.1 ==> res.0 == t
  {
    if r.name in t then (t, true)
    else if exists k :: k in t && t[k].priority == r.priority then (t, false)
    else (t[r.name := r], true)
  }

  /** `create_default_roles` over the rows `rs`, in order, stopping at the first error. */
  function CreateRoles(t: RoleTable, rs: seq<Role>): (res: (RoleTable, bool))
  {
    if |rs| == 0 then (t, true)
    else
      var prev := CreateRoles(t, rs[..|rs| - 1]);
      if !prev.1 then prev else GetOrCreate(prev.0, rs[|rs| - 1])
  }

  /** Existing roles are never modified, and after a run without error every default name
      is in the table. */
  lemma {:induction false} CreateRolesKeeps(t: RoleTable, rs: seq<Role>)
    ensures var res := CreateRoles(t, rs);
            && (forall k :: k in t ==> k in res.0 && res.0[k] == t[k])
            && (res.1 ==> forall i :: 0 <= i < |rs| ==> rs[i].name in res.0)
  {
    if |rs| > 0 {
      var init := rs[..|rs| - 1];
      CreateRolesKeeps(t, init);
      var prev := CreateRoles(t, init);
      if prev.1 {
        var res := GetOrCreate(prev.0, rs[|rs| - 1]);
        if res.1 {
          forall i | 0 <= i < |rs|
            ensures rs[i].name in res.0
          {
            if i < |rs| - 1 {
              assert rs[i] == init[i];
            }
          }
        }
      }
    }
  }

  /** When every role of `rs` is already present, nothing changes. */
  lemma {:induction false} CreateRolesPresent(t: RoleTable, rs: seq<Role>)
    requires forall i :: 0 <= i < |rs| ==> rs[i].name in t
    ensures CreateRoles(t, rs) == (t, true)
  {
    if |rs| > 0 {
      CreateRolesPresent(t, rs[..|rs| - 1]);
    }
  }

  /** `create_default_roles` is idempotent: a second run after a successful one changes
      nothing and succeeds. */
  lemma CreateDefaultRolesIdempotent(t: RoleTable)
    requires CreateRoles(t, DefaultRoles).1
    ensures CreateRoles(CreateRoles(t, DefaultRoles).0, DefaultRoles) == (CreateRoles(t, DefaultRoles).0, true)
  {
    CreateRolesKeeps(t, DefaultRoles);
    CreateRolesPresent(CreateRoles(t, DefaultRoles).0, DefaultRoles);
  }

  /** On an empty table the default roles are all inserted as given. */
  lemma CreateDefaultRolesFresh()
    ensures var res := CreateRoles(map[], DefaultRoles);
            && res.1
            && res.0.Keys == {OwnerName, AdminName, ManagerName, UserName}
            && forall i :: 0 <= i < 4 ==> res.0[DefaultRoles[i].name] == DefaultRoles[i]
  {
    DefaultRolesTable();
    var rs := DefaultRoles;
    var t1 := map[OwnerName := rs[0]];
    var t2 := t1[AdminName := rs[1]];
    var t3 := t2[ManagerName := rs[2]];
    var t4 := t3[UserName := rs[3]];
    assert rs[..0] == [];
    assert rs[..1][..0] == [];
    assert CreateRoles(map[], rs[..1]) == (t1, true);
    assert rs[..2][..1] == rs[..1];
    assert CreateRoles(map[], rs[..2]) == (t2, true);
    assert rs[..3][..2] == rs[..2];
    assert CreateRoles(map[], rs[..3]) == (t3, true);
    assert rs[..4][..3] == rs[..3];
    assert rs[..4] == rs;
    assert CreateRoles(map[], rs) == (t4, true);
  }

  /** The role table as stored. */
  class RoleStore {
    var roles: RoleTable

    constructor (initial: RoleTable)
      ensures roles == initial
    {
      roles := initial;
    }

    /** `UserRole.create_default_roles`: `get_or_create` for each default row in turn; an
        integrity error ends the loop, leaving the rows inserted before it. */
    method CreateDefaultRoles() returns (ok: bool)
      modifies this
      ensures (roles, ok) == CreateRoles(old(roles), DefaultRoles)
    {
      var i := 0;
      ok := true;
      while i < |DefaultRoles|
        invariant 0 <= i <= |DefaultRoles|
        invariant (roles, true) == CreateRoles(old(roles), DefaultRoles[..i])
      {
        assert DefaultRoles[..i + 1][..i] == DefaultRoles[..i];
        var res := GetOrCreate(roles, DefaultRoles[i]);
        roles := res.0;
        if !res.1 {
          ok := false;
          assert (roles, ok) == CreateRoles(old(roles), DefaultRoles[..i + 1]);
          CreateRolesStops(old(roles), DefaultRoles, i + 1);
          return;
        }
        i := i + 1;
      }
      assert DefaultRoles[..i] == DefaultRoles;
    }
  }

  /** Once a run has failed, the remaining rows change nothing. */
  lemma {:induction false} CreateRolesStops(t: RoleTable, rs: seq<Role>, k: nat)
    requires k <= |rs| && !CreateRoles(t, rs[..k]).1
    ensures CreateRoles(t, rs) == CreateRoles(t, rs[..k])
    decreases |rs| - k
  {
    if k < |rs| {
      assert rs[..k + 1][..k] == rs[..k];
      CreateRolesStops(t, rs, k + 1);
    } else {
      assert rs[..k] == rs;
    }
  }
}
