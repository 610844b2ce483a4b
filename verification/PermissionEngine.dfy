/** The in-memory permission service and the loops of its resolver. */
module PermissionEngine {
  import opened Wrappers
  import opened Order
  import opened Permissions

  /** `effective_capabilities` */
  method EffectiveCapabilities(p: ActorPermissions, category: Option<string>) returns (capabilities: set<Capability>)
    ensures capabilities == Effective(p, category)
  {
    capabilities := TrustCapabilities(p.trustLevel);
    hide TrustCapabilities, SetOf;
    for i := 0 to |p.globalRoles|
      invariant capabilities == TrustCapabilities(p.trustLevel) + CapabilitiesOf(p.globalRoles[..i])
    {
      assert p.globalRoles[..i + 1][..i] == p.globalRoles[..i];
      capabilities := capabilities + SetOf(p.globalRoles[i].capabilities);
    }
    assert p.globalRoles[..|p.globalRoles|] == p.globalRoles;
    if category.Some? {
      ghost var global := capabilities;
      for i := 0 to |p.categoryRoles|
        invariant capabilities == global + ScopedCapabilities(p.categoryRoles[..i], category.value)
      {
        assert p.categoryRoles[..i + 1][..i] == p.categoryRoles[..i];
        if p.categoryRoles[i].categoryId == category.value {
          capabilities := capabilities + SetOf(p.categoryRoles[i].role.capabilities);
        }
      }
      assert p.categoryRoles[..|p.categoryRoles|] == p.categoryRoles;
    }
  }

  lemma ScopedRolesStep(s: State, user: string, categories: seq<string>, i: nat)
    requires i < |categories|
    ensures ScopedRoles(s, user, categories[..i + 1])
            == ScopedRoles(s, user, categories[..i])
               + RolesInCategory(s.roles, categories[i], SortedIds(AssignedIn(s, user, categories[i])))
  {
    assert categories[..i + 1][..i] == categories[..i];
  }

  class PermissionService {
    var roles: map<string, Role>
    var defaultRoleIds: seq<string>
    var globalAssignments: map<string, set<string>>
    var categoryAssignments: map<(string, string), set<string>>

    function Snapshot(): State
      reads this
    {
      State(roles, defaultRoleIds, globalAssignments, categoryAssignments)
    }

    constructor (defaultRoles: seq<Role>)
      ensures globalAssignments == map[] && categoryAssignments == map[]
      ensures |defaultRoleIds| == |defaultRoles|
      ensures forall i | 0 <= i < |defaultRoles| ::
        defaultRoleIds[i] == defaultRoles[i].id && defaultRoles[i].id in roles
      ensures forall id | id in roles :: roles[id].id == id && roles[id] in defaultRoles
      ensures forall i | 0 <= i < |defaultRoles| ::
        (forall j | i < j < |defaultRoles| :: defaultRoles[j].id != defaultRoles[i].id) ==>
          roles[defaultRoles[i].id] == defaultRoles[i]
    {
      roles, defaultRoleIds, globalAssignments, categoryAssignments := map[], [], map[], map[];
      new;
      for i := 0 to |defaultRoles|
        invariant globalAssignments == map[] && categoryAssignments == map[]
        invariant |defaultRoleIds| == i
        invariant forall j | 0 <= j < i :: defaultRoleIds[j] == defaultRoles[j].id && defaultRoles[j].id in roles
        invariant forall id | id in roles :: roles[id].id == id && roles[id] in defaultRoles
        invariant forall j | 0 <= j < i && (forall k | j < k < i :: defaultRoles[k].id != defaultRoles[j].id) ::
          roles[defaultRoles[j].id] == defaultRoles[j]
      {
        defaultRoleIds := defaultRoleIds + [defaultRoles[i].id];
        roles := roles[defaultRoles[i].id := defaultRoles[i]];
      }
    }

    method DefineRole(role: Role)
      modifies this`roles
      ensures Snapshot() == DoDefineRole(old(Snapshot()), role)
    {
      roles := roles[role.id := role];
    }

    /** One loop of `actor_permissions_from_state` over role ids, with the set of ids already seen. */
    method TakeRoles(ids: seq<string>, seen0: set<string>, taken: seq<Role>, ghost before: seq<string>)
      returns (globalRoles: seq<Role>, seen: set<string>)
      requires taken == DistinctRoles(roles, before) && seen0 == Elements(before)
      ensures globalRoles == DistinctRoles(roles, before + ids) && seen == Elements(before + ids)
    {
      globalRoles, seen := taken, seen0;
      assert before + ids[..0] == before;
      for i := 0 to |ids|
        invariant globalRoles == DistinctRoles(roles, before + ids[..i])
        invariant seen == Elements(before + ids[..i])
      {
        var id := ids[i];
        ghost var done := before + ids[..i];
        assert before + ids[..i + 1] == done + [id];
        assert (done + [id])[..|done|] == done;
        if id !in seen && id in roles {
          globalRoles := globalRoles + [roles[id]];
        }
        seen := seen + {id};
      }
      assert ids[..|ids|] == ids;
    }

    method ResolveGlobalRoles(user: string) returns (globalRoles: seq<Role>)
      ensures globalRoles == DistinctRoles(roles, defaultRoleIds + SortedIds(AssignedGlobally(Snapshot(), user)))
    {
      var seen: set<string>;
      globalRoles, seen := TakeRoles(defaultRoleIds, {}, [], []);
      assert [] + defaultRoleIds == defaultRoleIds;
      var sorted := CollectSorted(if user in globalAssignments then globalAssignments[user] else {});
      globalRoles, seen := TakeRoles(sorted, seen, globalRoles, defaultRoleIds);
    }

    /** The inner loop: the roles assigned to a user in one category. */
    method RolesOfCategory(category: string, ids: seq<string>) returns (scoped: seq<ScopedRole>)
      ensures scoped == RolesInCategory(roles, category, ids)
    {
      scoped := [];
      for j := 0 to |ids|
        invariant scoped == RolesInCategory(roles, category, ids[..j])
      {
        assert ids[..j + 1][..j] == ids[..j];
        if ids[j] in roles {
          scoped := scoped + [ScopedRole(category, roles[ids[j]])];
        }
      }
      assert ids[..|ids|] == ids;
    }

    method SortedCategories(user: string) returns (categories: seq<string>)
      ensures categories == SortedIds(CategoriesOf(Snapshot(), user))
    {
      categories := CollectSorted(set key | key in categoryAssignments && key.0 == user :: key.1);
    }

    method ResolveScopedRoles(user: string) returns (scoped: seq<ScopedRole>)
      ensures scoped == ScopedRoles(Snapshot(), user, SortedIds(CategoriesOf(Snapshot(), user)))
    {
      hide CategoriesOf, RolesInCategory, AssignedIn;
      scoped := [];
      var categories := SortedCategories(user);
      ghost var s := Snapshot();
      assert scoped == ScopedRoles(s, user, categories[..0]);
      hide ScopedRoles;
      for i := 0 to |categories|
        invariant scoped == ScopedRoles(s, user, categories[..i])
      {
        ScopedRolesStep(s, user, categories, i);
        var ids := CollectSorted(AssignedIn(Snapshot(), user, categories[i]));
        var more := RolesOfCategory(categories[i], ids);
        scoped := scoped + more;
      }
      assert categories[..|categories|] == categories;
    }

    method ActorPermissionsOf(user: string, level: TrustLevel) returns (p: ActorPermissions)
      ensures p == Resolve(Snapshot(), user, level)
    {
      var globalRoles := ResolveGlobalRoles(user);
      var scoped := ResolveScopedRoles(user);
      return ActorPermissions(user, level, globalRoles, scoped);
    }

    method AssignGlobalRole(actor: string, level: TrustLevel, target: string, roleId: string)
      returns (r: Result<(), Error>)
      modifies this`globalAssignments
      ensures Reflects(old(Snapshot()), DoAssignGlobal(old(Snapshot()), actor, level, target, roleId), Snapshot(), r)
    {
      if roleId !in roles {
        return Failure(RoleNotFound);
      }
      var p := ActorPermissionsOf(actor, level);
      var _ :- CanAssign(p, roles[roleId]);
      var held := if target in globalAssignments then globalAssignments[target] else {};
      globalAssignments := globalAssignments[target := held + {roleId}];
      return Success(());
    }

    method GrantGlobalRoleForBootstrap(target: string, roleId: string) returns (r: Result<(), Error>)
      modifies this`globalAssignments
      ensures r == if roleId in roles then Success(()) else Failure(RoleNotFound)
      ensures Snapshot() == if roleId in roles then AddGlobal(old(Snapshot()), target, roleId) else old(Snapshot())
    {
      if roleId !in roles {
        return Failure(RoleNotFound);
      }
      var held := if target in globalAssignments then globalAssignments[target] else {};
      globalAssignments := globalAssignments[target := held + {roleId}];
      return Success(());
    }

    method AssignCategoryRole(actor: string, level: TrustLevel, target: string, category: string, roleId: string)
      returns (r: Result<(), Error>)
      modifies this`categoryAssignments
      ensures Reflects(old(Snapshot()), DoAssignCategory(old(Snapshot()), actor, level, target, category, roleId),
                       Snapshot(), r)
    {
      if roleId !in roles {
        return Failure(RoleNotFound);
      }
      var p := ActorPermissionsOf(actor, level);
      var _ :- CanAssign(p, roles[roleId]);
      var key := (target, category);
      var held := if key in categoryAssignments then categoryAssignments[key] else {};
      categoryAssignments := categoryAssignments[key := held + {roleId}];
      return Success(());
    }

    method GrantCategoryRoleForBootstrap(target: string, category: string, roleId: string)
      returns (r: Result<(), Error>)
      modifies this`categoryAssignments
      ensures r == if roleId in roles then Success(()) else Failure(RoleNotFound)
      ensures Snapshot() == if roleId in roles then AddScoped(old(Snapshot()), target, category, roleId)
                            else old(Snapshot())
    {
      if roleId !in roles {
        return Failure(RoleNotFound);
      }
      var key := (target, category);
      var held := if key in categoryAssignments then categoryAssignments[key] else {};
      categoryAssignments := categoryAssignments[key := held + {roleId}];
      return Success(());
    }
  }
}
