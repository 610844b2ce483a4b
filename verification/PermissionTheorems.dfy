/** The resolver against its set specification, and non-escalation over runs. */
module PermissionTheorems {
  import opened Wrappers
  import opened Text
  import opened Order
  import opened Permissions

  // ----- the resolver computes a set -----

  function RoleGrants(roles: map<string, Role>, id: string): set<Capability> {
    if id in roles then SetOf(roles[id].capabilities) else {}
  }

  /** The capabilities of a set of roles, taken together. */
  ghost function Granted(roles: map<string, Role>, ids: set<string>): set<Capability> {
    set id, cap | id in ids && cap in RoleGrants(roles, id) :: cap
  }

  lemma NothingGranted(roles: map<string, Role>)
    ensures Granted(roles, {}) == {} && Elements<string>([]) == {}
  {
  }

  lemma GrantedAdd(roles: map<string, Role>, ids: set<string>, id: string)
    ensures Granted(roles, ids + {id}) == Granted(roles, ids) + RoleGrants(roles, id)
  {
    hide RoleGrants;
    forall cap | cap in RoleGrants(roles, id) ensures cap in Granted(roles, ids + {id}) {
      assert id in ids + {id};
    }
    forall cap | cap in Granted(roles, ids) ensures cap in Granted(roles, ids + {id}) {
      var x :| x in ids && cap in RoleGrants(roles, x);
      assert x in ids + {id};
    }
  }

  lemma ElementsGrow(before: seq<string>, last: string)
    ensures Elements(before + [last]) == Elements(before) + {last}
  {
  }

  lemma CapabilitiesGrow(roles: seq<Role>, r: Role)
    ensures CapabilitiesOf(roles + [r]) == CapabilitiesOf(roles) + SetOf(r.capabilities)
  {
    assert (roles + [r])[..|roles|] == roles;
  }

  lemma {:induction false} DistinctRolesGrant(roles: map<string, Role>, ids: seq<string>)
    ensures CapabilitiesOf(DistinctRoles(roles, ids)) == Granted(roles, Elements(ids))
  {
    if ids == [] {
      NothingGranted(roles);
    } else {
      var before, last := ids[..|ids| - 1], ids[|ids| - 1];
      assert ids == before + [last];
      DistinctRolesGrant(roles, before);
      hide Granted, SetOf, CapabilitiesOf;
      ElementsGrow(before, last);
      GrantedAdd(roles, Elements(before), last);
      if last in before {
        assert Elements(before) + {last} == Elements(before);
      } else if last in roles {
        CapabilitiesGrow(DistinctRoles(roles, before), roles[last]);
      } else {
        assert Granted(roles, Elements(before)) + {} == Granted(roles, Elements(before));
      }
    }
  }

  lemma {:induction false} DistinctRolesKnown(roles: map<string, Role>, ids: seq<string>)
    ensures forall r | r in DistinctRoles(roles, ids) :: exists id :: id in ids && id in roles && r == roles[id]
  {
    if ids == [] {
    } else {
      var before := ids[..|ids| - 1];
      assert ids == before + [ids[|ids| - 1]];
      DistinctRolesKnown(roles, before);
    }
  }

  lemma LastIsNew(roles: map<string, Role>, ids: seq<string>)
    requires ids != []
    ensures var before, last := ids[..|ids| - 1], ids[|ids| - 1];
            DistinctRoles(roles, ids) == DistinctRoles(roles, before)
            || (last !in before && last in roles
                && DistinctRoles(roles, ids) == DistinctRoles(roles, before) + [roles[last]])
  {
  }

  /** With roles stored under their own ids, no id comes twice among the global roles. */
  lemma {:induction false} DistinctRolesDistinct(roles: map<string, Role>, ids: seq<string>)
    requires forall id | id in roles :: roles[id].id == id
    ensures var rs := DistinctRoles(roles, ids); forall i, j | 0 <= i < j < |rs| :: rs[i].id != rs[j].id
  {
    if ids == [] {
    } else {
      var before := ids[..|ids| - 1];
      DistinctRolesDistinct(roles, before);
      DistinctRolesKnown(roles, before);
      var rs := DistinctRoles(roles, before);
      forall i | 0 <= i < |rs| ensures rs[i].id in before {
        assert rs[i] in rs;
        var id :| id in before && id in roles && rs[i] == roles[id];
      }
      hide DistinctRoles;
      LastIsNew(roles, ids);
    }
  }

  lemma {:induction false} ScopedAppend(xs: seq<ScopedRole>, ys: seq<ScopedRole>, c: string)
    ensures ScopedCapabilities(xs + ys, c) == ScopedCapabilities(xs, c) + ScopedCapabilities(ys, c)
  {
    hide SetOf;
    if ys == [] {
      assert xs + ys == xs;
    } else {
      assert (xs + ys)[..|xs + ys| - 1] == xs + ys[..|ys| - 1];
      ScopedAppend(xs, ys[..|ys| - 1], c);
    }
  }

  lemma {:induction false} RolesInCategoryGrant(roles: map<string, Role>, category: string, ids: seq<string>, c: string)
    ensures ScopedCapabilities(RolesInCategory(roles, category, ids), c)
            == if c == category then Granted(roles, Elements(ids)) else {}
  {
    if ids == [] {
      NothingGranted(roles);
    } else {
      var before, last := ids[..|ids| - 1], ids[|ids| - 1];
      assert ids == before + [last];
      RolesInCategoryGrant(roles, category, before, c);
      hide Granted, SetOf;
      ElementsGrow(before, last);
      GrantedAdd(roles, Elements(before), last);
      if last in roles {
        var one := [ScopedRole(category, roles[last])];
        assert one[..0] == [];
        ScopedAppend(RolesInCategory(roles, category, before), one, c);
        assert ScopedCapabilities(one, c) == if c == category then SetOf(roles[last].capabilities) else {};
      } else {
        assert RolesInCategory(roles, category, ids) == RolesInCategory(roles, category, before);
        assert Granted(roles, Elements(before)) + {} == Granted(roles, Elements(before));
      }
    }
  }

  lemma AssignedRolesGrant(s: State, user: string, category: string, c: string)
    ensures ScopedCapabilities(RolesInCategory(s.roles, category, SortedIds(AssignedIn(s, user, category))), c)
            == if c == category then Granted(s.roles, AssignedIn(s, user, category)) else {}
  {
    hide Granted, ScopedCapabilities, RolesInCategory, AssignedIn;
    var ids := SortedIds(AssignedIn(s, user, category));
    RolesInCategoryGrant(s.roles, category, ids, c);
    assert Elements(ids) == AssignedIn(s, user, category);
  }

  lemma {:induction false} ScopedRolesGrant(s: State, user: string, categories: seq<string>, c: string)
    requires NoDup(categories)
    ensures ScopedCapabilities(ScopedRoles(s, user, categories), c)
            == if c in categories then Granted(s.roles, AssignedIn(s, user, c)) else {}
  {
    hide Granted, RolesInCategory, AssignedIn, Sorted;
    if categories == [] {
      assert ScopedRoles(s, user, categories) == [];
    } else {
      hide ScopedCapabilities;
      var before, last := categories[..|categories| - 1], categories[|categories| - 1];
      assert categories == before + [last];
      ScopedRolesGrant(s, user, before, c);
      AssignedRolesGrant(s, user, last, c);
      ScopedAppend(ScopedRoles(s, user, before),
                   RolesInCategory(s.roles, last, SortedIds(AssignedIn(s, user, last))), c);
    }
  }

  /** What a user can do: trust grants, default and assigned roles, and the roles assigned for exactly this category. */
  ghost function Holds(s: State, user: string, level: TrustLevel, category: Option<string>): set<Capability> {
    TrustCapabilities(level)
    + Granted(s.roles, Elements(s.defaultRoleIds) + AssignedGlobally(s, user))
    + (if category.Some? then Granted(s.roles, AssignedIn(s, user, category.value)) else {})
  }

  lemma UnlistedCategory(s: State, user: string, category: string)
    ensures category !in CategoriesOf(s, user) ==> AssignedIn(s, user, category) == {}
  {
    if (user, category) in s.categoryAssignments {
      assert category in CategoriesOf(s, user);
    }
  }

  lemma GlobalPartRefines(s: State, user: string, level: TrustLevel)
    ensures CapabilitiesOf(Resolve(s, user, level).globalRoles)
            == Granted(s.roles, Elements(s.defaultRoleIds) + AssignedGlobally(s, user))
  {
    hide CapabilitiesOf, DistinctRoles, Granted, ScopedRoles;
    var sorted := SortedIds(AssignedGlobally(s, user));
    DistinctRolesGrant(s.roles, s.defaultRoleIds + sorted);
    assert Elements(s.defaultRoleIds + sorted) == Elements(s.defaultRoleIds) + AssignedGlobally(s, user);
  }

  lemma ScopedPartRefines(s: State, user: string, level: TrustLevel, category: string)
    ensures ScopedCapabilities(Resolve(s, user, level).categoryRoles, category)
            == Granted(s.roles, AssignedIn(s, user, category))
  {
    hide ScopedCapabilities, DistinctRoles, Granted, ScopedRoles, CategoriesOf;
    var categories := SortedIds(CategoriesOf(s, user));
    ScopedRolesGrant(s, user, categories, category);
    UnlistedCategory(s, user, category);
    NothingGranted(s.roles);
  }

  /** The sorting, deduplicating resolver refines the set specification. */
  lemma ResolverRefinesSets(s: State, user: string, level: TrustLevel, category: Option<string>)
    ensures Effective(Resolve(s, user, level), category) == Holds(s, user, level, category)
  {
    hide TrustCapabilities, ScopedCapabilities, CapabilitiesOf, DistinctRoles, ScopedRoles, Granted,
         CategoriesOf, AssignedIn;
    GlobalPartRefines(s, user, level);
    if category.Some? {
      ScopedPartRefines(s, user, level, category.value);
    }
  }

  /** No role id comes twice in what the resolver lists globally, however often it was granted. */
  lemma ResolverListsRolesOnce(s: State, user: string, level: TrustLevel)
    requires forall id | id in s.roles :: s.roles[id].id == id
    ensures var rs := Resolve(s, user, level).globalRoles; forall i, j | 0 <= i < j < |rs| :: rs[i].id != rs[j].id
  {
    var ids := s.defaultRoleIds + SortedIds(AssignedGlobally(s, user));
    DistinctRolesDistinct(s.roles, ids);
    assert Resolve(s, user, level).globalRoles == DistinctRoles(s.roles, ids);
  }

  function TrustRank(level: TrustLevel): nat {
    match level
    case NewSeed => 0
    case Wanderer => 1
    case Citizen => 2
    case Elder => 3
  }

  /** Trust only adds: what a level grants every higher one grants, from the level at which each capability comes in. */
  lemma TrustIsCumulative(level: TrustLevel, cap: Capability)
    ensures cap in TrustCapabilities(level) <==>
      || cap == "category.read.public"
      || (cap in {"topic.create", "post.reply"} && TrustRank(level) >= 1)
      || (cap in {"post.edit.own", "post.delete.own", "reaction.create"} && TrustRank(level) >= 2)
      || (cap in {"flag.trusted", "category.read.veteran"} && TrustRank(level) >= 3)
    ensures forall higher | TrustRank(level) <= TrustRank(higher) ::
      cap in TrustCapabilities(level) ==> cap in TrustCapabilities(higher)
  {
  }

  // ----- assignments -----

  lemma {:induction false} MissingMembers(capabilities: seq<Capability>, held: set<Capability>)
    ensures forall c :: c in Missing(capabilities, held) <==> c in capabilities && c !in held
  {
    if capabilities == [] {
    } else {
      assert capabilities == [capabilities[0]] + capabilities[1..];
      MissingMembers(capabilities[1..], held);
    }
  }

  /** A role can be assigned iff all it grants is held globally; otherwise the error names exactly what is
      missing, in order. */
  lemma CanAssignIff(p: ActorPermissions, role: Role)
    ensures CanAssign(p, role).Success? <==> forall c | c in role.capabilities :: c in Effective(p, None)
    ensures CanAssign(p, role).Failure? ==>
      var missing := CanAssign(p, role).error.missing;
      Sorted(missing) && forall c :: c in missing <==> c in role.capabilities && c !in Effective(p, None)
  {
    hide Effective, Sort;
    var missing := Missing(role.capabilities, Effective(p, None));
    MissingMembers(role.capabilities, Effective(p, None));
    SortSorts(missing);
    assert forall c :: c in Sort(missing) <==> c in multiset(Sort(missing));
    assert forall c :: c in missing <==> c in multiset(missing);
    if CanAssign(p, role).Success? {
      assert multiset(missing) == multiset{};
    } else {
      assert Sort(missing)[0] in missing;
    }
  }

  datatype Assignment =
    | Global(actor: string, target: string, roleId: string)
    | InCategory(actor: string, target: string, category: string, roleId: string)

  /** Every user keeps one trust level for the whole run. */
  type Levels = string -> TrustLevel

  ghost function Answer(levels: Levels, s: State, a: Assignment): Result<State, Error> {
    match a
    case Global(actor, target, roleId) => DoAssignGlobal(s, actor, levels(actor), target, roleId)
    case InCategory(actor, target, category, roleId) =>
      DoAssignCategory(s, actor, levels(actor), target, category, roleId)
  }

  ghost function Assign(levels: Levels, s: State, a: Assignment): State {
    if Answer(levels, s, a).Success? then Answer(levels, s, a).value else s
  }

  ghost function Run(levels: Levels, s: State, assignments: seq<Assignment>): State {
    if assignments == [] then s
    else Assign(levels, Run(levels, s, assignments[..|assignments| - 1]), assignments[|assignments| - 1])
  }

  ghost function Held(levels: Levels, s: State, user: string, category: Option<string>): set<Capability> {
    Effective(Resolve(s, user, levels(user)), category)
  }

  /** Some user holds the capability globally. */
  ghost predicate InPool(levels: Levels, s: State, cap: Capability) {
    exists user :: cap in Held(levels, s, user, None)
  }

  ghost predicate NoEscalation(levels: Levels, s: State, s1: State) {
    && (forall cap :: InPool(levels, s1, cap) ==> InPool(levels, s, cap))
    && (forall user, category, cap | cap in Held(levels, s1, user, category) ::
          cap in Held(levels, s, user, category) || InPool(levels, s, cap))
  }

  /** One assignment: the target gains at most what the role grants, in the assigned scope only; nobody
      loses anything. */
  lemma AssignGains(levels: Levels, s: State, a: Assignment, user: string, category: Option<string>)
    ensures var s1 := Assign(levels, s, a);
            && Held(levels, s, user, category) <= Held(levels, s1, user, category)
            && (forall cap | cap in Held(levels, s1, user, category) && cap !in Held(levels, s, user, category) ::
                  user == a.target && (a.InCategory? ==> category == Some(a.category))
                  && cap in Held(levels, s, a.actor, None))
  {
    hide Effective, Resolve, TrustCapabilities, CanAssign;
    var s1 := Assign(levels, s, a);
    ResolverRefinesSets(s, user, levels(user), category);
    ResolverRefinesSets(s1, user, levels(user), category);
    if s1 != s {
      CanAssignIff(Resolve(s, a.actor, levels(a.actor)), s.roles[a.roleId]);
    }
  }

  /** A category assignment changes the result for that user in that category and for nothing else. */
  lemma CategoryAssignmentIsLocal(s: State, target: string, category: string, roleId: string, user: string,
                                  level: TrustLevel, c: Option<string>)
    requires user != target || c != Some(category)
    ensures Effective(Resolve(AddScoped(s, target, category, roleId), user, level), c)
            == Effective(Resolve(s, user, level), c)
  {
    hide Effective, Resolve, TrustCapabilities;
    ResolverRefinesSets(s, user, level, c);
    ResolverRefinesSets(AddScoped(s, target, category, roleId), user, level, c);
  }

  /** An assignment is refused exactly when the role is unknown or grants something the actor does not hold globally;
      otherwise its target gains in its scope exactly what the role grants, and nobody else gains or loses anything. */
  lemma AssignmentIsExact(levels: Levels, s: State, a: Assignment, user: string, category: Option<string>)
    ensures var done := a.roleId in s.roles
                        && forall cap | cap in s.roles[a.roleId].capabilities :: cap in Held(levels, s, a.actor, None);
            var inScope := user == a.target && (a.InCategory? ==> category == Some(a.category));
            && Held(levels, Assign(levels, s, a), user, category)
               == Held(levels, s, user, category)
                  + (if done && inScope then SetOf(s.roles[a.roleId].capabilities) else {})
            && (Answer(levels, s, a).Success? <==> done)
            && (a.roleId !in s.roles ==> Answer(levels, s, a) == Failure(RoleNotFound))
  {
    hide Effective, Resolve, TrustCapabilities, CanAssign, Granted;
    var s1 := Assign(levels, s, a);
    ResolverRefinesSets(s, user, levels(user), category);
    ResolverRefinesSets(s1, user, levels(user), category);
    if a.roleId in s.roles {
      CanAssignIff(Resolve(s, a.actor, levels(a.actor)), s.roles[a.roleId]);
      GrantedAdd(s.roles, Elements(s.defaultRoleIds) + AssignedGlobally(s, user), a.roleId);
      assert Elements(s.defaultRoleIds) + (AssignedGlobally(s, user) + {a.roleId})
          == Elements(s.defaultRoleIds) + AssignedGlobally(s, user) + {a.roleId};
      if category.Some? {
        GrantedAdd(s.roles, AssignedIn(s, user, category.value), a.roleId);
      }
    }
  }

  lemma AssignDoesNotEscalate(levels: Levels, s: State, a: Assignment)
    ensures NoEscalation(levels, s, Assign(levels, s, a))
  {
    hide Held, Assign;
    var s1 := Assign(levels, s, a);
    forall cap | InPool(levels, s1, cap) ensures InPool(levels, s, cap) {
      var user :| cap in Held(levels, s1, user, None);
      AssignGains(levels, s, a, user, None);
    }
    forall user, category, cap | cap in Held(levels, s1, user, category)
      ensures cap in Held(levels, s, user, category) || InPool(levels, s, cap)
    {
      AssignGains(levels, s, a, user, category);
    }
  }

  /** Over any run of assignments no capability appears that nobody held globally, or the user there, at the start. */
  lemma {:induction false} RunsDoNotEscalate(levels: Levels, s: State, assignments: seq<Assignment>)
    ensures NoEscalation(levels, s, Run(levels, s, assignments))
  {
    hide Held, Assign;
    if assignments == [] {
    } else {
      var before := assignments[..|assignments| - 1];
      RunsDoNotEscalate(levels, s, before);
      AssignDoesNotEscalate(levels, Run(levels, s, before), assignments[|assignments| - 1]);
    }
  }

  // ----- redefining a role -----

  /** The role is a default one or assigned to somebody globally. */
  ghost predicate UsedGlobally(s: State, roleId: string) {
    roleId in s.defaultRoleIds || exists user :: roleId in AssignedGlobally(s, user)
  }

  /** The role counts for the user, in the category if there is one. */
  ghost predicate Used(s: State, roleId: string, user: string, category: Option<string>) {
    roleId in s.defaultRoleIds || roleId in AssignedGlobally(s, user)
    || (category.Some? && roleId in AssignedIn(s, user, category.value))
  }

  /** Redefining a role changes what that id grants and nothing else. */
  lemma RedefinedGrants(s: State, role: Role, ids: set<string>, cap: Capability)
    ensures var before, after := Granted(s.roles, ids), Granted(DoDefineRole(s, role).roles, ids);
            && (role.id in ids && cap in role.capabilities ==> cap in after)
            && (cap in after && cap !in before ==> role.id in ids && cap in role.capabilities)
  {
    hide SetOf;
    var roles1 := DoDefineRole(s, role).roles;
    assert cap in role.capabilities <==> cap in RoleGrants(roles1, role.id) by {
      MembersOf(role.capabilities, cap);
    }
    if cap in Granted(roles1, ids) {
      var id :| id in ids && cap in RoleGrants(roles1, id);
      if id != role.id {
        assert cap in RoleGrants(s.roles, id);
      }
    }
  }

  lemma MembersOf(capabilities: seq<Capability>, cap: Capability)
    ensures cap in SetOf(capabilities) <==> cap in capabilities
  {
  }

  lemma RedefinedHeld(levels: Levels, s: State, role: Role, user: string, category: Option<string>, cap: Capability)
    ensures var used := Used(s, role.id, user, category);
            var before, after := Held(levels, s, user, category), Held(levels, DoDefineRole(s, role), user, category);
            && (used && cap in role.capabilities ==> cap in after)
            && (cap in after && cap !in before ==> used && cap in role.capabilities)
  {
    hide Effective, Resolve, Granted, TrustCapabilities;
    ResolverRefinesSets(s, user, levels(user), category);
    ResolverRefinesSets(DoDefineRole(s, role), user, levels(user), category);
    RedefinedGrants(s, role, Elements(s.defaultRoleIds) + AssignedGlobally(s, user), cap);
    if category.Some? {
      RedefinedGrants(s, role, AssignedIn(s, user, category.value), cap);
    }
  }

  /** After redefining a role everybody holds what all their other sources give, and the new grants wherever the role
      counts for them. */
  lemma RedefinitionIsExact(levels: Levels, s: State, role: Role, user: string, category: Option<string>)
    ensures Held(levels, DoDefineRole(s, role), user, category)
            == TrustCapabilities(levels(user))
               + Granted(s.roles, Elements(s.defaultRoleIds) + AssignedGlobally(s, user) - {role.id})
               + (if category.Some? then Granted(s.roles, AssignedIn(s, user, category.value) - {role.id}) else {})
               + (if Used(s, role.id, user, category) then SetOf(role.capabilities) else {})
  {
    hide Effective, Resolve, Granted, TrustCapabilities, SetOf;
    ResolverRefinesSets(DoDefineRole(s, role), user, levels(user), category);
    RedefinedExactly(s, role, Elements(s.defaultRoleIds) + AssignedGlobally(s, user));
    if category.Some? {
      RedefinedExactly(s, role, AssignedIn(s, user, category.value));
    }
  }

  lemma RedefinedExactly(s: State, role: Role, ids: set<string>)
    ensures Granted(DoDefineRole(s, role).roles, ids)
            == Granted(s.roles, ids - {role.id}) + if role.id in ids then SetOf(role.capabilities) else {}
  {
    hide SetOf;
    var roles1 := DoDefineRole(s, role).roles;
    forall cap ensures cap in Granted(roles1, ids) <==>
      cap in Granted(s.roles, ids - {role.id}) || (role.id in ids && cap in SetOf(role.capabilities))
    {
      if cap in Granted(roles1, ids) {
        var id :| id in ids && cap in RoleGrants(roles1, id);
        assert id != role.id ==> id in ids - {role.id} && cap in RoleGrants(s.roles, id);
      }
      if cap in Granted(s.roles, ids - {role.id}) {
        var id :| id in ids - {role.id} && cap in RoleGrants(s.roles, id);
        assert id in ids && cap in RoleGrants(roles1, id);
      }
      if role.id in ids && cap in SetOf(role.capabilities) {
        assert cap in RoleGrants(roles1, role.id);
      }
    }
  }

  /** All a role grants is held globally by somebody. */
  ghost predicate CoveredGlobally(levels: Levels, s: State, role: Role) {
    forall cap | cap in role.capabilities :: InPool(levels, s, cap)
  }

  /** All a role grants is held in the category by the user, or globally by somebody. */
  ghost predicate CoveredIn(levels: Levels, s: State, role: Role, user: string, category: string) {
    forall cap | cap in role.capabilities :: cap in Held(levels, s, user, Some(category)) || InPool(levels, s, cap)
  }

  /** Redefining a role escalates nothing iff, wherever the role is in use, all it is to grant is held already. */
  lemma RedefinitionEscalatesIff(levels: Levels, s: State, role: Role)
    ensures NoEscalation(levels, s, DoDefineRole(s, role)) <==>
      && (UsedGlobally(s, role.id) ==> CoveredGlobally(levels, s, role))
      && (forall user, category | role.id in AssignedIn(s, user, category) ::
            CoveredIn(levels, s, role, user, category))
  {
    hide Held, AssignedGlobally, AssignedIn, DoDefineRole;
    var s1 := DoDefineRole(s, role);
    if NoEscalation(levels, s, s1) {
      UsesAreCovered(levels, s, role);
    } else if cap :| InPool(levels, s1, cap) && !InPool(levels, s, cap) {
      var user :| cap in Held(levels, s1, user, None);
      assert cap !in Held(levels, s, user, None);
      RedefinedHeld(levels, s, role, user, None, cap);
      assert !CoveredGlobally(levels, s, role);
    } else {
      var user, category, cap :| cap in Held(levels, s1, user, category)
                                 && cap !in Held(levels, s, user, category) && !InPool(levels, s, cap);
      RedefinedHeld(levels, s, role, user, category, cap);
      if category.Some? && role.id in AssignedIn(s, user, category.value) {
        assert !CoveredIn(levels, s, role, user, category.value);
      } else {
        assert !CoveredGlobally(levels, s, role);
      }
    }
  }

  /** The failing side is reached: a role granted in a category while it grants nothing is given a capability. */
  lemma RedefinitionCanEscalate()
    ensures var s := AddScoped(State(map["r" := Role("r", "", [])], [], map[], map[]), "u", "c", "r");
            !NoEscalation(_ => NewSeed, s, DoDefineRole(s, Role("r", "", ["system.admin"])))
  {
    hide Held, CapabilitiesOf, ScopedCapabilities;
    var levels: Levels := _ => NewSeed;
    var s := AddScoped(State(map["r" := Role("r", "", [])], [], map[], map[]), "u", "c", "r");
    var role := Role("r", "", ["system.admin"]);
    RedefinitionEscalatesIff(levels, s, role);
    forall user, category: Option<string> ensures "system.admin" !in Held(levels, s, user, category) {
      NobodyHolds(levels, s, user, category);
    }
    assert role.id in AssignedIn(s, "u", "c");
    assert "system.admin" in role.capabilities;
    assert !CoveredIn(levels, s, role, "u", "c");
  }

  lemma NobodyHolds(levels: Levels, s: State, user: string, category: Option<string>)
    requires s.roles == map["r" := Role("r", "", [])] && levels(user) == NewSeed
    ensures "system.admin" !in Held(levels, s, user, category)
  {
    hide Effective, Resolve;
    ResolverRefinesSets(s, user, NewSeed, category);
    assert "system.admin"[0] != "category.read.public"[0];
  }

  lemma UsesAreCovered(levels: Levels, s: State, role: Role)
    requires NoEscalation(levels, s, DoDefineRole(s, role))
    ensures UsedGlobally(s, role.id) ==> CoveredGlobally(levels, s, role)
    ensures forall user, category | role.id in AssignedIn(s, user, category) ::
      CoveredIn(levels, s, role, user, category)
  {
    hide Held, AssignedGlobally, AssignedIn, DoDefineRole;
    var s1 := DoDefineRole(s, role);
    if UsedGlobally(s, role.id) {
      var user :| role.id in s.defaultRoleIds || role.id in AssignedGlobally(s, user);
      forall cap | cap in role.capabilities ensures InPool(levels, s, cap) {
        RedefinedHeld(levels, s, role, user, None, cap);
        assert InPool(levels, s1, cap);
      }
    }
    forall user, category | role.id in AssignedIn(s, user, category)
      ensures CoveredIn(levels, s, role, user, category)
    {
      forall cap | cap in role.capabilities
        ensures cap in Held(levels, s, user, Some(category)) || InPool(levels, s, cap)
      {
        RedefinedHeld(levels, s, role, user, Some(category), cap);
      }
    }
  }

  // ----- allows -----

  /** The four `.own` actions that have an `.any` form. */
  const MAPPED := {"post.edit", "post.delete", "topic.edit", "topic.delete"}

  lemma MappedPrefix(prefix: string)
    ensures OwnToAny(prefix + ".own") == if prefix in MAPPED then Some(prefix + ".any") else None
  {
    assert (prefix + ".own")[..|prefix|] == prefix;
    assert "post.edit" + ".own" == "post.edit.own" && "post.edit" + ".any" == "post.edit.any";
    assert "post.delete" + ".own" == "post.delete.own" && "post.delete" + ".any" == "post.delete.any";
    assert "topic.edit" + ".own" == "topic.edit.own" && "topic.edit" + ".any" == "topic.edit.any";
    assert "topic.delete" + ".own" == "topic.delete.own" && "topic.delete" + ".any" == "topic.delete.any";
  }

  /** The whole decision, against what the actor holds: a capability that is not about one's own items is allowed iff
      held; a held `.own` one iff the item is the actor's, whatever else is held; an `.own` one not held iff it is one
      of the four mapped and its `.any` form is held. */
  lemma DecisionIff(s: State, user: string, level: TrustLevel, required: Capability, context: PermissionContext)
    ensures var holds := Holds(s, user, level, context.categoryId);
            Allows(Resolve(s, user, level), required, context) <==>
              && context.actorId == user
              && if !IsOwn(required) then required in holds
                 else if required in holds then context.ownerId == Some(user)
                 else Stem(required) in MAPPED && Stem(required) + ".any" in holds
  {
    hide Effective, Holds, OwnToAny, DistinctRoles, ScopedRoles;
    ResolverRefinesSets(s, user, level, context.categoryId);
    if IsOwn(required) {
      assert required == Stem(required) + ".own";
      MappedPrefix(Stem(required));
    } else {
      UnmappedUnlessOwn(required);
    }
  }

  /** The capability ends in ".own". */
  predicate IsOwn(required: Capability) {
    |required| >= 4 && required[|required| - 4..] == ".own"
  }

  function Stem(required: Capability): string
    requires IsOwn(required)
  {
    required[..|required| - 4]
  }

  lemma UnmappedUnlessOwn(required: Capability)
    requires !IsOwn(required)
    ensures OwnToAny(required).None?
  {
    assert "post.edit.own"[9..] == ".own" && "post.delete.own"[11..] == ".own";
    assert "topic.edit.own"[10..] == ".own" && "topic.delete.own"[12..] == ".own";
  }

  /** With a held `.any`, the `.own` action is decided by ownership if the `.own` is held as well, and otherwise
      allowed iff it is one of the four mapped ones. */
  lemma AnySatisfiesOwnIff(p: ActorPermissions, prefix: string, context: PermissionContext)
    requires prefix + ".any" in Effective(p, context.categoryId)
    ensures Allows(p, prefix + ".own", context) <==>
      && context.actorId == p.actorId
      && if prefix + ".own" in Effective(p, context.categoryId) then context.ownerId == Some(p.actorId)
         else prefix in MAPPED
  {
    hide Effective, OwnToAny;
    MappedPrefix(prefix);
    assert EndsWith(prefix + ".own", ".own");
  }

  /** Holding more never hurts, with one exception: gaining an `.own` capability on another user's item. */
  lemma MoreCapabilitiesAllowMoreIff(p: ActorPermissions, q: ActorPermissions, required: Capability,
                                     context: PermissionContext)
    requires p.actorId == q.actorId && Effective(p, context.categoryId) <= Effective(q, context.categoryId)
    requires Allows(p, required, context)
    ensures Allows(q, required, context) <==>
      !(required in Effective(q, context.categoryId) && EndsWith(required, ".own")
        && context.ownerId != Some(q.actorId))
  {
    hide Effective, EndsWith;
  }

  /** The exception is real: adding "post.edit.own" to "post.edit.any" takes away editing others' posts. */
  lemma GainingOwnLosesOthers()
    ensures var any := Role("r1", "", ["post.edit.any"]);
            var own := Role("r2", "", ["post.edit.own"]);
            var context := PermissionContext("mod", Some("author"), None);
            && Allows(ActorPermissions("mod", NewSeed, [any], []), "post.edit.own", context)
            && !Allows(ActorPermissions("mod", NewSeed, [any, own], []), "post.edit.own", context)
  {
    var any := Role("r1", "", ["post.edit.any"]);
    var own := Role("r2", "", ["post.edit.own"]);
    assert "post.edit.any" in CapabilitiesOf([any]) && "post.edit.own" in CapabilitiesOf([any, own]);
    assert "post.edit.own" !in CapabilitiesOf([any]) by {
      assert "post.edit.own"[10] != "post.edit.any"[10];
    }
    assert EndsWith("post.edit.own", ".own");
    assert "post.edit.own" !in TrustCapabilities(NewSeed) by {
      assert |"post.edit.own"| != |"category.read.public"|;
    }
  }
}
