/** Roles, trust levels and the capability resolver. */
module Permissions {
  import opened Wrappers
  import opened Text
  import opened Order

  /** Capabilities are kept as their strings, such as "post.edit.own". */
  type Capability = string

  datatype TrustLevel = NewSeed | Wanderer | Citizen | Elder

  datatype Role = Role(id: string, name: string, capabilities: seq<Capability>)

  datatype ScopedRole = ScopedRole(categoryId: string, role: Role)

  datatype ActorPermissions = ActorPermissions(actorId: string, trustLevel: TrustLevel, globalRoles: seq<Role>,
                                               categoryRoles: seq<ScopedRole>)

  datatype PermissionContext = PermissionContext(actorId: string, ownerId: Option<string>, categoryId: Option<string>)

  datatype Error = RoleNotFound | EscalatingRoleAssignment(missing: seq<Capability>)

  datatype State = State(
    roles: map<string, Role>,
    defaultRoleIds: seq<string>,
    globalAssignments: map<string, set<string>>,
    categoryAssignments: map<(string, string), set<string>>
  )

  // ----- capabilities -----

  /** `trust_capabilities`: each level adds to the ones below it. */
  function TrustCapabilities(level: TrustLevel): set<Capability> {
    {"category.read.public"}
    + (if level != NewSeed then {"topic.create", "post.reply"} else {})
    + (if level == Citizen || level == Elder then {"post.edit.own", "post.delete.own", "reaction.create"} else {})
    + (if level == Elder then {"flag.trusted", "category.read.veteran"} else {})
  }

  function SetOf(capabilities: seq<Capability>): set<Capability> {
    set cap | cap in capabilities
  }

  function CapabilitiesOf(roles: seq<Role>): set<Capability> {
    if roles == [] then {}
    else CapabilitiesOf(roles[..|roles| - 1]) + SetOf(roles[|roles| - 1].capabilities)
  }

  function ScopedCapabilities(roles: seq<ScopedRole>, category: string): set<Capability> {
    if roles == [] then {}
    else
      var last := roles[|roles| - 1];
      ScopedCapabilities(roles[..|roles| - 1], category)
      + if last.categoryId == category then SetOf(last.role.capabilities) else {}
  }

  /** The capabilities in effect, globally or within one category. */
  function Effective(p: ActorPermissions, category: Option<string>): set<Capability> {
    TrustCapabilities(p.trustLevel) + CapabilitiesOf(p.globalRoles)
    + (if category.Some? then ScopedCapabilities(p.categoryRoles, category.value) else {})
  }

  /** `own_to_any` */
  function OwnToAny(required: Capability): Option<Capability> {
    if required == "post.edit.own" then Some("post.edit.any")
    else if required == "post.delete.own" then Some("post.delete.any")
    else if required == "topic.edit.own" then Some("topic.edit.any")
    else if required == "topic.delete.own" then Some("topic.delete.any")
    else None
  }

  /** `ActorPermissions::allows`: a held `.own` capability is decided by ownership alone, before `.any` is looked at. */
  function Allows(p: ActorPermissions, required: Capability, context: PermissionContext): bool {
    if context.actorId != p.actorId then false
    else
      var capabilities := Effective(p, context.categoryId);
      if required in capabilities then
        if EndsWith(required, ".own") then context.ownerId == Some(p.actorId) else true
      else OwnToAny(required).Some? && OwnToAny(required).value in capabilities
  }

  function Missing(capabilities: seq<Capability>, held: set<Capability>): seq<Capability> {
    if capabilities == [] then []
    else (if capabilities[0] in held then [] else [capabilities[0]]) + Missing(capabilities[1..], held)
  }

  /** `can_assign_role`: everything the role grants must already be held globally. */
  function CanAssign(p: ActorPermissions, role: Role): Result<(), Error> {
    var missing := Sort(Missing(role.capabilities, Effective(p, None)));
    if missing == [] then Success(()) else Failure(EscalatingRoleAssignment(missing))
  }

  // ----- the resolver -----

  /** The known roles of a list of ids, each id taken once, at its first place. */
  function DistinctRoles(roles: map<string, Role>, ids: seq<string>): seq<Role> {
    if ids == [] then []
    else
      var before, last := ids[..|ids| - 1], ids[|ids| - 1];
      if last !in before && last in roles then DistinctRoles(roles, before) + [roles[last]]
      else DistinctRoles(roles, before)
  }

  function RolesInCategory(roles: map<string, Role>, category: string, ids: seq<string>): seq<ScopedRole> {
    if ids == [] then []
    else
      var before, last := ids[..|ids| - 1], ids[|ids| - 1];
      RolesInCategory(roles, category, before) + if last in roles then [ScopedRole(category, roles[last])] else []
  }

  function AssignedGlobally(s: State, user: string): set<string> {
    if user in s.globalAssignments then s.globalAssignments[user] else {}
  }

  function AssignedIn(s: State, user: string, category: string): set<string> {
    if (user, category) in s.categoryAssignments then s.categoryAssignments[(user, category)] else {}
  }

  ghost function CategoriesOf(s: State, user: string): set<string> {
    set key | key in s.categoryAssignments && key.0 == user :: key.1
  }

  ghost function ScopedRoles(s: State, user: string, categories: seq<string>): seq<ScopedRole> {
    if categories == [] then []
    else
      var before, last := categories[..|categories| - 1], categories[|categories| - 1];
      ScopedRoles(s, user, before) + RolesInCategory(s.roles, last, SortedIds(AssignedIn(s, user, last)))
  }

  /** `actor_permissions_from_state`: default roles in their order, then assigned ones sorted; scoped ones sorted. */
  ghost function Resolve(s: State, user: string, level: TrustLevel): ActorPermissions {
    ActorPermissions(user, level,
                     DistinctRoles(s.roles, s.defaultRoleIds + SortedIds(AssignedGlobally(s, user))),
                     ScopedRoles(s, user, SortedIds(CategoriesOf(s, user))))
  }

  // ----- the operations -----

  function AddGlobal(s: State, target: string, roleId: string): State {
    s.(globalAssignments := s.globalAssignments[target := AssignedGlobally(s, target) + {roleId}])
  }

  function AddScoped(s: State, target: string, category: string, roleId: string): State {
    s.(categoryAssignments := s.categoryAssignments[(target, category) := AssignedIn(s, target, category) + {roleId}])
  }

  ghost function DoAssignGlobal(s: State, actor: string, level: TrustLevel, target: string, roleId: string)
    : Result<State, Error>
  {
    if roleId !in s.roles then Failure(RoleNotFound)
    else match CanAssign(Resolve(s, actor, level), s.roles[roleId])
      case Success(_) => Success(AddGlobal(s, target, roleId))
      case Failure(e) => Failure(e)
  }

  ghost function DoAssignCategory(s: State, actor: string, level: TrustLevel, target: string, category: string,
                                  roleId: string): Result<State, Error>
  {
    if roleId !in s.roles then Failure(RoleNotFound)
    else match CanAssign(Resolve(s, actor, level), s.roles[roleId])
      case Success(_) => Success(AddScoped(s, target, category, roleId))
      case Failure(e) => Failure(e)
  }

  function DoDefineRole(s: State, role: Role): State {
    s.(roles := s.roles[role.id := role])
  }
}
