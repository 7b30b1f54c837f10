/**
 The WATCH/MULTI/EXEC transactions of the directory, each as a program that pauses at every Redis
 command. `Next` is the command a program sends at a point, `Resume` the point it moves to when the
 reply arrives, and a `Plan` the queued writes that EXEC applies. The points follow the closures
 passed to `client.Watch`, including the keys `prepareUserDeletion` discovers and watches midway.
 */
module DirectoryTransactions {
  import opened Prelude
  import opened DirectoryState

  // ----- Redis keys, reads and replies -----

  /** The granularity of WATCH: one Redis key. */
  datatype Key =
    | UsersKey | FederatedKey | LegacyUsersKey | EmailKey(email: string) | IndexKey
    | GroupsKey | NameKey(name: string) | OrderKey | MembersKey(group: string) | UserGroupsKey(user: string)
    | AssignmentsKey(tenant: string) | TenantsKey(principal: Principal)
    | MembershipsKey(tenant: string) | MembershipTenantsKey(user: string)
    | Memberships2Key(tenant: string) | MembershipTenants2Key(user: string)
    | MarkerKey | AliasKey(tenant: string, subject: string) | SessionIndexKey(session: SessionKey)

  datatype Query =
    | GetUser(id: string) | GetFederated(id: string) | GetLegacyUser(email: string) | GetOwner(email: string)
    | GetIndexEntry(email: string, id: string)
    | GetGroup(group: string) | GetNameOwner(name: string)
    | GetMembers(group: string) | IsMember(group: string, user: string) | GetGroups(user: string)
    | GetAssignment(tenant: string, principal: Principal) | GetTenants(principal: Principal)
    | HasTenant(principal: Principal, tenant: string)
    | GetMembership(tenant: string, user: string) | GetMembershipTenants(user: string)
    | GetMembership2(tenant: string, user: string) | GetMembershipTenants2(user: string)
    | GetMarker | GetAlias(tenant: string, subject: string) | GetSession(session: SessionKey)

  datatype Reply =
    | Ack
    | UserReply(user: Option<User>)
    | LegacyReply(legacy: Option<LegacyUser>)
    | TextReply(text: Option<string>)
    | SetReply(items: set<string>)
    | BoolReply(yes: bool)
    | GroupReply(group: Option<Group>)
    | AssignmentReply(assignment: Option<Assignment>)
    | MembershipReply(membership: Option<Membership>)
    | SessionReply(session: Option<Session>)

  function KeyOf(q: Query): Key
  {
    match q
    case GetUser(_) => UsersKey
    case GetFederated(_) => FederatedKey
    case GetLegacyUser(_) => LegacyUsersKey
    case GetOwner(email) => EmailKey(email)
    case GetIndexEntry(_, _) => IndexKey
    case GetGroup(_) => GroupsKey
    case GetNameOwner(name) => NameKey(name)
    case GetMembers(group) => MembersKey(group)
    case IsMember(group, _) => MembersKey(group)
    case GetGroups(user) => UserGroupsKey(user)
    case GetAssignment(tenant, _) => AssignmentsKey(tenant)
    case GetTenants(principal) => TenantsKey(principal)
    case HasTenant(principal, _) => TenantsKey(principal)
    case GetMembership(tenant, _) => MembershipsKey(tenant)
    case GetMembershipTenants(user) => MembershipTenantsKey(user)
    case GetMembership2(tenant, _) => Memberships2Key(tenant)
    case GetMembershipTenants2(user) => MembershipTenants2Key(user)
    case GetMarker => MarkerKey
    case GetAlias(tenant, subject) => AliasKey(tenant, subject)
    case GetSession(session) => SessionIndexKey(session)
  }

  function Answer(d: Directory, q: Query): Reply
  {
    match q
    case GetUser(id) => UserReply(Lookup(d.users, id))
    case GetFederated(id) => UserReply(Lookup(d.federated, id))
    case GetLegacyUser(email) => LegacyReply(Lookup(d.legacyUsers, email))
    case GetOwner(email) => TextReply(Lookup(d.emails, email))
    case GetIndexEntry(email, id) => BoolReply((email, id) in d.index)
    case GetGroup(group) => GroupReply(Lookup(d.groups, group))
    case GetNameOwner(name) => TextReply(Lookup(d.names, name))
    case GetMembers(group) => SetReply(MembersOf(d, group))
    case IsMember(group, user) => BoolReply((group, user) in d.members)
    case GetGroups(user) => SetReply(GroupsOf(d, user))
    case GetAssignment(tenant, principal) => AssignmentReply(Lookup(d.assignments, (tenant, principal)))
    case GetTenants(principal) => SetReply(TenantsOf(d, principal))
    case HasTenant(principal, tenant) => BoolReply((principal, tenant) in d.tenants)
    case GetMembership(tenant, user) => MembershipReply(Lookup(d.memberships, (tenant, user)))
    case GetMembershipTenants(user) => SetReply(LegacyTenantsOf(d, user))
    case GetMembership2(tenant, user) => MembershipReply(Lookup(d.memberships2, (tenant, user)))
    case GetMembershipTenants2(user) => SetReply(V2TenantsOf(d, user))
    case GetMarker => TextReply(d.marker)
    case GetAlias(tenant, subject) => TextReply(Lookup(d.aliases, (tenant, subject)))
    case GetSession(session) => SessionReply(Lookup(d.sessions, session))
  }

  // ----- Operations -----

  datatype IfMatch = Star | Empty | Tag(version: nat) | Malformed

  predicate MatchesVersion(ifMatch: IfMatch, version: nat)
  {
    ifMatch == Star || ifMatch == Tag(version)
  }

  datatype Patch = Patch(name: Option<string>, description: Option<string>, active: Option<bool>)

  /** Roles a source tenant's SAML users may hold in a target tenant, by (source, target). */
  type ForeignTrust = map<(string, string), set<string>>

  predicate HasForeignTrust(trust: ForeignTrust, source: string, target: string)
  {
    (source, target) in trust && trust[(source, target)] != {}
  }

  predicate AllowsForeignRole(trust: ForeignTrust, source: string, target: string, role: string)
  {
    (source, target) in trust && role in trust[(source, target)]
  }

  predicate AllowsForeignAssignment(trust: ForeignTrust, source: string, target: string, roles: seq<string>)
  {
    1 <= |roles| <= 100 && forall i :: 0 <= i < |roles| ==> AllowsForeignRole(trust, source, target, roles[i])
  }

  datatype Initiator = Initiator(id: string, tokenVersion: nat, revision: nat, recoveredMaster: bool)

  /** One attempt of a transactional mutator; values read before the WATCH are parameters of the attempt. */
  datatype Op =
    | UpdateUser(id: string, user: User, previousEmail: string)
    | ConsumePassword(id: string, expectedPassword: string, expectedVersion: nat, replacement: string)
    | UpdateFederated(id: string, user: User)
    | ImportLegacy(email: string)
    | PatchGroup(group: string, patch: Patch, ifMatch: IfMatch)
    | DeleteGroup(group: string, ifMatch: IfMatch)
    | ChangeMember(group: string, member: string, ifMatch: IfMatch, add: bool)
    | PutAssignment(tenant: string, principal: Principal, roles: seq<string>, ifMatch: IfMatch, trust: ForeignTrust)
    | DeleteAssignment(tenant: string, principal: Principal, ifMatch: IfMatch)
    | DeleteUser(id: string, version: nat, actor: Initiator)
    | DeleteByEmail(email: string, id: string, observed: set<Key>)

  /** The argument checks each mutator makes before it talks to Redis. */
  predicate Admissible(op: Op)
  {
    match op
    case PutAssignment(tenant, _, roles, _, _) => ActiveTenant(tenant) && CanonicalRoles(roles)
    case DeleteAssignment(tenant, _, _) => ActiveTenant(tenant)
    case DeleteUser(id, version, actor) => version >= 1 && actor.id != id
    case _ => true
  }

  function BaseKeys(op: Op): set<Key>
  {
    match op
    case UpdateUser(_, user, previous) => {UsersKey, EmailKey(previous), EmailKey(user.email), IndexKey}
    case ConsumePassword(_, _, _, _) => {UsersKey}
    case UpdateFederated(_, _) => {FederatedKey}
    case ImportLegacy(email) => {MarkerKey, UsersKey, FederatedKey, EmailKey(email), LegacyUsersKey, IndexKey}
    case PatchGroup(_, patch, _) =>
      {GroupsKey, OrderKey} +
      (if patch.name.Some? && GroupText(patch.name.value, "") then {NameKey(Fold(patch.name.value))} else {})
    case DeleteGroup(group, _) => {GroupsKey, OrderKey, MembersKey(group), TenantsKey(GroupPrincipal(group))}
    case ChangeMember(group, member, _, _) => {UsersKey, GroupsKey, MembersKey(group), UserGroupsKey(member)}
    case PutAssignment(tenant, principal, _, _, _) =>
      {if principal.GroupPrincipal? then GroupsKey else UsersKey, AssignmentsKey(tenant), TenantsKey(principal)}
    case DeleteAssignment(tenant, principal, _) => {AssignmentsKey(tenant), TenantsKey(principal)}
    case DeleteUser(id, _, actor) =>
      {UsersKey, FederatedKey, GroupsKey, MarkerKey, UserGroupsKey(id), TenantsKey(UserPrincipal(id)),
       MembershipTenantsKey(id), MembershipTenants2Key(id)} +
      (if actor.recoveredMaster then {AssignmentsKey(MASTER_TENANT), TenantsKey(UserPrincipal(actor.id))} else {})
    case DeleteByEmail(email, id, observed) =>
      {UsersKey, EmailKey(email), IndexKey, UserGroupsKey(id), TenantsKey(UserPrincipal(id)), GroupsKey} + observed
  }

  datatype Error =
    | NotFound | VersionConflict | EmailExists | Corrupt | InvalidArgument | InvalidTenant
    | InvalidCredentials | DeletionDenied | MarkerMissing

  // ----- Plans: the queued writes -----

  /** The local variables of a user deletion; `todo` is what the running loop has still to visit. */
  datatype Deletion = Deletion(
    user: User,
    fed: bool,
    groups: set<string>,
    tenants: set<string>,
    legacy: set<string>,
    v2: set<string>,
    ownsEmail: bool,
    ownsLegacy: bool,
    bumped: map<string, Group>,
    ownsAlias: bool,
    sessions: set<SessionKey>,
    todo: set<string>
  )

  datatype Plan =
    | NoWrites
    | WriteUser(id: string, user: User, previousEmail: string)
    | WriteSecret(id: string, user: User)
    | WriteFederated(id: string, user: User)
    | WriteImport(id: string, user: User)
    | WriteGroup(group: string, before: Group, after: Group)
    | EraseGroup(group: string, before: Group, members: set<string>, tenants: set<string>)
    | WriteMember(group: string, member: string, after: Group, add: bool)
    | WriteAssignment(tenant: string, principal: Principal, assignment: Assignment)
    | EraseAssignment(tenant: string, principal: Principal)
    | EraseUser(id: string, deletion: Deletion)
    | EraseByEmail(email: string, id: string, user: User, tenants: set<string>, bumped: map<string, Group>)

  function Bump(g: Group): Group
  {
    g.(version := g.version + 1)
  }

  function WithUser(d: Directory, id: string, user: User, previous: string): (r: Directory)
    ensures SameGrants(d, r) && r.users == d.users[id := user] && r.federated == d.federated
    ensures SameMemberships(d, r) && SameGroups(d, r)
  {
    var set1 := d.(users := d.users[id := user], emails := d.emails[user.email := id],
                   index := d.index + {(user.email, id)});
    if previous == user.email then set1
    else set1.(emails := set1.emails - {previous}, index := set1.index - {(previous, id)})
  }

  function WithGroup(d: Directory, group: string, before: Group, after: Group): (r: Directory)
    ensures SameUsers(d, r) && SameGrants(d, r)
    ensures SameMemberships(d, r) && r.groups == d.groups[group := after]
    ensures r.members == d.members && r.userGroups == d.userGroups
  {
    var set1 := d.(groups := d.groups[group := after]);
    if before.name == after.name then set1
    else set1.(names := (set1.names - {Fold(before.name)})[Fold(after.name) := group],
               order := (set1.order - {(Fold(before.name), group)}) + {(Fold(after.name), group)})
  }

  function WithoutGroup(d: Directory, group: string, before: Group, members: set<string>, tenants: set<string>): (r: Directory)
    ensures SameUsers(d, r)
    ensures SameMemberships(d, r) && r.groups == d.groups - {group}
  {
    d.(groups := d.groups - {group},
       names := d.names - {Fold(before.name)},
       members := Del(d.members, group),
       tenants := Del(d.tenants, GroupPrincipal(group)),
       order := d.order - {(Fold(before.name), group)},
       userGroups := RemoveEach(d.userGroups, members, group),
       assignments := HDelEach(d.assignments, tenants, GroupPrincipal(group)))
  }

  function WithMember(d: Directory, group: string, member: string, after: Group, add: bool): (r: Directory)
    ensures SameUsers(d, r) && SameGrants(d, r)
    ensures SameMemberships(d, r) && r.names == d.names && r.groups == d.groups[group := after]
  {
    var set1 := d.(groups := d.groups[group := after]);
    if add then set1.(members := set1.members + {(group, member)}, userGroups := set1.userGroups + {(member, group)})
    else set1.(members := set1.members - {(group, member)}, userGroups := set1.userGroups - {(member, group)})
  }

  function WithAssignment(d: Directory, tenant: string, principal: Principal, a: Assignment): (r: Directory)
    ensures SameUsers(d, r)
    ensures SameMemberships(d, r) && SameGroups(d, r)
  {
    d.(assignments := d.assignments[(tenant, principal) := a], tenants := d.tenants + {(principal, tenant)})
  }

  function WithoutAssignment(d: Directory, tenant: string, principal: Principal): (r: Directory)
    ensures SameUsers(d, r)
    ensures SameMemberships(d, r) && SameGroups(d, r)
  {
    d.(assignments := d.assignments - {(tenant, principal)}, tenants := d.tenants - {(principal, tenant)})
  }

  function WithoutUser(d: Directory, id: string, del: Deletion): Directory
  {
    d.(users := if del.fed then d.users else d.users - {id},
       federated := if del.fed then d.federated - {id} else d.federated,
       userGroups := Del(d.userGroups, id),
       tenants := Del(d.tenants, UserPrincipal(id)),
       membershipTenants := Del(d.membershipTenants, id),
       membershipTenants2 := Del(d.membershipTenants2, id),
       emails := if del.ownsEmail then d.emails - {del.user.email} else d.emails,
       aliases := if del.ownsAlias && del.user.company.Some?
                  then d.aliases - {(del.user.company.value, del.user.subject)} else d.aliases,
       sessions := d.sessions - del.sessions,
       index := d.index - {(del.user.email, id)},
       legacyUsers := if del.ownsLegacy then d.legacyUsers - {del.user.email} else d.legacyUsers,
       members := RemoveEach(d.members, del.bumped.Keys, id),
       groups := d.groups + del.bumped,
       assignments := HDelEach(d.assignments, del.tenants, UserPrincipal(id)),
       memberships := HDelEach(d.memberships, del.legacy, id),
       memberships2 := HDelEach(d.memberships2, del.v2, id))
  }

  function WithoutEmail(d: Directory, email: string, id: string, user: User, tenants: set<string>,
                        bumped: map<string, Group>): (r: Directory)
    ensures r.names == d.names
    ensures r.users == d.users - {id}
    ensures SameMemberships(d, r)
  {
    d.(users := d.users - {id},
       emails := d.emails - {email},
       userGroups := Del(d.userGroups, id),
       tenants := Del(d.tenants, UserPrincipal(id)),
       index := d.index - {(email, id)},
       legacyUsers := d.legacyUsers - {email},
       aliases := if user.company.Some? && user.subject != ""
                  then d.aliases - {(user.company.value, user.subject)} else d.aliases,
       members := RemoveEach(d.members, bumped.Keys, id),
       groups := d.groups + bumped,
       assignments := HDelEach(d.assignments, tenants, UserPrincipal(id)))
  }

  /** EXEC: the queued commands of a plan, applied together. */
  function Apply(d: Directory, plan: Plan): Directory
  {
    match plan
    case NoWrites => d
    case WriteUser(id, user, previous) => WithUser(d, id, user, previous)
    case WriteSecret(id, user) => d.(users := d.users[id := user])
    case WriteFederated(id, user) => d.(federated := d.federated[id := user])
    case WriteImport(id, user) => WithUser(d, id, user, user.email)
    case WriteGroup(group, before, after) => WithGroup(d, group, before, after)
    case EraseGroup(group, before, members, tenants) => WithoutGroup(d, group, before, members, tenants)
    case WriteMember(group, member, after, add) => WithMember(d, group, member, after, add)
    case WriteAssignment(tenant, principal, a) => WithAssignment(d, tenant, principal, a)
    case EraseAssignment(tenant, principal) => WithoutAssignment(d, tenant, principal)
    case EraseUser(id, del) => WithoutUser(d, id, del)
    case EraseByEmail(email, id, user, tenants, bumped) => WithoutEmail(d, email, id, user, tenants, bumped)
  }

  // ----- Program points -----

  datatype Point =
    | Start
    | First
    | Halted(error: Error)
    | Retry
    | Finished
    | Ready(plan: Plan)
    | Short(at: ShortPoint)
    | Actor(check: ActorPoint)
    | Deleting(stage: Stage, del: Deletion)

  /** Where the transactions other than a user deletion pause after their first read. */
  datatype ShortPoint =
    | CheckOwner(user: User)                              // UpdateUser
    | CheckImport(step: nat, legacy: Option<LegacyUser>)  // ImportLegacy
    | CheckName(before: Group, after: Group)              // PatchGroup
    | ReadGroupMembers(before: Group)                     // DeleteGroup
    | ReadGroupTenants(before: Group, items: set<string>)
    | MemberGroup                                         // ChangeMember
    | MemberPresent(before: Group)
    | MemberCount(before: Group)
    | ReadAssignment                                      // PutAssignment
    | EmailUser                                           // DeleteByEmail
    | EmailGroups(user: User)
    | EmailTenants(user: User, items: set<string>)
    | EmailEach(user: User, tenants: set<string>, todo: set<string>, bumped: map<string, Group>)

  /** Actor, marker and target checks of a user deletion. */
  datatype ActorPoint =
    | ActorFederated(found: Option<User>)
    | ActorAssignment
    | ActorReverse(roles: seq<string>)
    | ReadMarker
    | Target
    | TargetFederated(found: Option<User>)

  datatype Loop = GroupLoop | TenantLoop | LegacyLoop | V2Loop

  /** The rest of a user deletion: relation sets, email aliases, four loops, SAML indexes. */
  datatype Stage =
    | Relation(number: nat)
    | WatchAliases | AliasIndex | AliasEmail | AliasLegacy
    | Watching(loop: Loop)
    | Reading(loop: Loop)
    | Rereading(loop: Loop, membership: Option<Membership>)
    | WatchAlias | CheckAlias | WatchSubject | CheckSubject
    | WatchNameId(nameId: string) | CheckNameId(nameId: string)

  /** The element a loop visits next; the order Go visits them in does not matter to the plan. */
  ghost function Pick(s: set<string>): string
    requires s != {}
  {
    var x :| x in s; x
  }

  datatype Command = Watch(keys: set<Key>) | Ask(query: Query) | Reject(error: Error) | Conflict | Return | Exec(plan: Plan)

  /** The command an operation sends at a point. */
  ghost function Next(op: Op, p: Point): Command
  {
    match p
    case Start => Watch(BaseKeys(op))
    case First => FirstRead(op)
    case Halted(e) => Reject(e)
    case Retry => Conflict
    case Finished => Return
    case Ready(plan) => Exec(plan)
    case Short(at) => NextShort(op, at)
    case Actor(check) => if op.DeleteUser? then NextActor(op, check) else Conflict
    case Deleting(stage, del) => if op.DeleteUser? then NextDeletion(op.id, stage, del) else Conflict
  }

  function FirstRead(op: Op): Command
  {
    match op
    case UpdateUser(id, _, _) => Ask(GetUser(id))
    case ConsumePassword(id, _, _, _) => Ask(GetUser(id))
    case UpdateFederated(id, _) => Ask(GetFederated(id))
    case ImportLegacy(_) => Ask(GetMarker)
    case PatchGroup(group, _, _) => Ask(GetGroup(group))
    case DeleteGroup(group, _) => Ask(GetGroup(group))
    case ChangeMember(group, member, _, add) => if add then Ask(GetUser(member)) else Ask(GetGroup(group))
    case PutAssignment(_, principal, _, _, _) =>
      if principal.UserPrincipal? then Ask(GetUser(principal.id)) else Ask(GetGroup(principal.id))
    case DeleteAssignment(tenant, principal, _) => Ask(GetAssignment(tenant, principal))
    case DeleteUser(_, _, actor) => Ask(GetUser(actor.id))
    case DeleteByEmail(email, _, _) => Ask(GetOwner(email))
  }

  function ImportRead(email: string, step: nat, legacy: Option<LegacyUser>): Command
  {
    if step == 0 then Ask(GetOwner(email))
    else if step == 1 then Ask(GetLegacyUser(email))
    else if legacy.None? then Conflict
    else if step == 2 then Ask(GetUser(legacy.value.id))
    else if step == 3 then Ask(GetFederated(legacy.value.id))
    else Ask(GetIndexEntry(email, legacy.value.id))
  }

  ghost function NextShort(op: Op, at: ShortPoint): Command
  {
    if at.CheckOwner? && op.UpdateUser? then Ask(GetOwner(op.user.email))
    else if at.CheckImport? && op.ImportLegacy? then ImportRead(op.email, at.step, at.legacy)
    else if at.CheckName? && op.PatchGroup? then Ask(GetNameOwner(Fold(at.after.name)))
    else if at.ReadGroupMembers? && op.DeleteGroup? then Ask(GetMembers(op.group))
    else if at.ReadGroupTenants? && op.DeleteGroup? then Ask(GetTenants(GroupPrincipal(op.group)))
    else if at.MemberGroup? && op.ChangeMember? then Ask(GetGroup(op.group))
    else if at.MemberPresent? && op.ChangeMember? then Ask(IsMember(op.group, op.member))
    else if at.MemberCount? && op.ChangeMember? then Ask(GetMembers(op.group))
    else if at.ReadAssignment? && op.PutAssignment? then Ask(GetAssignment(op.tenant, op.principal))
    else if at.EmailUser? && op.DeleteByEmail? then Ask(GetUser(op.id))
    else if at.EmailGroups? && op.DeleteByEmail? then Ask(GetGroups(op.id))
    else if at.EmailTenants? && op.DeleteByEmail? then Ask(GetTenants(UserPrincipal(op.id)))
    else if at.EmailEach? && op.DeleteByEmail? && at.todo != {} then Ask(GetGroup(Pick(at.todo)))
    else Conflict
  }

  function NextActor(op: Op, check: ActorPoint): Command
    requires op.DeleteUser?
  {
    match check
    case ActorFederated(_) => Ask(GetFederated(op.actor.id))
    case ActorAssignment => Ask(GetAssignment(MASTER_TENANT, UserPrincipal(op.actor.id)))
    case ActorReverse(_) => Ask(HasTenant(UserPrincipal(op.actor.id), MASTER_TENANT))
    case ReadMarker => Ask(GetMarker)
    case Target => Ask(GetUser(op.id))
    case TargetFederated(_) => Ask(GetFederated(op.id))
  }

  function Company(u: User): string
  {
    if u.company.Some? then u.company.value else ""
  }

  function LoopKey(loop: Loop, item: string): Key
  {
    match loop
    case GroupLoop => MembersKey(item)
    case TenantLoop => AssignmentsKey(item)
    case LegacyLoop => MembershipsKey(item)
    case V2Loop => Memberships2Key(item)
  }

  function LoopRead(loop: Loop, item: string, id: string): Query
  {
    match loop
    case GroupLoop => IsMember(item, id)
    case TenantLoop => GetAssignment(item, UserPrincipal(id))
    case LegacyLoop => GetMembership(item, id)
    case V2Loop => GetMembership2(item, id)
  }

  ghost function NextDeletion(id: string, stage: Stage, del: Deletion): Command
  {
    match stage
    case Relation(number) =>
      if number == 0 then Ask(GetGroups(id))
      else if number == 1 then Ask(GetTenants(UserPrincipal(id)))
      else if number == 2 then Ask(GetMembershipTenants(id))
      else Ask(GetMembershipTenants2(id))
    case WatchAliases => Watch({EmailKey(del.user.email), IndexKey, LegacyUsersKey})
    case AliasIndex => Ask(GetIndexEntry(del.user.email, id))
    case AliasEmail => Ask(GetOwner(del.user.email))
    case AliasLegacy => Ask(GetLegacyUser(del.user.email))
    case Watching(loop) => if del.todo == {} then Conflict else Watch({LoopKey(loop, Pick(del.todo))})
    case Reading(loop) => if del.todo == {} then Conflict else Ask(LoopRead(loop, Pick(del.todo), id))
    case Rereading(loop, _) =>
      if del.todo == {} then Conflict
      else if loop.GroupLoop? then Ask(GetGroup(Pick(del.todo)))
      else Ask(GetMembership(Pick(del.todo), id))
    case WatchAlias => Watch({AliasKey(Company(del.user), del.user.subject)})
    case CheckAlias => Ask(GetAlias(Company(del.user), del.user.subject))
    case WatchSubject => Watch({SessionIndexKey(SubjectKey(Company(del.user), id))})
    case CheckSubject => Ask(GetSession(SubjectKey(Company(del.user), id)))
    case WatchNameId(nameId) => Watch({SessionIndexKey(NameIdKey(Company(del.user), nameId))})
    case CheckNameId(nameId) => Ask(GetSession(NameIdKey(Company(del.user), nameId)))
  }

  /** The point an operation moves to when the reply to its command arrives. */
  ghost function Resume(op: Op, p: Point, r: Reply): Point
  {
    match p
    case Start => First
    case First => ResumeFirst(op, r)
    case Short(at) => ResumeShort(op, at, r)
    case Actor(check) => if op.DeleteUser? then ResumeActor(op, check, r) else Retry
    case Deleting(stage, del) => if op.DeleteUser? then ResumeDeletion(op.id, stage, del, r) else Retry
    case _ => p
  }

  function ResumeFirst(op: Op, r: Reply): Point
  {
    match op
    case UpdateUser(id, user, previous) =>
      if !r.UserReply? then Retry
      else if r.user.None? then Halted(NotFound)
      else if r.user.value.revision != user.revision then Halted(VersionConflict)
      else if r.user.value.email != previous then Retry
      else if previous != user.email then Short(CheckOwner(r.user.value))
      else Ready(WriteUser(id, user.(revision := user.revision + 1), previous))
    case ConsumePassword(id, hash, version, replacement) =>
      if !r.UserReply? then Retry
      else if r.user.None? then Halted(InvalidCredentials)
      else
        var u := r.user.value;
        if u.status != Active || u.saml || !u.mustChange || u.password != hash || u.tokenVersion != version
        then Halted(InvalidCredentials)
        else Ready(WriteSecret(id, u.(password := replacement, mustChange := false,
                                      tokenVersion := u.tokenVersion + 1, revision := u.revision + 1)))
    case UpdateFederated(id, user) =>
      if !r.UserReply? then Retry
      else if r.user.None? then Halted(NotFound)
      else
        var current := r.user.value;
        if current.revision != user.revision then Halted(VersionConflict)
        else if current.company.None? || current.company != user.company || current.subject != user.subject ||
                user.tokenVersion < current.tokenVersion then Halted(Corrupt)
        else Ready(WriteFederated(id, user.(revision := current.revision + 1)))
    case ImportLegacy(_) =>
      if !r.TextReply? then Retry
      else if r.text.None? then Short(CheckImport(0, None))
      else if r.text.value != BACKFILL_VERSION then Halted(Corrupt)
      else Finished
    case PatchGroup(group, patch, ifMatch) =>
      if !r.GroupReply? then Retry
      else if r.group.None? then Halted(NotFound)
      else
        var g := r.group.value;
        var after := Patched(g, patch);
        if !GroupText(after.name, after.description) then Halted(InvalidArgument)
        else if after == g then Finished
        else if !MatchesVersion(ifMatch, g.version) then Halted(VersionConflict)
        else if after.name != g.name then Short(CheckName(g, after))
        else Ready(WriteGroup(group, g, Bump(after)))
    case DeleteGroup(_, ifMatch) =>
      if !r.GroupReply? then Retry
      else if r.group.None? then Finished
      else if !MatchesVersion(ifMatch, r.group.value.version) then Halted(VersionConflict)
      else Short(ReadGroupMembers(r.group.value))
    case ChangeMember(_, _, _, add) =>
      if add then
        if !r.UserReply? then Retry else if r.user.None? then Halted(NotFound) else Short(MemberGroup)
      else
        if !r.GroupReply? then Retry else if r.group.None? then Halted(NotFound) else Short(MemberPresent(r.group.value))
    case PutAssignment(tenant, principal, roles, _, trust) =>
      if principal.UserPrincipal? then
        if !r.UserReply? then Retry
        else if r.user.None? then Halted(NotFound)
        else if ForeignRefused(r.user.value, tenant, roles, trust) then Halted(InvalidTenant)
        else Short(ReadAssignment)
      else
        if !r.GroupReply? then Retry else if r.group.None? then Halted(NotFound) else Short(ReadAssignment)
    case DeleteAssignment(tenant, principal, ifMatch) =>
      if !r.AssignmentReply? then Retry
      else if r.assignment.None? then Finished
      else if !MatchesVersion(ifMatch, r.assignment.value.version) then Halted(VersionConflict)
      else Ready(EraseAssignment(tenant, principal))
    case DeleteUser(_, _, _) => if !r.UserReply? then Retry else Actor(ActorFederated(r.user))
    case DeleteByEmail(_, id, _) =>
      if !r.TextReply? then Retry
      else if r.text.None? then Finished
      else if r.text.value != id then Retry
      else Short(EmailUser)
  }

  /** A SAML user may be assigned roles outside the home tenant only under an explicit trust. */
  predicate ForeignRefused(u: User, tenant: string, roles: seq<string>, trust: ForeignTrust)
  {
    u.saml && u.company != Some(tenant) &&
    (u.company.None? || !AllowsForeignAssignment(trust, u.company.value, tenant, roles))
  }

  function Patched(g: Group, patch: Patch): Group
  {
    g.(name := if patch.name.Some? then patch.name.value else g.name,
       description := if patch.description.Some? then patch.description.value else g.description,
       active := if patch.active.Some? then patch.active.value else g.active)
  }

  ghost function ResumeShort(op: Op, at: ShortPoint, r: Reply): Point
  {
    if at.CheckOwner? && op.UpdateUser? && r.TextReply? then
      if r.text.Some? && r.text.value != op.id then Halted(EmailExists)
      else Ready(WriteUser(op.id, op.user.(revision := op.user.revision + 1), op.previousEmail))
    else if at.CheckImport? && op.ImportLegacy? then ResumeImport(op.email, at.step, at.legacy, r)
    else if at.CheckName? && op.PatchGroup? && r.TextReply? then
      if r.text.Some? && r.text.value != op.group then Halted(VersionConflict)
      else Ready(WriteGroup(op.group, at.before, Bump(at.after)))
    else if at.ReadGroupMembers? && op.DeleteGroup? && r.SetReply? then
      if |r.items| > MAXIMUM_RELATIONSHIPS then Halted(Corrupt) else Short(ReadGroupTenants(at.before, r.items))
    else if at.ReadGroupTenants? && op.DeleteGroup? && r.SetReply? then
      if |r.items| > MAXIMUM_RELATIONSHIPS then Halted(Corrupt)
      else Ready(EraseGroup(op.group, at.before, at.items, r.items))
    else if op.ChangeMember? then ResumeMember(op, at, r)
    else if at.ReadAssignment? && op.PutAssignment? && r.AssignmentReply? then ResumePut(op, r.assignment)
    else if op.DeleteByEmail? then ResumeEmail(op.email, op.id, at, r)
    else Retry
  }

  function ResumeImport(email: string, step: nat, legacy: Option<LegacyUser>, r: Reply): Point
  {
    if step == 0 && r.TextReply? then if r.text.Some? then Retry else Short(CheckImport(1, None))
    else if step == 1 && r.LegacyReply? then
      if r.legacy.None? then Finished
      else if r.legacy.value.user.password == "" && !r.legacy.value.user.saml then Halted(NotFound)
      else if r.legacy.value.user.email != email then Halted(Corrupt)
      else Short(CheckImport(2, r.legacy))
    else if (step == 2 || step == 3) && r.UserReply? then
      if r.user.Some? then Halted(Corrupt) else Short(CheckImport(step + 1, legacy))
    else if step == 4 && legacy.Some? && r.BoolReply? then Ready(WriteImport(legacy.value.id, legacy.value.user))
    else Retry
  }

  function ResumeMember(op: Op, at: ShortPoint, r: Reply): Point
    requires op.ChangeMember?
  {
    if at.MemberGroup? && r.GroupReply? then
      if r.group.None? then Halted(NotFound) else Short(MemberPresent(r.group.value))
    else if at.MemberPresent? && r.BoolReply? then
      if r.yes == op.add then Finished
      else if !MatchesVersion(op.ifMatch, at.before.version) then Halted(VersionConflict)
      else if op.add then Short(MemberCount(at.before))
      else Ready(WriteMember(op.group, op.member, Bump(at.before), false))
    else if at.MemberCount? && r.SetReply? then
      if |r.items| >= MAXIMUM_RELATIONSHIPS then Halted(Corrupt)
      else Ready(WriteMember(op.group, op.member, Bump(at.before), true))
    else Retry
  }

  function ResumePut(op: Op, current: Option<Assignment>): Point
    requires op.PutAssignment?
  {
    if current.None? then
      if op.ifMatch != Empty && op.ifMatch != Star then Halted(VersionConflict)
      else Ready(WriteAssignment(op.tenant, op.principal, Assignment(op.roles, 1)))
    else if current.value.roles == op.roles then Finished
    else if !MatchesVersion(op.ifMatch, current.value.version) then Halted(VersionConflict)
    else Ready(WriteAssignment(op.tenant, op.principal, Assignment(op.roles, current.value.version + 1)))
  }

  ghost function EachEmailGroup(email: string, id: string, user: User, tenants: set<string>, todo: set<string>,
                                bumped: map<string, Group>): Point
  {
    if todo == {} then Ready(EraseByEmail(email, id, user, tenants, bumped))
    else Short(EmailEach(user, tenants, todo, bumped))
  }

  ghost function ResumeEmail(email: string, id: string, at: ShortPoint, r: Reply): Point
  {
    if at.EmailUser? && r.UserReply? then
      if r.user.None? || r.user.value.email != email then Halted(Corrupt) else Short(EmailGroups(r.user.value))
    else if at.EmailGroups? && r.SetReply? then
      if |r.items| > MAXIMUM_RELATIONSHIPS then Halted(Corrupt) else Short(EmailTenants(at.user, r.items))
    else if at.EmailTenants? && r.SetReply? then
      if |r.items| > MAXIMUM_RELATIONSHIPS then Halted(Corrupt)
      else EachEmailGroup(email, id, at.user, r.items, at.items, map[])
    else if at.EmailEach? && at.todo != {} && r.GroupReply? then
      if r.group.None? then Halted(Corrupt)
      else EachEmailGroup(email, id, at.user, at.tenants, at.todo - {Pick(at.todo)},
                          at.bumped[Pick(at.todo) := Bump(r.group.value)])
    else Retry
  }

  // ----- User deletion -----

  predicate ActorAllowed(actor: Initiator, u: User)
  {
    u.status == Active && u.role == Admin && !u.mustChange && u.tokenVersion == actor.tokenVersion && u.revision == actor.revision
  }

  /** A recovered master is a password user of another company. */
  predicate MayRecover(u: User)
  {
    !u.saml && u.company.Some? && u.company.value != MASTER_TENANT
  }

  function NewDeletion(user: User, fed: bool): Deletion
  {
    Deletion(user, fed, {}, {}, {}, {}, false, false, map[], false, {}, {})
  }

  function ResumeActor(op: Op, check: ActorPoint, r: Reply): Point
    requires op.DeleteUser?
  {
    match check
    case ActorFederated(found) => if r.UserReply? then ActorFound(op.actor, found, r.user) else Retry
    case ActorAssignment =>
      if !r.AssignmentReply? then Retry
      else if r.assignment.None? then Halted(DeletionDenied)
      else Actor(ActorReverse(r.assignment.value.roles))
    case ActorReverse(roles) =>
      if !r.BoolReply? then Retry
      else if !r.yes || roles != ["ADMIN"] then Halted(DeletionDenied)
      else Actor(ReadMarker)
    case ReadMarker =>
      if !r.TextReply? then Retry
      else if r.text.None? then Halted(MarkerMissing)
      else if r.text.value != BACKFILL_VERSION then Halted(Corrupt)
      else Actor(Target)
    case Target => if r.UserReply? then Actor(TargetFederated(r.user)) else Retry
    case TargetFederated(found) => if r.UserReply? then TargetRead(op.version, found, r.user) else Retry
  }

  function ActorFound(actor: Initiator, found: Option<User>, other: Option<User>): Point
  {
    if found.Some? && other.Some? then Halted(Corrupt)
    else
      var stored := if found.Some? then found else other;
      if stored.None? || !ActorAllowed(actor, stored.value) then Halted(DeletionDenied)
      else if !actor.recoveredMaster then Actor(ReadMarker)
      else if !MayRecover(stored.value) then Halted(DeletionDenied)
      else Actor(ActorAssignment)
  }

  function TargetRead(version: nat, found: Option<User>, other: Option<User>): Point
  {
    if found.Some? && other.Some? then Halted(Corrupt)
    else if found.None? && other.None? then Ready(NoWrites)
    else
      var user := if found.Some? then found.value else other.value;
      if user.revision + 1 != version then Halted(VersionConflict)
      else Deleting(Relation(0), NewDeletion(user, found.None?))
  }

  /** Enter a loop, or the step after it when there is nothing left to visit. */
  ghost function Each(id: string, loop: Loop, del: Deletion): Point
    decreases match loop case GroupLoop => 3 case TenantLoop => 2 case LegacyLoop => 1 case V2Loop => 0
  {
    if del.todo == {} then
      match loop
      case GroupLoop => Each(id, TenantLoop, del.(todo := del.tenants))
      case TenantLoop => Each(id, LegacyLoop, del.(todo := del.legacy))
      case LegacyLoop => Each(id, V2Loop, del.(todo := del.v2))
      case V2Loop => Saml(id, del)
    else if loop.TenantLoop? && !ActiveTenant(Pick(del.todo)) then Halted(Corrupt)
    else if (loop.LegacyLoop? || loop.V2Loop?) && !CanonicalTenant(Pick(del.todo)) then Halted(Corrupt)
    else if loop.V2Loop? && Pick(del.todo) !in del.legacy then Halted(Corrupt)
    else Deleting(Watching(loop), del)
  }

  function Saml(id: string, del: Deletion): Point
  {
    if !del.user.saml then Ready(EraseUser(id, del))
    else if del.user.company.None? || !ActiveTenant(del.user.company.value) then Halted(Corrupt)
    else Deleting(WatchAlias, del)
  }

  predicate OwnedSession(key: SessionKey, s: Session, tenant: string, id: string)
  {
    && s.tenant == tenant && s.subject == id && s.nameId != ""
    && (key == SubjectKey(s.tenant, s.subject) || key == NameIdKey(s.tenant, s.nameId))
  }

  ghost function Visited(del: Deletion): Deletion
    requires del.todo != {}
  {
    del.(todo := del.todo - {Pick(del.todo)})
  }

  ghost function ResumeDeletion(id: string, stage: Stage, del: Deletion, r: Reply): Point
  {
    match stage
    case Relation(number) => if r.SetReply? then ResumeRelation(number, del, r.items) else Retry
    case WatchAliases => Deleting(AliasIndex, del)
    case AliasIndex => if r.BoolReply? then Deleting(AliasEmail, del) else Retry
    case AliasEmail =>
      if !r.TextReply? then Retry
      else if r.text == Some(id) then Deleting(AliasLegacy, del.(ownsEmail := true))
      else if r.text.Some? && !del.fed then Halted(Corrupt)
      else Deleting(AliasLegacy, del)
    case AliasLegacy =>
      if !r.LegacyReply? then Retry
      else if r.legacy.Some? && r.legacy.value.id == id && r.legacy.value.user.email != del.user.email then Halted(Corrupt)
      else Each(id, GroupLoop, del.(ownsLegacy := r.legacy.Some? && r.legacy.value.id == id, todo := del.groups))
    case Watching(loop) => Deleting(Reading(loop), del)
    case Reading(loop) => if del.todo == {} then Retry else ResumeReading(id, loop, del, r)
    case Rereading(loop, membership) =>
      if del.todo == {} then Retry
      else if loop.GroupLoop? then
        if !r.GroupReply? then Retry
        else if r.group.None? then Halted(Corrupt)
        else Each(id, GroupLoop, Visited(del).(bumped := del.bumped[Pick(del.todo) := Bump(r.group.value)]))
      else if !r.MembershipReply? then Retry
      else if r.membership != membership then Halted(Corrupt)
      else Each(id, loop, Visited(del))
    case WatchAlias => Deleting(CheckAlias, del)
    case CheckAlias =>
      if !r.TextReply? then Retry
      else if r.text.Some? && r.text.value != id then Halted(Corrupt)
      else Deleting(WatchSubject, del.(ownsAlias := r.text.Some?))
    case WatchSubject => Deleting(CheckSubject, del)
    case CheckSubject =>
      var key := SubjectKey(Company(del.user), id);
      if !r.SessionReply? then Retry
      else if r.session.None? then Deleting(WatchNameId(del.user.subject), del)
      else if !OwnedSession(key, r.session.value, Company(del.user), id) then Halted(Corrupt)
      else Deleting(WatchNameId(r.session.value.nameId), del.(sessions := del.sessions + {key}))
    case WatchNameId(nameId) => Deleting(CheckNameId(nameId), del)
    case CheckNameId(nameId) =>
      var key := NameIdKey(Company(del.user), nameId);
      if !r.SessionReply? then Retry
      else if r.session.None? then Ready(EraseUser(id, del))
      else if !OwnedSession(key, r.session.value, Company(del.user), id) then Halted(Corrupt)
      else Ready(EraseUser(id, del.(sessions := del.sessions + {key})))
  }

  /** The four relation sets, each and together bounded by 500. */
  function ResumeRelation(number: nat, del: Deletion, items: set<string>): Point
  {
    if |items| > MAXIMUM_RELATIONSHIPS then Halted(Corrupt)
    else if number == 0 then Deleting(Relation(1), del.(groups := items))
    else if number == 1 then Deleting(Relation(2), del.(tenants := items))
    else if number == 2 then Deleting(Relation(3), del.(legacy := items))
    else if |del.groups| + |del.tenants| + |del.legacy| + |items| > MAXIMUM_RELATIONSHIPS then Halted(Corrupt)
    else Deleting(WatchAliases, del.(v2 := items))
  }

  ghost function ResumeReading(id: string, loop: Loop, del: Deletion, r: Reply): Point
    requires del.todo != {}
  {
    match loop
    case GroupLoop =>
      if !r.BoolReply? then Retry else if !r.yes then Halted(Corrupt) else Deleting(Rereading(GroupLoop, None), del)
    case TenantLoop =>
      if !r.AssignmentReply? then Retry
      else if r.assignment.None? then Halted(Corrupt)
      else Each(id, TenantLoop, Visited(del))
    case LegacyLoop =>
      if !r.MembershipReply? then Retry
      else if r.membership.None? then Halted(Corrupt)
      else Each(id, LegacyLoop, Visited(del))
    case V2Loop =>
      if !r.MembershipReply? then Retry
      else if r.membership.None? || !ValidV2(r.membership.value, Pick(del.todo), id) then Halted(Corrupt)
      else Deleting(Rereading(V2Loop, r.membership), del)
  }
}
