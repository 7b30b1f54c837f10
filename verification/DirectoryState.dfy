/**
 The Redis keyspace behind the identity directory, as one record of maps and relations.
 A Redis set or sorted set keyed by an id is a relation here (`members` holds the pairs of
 every `groups:members:<g>` set), so "key missing" and "empty set" are the same thing,
 as they are in Redis.
 */
module DirectoryState {
  import opened Prelude

  datatype Status = Active | Inactive | Suspended
  datatype PlatformRole = Admin | CompanyAdmin | CompanyEmployee

  /** A stored user after `canonicalDirectoryStorageUser`; the id is the hash field it is stored under. */
  datatype User = User(
    email: string,
    password: string,
    role: PlatformRole,
    status: Status,
    company: Option<string>,
    tokenVersion: nat,
    revision: nat,
    saml: bool,
    subject: string,
    mustChange: bool
  )

  datatype LegacyUser = LegacyUser(id: string, user: User)

  datatype Group = Group(name: string, description: string, active: bool, version: nat)

  datatype Principal = UserPrincipal(id: string) | GroupPrincipal(id: string)

  datatype Assignment = Assignment(roles: seq<string>, version: nat)

  /** A v2 membership id is derived from the tenant/user pair; a legacy one is whatever its writer chose. */
  datatype MembershipId = Derived(tenant: string, user: string) | Chosen(text: string)

  datatype Membership = Membership(id: MembershipId, roles: seq<string>, createdAt: int)

  datatype SessionKey = SubjectKey(tenant: string, subject: string) | NameIdKey(tenant: string, nameId: string)

  datatype Session = Session(tenant: string, subject: string, nameId: string)

  datatype Directory = Directory(
    users: map<string, User>,                           // users_v2
    federated: map<string, User>,                       // saml_users_v2
    legacyUsers: map<string, LegacyUser>,               // users, by email
    emails: map<string, string>,                        // userByEmail:<email>
    index: set<(string, string)>,                       // ordered email index: (email, user)
    groups: map<string, Group>,                         // directory:groups
    names: map<string, string>,                         // groups:name:<folded name>
    order: set<(string, string)>,                       // groups:order: (folded name, group)
    members: set<(string, string)>,                     // groups:members:<g>: (group, user)
    userGroups: set<(string, string)>,                  // users:groups:<u>: (user, group)
    assignments: map<(string, Principal), Assignment>,  // access:assignments:<t>
    tenants: set<(Principal, string)>,                  // access:principal:<p>:tenants
    memberships: map<(string, string), Membership>,     // memberships:<t>, by (tenant, user)
    membershipTenants: set<(string, string)>,           // membershipsByUser:<u>: (user, tenant)
    memberships2: map<(string, string), Membership>,    // memberships:v2:<t>
    membershipTenants2: set<(string, string)>,          // membershipsByUser:v2:<u>
    aliases: map<(string, string), string>,             // samlSubject:<tenant>:<subject>
    sessions: map<SessionKey, Session>,
    marker: Option<string>                              // backfill:complete
  )

  const MASTER_TENANT := "local-tenant"
  const RETIRED_TENANT := "default"
  const BACKFILL_VERSION := "v1"
  const MAXIMUM_RELATIONSHIPS := 500
  const MAXIMUM_ROLES := 100

  // ----- Identifier grammar -----

  predicate LabelChar(c: char)
  {
    c == '-' || 'a' <= c <= 'z' || '0' <= c <= '9'
  }

  predicate ActiveTenant(t: string)
  {
    && t != RETIRED_TENANT
    && 1 <= |t| <= 63 && t[0] != '-' && t[|t| - 1] != '-'
    && forall i :: 0 <= i < |t| ==> LabelChar(t[i])
  }

  predicate CanonicalTenant(t: string)
  {
    ActiveTenant(t) || t == RETIRED_TENANT
  }

  predicate RoleEdge(c: char)
  {
    'a' <= c <= 'z' || 'A' <= c <= 'Z' || '0' <= c <= '9'
  }

  predicate RoleName(r: string)
  {
    && 1 <= |r| <= 128 && RoleEdge(r[0]) && RoleEdge(r[|r| - 1])
    && forall i :: 0 <= i < |r| ==> RoleEdge(r[i]) || r[i] in {'.', '_', '-'}
  }

  /** What `canonicalDirectoryRoles` returns: between 1 and 100 role names, strictly increasing. */
  predicate CanonicalRoles(roles: seq<string>)
  {
    && 1 <= |roles| <= MAXIMUM_ROLES
    && Increasing(roles)
    && forall i :: 0 <= i < |roles| ==> RoleName(roles[i])
  }

  predicate GroupText(name: string, description: string)
  {
    1 <= |name| <= 128 && |description| <= 512
  }

  function FoldChar(c: char): char
  {
    if 'A' <= c <= 'Z' then ((c as int) + 32) as char else c
  }

  /** Case folding of group names (`strings.ToLower` on ASCII). */
  function Fold(name: string): string
  {
    if name == [] then [] else [FoldChar(name[0])] + Fold(name[1..])
  }

  // ----- Set reads -----

  function GroupsOf(d: Directory, user: string): set<string>
  {
    set p | p in d.userGroups && p.0 == user :: p.1
  }

  function MembersOf(d: Directory, group: string): set<string>
  {
    set p | p in d.members && p.0 == group :: p.1
  }

  function TenantsOf(d: Directory, principal: Principal): set<string>
  {
    set p | p in d.tenants && p.0 == principal :: p.1
  }

  function LegacyTenantsOf(d: Directory, user: string): set<string>
  {
    set p | p in d.membershipTenants && p.0 == user :: p.1
  }

  function V2TenantsOf(d: Directory, user: string): set<string>
  {
    set p | p in d.membershipTenants2 && p.0 == user :: p.1
  }

  function Lookup<K, V>(m: map<K, V>, k: K): Option<V>
  {
    if k in m then Some(m[k]) else None
  }

  // ----- Set and hash writes -----

  /** DEL of the set stored under `key`. */
  function Del<K(==), V(==)>(s: set<(K, V)>, key: K): set<(K, V)>
  {
    set p | p in s && p.0 != key
  }

  /** SREM of `item` from the set under each of `keys`. */
  function RemoveEach<K(==), V(==)>(s: set<(K, V)>, keys: set<K>, item: V): set<(K, V)>
  {
    set p | p in s && !(p.0 in keys && p.1 == item)
  }

  /** HDEL of `field` from the hash under each of `keys`. */
  function HDelEach<K(==), F(==), V>(m: map<(K, F), V>, keys: set<K>, field: F): map<(K, F), V>
  {
    map k | k in m && !(k.0 in keys && k.1 == field) :: m[k]
  }

  // ----- The invariant -----

  /** Email key, ordered email index and user records describe the same set of (email, id) pairs. */
  ghost predicate UsersAgree(users: map<string, User>, emails: map<string, string>, index: set<(string, string)>)
  {
    && (forall u :: u in users ==> users[u].email in emails && emails[users[u].email] == u)
    && (forall e :: e in emails ==> emails[e] in users && users[emails[e]].email == e)
    && (forall u :: u in users ==> (users[u].email, u) in index)
    && (forall p :: p in index ==> p.1 in users && users[p.1].email == p.0)
  }

  predicate ValidGroup(g: Group)
  {
    g.version >= 1 && GroupText(g.name, g.description)
  }

  /**
   Every group owns the key of its folded name and its entry of the order index. A name key may
   also be held by an id that has no group yet (a creation between its two commands).
   */
  ghost predicate GroupsAgree(groups: map<string, Group>, names: map<string, string>, order: set<(string, string)>)
  {
    && (forall g :: g in groups ==> Fold(groups[g].name) in names && names[Fold(groups[g].name)] == g)
    && (forall n :: n in names && names[n] in groups ==> Fold(groups[names[n]].name) == n)
    && (forall g :: g in groups ==> (Fold(groups[g].name), g) in order)
    && (forall p :: p in order ==> p.1 in groups && Fold(groups[p.1].name) == p.0)
    && (forall g :: g in groups ==> ValidGroup(groups[g]))
  }

  /** Group-to-user and user-to-group sets mirror each other and never dangle. */
  ghost predicate MembersAgree(members: set<(string, string)>, userGroups: set<(string, string)>,
                               groups: set<string>, users: set<string>)
  {
    && (forall g, u :: (g, u) in members <==> (u, g) in userGroups)
    && (forall p :: p in members ==> p.0 in groups && p.1 in users)
  }

  predicate Exists(users: set<string>, groups: set<string>, p: Principal)
  {
    if p.UserPrincipal? then p.id in users else p.id in groups
  }

  predicate ValidAssignment(tenant: string, a: Assignment)
  {
    ActiveTenant(tenant) && CanonicalRoles(a.roles) && a.version >= 1
  }

  /** Assignments mirror the principal-to-tenant sets, never dangle and hold canonical roles. */
  ghost predicate AssignmentsAgree(assignments: map<(string, Principal), Assignment>, tenants: set<(Principal, string)>,
                                   users: set<string>, groups: set<string>)
  {
    && (forall t, p :: (t, p) in assignments <==> (p, t) in tenants)
    && (forall a :: a in assignments ==> Exists(users, groups, a.1))
    && (forall a :: a in assignments ==> ValidAssignment(a.0, assignments[a]))
  }

  ghost predicate DirectoryInv(d: Directory)
  {
    && UsersAgree(d.users, d.emails, d.index)
    && GroupsAgree(d.groups, d.names, d.order)
    && MembersAgree(d.members, d.userGroups, d.groups.Keys, d.users.Keys)
    && AssignmentsAgree(d.assignments, d.tenants, d.users.Keys, d.groups.Keys)
  }

  predicate ValidV2(m: Membership, tenant: string, user: string)
  {
    m.id == Derived(tenant, user) && CanonicalRoles(m.roles)
  }

  /** Both membership generations mirror their reverse sets; a v2 entry implies all four entries with one payload. */
  ghost predicate MembershipMirror(memberships: map<(string, string), Membership>, tenants: set<(string, string)>,
                                   memberships2: map<(string, string), Membership>, tenants2: set<(string, string)>)
  {
    && (forall t, u :: (t, u) in memberships <==> (u, t) in tenants)
    && (forall t, u :: (t, u) in memberships2 <==> (u, t) in tenants2)
    && (forall k :: k in memberships2 ==> k in memberships && memberships[k] == memberships2[k])
    && (forall k :: k in memberships2 ==> ValidV2(memberships2[k], k.0, k.1))
  }

  ghost predicate MembershipsAgree(d: Directory)
  {
    MembershipMirror(d.memberships, d.membershipTenants, d.memberships2, d.membershipTenants2)
  }

  predicate SameMemberships(d: Directory, d': Directory)
  {
    && d'.memberships == d.memberships && d'.membershipTenants == d.membershipTenants
    && d'.memberships2 == d.memberships2 && d'.membershipTenants2 == d.membershipTenants2
  }

  predicate SameGroups(d: Directory, d': Directory)
  {
    && d'.groups == d.groups && d'.names == d.names && d'.order == d.order
    && d'.members == d.members && d'.userGroups == d.userGroups
  }

  /** Nothing the directory invariant speaks of has changed. */
  predicate SameCore(d: Directory, d': Directory)
  {
    && SameGroups(d, d')
    && d'.users == d.users && d'.emails == d.emails && d'.index == d.index
    && d'.assignments == d.assignments && d'.tenants == d.tenants
  }

  predicate SameUsers(d: Directory, d': Directory)
  {
    d'.users == d.users && d'.emails == d.emails && d'.index == d.index && d'.federated == d.federated
  }

  predicate SameGrants(d: Directory, d': Directory)
  {
    d'.assignments == d.assignments && d'.tenants == d.tenants
  }
}
