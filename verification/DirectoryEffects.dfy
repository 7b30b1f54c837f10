/**
 What committed writes and scripts leave in the store: every key they touch, under every field, and nothing else.
 The effects are stated key by key on the store before and after.
 */
module DirectoryEffects {
  import opened Prelude
  import opened DirectoryState
  import opened DirectoryTransactions
  import opened DirectoryAtomic
  import opened DirectoryErasure
  import opened DirectoryRuns
  import opened DirectoryConditions
  import opened DirectoryHistory

  // ----- One key -----

  ghost predicate Stored<K(!new), V>(m: map<K, V>, m': map<K, V>, k: K, v: V)
  {
    k in m' && m'[k] == v && forall x :: x != k ==> Lookup(m', x) == Lookup(m, x)
  }

  ghost predicate Removed<K(!new), V>(m: map<K, V>, m': map<K, V>, k: K)
  {
    k !in m' && forall x :: x != k ==> Lookup(m', x) == Lookup(m, x)
  }

  ghost predicate Added<T(!new)>(s: set<T>, s': set<T>, x: T)
  {
    forall y :: y in s' <==> y == x || y in s
  }

  ghost predicate Dropped<T(!new)>(s: set<T>, s': set<T>, x: T)
  {
    forall y :: y in s' <==> y != x && y in s
  }

  // ----- Users -----

  /** The record is stored under the next revision; email key and index entry move with the email. */
  ghost predicate UserUpdated(d: Directory, d': Directory, id: string, user: User, previous: string)
  {
    UserStored(d, d', id, user.(revision := user.revision + 1), previous)
  }

  ghost predicate UserStored(d: Directory, d': Directory, id: string, user: User, previous: string)
  {
    && Stored(d.users, d'.users, id, user)
    && (forall e :: Lookup(d'.emails, e) == if e == user.email then Some(id) else if e == previous then None else Lookup(d.emails, e))
    && (forall p :: p in d'.index <==> p == (user.email, id) || (p in d.index && p != (previous, id)))
    && d' == d.(users := d'.users, emails := d'.emails, index := d'.index)
  }

  ghost predicate PasswordConsumed(d: Directory, d': Directory, id: string, replacement: string)
  {
    && id in d.users && d' == d.(users := d'.users)
    && var u := d.users[id];
       Stored(d.users, d'.users, id, u.(password := replacement, mustChange := false, tokenVersion := u.tokenVersion + 1, revision := u.revision + 1))
  }

  ghost predicate FederatedUpdated(d: Directory, d': Directory, id: string, user: User)
  {
    Stored(d.federated, d'.federated, id, user.(revision := user.revision + 1)) && d' == d.(federated := d'.federated)
  }

  ghost predicate LegacyImported(d: Directory, d': Directory, email: string)
  {
    && email in d.legacyUsers
    && var legacy := d.legacyUsers[email];
       && Stored(d.users, d'.users, legacy.id, legacy.user) && Stored(d.emails, d'.emails, legacy.user.email, legacy.id)
       && Added(d.index, d'.index, (legacy.user.email, legacy.id))
       && d' == d.(users := d'.users, emails := d'.emails, index := d'.index)
  }

  // ----- Groups -----

  /** The group carries the patched fields under the next version; name key and order entry move with the name. */
  ghost predicate GroupPatched(d: Directory, d': Directory, group: string, patch: Patch)
  {
    && group in d.groups && group in d'.groups
    && var g, after := d.groups[group], d'.groups[group];
       && Stored(d.groups, d'.groups, group, after) && after.version == g.version + 1
       && after.name == (if patch.name.Some? then patch.name.value else g.name)
       && after.description == (if patch.description.Some? then patch.description.value else g.description)
       && after.active == (if patch.active.Some? then patch.active.value else g.active)
       && NameMoved(d, d', group, g.name, after.name)
       && d' == d.(groups := d'.groups, names := d'.names, order := d'.order)
  }

  ghost predicate NameMoved(d: Directory, d': Directory, group: string, before: string, after: string)
  {
    if before == after then d'.names == d.names && d'.order == d.order
    else
      && (forall n :: Lookup(d'.names, n) == if n == Fold(after) then Some(group) else if n == Fold(before) then None else Lookup(d.names, n))
      && (forall p :: p in d'.order <==> p == (Fold(after), group) || (p in d.order && p != (Fold(before), group)))
  }

  /** The group, its name and order entry, its members and its assignments are gone, from both sides. */
  ghost predicate GroupErased(d: Directory, d': Directory, group: string)
  {
    && group in d.groups && Removed(d.groups, d'.groups, group)
    && Removed(d.names, d'.names, Fold(d.groups[group].name)) && Dropped(d.order, d'.order, (Fold(d.groups[group].name), group))
    && (forall g, u :: (g, u) in d'.members <==> g != group && (g, u) in d.members)
    && (forall u, g :: (u, g) in d'.userGroups <==> (u, g) in d.userGroups && !(g == group && (g, u) in d.members))
    && (forall p, t :: (p, t) in d'.tenants <==> p != GroupPrincipal(group) && (p, t) in d.tenants)
    && (forall t, p :: Lookup(d'.assignments, (t, p)) ==
                       if p == GroupPrincipal(group) && (p, t) in d.tenants then None else Lookup(d.assignments, (t, p)))
    && d' == d.(groups := d'.groups, names := d'.names, order := d'.order, members := d'.members, userGroups := d'.userGroups,
                tenants := d'.tenants, assignments := d'.assignments)
  }

  ghost predicate MemberChanged(d: Directory, d': Directory, group: string, member: string, add: bool)
  {
    && group in d.groups && Stored(d.groups, d'.groups, group, Bump(d.groups[group]))
    && (if add then Added(d.members, d'.members, (group, member)) && Added(d.userGroups, d'.userGroups, (member, group))
        else Dropped(d.members, d'.members, (group, member)) && Dropped(d.userGroups, d'.userGroups, (member, group)))
    && d' == d.(groups := d'.groups, members := d'.members, userGroups := d'.userGroups)
  }

  // ----- Assignments -----

  /** The principal holds exactly these roles in the tenant, under the next version. */
  ghost predicate AssignmentPut(d: Directory, d': Directory, tenant: string, principal: Principal, roles: seq<string>)
  {
    && Added(d.tenants, d'.tenants, (principal, tenant)) && d' == d.(assignments := d'.assignments, tenants := d'.tenants)
    && var version := if (tenant, principal) in d.assignments then d.assignments[(tenant, principal)].version + 1 else 1;
       Stored(d.assignments, d'.assignments, (tenant, principal), Assignment(roles, version))
  }

  ghost predicate AssignmentWithdrawn(d: Directory, d': Directory, tenant: string, principal: Principal)
  {
    && Removed(d.assignments, d'.assignments, (tenant, principal)) && Dropped(d.tenants, d'.tenants, (principal, tenant))
    && d' == d.(assignments := d'.assignments, tenants := d'.tenants)
  }

  // ----- Deletion by email -----

  ghost predicate EmailErased(d: Directory, d': Directory, email: string, id: string)
  {
    && id in d.users && Removed(d.users, d'.users, id) && Removed(d.emails, d'.emails, email) && Removed(d.legacyUsers, d'.legacyUsers, email)
    && Dropped(d.index, d'.index, (email, id)) && AliasDropped(d, d', d.users[id]) && GroupsLeft(d, d', id) && GrantsLeft(d, d', id)
    && d' == d.(users := d'.users, emails := d'.emails, legacyUsers := d'.legacyUsers, index := d'.index, aliases := d'.aliases,
                groups := d'.groups, members := d'.members, userGroups := d'.userGroups, tenants := d'.tenants, assignments := d'.assignments)
  }

  ghost predicate AliasDropped(d: Directory, d': Directory, u: User)
  {
    if u.company.Some? && u.subject != "" then Removed(d.aliases, d'.aliases, (u.company.value, u.subject)) else d'.aliases == d.aliases
  }

  /** The user leaves its groups, each of which gains a version. */
  ghost predicate GroupsLeft(d: Directory, d': Directory, id: string)
  {
    && (forall u, g :: (u, g) in d'.userGroups <==> u != id && (u, g) in d.userGroups)
    && (forall g, u :: (g, u) in d'.members <==> (g, u) in d.members && !(u == id && (u, g) in d.userGroups))
    && (forall g :: g in d.groups ==> g in d'.groups && d'.groups[g] == if (id, g) in d.userGroups then Bump(d.groups[g]) else d.groups[g])
    && d'.groups.Keys == d.groups.Keys
  }

  /** The user loses its assignments. */
  ghost predicate GrantsLeft(d: Directory, d': Directory, id: string)
  {
    && (forall p, t :: (p, t) in d'.tenants <==> p != UserPrincipal(id) && (p, t) in d.tenants)
    && (forall t, p :: Lookup(d'.assignments, (t, p)) ==
                       if p == UserPrincipal(id) && (p, t) in d.tenants then None else Lookup(d.assignments, (t, p)))
  }

  // ----- Committed writes -----

  /** What each operation promises about the store after its EXEC. */
  ghost predicate Effect(d: Directory, d': Directory, op: Op)
    requires !op.DeleteUser?
  {
    match op
    case UpdateUser(id, user, previous) => UserUpdated(d, d', id, user, previous)
    case ConsumePassword(id, _, _, replacement) => PasswordConsumed(d, d', id, replacement)
    case UpdateFederated(id, user) => FederatedUpdated(d, d', id, user)
    case ImportLegacy(email) => LegacyImported(d, d', email)
    case PatchGroup(group, patch, _) => GroupPatched(d, d', group, patch)
    case DeleteGroup(group, _) => GroupErased(d, d', group)
    case ChangeMember(group, member, _, add) => MemberChanged(d, d', group, member, add)
    case PutAssignment(tenant, principal, roles, _, _) => AssignmentPut(d, d', tenant, principal, roles)
    case DeleteAssignment(tenant, principal, _) => AssignmentWithdrawn(d, d', tenant, principal)
    case DeleteByEmail(email, id, _) => EmailErased(d, d', email, id)
  }

  lemma SameEmailEffect(d: Directory, id: string, user: User)
    ensures UserStored(d, WithUser(d, id, user, user.email), id, user, user.email)
  {
  }

  lemma NewEmailEffect(d: Directory, id: string, user: User, previous: string)
    requires previous != user.email
    ensures UserStored(d, WithUser(d, id, user, previous), id, user, previous)
  {
  }

  lemma UserWriteEffect(d: Directory, id: string, user: User, previous: string)
    ensures UserUpdated(d, WithUser(d, id, user.(revision := user.revision + 1), previous), id, user, previous)
  {
    if previous == user.email {
      SameEmailEffect(d, id, user.(revision := user.revision + 1));
    } else {
      NewEmailEffect(d, id, user.(revision := user.revision + 1), previous);
    }
  }

  lemma SecretEffect(d: Directory, id: string, user: User, replacement: string)
    requires SecretFits(d, id, user) && user.password == replacement
    ensures PasswordConsumed(d, d.(users := d.users[id := user]), id, replacement)
  {
  }

  lemma ImportEffect(d: Directory, email: string)
    requires email in d.legacyUsers
    ensures
      var legacy := d.legacyUsers[email];
      LegacyImported(d, WithUser(d, legacy.id, legacy.user, legacy.user.email), email)
  {
  }

  lemma SameNameEffect(d: Directory, group: string, before: Group, after: Group)
    requires before.name == after.name
    ensures
      var d' := WithGroup(d, group, before, after);
      Stored(d.groups, d'.groups, group, after) && NameMoved(d, d', group, before.name, after.name) && d' == d.(groups := d'.groups)
  {
  }

  lemma NewNameEffect(d: Directory, group: string, before: Group, after: Group)
    requires before.name != after.name
    ensures
      var d' := WithGroup(d, group, before, after);
      && Stored(d.groups, d'.groups, group, after) && NameMoved(d, d', group, before.name, after.name)
      && d' == d.(groups := d'.groups, names := d'.names, order := d'.order)
  {
  }

  lemma PatchEffect(d: Directory, group: string, before: Group, patch: Patch)
    requires group in d.groups && d.groups[group] == before
    ensures GroupPatched(d, WithGroup(d, group, before, Bump(Patched(before, patch))), group, patch)
  {
    var after := Bump(Patched(before, patch));
    if before.name == after.name {
      SameNameEffect(d, group, before, after);
    } else {
      NewNameEffect(d, group, before, after);
    }
  }

  lemma GroupErasureNames(d: Directory, group: string, before: Group, members: set<string>, tenants: set<string>)
    requires group in d.groups && d.groups[group] == before && members == MembersOf(d, group)
    ensures
      var d' := WithoutGroup(d, group, before, members, tenants);
      && Removed(d.groups, d'.groups, group) && Removed(d.names, d'.names, Fold(before.name))
      && Dropped(d.order, d'.order, (Fold(before.name), group))
      && (forall g, u :: (g, u) in d'.members <==> g != group && (g, u) in d.members)
      && (forall u, g :: (u, g) in d'.userGroups <==> (u, g) in d.userGroups && !(g == group && (g, u) in d.members))
  {
    forall u
      ensures u in members <==> (group, u) in d.members
    {
      assert (group, u) in d.members ==> (group, u).1 in members;
    }
  }

  lemma TenantListed(d: Directory, p: Principal, t: string)
    ensures t in TenantsOf(d, p) <==> (p, t) in d.tenants
  {
    assert (p, t) in d.tenants ==> (p, t).1 in TenantsOf(d, p);
  }

  lemma GroupListed(d: Directory, id: string, g: string)
    ensures g in GroupsOf(d, id) <==> (id, g) in d.userGroups
  {
    assert (id, g) in d.userGroups ==> (id, g).1 in GroupsOf(d, id);
  }

  /** Dropping a principal's set and its assignment in every tenant of the set. */
  lemma GrantsDropped(d: Directory, principal: Principal, t: string, p: Principal)
    ensures Lookup(HDelEach(d.assignments, TenantsOf(d, principal), principal), (t, p)) ==
            if p == principal && (p, t) in d.tenants then None else Lookup(d.assignments, (t, p))
  {
    TenantListed(d, principal, t);
  }

  lemma GroupErasureEffect(d: Directory, group: string, before: Group, members: set<string>, tenants: set<string>)
    requires GroupErasureFits(d, group, before, members, tenants)
    ensures GroupErased(d, WithoutGroup(d, group, before, members, tenants), group)
  {
    GroupErasureNames(d, group, before, members, tenants);
    var d' := WithoutGroup(d, group, before, members, tenants);
    forall t, p
      ensures Lookup(d'.assignments, (t, p)) ==
              if p == GroupPrincipal(group) && (p, t) in d.tenants then None else Lookup(d.assignments, (t, p))
    {
      GrantsDropped(d, GroupPrincipal(group), t, p);
    }
  }

  lemma MemberEffect(d: Directory, group: string, member: string, add: bool)
    requires group in d.groups
    ensures MemberChanged(d, WithMember(d, group, member, Bump(d.groups[group]), add), group, member, add)
  {
  }

  lemma PutEffect(d: Directory, tenant: string, principal: Principal, a: Assignment)
    requires a.version == if (tenant, principal) in d.assignments then d.assignments[(tenant, principal)].version + 1 else 1
    ensures AssignmentPut(d, WithAssignment(d, tenant, principal, a), tenant, principal, a.roles)
  {
  }

  lemma WithdrawalEffect(d: Directory, tenant: string, principal: Principal)
    ensures AssignmentWithdrawn(d, WithoutAssignment(d, tenant, principal), tenant, principal)
  {
  }

  lemma EmailRecordsEffect(d: Directory, email: string, id: string, user: User, tenants: set<string>, bumped: map<string, Group>)
    requires id in d.users && d.users[id] == user
    ensures
      var d' := WithoutEmail(d, email, id, user, tenants, bumped);
      && Removed(d.users, d'.users, id) && Removed(d.emails, d'.emails, email) && Removed(d.legacyUsers, d'.legacyUsers, email)
      && Dropped(d.index, d'.index, (email, id)) && AliasDropped(d, d', user)
  {
  }

  lemma EmailGroupsEffect(d: Directory, email: string, id: string, user: User, tenants: set<string>, bumped: map<string, Group>)
    requires BumpsExactly(d, GroupsOf(d, id), bumped)
    ensures GroupsLeft(d, WithoutEmail(d, email, id, user, tenants, bumped), id)
  {
    forall g
      ensures g in bumped <==> (id, g) in d.userGroups
    {
      GroupListed(d, id, g);
    }
    assert (d.groups + bumped).Keys == d.groups.Keys;
  }

  lemma EmailGrantsEffect(d: Directory, email: string, id: string, user: User, bumped: map<string, Group>)
    ensures GrantsLeft(d, WithoutEmail(d, email, id, user, TenantsOf(d, UserPrincipal(id)), bumped), id)
  {
    var d' := WithoutEmail(d, email, id, user, TenantsOf(d, UserPrincipal(id)), bumped);
    forall t, p
      ensures Lookup(d'.assignments, (t, p)) ==
              if p == UserPrincipal(id) && (p, t) in d.tenants then None else Lookup(d.assignments, (t, p))
    {
      GrantsDropped(d, UserPrincipal(id), t, p);
    }
  }

  lemma EmailEffect(d: Directory, email: string, id: string, user: User, tenants: set<string>, bumped: map<string, Group>)
    requires EmailErasureFits(d, email, id, user, tenants, bumped)
    ensures EmailErased(d, WithoutEmail(d, email, id, user, tenants, bumped), email, id)
  {
    EmailRecordsEffect(d, email, id, user, tenants, bumped);
    EmailGroupsEffect(d, email, id, user, tenants, bumped);
    EmailGrantsEffect(d, email, id, user, bumped);
  }

  /** A plan that does what its operation was asked to do has the effect of the operation. */
  lemma PlanEffect(d: Directory, op: Op, plan: Plan)
    requires !op.DeleteUser? && Fits(d, plan) && Honoured(op, d, plan) && plan != NoWrites
    ensures Effect(d, Apply(d, plan), op)
  {
    match plan
    case WriteUser(id, _, previous) => UserWriteEffect(d, id, op.user, previous);
    case WriteSecret(id, user) => SecretEffect(d, id, user, op.replacement);
    case WriteFederated(_, _) =>
    case WriteImport(_, _) => ImportEffect(d, op.email);
    case WriteGroup(group, before, _) => PatchEffect(d, group, before, op.patch);
    case EraseGroup(group, before, members, tenants) => GroupErasureEffect(d, group, before, members, tenants);
    case WriteMember(group, member, _, add) => MemberEffect(d, group, member, add);
    case WriteAssignment(tenant, principal, a) => PutEffect(d, tenant, principal, a);
    case EraseAssignment(tenant, principal) => WithdrawalEffect(d, tenant, principal);
    case EraseByEmail(email, id, user, tenants, bumped) => EmailEffect(d, email, id, user, tenants, bumped);
    case EraseUser(_, _) => assert false;
  }

  /** In every run a committed write leaves exactly the effect of its operation in the store. */
  lemma CommittedEffect(states: seq<Sys>, actions: seq<Action>, i: nat, c: int)
    requires IsRun(states, actions) && i < |actions| && actions[i] == Commit(c)
    ensures c in states[i].clients && states[i].clients[c].point.Ready?
    ensures
      var op, plan := states[i].clients[c].op, states[i].clients[c].point.plan;
      !op.DeleteUser? && plan != NoWrites ==> Effect(states[i].d, states[i + 1].d, op)
  {
    CommitIsAtomic(states, actions, i, c);
    CommitHonours(states, actions, i, c);
    var op, plan := states[i].clients[c].op, states[i].clients[c].point.plan;
    if !op.DeleteUser? && plan != NoWrites {
      PlanEffect(states[i].d, op, plan);
    }
  }

  // ----- Effective access after a change of assignments -----

  /** The roles of a user in a tenant that do not come through one principal. */
  ghost predicate HasRoleApart(d: Directory, trust: ForeignTrust, user: string, tenant: string, role: string, principal: Principal)
  {
    && StoredUser(d, user).Some? && Eligible(trust, StoredUser(d, user).value, tenant, role)
    && exists p :: p != principal && Source(d, user, p) && Grants(d, p, tenant, role)
  }

  lemma SourcesStay(d: Directory, d': Directory, user: string, p: Principal)
    requires d' == d.(assignments := d'.assignments, tenants := d'.tenants)
    ensures Source(d', user, p) <==> Source(d, user, p)
    ensures StoredUser(d', user) == StoredUser(d, user)
  {
  }

  lemma OtherGrantsStay(d: Directory, d': Directory, tenant: string, principal: Principal, t: string, p: Principal, role: string)
    requires forall x :: x != (tenant, principal) ==> Lookup(d'.assignments, x) == Lookup(d.assignments, x)
    requires (t, p) != (tenant, principal)
    ensures Grants(d', p, t, role) <==> Grants(d, p, t, role)
  {
    assert Lookup(d'.assignments, (t, p)) == Lookup(d.assignments, (t, p));
  }

  /** Away from the tenant, and for users the principal is no source of, nothing changes. */
  lemma AccessElsewhere(d: Directory, d': Directory, tenant: string, principal: Principal, trust: ForeignTrust, user: string, t: string, role: string)
    requires d' == d.(assignments := d'.assignments, tenants := d'.tenants)
    requires forall x :: x != (tenant, principal) ==> Lookup(d'.assignments, x) == Lookup(d.assignments, x)
    requires t != tenant || !Source(d, user, principal)
    ensures HasRole(d', trust, user, t, role) <==> HasRole(d, trust, user, t, role)
  {
    forall p | Source(d, user, p)
      ensures Source(d', user, p) && (Grants(d', p, t, role) <==> Grants(d, p, t, role))
    {
      SourcesStay(d, d', user, p);
      OtherGrantsStay(d, d', tenant, principal, t, p, role);
    }
    forall p | Source(d', user, p)
      ensures Source(d, user, p)
    {
      SourcesStay(d, d', user, p);
    }
    SourcesStay(d, d', user, principal);
  }

  lemma AccessApart(d: Directory, d': Directory, tenant: string, principal: Principal, trust: ForeignTrust, user: string, role: string)
    requires d' == d.(assignments := d'.assignments, tenants := d'.tenants)
    requires forall x :: x != (tenant, principal) ==> Lookup(d'.assignments, x) == Lookup(d.assignments, x)
    ensures HasRoleApart(d', trust, user, tenant, role, principal) <==> HasRoleApart(d, trust, user, tenant, role, principal)
  {
    forall p | p != principal
      ensures (Source(d', user, p) <==> Source(d, user, p)) && (Grants(d', p, tenant, role) <==> Grants(d, p, tenant, role))
    {
      SourcesStay(d, d', user, p);
      OtherGrantsStay(d, d', tenant, principal, tenant, p, role);
    }
    SourcesStay(d, d', user, principal);
  }

  /** After a withdrawal a user holds in the tenant what it held apart from the principal, and everywhere else what it held before. */
  lemma WithdrawalAccess(d: Directory, d': Directory, tenant: string, principal: Principal, trust: ForeignTrust, user: string, t: string, role: string)
    requires AssignmentWithdrawn(d, d', tenant, principal)
    ensures if t == tenant && Source(d, user, principal)
            then HasRole(d', trust, user, t, role) <==> HasRoleApart(d, trust, user, t, role, principal)
            else HasRole(d', trust, user, t, role) <==> HasRole(d, trust, user, t, role)
  {
    if t == tenant && Source(d, user, principal) {
      AccessApart(d, d', tenant, principal, trust, user, role);
      assert !Grants(d', principal, tenant, role);
    } else {
      AccessElsewhere(d, d', tenant, principal, trust, user, t, role);
    }
  }

  /** After a put a user the principal is a source of holds in the tenant the roles put, as far as it is eligible, and what it held apart. */
  lemma PutAccess(d: Directory, d': Directory, tenant: string, principal: Principal, roles: seq<string>, trust: ForeignTrust, user: string,
                  t: string, role: string)
    requires AssignmentPut(d, d', tenant, principal, roles)
    ensures if t == tenant && Source(d, user, principal)
            then HasRole(d', trust, user, t, role) <==>
                   || HasRoleApart(d, trust, user, t, role, principal)
                   || (StoredUser(d, user).Some? && Eligible(trust, StoredUser(d, user).value, t, role) && role in roles)
            else HasRole(d', trust, user, t, role) <==> HasRole(d, trust, user, t, role)
  {
    if t == tenant && Source(d, user, principal) {
      AccessApart(d, d', tenant, principal, trust, user, role);
      SourcesStay(d, d', user, principal);
      assert Grants(d', principal, tenant, role) <==> role in roles;
    } else {
      AccessElsewhere(d, d', tenant, principal, trust, user, t, role);
    }
  }

  // ----- Scripts -----

  /** No other id owns the email, and the id is free or holds this very record. */
  predicate CreationOpen(d: Directory, id: string, input: User)
  {
    && (input.email in d.emails ==> d.emails[input.email] == id)
    && (id in d.users ==> d.users[id] == input.(revision := 0))
  }

  lemma CreateUserEffect(d: Directory, id: string, input: User)
    ensures
      var d' := RunCreateUser(d, id, input);
      if CreationOpen(d, id, input)
      then
        && Stored(d.users, d'.users, id, input.(revision := 0)) && Stored(d.emails, d'.emails, input.email, id)
        && Added(d.index, d'.index, (input.email, id)) && d' == d.(users := d'.users, emails := d'.emails, index := d'.index)
      else d' == d
  {
  }

  lemma CreateFederatedEffect(d: Directory, tenant: string, subject: string, id: string, user: User)
    ensures
      var d' := RunCreateFederated(d, tenant, subject, id, user);
      if (tenant, subject) !in d.aliases && id !in d.federated
      then
        && Stored(d.federated, d'.federated, id, user) && Stored(d.aliases, d'.aliases, (tenant, subject), id)
        && d' == d.(federated := d'.federated, aliases := d'.aliases)
      else d' == d
  {
  }

  lemma LegacyMembershipEffect(d: Directory, tenant: string, id: string, m: Membership)
    ensures
      var d' := RunLegacyCreate(d, tenant, id, m);
      if (tenant, id) !in d.memberships2 && (id, tenant) !in d.membershipTenants2
      then
        && Stored(d.memberships, d'.memberships, (tenant, id), m) && Added(d.membershipTenants, d'.membershipTenants, (id, tenant))
        && d' == d.(memberships := d'.memberships, membershipTenants := d'.membershipTenants)
      else d' == d
    ensures
      var d' := RunLegacyDelete(d, tenant, id);
      if (tenant, id) !in d.memberships2 && (id, tenant) !in d.membershipTenants2
      then
        && Removed(d.memberships, d'.memberships, (tenant, id)) && Dropped(d.membershipTenants, d'.membershipTenants, (id, tenant))
        && d' == d.(memberships := d'.memberships, membershipTenants := d'.membershipTenants)
      else d' == d
  {
  }

  /** The pair has no membership of either generation, on either side. */
  predicate MembershipOpen(d: Directory, tenant: string, id: string)
  {
    && (tenant, id) !in d.memberships && (id, tenant) !in d.membershipTenants
    && (tenant, id) !in d.memberships2 && (id, tenant) !in d.membershipTenants2
  }

  ghost predicate BothStored(d: Directory, d': Directory, tenant: string, id: string, m: Membership)
  {
    && Stored(d.memberships, d'.memberships, (tenant, id), m) && Added(d.membershipTenants, d'.membershipTenants, (id, tenant))
    && Stored(d.memberships2, d'.memberships2, (tenant, id), m) && Added(d.membershipTenants2, d'.membershipTenants2, (id, tenant))
    && d' == d.(memberships := d'.memberships, membershipTenants := d'.membershipTenants,
                memberships2 := d'.memberships2, membershipTenants2 := d'.membershipTenants2)
  }

  lemma EnsureStores(d: Directory, tenant: string, id: string, roles: seq<string>, at: int)
    requires CanonicalRoles(roles) && MembershipOpen(d, tenant, id)
    ensures BothStored(d, RunEnsure(d, tenant, id, roles, at), tenant, id, Membership(Derived(tenant, id), roles, at))
  {
  }

  lemma EnsureRefuses(d: Directory, tenant: string, id: string, roles: seq<string>, at: int)
    requires !CanonicalRoles(roles) || !MembershipOpen(d, tenant, id)
    ensures RunEnsure(d, tenant, id, roles, at) == d
  {
  }

  lemma EnsureEffect(d: Directory, tenant: string, id: string, roles: seq<string>, at: int)
    ensures
      var d' := RunEnsure(d, tenant, id, roles, at);
      if CanonicalRoles(roles) && MembershipOpen(d, tenant, id)
      then BothStored(d, d', tenant, id, Membership(Derived(tenant, id), roles, at)) else d' == d
  {
    if CanonicalRoles(roles) && MembershipOpen(d, tenant, id) {
      EnsureStores(d, tenant, id, roles, at);
    } else {
      EnsureRefuses(d, tenant, id, roles, at);
    }
  }

  /** Everything the workload account deletion removes; the ordered email index is not part of it. */
  ghost predicate AccountErased(d: Directory, d': Directory, tenant: string, id: string, email: string)
  {
    && Removed(d.memberships, d'.memberships, (tenant, id)) && Dropped(d.membershipTenants, d'.membershipTenants, (id, tenant))
    && Removed(d.memberships2, d'.memberships2, (tenant, id)) && Dropped(d.membershipTenants2, d'.membershipTenants2, (id, tenant))
    && Removed(d.users, d'.users, id) && Removed(d.emails, d'.emails, email) && Removed(d.legacyUsers, d'.legacyUsers, email)
    && d' == d.(memberships := d'.memberships, membershipTenants := d'.membershipTenants, memberships2 := d'.memberships2,
                membershipTenants2 := d'.membershipTenants2, users := d'.users, emails := d'.emails, legacyUsers := d'.legacyUsers)
  }

  lemma WorkloadEffect(d: Directory, tenant: string, id: string, email: string)
    ensures
      var d' := RunWorkloadDelete(d, tenant, id, email);
      if AccountComplete(d, tenant, id, email) then AccountErased(d, d', tenant, id, email) else d' == d
  {
  }

  lemma GroupCreationEffect(d: Directory, id: string, group: Group)
    ensures
      var d' := RunReserve(d, id, group);
      Stored(d.names, d'.names, Fold(group.name), id) && d' == d.(names := d'.names)
    ensures
      var d' := RunFinish(d, id, group);
      && Stored(d.groups, d'.groups, id, group) && Added(d.order, d'.order, (Fold(group.name), id))
      && d' == d.(groups := d'.groups, order := d'.order)
    ensures
      var d' := RunAbort(d, group);
      Removed(d.names, d'.names, Fold(group.name)) && d' == d.(names := d'.names)
  {
  }
}
