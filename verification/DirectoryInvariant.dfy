/** Every plan that fits the store keeps the directory invariant and the membership mirror. */
module DirectoryInvariant {
  import opened Prelude
  import opened DirectoryState
  import opened DirectoryTransactions
  import opened DirectoryAtomic

  // ----- The components of the invariant, one write at a time -----

  lemma SetUser(users: map<string, User>, emails: map<string, string>, index: set<(string, string)>, id: string, user: User)
    requires UsersAgree(users, emails, index)
    requires if id in users then users[id].email == user.email else user.email !in emails
    ensures UsersAgree(users[id := user], emails[user.email := id], index + {(user.email, id)})
  {
  }

  lemma DropUser(users: map<string, User>, emails: map<string, string>, index: set<(string, string)>, id: string)
    requires UsersAgree(users, emails, index) && id in users
    ensures UsersAgree(users - {id}, emails - {users[id].email}, index - {(users[id].email, id)})
  {
  }

  /** A change of email is a removal followed by an insertion. */
  lemma MoveUser(users: map<string, User>, emails: map<string, string>, index: set<(string, string)>, id: string, user: User)
    requires UsersAgree(users, emails, index) && id in users && users[id].email != user.email
    requires user.email !in emails || emails[user.email] == id
    ensures UsersAgree(users[id := user], emails[user.email := id] - {users[id].email},
                       index + {(user.email, id)} - {(users[id].email, id)})
  {
    var was := users[id].email;
    DropUser(users, emails, index, id);
    SetUser(users - {id}, emails - {was}, index - {(was, id)}, id, user);
    assert (users - {id})[id := user] == users[id := user];
    assert (emails - {was})[user.email := id] == emails[user.email := id] - {was};
    assert index - {(was, id)} + {(user.email, id)} == index + {(user.email, id)} - {(was, id)};
  }

  lemma SetGroup(groups: map<string, Group>, names: map<string, string>, order: set<(string, string)>, g: string, after: Group)
    requires GroupsAgree(groups, names, order) && g in groups && ValidGroup(after) && Fold(after.name) == Fold(groups[g].name)
    ensures GroupsAgree(groups[g := after], names, order)
  {
  }

  lemma DropGroup(groups: map<string, Group>, names: map<string, string>, order: set<(string, string)>, g: string)
    requires GroupsAgree(groups, names, order) && g in groups
    ensures GroupsAgree(groups - {g}, names - {Fold(groups[g].name)}, order - {(Fold(groups[g].name), g)})
    ensures forall n :: n in names && n != Fold(groups[g].name) ==> names[n] != g
  {
  }

  lemma NewGroup(groups: map<string, Group>, names: map<string, string>, order: set<(string, string)>, g: string, group: Group)
    requires GroupsAgree(groups, names, order) && g !in groups && ValidGroup(group)
    requires forall n :: n in names && names[n] == g ==> n == Fold(group.name)
    requires Fold(group.name) in names ==> names[Fold(group.name)] !in groups
    ensures GroupsAgree(groups[g := group], names[Fold(group.name) := g], order + {(Fold(group.name), g)})
  {
  }

  lemma MoveGroup(groups: map<string, Group>, names: map<string, string>, order: set<(string, string)>, g: string, after: Group)
    requires GroupsAgree(groups, names, order) && g in groups && ValidGroup(after)
    requires Fold(after.name) !in names || names[Fold(after.name)] == g
    ensures GroupsAgree(groups[g := after], (names - {Fold(groups[g].name)})[Fold(after.name) := g],
                        order - {(Fold(groups[g].name), g)} + {(Fold(after.name), g)})
  {
    DropGroup(groups, names, order, g);
    NewGroup(groups - {g}, names - {Fold(groups[g].name)}, order - {(Fold(groups[g].name), g)}, g, after);
    assert (groups - {g})[g := after] == groups[g := after];
  }

  lemma BumpGroups(d: Directory, affected: set<string>, bumped: map<string, Group>)
    requires GroupsAgree(d.groups, d.names, d.order) && BumpsExactly(d, affected, bumped)
    ensures GroupsAgree(d.groups + bumped, d.names, d.order)
    ensures (d.groups + bumped).Keys == d.groups.Keys
  {
    var after := d.groups + bumped;
    assert after.Keys == d.groups.Keys;
    assert forall g :: g in after ==> after[g].name == d.groups[g].name && ValidGroup(after[g]);
  }

  lemma DropMemberships(members: set<(string, string)>, userGroups: set<(string, string)>, groups: set<string>,
                        users: set<string>, user: string, affected: set<string>)
    requires MembersAgree(members, userGroups, groups, users)
    requires affected == set p | p in userGroups && p.0 == user :: p.1
    ensures MembersAgree(RemoveEach(members, affected, user), Del(userGroups, user), groups, users - {user})
  {
    forall g, u
      ensures (g, u) in members && !(g in affected && u == user) <==> (u, g) in userGroups && u != user
    {
      assert (u, g) in userGroups && u == user ==> (u, g).1 in affected;
    }
    forall p | p in RemoveEach(members, affected, user)
      ensures p.0 in groups && p.1 in users - {user}
    {
      assert (p.0, p.1) in members && (p.1, p.0) in userGroups;
    }
  }

  lemma DropAssignments(d: Directory, principal: Principal, affected: set<string>, users: set<string>, groups: set<string>)
    requires AssignmentsAgree(d.assignments, d.tenants, d.users.Keys, d.groups.Keys)
    requires affected == TenantsOf(d, principal)
    requires forall p :: p != principal && Exists(d.users.Keys, d.groups.Keys, p) ==> Exists(users, groups, p)
    ensures AssignmentsAgree(HDelEach(d.assignments, affected, principal), Del(d.tenants, principal), users, groups)
  {
    forall t, p
      ensures (t, p) in d.assignments && !(t in affected && p == principal) <==> (p, t) in d.tenants && p != principal
    {
      assert (p, t) in d.tenants && p == principal ==> (p, t).1 in affected;
    }
    forall k | k in d.assignments && !(k.0 in affected && k.1 == principal)
      ensures Exists(users, groups, k.1)
    {
      assert (k.0, k.1) in d.assignments && (k.1, k.0) in d.tenants;
    }
  }

  // ----- Plans -----

  lemma SameUsersKeep(d: Directory, users: map<string, User>, emails: map<string, string>, index: set<(string, string)>)
    requires DirectoryInv(d) && UsersAgree(users, emails, index) && users.Keys == d.users.Keys
    ensures DirectoryInv(d.(users := users, emails := emails, index := index))
  {
  }

  lemma SameGroupsKeep(d: Directory, groups: map<string, Group>, names: map<string, string>, order: set<(string, string)>)
    requires DirectoryInv(d) && GroupsAgree(groups, names, order) && groups.Keys == d.groups.Keys
    ensures DirectoryInv(d.(groups := groups, names := names, order := order))
  {
  }

  lemma UserKeeps(d: Directory, id: string, user: User, previous: string)
    requires DirectoryInv(d) && UserFits(d, id, user, previous)
    ensures DirectoryInv(WithUser(d, id, user, previous))
  {
    var users, emails, index := d.users[id := user], d.emails[user.email := id], d.index + {(user.email, id)};
    assert users.Keys == d.users.Keys;
    if user.email == previous {
      SetUser(d.users, d.emails, d.index, id, user);
      SameUsersKeep(d, users, emails, index);
    } else {
      MoveUser(d.users, d.emails, d.index, id, user);
      SameUsersKeep(d, users, emails - {previous}, index - {(previous, id)});
    }
  }

  lemma SecretKeeps(d: Directory, id: string, user: User)
    requires DirectoryInv(d) && SecretFits(d, id, user)
    ensures DirectoryInv(d.(users := d.users[id := user]))
  {
    SetUser(d.users, d.emails, d.index, id, user);
    assert d.emails[user.email := id] == d.emails && d.index + {(user.email, id)} == d.index;
    assert d.users[id := user].Keys == d.users.Keys;
  }

  lemma MoreUsersKeep(d: Directory, users: set<string>)
    requires DirectoryInv(d) && d.users.Keys <= users
    ensures MembersAgree(d.members, d.userGroups, d.groups.Keys, users)
    ensures AssignmentsAgree(d.assignments, d.tenants, users, d.groups.Keys)
  {
  }

  /** A record under an unused id and an unused email. */
  lemma NewUserKeeps(d: Directory, id: string, user: User)
    requires DirectoryInv(d) && id !in d.users && user.email !in d.emails
    ensures DirectoryInv(WithUser(d, id, user, user.email))
  {
    SetUser(d.users, d.emails, d.index, id, user);
    MoreUsersKeep(d, d.users[id := user].Keys);
  }

  lemma GroupKeeps(d: Directory, group: string, before: Group, after: Group)
    requires DirectoryInv(d) && GroupFits(d, group, before, after)
    ensures DirectoryInv(WithGroup(d, group, before, after))
  {
    var groups := d.groups[group := after];
    assert groups.Keys == d.groups.Keys;
    if before.name == after.name {
      SetGroup(d.groups, d.names, d.order, group, after);
      SameGroupsKeep(d, groups, d.names, d.order);
    } else {
      MoveGroup(d.groups, d.names, d.order, group, after);
      SameGroupsKeep(d, groups, (d.names - {Fold(before.name)})[Fold(after.name) := group],
                     d.order - {(Fold(before.name), group)} + {(Fold(after.name), group)});
    }
  }

  lemma WithoutGroupMembers(d: Directory, group: string)
    requires MembersAgree(d.members, d.userGroups, d.groups.Keys, d.users.Keys)
    ensures MembersAgree(Del(d.members, group), RemoveEach(d.userGroups, MembersOf(d, group), group),
                         d.groups.Keys - {group}, d.users.Keys)
  {
    forall g, u
      ensures (g, u) in d.members && g != group <==> (u, g) in d.userGroups && !(u in MembersOf(d, group) && g == group)
    {
      assert (g, u) in d.members && g == group ==> (g, u).1 in MembersOf(d, group);
    }
  }

  lemma GroupErasureKeeps(d: Directory, group: string, before: Group, members: set<string>, tenants: set<string>)
    requires DirectoryInv(d) && GroupErasureFits(d, group, before, members, tenants)
    ensures DirectoryInv(WithoutGroup(d, group, before, members, tenants))
  {
    DropGroup(d.groups, d.names, d.order, group);
    WithoutGroupMembers(d, group);
    assert (d.groups - {group}).Keys == d.groups.Keys - {group};
    DropAssignments(d, GroupPrincipal(group), tenants, d.users.Keys, d.groups.Keys - {group});
  }

  lemma MemberChangeKeeps(d: Directory, group: string, member: string, after: Group, add: bool)
    requires DirectoryInv(d) && MemberFits(d, group, member, after, add)
    ensures DirectoryInv(WithMember(d, group, member, after, add))
  {
    SetGroup(d.groups, d.names, d.order, group, after);
    assert d.groups[group := after].Keys == d.groups.Keys;
  }

  lemma AssignmentKeeps(d: Directory, tenant: string, principal: Principal, a: Assignment)
    requires DirectoryInv(d) && AssignmentFits(d, tenant, principal, a)
    ensures DirectoryInv(WithAssignment(d, tenant, principal, a))
  {
    var d' := WithAssignment(d, tenant, principal, a);
    assert ValidAssignment(tenant, a);
    assert AssignmentsAgree(d'.assignments, d'.tenants, d'.users.Keys, d'.groups.Keys);
  }

  lemma AssignmentErasureKeeps(d: Directory, tenant: string, principal: Principal)
    requires DirectoryInv(d)
    ensures DirectoryInv(WithoutAssignment(d, tenant, principal))
  {
    var d' := WithoutAssignment(d, tenant, principal);
    assert AssignmentsAgree(d'.assignments, d'.tenants, d'.users.Keys, d'.groups.Keys);
  }

  /** The part of a user's erasure that the two deletions share. */
  lemma UserErasureKeeps(d: Directory, id: string, tenants: set<string>, bumped: map<string, Group>)
    requires DirectoryInv(d)
    requires tenants == TenantsOf(d, UserPrincipal(id)) && BumpsExactly(d, GroupsOf(d, id), bumped)
    ensures GroupsAgree(d.groups + bumped, d.names, d.order)
    ensures MembersAgree(RemoveEach(d.members, bumped.Keys, id), Del(d.userGroups, id),
                         (d.groups + bumped).Keys, d.users.Keys - {id})
    ensures AssignmentsAgree(HDelEach(d.assignments, tenants, UserPrincipal(id)), Del(d.tenants, UserPrincipal(id)),
                             d.users.Keys - {id}, (d.groups + bumped).Keys)
  {
    BumpGroups(d, GroupsOf(d, id), bumped);
    DropMemberships(d.members, d.userGroups, d.groups.Keys, d.users.Keys, id, bumped.Keys);
    DropAssignments(d, UserPrincipal(id), tenants, d.users.Keys - {id}, d.groups.Keys);
  }

  lemma DeletionKeeps(d: Directory, id: string, del: Deletion)
    requires DirectoryInv(d) && GroupsRead(d, id, del)
    ensures DirectoryInv(WithoutUser(d, id, del))
  {
    UserErasureKeeps(d, id, del.tenants, del.bumped);
    if del.fed {
      assert d.users.Keys - {id} == d.users.Keys;
      assert !del.ownsEmail;
      assert d.index - {(del.user.email, id)} == d.index;
    } else {
      DropUser(d.users, d.emails, d.index, id);
      assert (d.users - {id}).Keys == d.users.Keys - {id};
      assert del.ownsEmail;
    }
  }

  lemma EmailErasureKeeps(d: Directory, email: string, id: string, user: User, tenants: set<string>, bumped: map<string, Group>)
    requires DirectoryInv(d) && EmailErasureFits(d, email, id, user, tenants, bumped)
    ensures DirectoryInv(WithoutEmail(d, email, id, user, tenants, bumped))
  {
    UserErasureKeeps(d, id, tenants, bumped);
    DropUser(d.users, d.emails, d.index, id);
    assert (d.users - {id}).Keys == d.users.Keys - {id};
  }

  /** A plan made from the current store keeps the whole directory invariant. */
  lemma PlanKeepsDirectory(d: Directory, plan: Plan)
    requires DirectoryInv(d) && Fits(d, plan)
    ensures DirectoryInv(Apply(d, plan))
  {
    match plan
    case NoWrites =>
    case WriteUser(id, user, previous) => UserKeeps(d, id, user, previous);
    case WriteSecret(id, user) => SecretKeeps(d, id, user);
    case WriteFederated(_, _) =>
    case WriteImport(id, user) => NewUserKeeps(d, id, user);
    case WriteGroup(group, before, after) => GroupKeeps(d, group, before, after);
    case EraseGroup(group, before, members, tenants) => GroupErasureKeeps(d, group, before, members, tenants);
    case WriteMember(group, member, after, add) => MemberChangeKeeps(d, group, member, after, add);
    case WriteAssignment(tenant, principal, a) => AssignmentKeeps(d, tenant, principal, a);
    case EraseAssignment(tenant, principal) => AssignmentErasureKeeps(d, tenant, principal);
    case EraseUser(id, del) => DeletionKeeps(d, id, del);
    case EraseByEmail(email, id, user, tenants, bumped) => EmailErasureKeeps(d, email, id, user, tenants, bumped);
  }
}
