/** What a committed deletion leaves behind: nothing of its subject, everything of everybody else. */
module DirectoryErasure {
  import opened Prelude
  import opened DirectoryState
  import opened DirectoryTransactions
  import opened DirectoryAtomic
  import opened DirectoryInvariant

  // ----- Memberships -----

  lemma DropBothGenerations(d: Directory, id: string)
    requires MembershipsAgree(d)
    ensures MembershipMirror(HDelEach(d.memberships, LegacyTenantsOf(d, id), id), Del(d.membershipTenants, id),
                             HDelEach(d.memberships2, V2TenantsOf(d, id), id), Del(d.membershipTenants2, id))
  {
    forall t, u
      ensures (t, u) in d.memberships && !(t in LegacyTenantsOf(d, id) && u == id) <==> (u, t) in d.membershipTenants && u != id
      ensures (t, u) in d.memberships2 && !(t in V2TenantsOf(d, id) && u == id) <==> (u, t) in d.membershipTenants2 && u != id
    {
      assert (u, t) in d.membershipTenants && u == id ==> (u, t).1 in LegacyTenantsOf(d, id);
      assert (u, t) in d.membershipTenants2 && u == id ==> (u, t).1 in V2TenantsOf(d, id);
    }
    forall k | k in HDelEach(d.memberships2, V2TenantsOf(d, id), id)
      ensures k in HDelEach(d.memberships, LegacyTenantsOf(d, id), id)
    {
      assert (k.0, k.1) in d.memberships2;
      assert (k.1, k.0) in d.membershipTenants2;
      assert k.1 == id ==> (k.1, k.0).1 in V2TenantsOf(d, id);
    }
  }

  lemma OtherPlansSpareMemberships(d: Directory, plan: Plan)
    requires !plan.EraseUser?
    ensures SameMemberships(d, Apply(d, plan))
  {
  }

  lemma DeletionKeepsMemberships(d: Directory, id: string, del: Deletion)
    requires MembershipsAgree(d) && RelationsRead(d, id, del)
    ensures MembershipsAgree(WithoutUser(d, id, del))
  {
    DropBothGenerations(d, id);
  }

  /** Only a user deletion touches tenant memberships, and it removes both generations together. */
  lemma PlanKeepsMemberships(d: Directory, plan: Plan)
    requires MembershipsAgree(d) && Fits(d, plan)
    ensures MembershipsAgree(Apply(d, plan))
  {
    if plan.EraseUser? {
      DeletionKeepsMemberships(d, plan.id, plan.deletion);
    } else {
      OtherPlansSpareMemberships(d, plan);
    }
  }

  // ----- No trace of the subject -----

  /** No record, index entry, membership or assignment names the user. */
  ghost predicate Erased(d: Directory, id: string)
  {
    && id !in d.users && id !in d.federated
    && (forall e :: e in d.emails ==> d.emails[e] != id)
    && (forall p :: p in d.index ==> p.1 != id)
    && (forall p :: p in d.members ==> p.1 != id)
    && (forall p :: p in d.userGroups ==> p.0 != id)
    && (forall k :: k in d.assignments ==> k.1 != UserPrincipal(id))
    && (forall p :: p in d.tenants ==> p.0 != UserPrincipal(id))
    && (forall k :: k in d.memberships ==> k.1 != id)
    && (forall p :: p in d.membershipTenants ==> p.0 != id)
    && (forall k :: k in d.memberships2 ==> k.1 != id)
    && (forall p :: p in d.membershipTenants2 ==> p.0 != id)
  }

  lemma UserTraces(d: Directory, id: string)
    requires DirectoryInv(d) && id !in d.users
    ensures forall e :: e in d.emails ==> d.emails[e] != id
    ensures forall p :: p in d.index ==> p.1 != id
    ensures forall p :: p in d.members ==> p.1 != id
    ensures forall p :: p in d.userGroups ==> p.0 != id
    ensures forall k :: k in d.assignments ==> k.1 != UserPrincipal(id)
    ensures forall p :: p in d.tenants ==> p.0 != UserPrincipal(id)
  {
    forall p | p in d.userGroups
      ensures p.0 != id
    {
      assert (p.1, p.0) in d.members;
    }
    forall p | p in d.tenants
      ensures p.0 != UserPrincipal(id)
    {
      assert (p.1, p.0) in d.assignments;
    }
  }

  lemma MembershipTraces(d: Directory, id: string)
    requires MembershipsAgree(d) && (forall p :: p in d.membershipTenants ==> p.0 != id)
    ensures forall k :: k in d.memberships ==> k.1 != id
    ensures forall k :: k in d.memberships2 ==> k.1 != id
    ensures forall p :: p in d.membershipTenants2 ==> p.0 != id
  {
    forall k | k in d.memberships
      ensures k.1 != id
    {
      assert (k.0, k.1) in d.memberships && (k.1, k.0) in d.membershipTenants;
    }
    forall p | p in d.membershipTenants2
      ensures p.0 != id
    {
      assert (p.1, p.0) in d.memberships2;
    }
  }

  /** A committed user deletion leaves no trace of the subject. */
  lemma DeletionErases(d: Directory, id: string, del: Deletion)
    requires DirectoryInv(d) && MembershipsAgree(d) && Fits(d, EraseUser(id, del))
    ensures Erased(Apply(d, EraseUser(id, del)), id)
  {
    var plan := EraseUser(id, del);
    PlanKeepsDirectory(d, plan);
    PlanKeepsMemberships(d, plan);
    UserTraces(Apply(d, plan), id);
    MembershipTraces(Apply(d, plan), id);
  }

  /** Nor do the legacy email hash and the SAML alias and session entries looked up for it. */
  lemma DeletionErasesAliases(d: Directory, id: string, del: Deletion)
    requires Fits(d, EraseUser(id, del))
    ensures
      var d', u, home := Apply(d, EraseUser(id, del)), del.user, Company(del.user);
      && (u.email in d'.legacyUsers ==> d'.legacyUsers[u.email].id != id)
      && (u.saml ==>
            && (home, u.subject) !in d'.aliases
            && SubjectKey(home, id) !in d'.sessions
            && NameIdKey(home, NameIdOf(d, id, u)) !in d'.sessions)
  {
  }

  // ----- Everybody else -----

  lemma DeletionBumps(d: Directory, id: string, del: Deletion)
    requires DirectoryInv(d) && Fits(d, EraseUser(id, del))
    ensures
      var d' := Apply(d, EraseUser(id, del));
      && d'.groups.Keys == d.groups.Keys
      && forall g :: g in d.groups ==> d'.groups[g] == if (g, id) in d.members then Bump(d.groups[g]) else d.groups[g]
  {
    BumpGroups(d, del.groups, del.bumped);
    forall g | g in d.groups
      ensures g in del.bumped <==> (g, id) in d.members
    {
      assert g in GroupsOf(d, id) <==> (id, g) in d.userGroups;
    }
  }

  /** Records, relations and indexes that do not name the subject are untouched. */
  lemma DeletionSpares(d: Directory, id: string, del: Deletion)
    requires Fits(d, EraseUser(id, del))
    ensures
      var d' := Apply(d, EraseUser(id, del));
      && (forall u :: u != id ==> Lookup(d'.users, u) == Lookup(d.users, u) && Lookup(d'.federated, u) == Lookup(d.federated, u))
      && (forall g, u :: u != id ==> ((g, u) in d'.members <==> (g, u) in d.members))
      && (forall g, u :: u != id ==> ((u, g) in d'.userGroups <==> (u, g) in d.userGroups))
      && (forall t, p :: p != UserPrincipal(id) ==> Lookup(d'.assignments, (t, p)) == Lookup(d.assignments, (t, p)))
      && (forall t, p :: p != UserPrincipal(id) ==> ((p, t) in d'.tenants <==> (p, t) in d.tenants))
  {
  }

  lemma DeletionSparesAliases(d: Directory, id: string, del: Deletion)
    requires Fits(d, EraseUser(id, del))
    ensures
      var d' := Apply(d, EraseUser(id, del));
      && (forall t, u :: u != id ==>
            Lookup(d'.memberships, (t, u)) == Lookup(d.memberships, (t, u)) &&
            Lookup(d'.memberships2, (t, u)) == Lookup(d.memberships2, (t, u)))
      && (forall e :: e in d.emails && d.emails[e] != id ==> Lookup(d'.emails, e) == Some(d.emails[e]))
      && (forall p :: p in d.index && p.1 != id ==> p in d'.index)
      && (forall e :: e in d.legacyUsers && d.legacyUsers[e].id != id ==> Lookup(d'.legacyUsers, e) == Some(d.legacyUsers[e]))
      && (forall k :: k in d.aliases && d.aliases[k] != id ==> Lookup(d'.aliases, k) == Some(d.aliases[k]))
      && (forall k :: k in d.sessions && d.sessions[k].subject != id ==> Lookup(d'.sessions, k) == Some(d.sessions[k]))
      && d'.names == d.names && d'.order == d.order && d'.marker == d.marker
  {
  }

  // ----- Effective access -----

  function StoredUser(d: Directory, id: string): Option<User>
  {
    if id in d.users then Some(d.users[id]) else Lookup(d.federated, id)
  }

  /** The principals through which a user holds roles: itself and its active groups. */
  ghost predicate Source(d: Directory, user: string, p: Principal)
  {
    if p.UserPrincipal? then p.id == user
    else (user, p.id) in d.userGroups && p.id in d.groups && d.groups[p.id].active
  }

  /** A SAML user holds foreign roles only under an explicit trust. */
  predicate Eligible(trust: ForeignTrust, u: User, tenant: string, role: string)
  {
    !u.saml || Company(u) == tenant || AllowsForeignRole(trust, Company(u), tenant, role)
  }

  ghost predicate Grants(d: Directory, p: Principal, tenant: string, role: string)
  {
    (tenant, p) in d.assignments && role in d.assignments[(tenant, p)].roles
  }

  ghost predicate HasRole(d: Directory, trust: ForeignTrust, user: string, tenant: string, role: string)
  {
    && StoredUser(d, user).Some? && Eligible(trust, StoredUser(d, user).value, tenant, role)
    && exists p :: Source(d, user, p) && Grants(d, p, tenant, role)
  }

  /** What effective access of one user reads. */
  ghost predicate SameFor(d: Directory, d': Directory, user: string)
  {
    && StoredUser(d', user) == StoredUser(d, user)
    && (forall p :: Source(d', user, p) <==> Source(d, user, p))
    && (forall t, p :: Source(d, user, p) ==> Lookup(d'.assignments, (t, p)) == Lookup(d.assignments, (t, p)))
  }

  lemma SameAccess(d: Directory, d': Directory, trust: ForeignTrust, user: string, tenant: string, role: string)
    requires SameFor(d, d', user)
    ensures HasRole(d', trust, user, tenant, role) <==> HasRole(d, trust, user, tenant, role)
  {
    forall p | Source(d, user, p)
      ensures Grants(d', p, tenant, role) <==> Grants(d, p, tenant, role)
    {
      assert Lookup(d'.assignments, (tenant, p)) == Lookup(d.assignments, (tenant, p));
    }
  }

  lemma DeletionSameFor(d: Directory, id: string, del: Deletion, user: string)
    requires GroupsRead(d, id, del) && user != id
    ensures SameFor(d, WithoutUser(d, id, del), user)
  {
  }

  /** Deleting one user changes nobody else's effective roles anywhere. */
  lemma DeletionKeepsAccess(d: Directory, id: string, del: Deletion, trust: ForeignTrust, user: string, tenant: string, role: string)
    requires Fits(d, EraseUser(id, del)) && user != id
    ensures HasRole(Apply(d, EraseUser(id, del)), trust, user, tenant, role) <==> HasRole(d, trust, user, tenant, role)
  {
    DeletionSameFor(d, id, del, user);
    SameAccess(d, WithoutUser(d, id, del), trust, user, tenant, role);
  }

  // ----- Deletion by email -----

  lemma NoLegacyTenants(d: Directory, id: string)
    ensures LegacyTenantsOf(d, id) == {} <==> forall p :: p in d.membershipTenants ==> p.0 != id
  {
    if LegacyTenantsOf(d, id) == {} {
      forall p | p in d.membershipTenants
        ensures p.0 != id
      {
        assert p.0 == id ==> p.1 in LegacyTenantsOf(d, id);
      }
    } else {
      var t :| t in LegacyTenantsOf(d, id);
      assert (id, t) in d.membershipTenants;
    }
  }

  lemma EmailErasedOrNot(d: Directory, d': Directory, id: string)
    requires DirectoryInv(d') && MembershipsAgree(d) && SameMemberships(d, d') && id !in d'.users && id !in d'.federated
    ensures Erased(d', id) <==> LegacyTenantsOf(d, id) == {}
  {
    UserTraces(d', id);
    NoLegacyTenants(d, id);
    if LegacyTenantsOf(d, id) == {} {
      MembershipTraces(d', id);
    }
  }

  lemma EmailDeletionKeepsFederated(d: Directory, email: string, id: string, user: User, tenants: set<string>, bumped: map<string, Group>)
    ensures WithoutEmail(d, email, id, user, tenants, bumped).federated == d.federated
  {
  }

  /**
   Deleting by email leaves the subject's tenant memberships behind, and a federated record under the same id, so it erases
   only a user that has neither.
   */
  lemma EmailDeletionErases(d: Directory, email: string, id: string, user: User, tenants: set<string>, bumped: map<string, Group>)
    requires DirectoryInv(d) && MembershipsAgree(d) && Fits(d, EraseByEmail(email, id, user, tenants, bumped))
    ensures Erased(Apply(d, EraseByEmail(email, id, user, tenants, bumped)), id) <==>
            LegacyTenantsOf(d, id) == {} && id !in d.federated
  {
    var plan := EraseByEmail(email, id, user, tenants, bumped);
    EmailDeletionKeepsFederated(d, email, id, user, tenants, bumped);
    if id !in d.federated {
      PlanKeepsDirectory(d, plan);
      OtherPlansSpareMemberships(d, plan);
      EmailErasedOrNot(d, Apply(d, plan), id);
    }
  }

  /** The alias a deletion by email removes without asking whose it is. */
  function DroppedAlias(user: User): Option<(string, string)>
  {
    if user.company.Some? && user.subject != "" then Some((user.company.value, user.subject)) else None
  }

  /** Deleting by email spares the SAML aliases of other principals if and only if the one it drops is not another's. */
  lemma EmailDeletionSparesAliases(d: Directory, email: string, id: string, user: User, tenants: set<string>, bumped: map<string, Group>)
    ensures
      var d' := WithoutEmail(d, email, id, user, tenants, bumped);
      var dropped := DroppedAlias(user);
      (forall k :: k in d.aliases && d.aliases[k] != id ==> k in d'.aliases) <==>
      (dropped.Some? && dropped.value in d.aliases ==> d.aliases[dropped.value] == id)
  {
    var d' := WithoutEmail(d, email, id, user, tenants, bumped);
    var dropped := DroppedAlias(user);
    assert d'.aliases == if dropped.Some? then d.aliases - {dropped.value} else d.aliases;
    if dropped.Some? && dropped.value in d.aliases {
      assert dropped.value !in d'.aliases;
    }
  }
}
