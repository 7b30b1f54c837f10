/**
 The three readers of "who has access where": roles of a user in a tenant, tenants of a user, users of
 a tenant. Each walks the indexes by its own route over one snapshot of the store.
 */
module DirectoryAccess {
  import opened Prelude
  import opened DirectoryState
  import opened DirectoryTransactions
  import opened DirectoryErasure

  const MAXIMUM_ASSIGNMENTS := 10_000
  const MAXIMUM_USERS := 100_000

  datatype Provenance = Provenance(source: Principal, groupName: Option<string>, roles: seq<string>, version: nat)

  datatype Read<T> = Ok(value: T) | Failed(error: Error)

  /** `readStorageUser`: an id stored in both user hashes is an error. */
  function ReadUser(d: Directory, id: string): Read<User>
  {
    if id in d.users && id in d.federated then Failed(Corrupt)
    else if id in d.users then Ok(d.users[id])
    else if id in d.federated then Ok(d.federated[id])
    else Failed(NotFound)
  }

  predicate ForeignSaml(u: User, tenant: string)
  {
    u.saml && Company(u) != tenant
  }

  /** The roles of an assignment the user may hold in the tenant, in order. */
  function EligibleRoles(trust: ForeignTrust, u: User, tenant: string, roles: seq<string>): (r: seq<string>)
    ensures forall role :: role in r <==> role in roles && Eligible(trust, u, tenant, role)
  {
    if roles == [] then []
    else
      var rest := EligibleRoles(trust, u, tenant, roles[1..]);
      assert roles == [roles[0]] + roles[1..];
      if Eligible(trust, u, tenant, roles[0]) then [roles[0]] + rest else rest
  }

  /** What `GetGroup` accepts. */
  predicate GroupReadable(d: Directory, g: string)
  {
    g in d.groups && |MembersOf(d, g)| <= MAXIMUM_RELATIONSHIPS
  }

  ghost predicate GroupsReadable(d: Directory, user: string)
  {
    |GroupsOf(d, user)| <= MAXIMUM_RELATIONSHIPS && forall g :: g in GroupsOf(d, user) ==> GroupReadable(d, g)
  }

  // ----- Roles of a user in a tenant -----

  /** A provenance entry names a principal of the user and exactly the eligible roles of its assignment. */
  ghost predicate Truthful(d: Directory, trust: ForeignTrust, user: string, u: User, tenant: string, e: Provenance)
  {
    && Source(d, user, e.source) && (tenant, e.source) in d.assignments
    && e.version == d.assignments[(tenant, e.source)].version
    && e.roles == EligibleRoles(trust, u, tenant, d.assignments[(tenant, e.source)].roles) && e.roles != []
    && e.groupName == (if e.source.GroupPrincipal? then Some(d.groups[e.source.id].name) else None)
  }

  /** The principal contributes at least one role. */
  ghost predicate Contributes(d: Directory, trust: ForeignTrust, user: string, u: User, tenant: string, p: Principal)
  {
    && Source(d, user, p) && (tenant, p) in d.assignments
    && EligibleRoles(trust, u, tenant, d.assignments[(tenant, p)].roles) != []
  }

  ghost function SourcesOf(entries: seq<Provenance>): set<Principal>
  {
    set i | 0 <= i < |entries| :: entries[i].source
  }

  ghost function RolesOf(entries: seq<Provenance>): set<string>
  {
    set i, role | 0 <= i < |entries| && role in entries[i].roles :: role
  }

  /** Direct entry first, then groups in increasing order of their id. */
  ghost predicate Ordered(entries: seq<Provenance>)
  {
    && (forall i :: 0 < i < |entries| ==> entries[i].source.GroupPrincipal?)
    && (forall i, j :: 0 <= i < j < |entries| && entries[i].source.GroupPrincipal? ==>
          entries[j].source.GroupPrincipal? && Less(entries[i].source.id, entries[j].source.id))
  }

  lemma RolesOfAppend(entries: seq<Provenance>, e: Provenance)
    ensures RolesOf(entries + [e]) == RolesOf(entries) + Elements(e.roles)
  {
    var more := entries + [e];
    forall role
      ensures role in RolesOf(more) <==> role in RolesOf(entries) + Elements(e.roles)
    {
      if role in RolesOf(entries) {
        var i :| 0 <= i < |entries| && role in entries[i].roles;
        assert role in more[i].roles;
      }
      if role in Elements(e.roles) {
        assert role in more[|entries|].roles;
      }
    }
  }

  /** The entries are true, ordered, and exactly those of the contributing principals among `done`. */
  ghost predicate Explained(d: Directory, trust: ForeignTrust, user: string, u: User, tenant: string, entries: seq<Provenance>,
                            done: set<Principal>)
  {
    && Ordered(entries)
    && (forall i :: 0 <= i < |entries| ==> Truthful(d, trust, user, u, tenant, entries[i]))
    && (forall p :: p in SourcesOf(entries) <==> p in done && Contributes(d, trust, user, u, tenant, p))
  }

  lemma SourcesOfAppend(entries: seq<Provenance>, e: Provenance)
    ensures SourcesOf(entries + [e]) == SourcesOf(entries) + {e.source}
  {
    var more := entries + [e];
    forall p
      ensures p in SourcesOf(more) <==> p in SourcesOf(entries) + {e.source}
    {
      if p in SourcesOf(entries) {
        var i :| 0 <= i < |entries| && entries[i].source == p;
        assert more[i].source == p;
      }
      assert more[|entries|].source == e.source;
    }
  }

  lemma AddEntry(d: Directory, trust: ForeignTrust, user: string, u: User, tenant: string, entries: seq<Provenance>,
                 done: set<Principal>, e: Provenance)
    requires Explained(d, trust, user, u, tenant, entries, done) && Truthful(d, trust, user, u, tenant, e)
    requires e.source.GroupPrincipal? || entries == []
    requires forall p :: p in done && p.GroupPrincipal? ==> Less(p.id, e.source.id)
    ensures Explained(d, trust, user, u, tenant, entries + [e], done + {e.source})
  {
    SourcesOfAppend(entries, e);
    forall i | 0 <= i < |entries| && entries[i].source.GroupPrincipal?
      ensures Less(entries[i].source.id, e.source.id)
    {
      assert entries[i].source in SourcesOf(entries);
    }
  }

  method GetEffectiveTenantRoles(d: Directory, trust: ForeignTrust, user: string, tenant: string)
    returns (r: Read<(seq<string>, seq<Provenance>)>)
    ensures r.Failed? <==>
              || !ActiveTenant(tenant) || ReadUser(d, user).Failed?
              || (!NoTrust(trust, ReadUser(d, user).value, tenant) && !GroupsReadable(d, user))
    ensures r.Ok? ==>
              && Increasing(r.value.0) && Elements(r.value.0) == RolesOf(r.value.1)
              && Explained(d, trust, user, ReadUser(d, user).value, tenant, r.value.1, Sources(d, user))
  {
    if !ActiveTenant(tenant) { return Failed(InvalidArgument); }
    var found := ReadUser(d, user);
    if found.Failed? { return Failed(found.error); }
    var u := found.value;
    if NoTrust(trust, u, tenant) {
      NoTrustNoRoles(d, trust, user, u, tenant, Sources(d, user));
      return Ok(([], []));
    }
    var entries, roles := DirectEntry(d, trust, user, u, tenant);
    if |GroupsOf(d, user)| > MAXIMUM_RELATIONSHIPS { return Failed(Corrupt); }
    var groups := SortedKeys(GroupsOf(d, user));
    for n := 0 to |groups|
      invariant RolesOf(entries) == roles
      invariant Explained(d, trust, user, u, tenant, entries, Visited(user, groups[..n]))
      invariant forall k :: 0 <= k < n ==> GroupReadable(d, groups[k])
    {
      var g := groups[n];
      assert g in Elements(groups);
      if !GroupReadable(d, g) { return Failed(Corrupt); }
      entries, roles := GroupEntry(d, trust, user, u, tenant, entries, roles, groups[..n], g);
      assert groups[..n] + [g] == groups[..n + 1];
    }
    assert groups[..|groups|] == groups;
    VisitedAll(d, trust, user, u, tenant, entries, groups);
    var sorted := SortedKeys(roles);
    r := Ok((sorted, entries));
  }

  predicate NoTrust(trust: ForeignTrust, u: User, tenant: string)
  {
    ForeignSaml(u, tenant) && !HasForeignTrust(trust, Company(u), tenant)
  }

  /** The principals a user could hold roles through. */
  function Sources(d: Directory, user: string): set<Principal>
  {
    {UserPrincipal(user)} + set g | g in GroupsOf(d, user) :: GroupPrincipal(g)
  }

  function Visited(user: string, groups: seq<string>): set<Principal>
  {
    {UserPrincipal(user)} + set k | 0 <= k < |groups| :: GroupPrincipal(groups[k])
  }

  lemma EmptyOrSome(roles: seq<string>)
    ensures roles == [] || exists role :: role in roles
  {
    if roles != [] {
      assert roles[0] in roles;
    }
  }

  lemma NoTrustNoRoles(d: Directory, trust: ForeignTrust, user: string, u: User, tenant: string, done: set<Principal>)
    requires NoTrust(trust, u, tenant)
    ensures Explained(d, trust, user, u, tenant, [], done) && RolesOf([]) == {}
  {
    forall p
      ensures !Contributes(d, trust, user, u, tenant, p)
    {
      if (tenant, p) in d.assignments {
        var roles := EligibleRoles(trust, u, tenant, d.assignments[(tenant, p)].roles);
        EmptyOrSome(roles);
      }
    }
  }

  lemma VisitedAll(d: Directory, trust: ForeignTrust, user: string, u: User, tenant: string, entries: seq<Provenance>, groups: seq<string>)
    requires Elements(groups) == GroupsOf(d, user) && Explained(d, trust, user, u, tenant, entries, Visited(user, groups))
    requires |groups| <= MAXIMUM_RELATIONSHIPS && |groups| == |GroupsOf(d, user)|
    requires forall k :: 0 <= k < |groups| ==> GroupReadable(d, groups[k])
    ensures Explained(d, trust, user, u, tenant, entries, Sources(d, user)) && GroupsReadable(d, user)
  {
    forall g
      ensures g in GroupsOf(d, user) <==> GroupPrincipal(g) in Visited(user, groups)
    {
      assert g in GroupsOf(d, user) <==> g in Elements(groups);
    }
    assert Sources(d, user) == Visited(user, groups);
  }

  method DirectEntry(d: Directory, trust: ForeignTrust, user: string, u: User, tenant: string)
    returns (entries: seq<Provenance>, roles: set<string>)
    ensures RolesOf(entries) == roles && Explained(d, trust, user, u, tenant, entries, Visited(user, []))
  {
    var p := UserPrincipal(user);
    entries, roles := [], {};
    assert Explained(d, trust, user, u, tenant, [], {});
    if (tenant, p) in d.assignments {
      var a := d.assignments[(tenant, p)];
      var eligible := EligibleRoles(trust, u, tenant, a.roles);
      if eligible != [] {
        var entry := Provenance(p, None, eligible, a.version);
        RolesOfAppend([], entry);
        AddEntry(d, trust, user, u, tenant, [], {}, entry);
        entries, roles := [entry], Elements(eligible);
        assert [] + [entry] == entries && {} + {p} == Visited(user, []);
      }
    }
  }

  method GroupEntry(d: Directory, trust: ForeignTrust, user: string, u: User, tenant: string, before: seq<Provenance>,
                    had: set<string>, visited: seq<string>, g: string)
    returns (entries: seq<Provenance>, roles: set<string>)
    requires RolesOf(before) == had && Explained(d, trust, user, u, tenant, before, Visited(user, visited))
    requires Increasing(visited + [g]) && g in GroupsOf(d, user) && GroupReadable(d, g)
    ensures RolesOf(entries) == roles && Explained(d, trust, user, u, tenant, entries, Visited(user, visited + [g]))
  {
    var p := GroupPrincipal(g);
    entries, roles := before, had;
    VisitedMore(user, visited, g);
    assert (user, g) in d.userGroups;
    if d.groups[g].active && (tenant, p) in d.assignments {
      var a := d.assignments[(tenant, p)];
      var eligible := EligibleRoles(trust, u, tenant, a.roles);
      if eligible != [] {
        var entry := Provenance(p, Some(d.groups[g].name), eligible, a.version);
        RolesOfAppend(before, entry);
        AddEntry(d, trust, user, u, tenant, before, Visited(user, visited), entry);
        entries, roles := before + [entry], had + Elements(eligible);
      }
    }
  }

  lemma VisitedMore(user: string, visited: seq<string>, g: string)
    requires Increasing(visited + [g])
    ensures Visited(user, visited + [g]) == Visited(user, visited) + {GroupPrincipal(g)}
    ensures forall p :: p in Visited(user, visited) && p.GroupPrincipal? ==> Less(p.id, g)
  {
    var more := visited + [g];
    forall p
      ensures p in Visited(user, more) <==> p in Visited(user, visited) + {GroupPrincipal(g)}
    {
      if p in Visited(user, visited) && p.GroupPrincipal? {
        var k :| 0 <= k < |visited| && p == GroupPrincipal(visited[k]);
        assert p == GroupPrincipal(more[k]);
      }
      assert GroupPrincipal(more[|visited|]) in Visited(user, more);
    }
    forall p | p in Visited(user, visited) && p.GroupPrincipal?
      ensures Less(p.id, g)
    {
      var k :| 0 <= k < |visited| && p == GroupPrincipal(visited[k]);
      assert Less(more[k], more[|visited|]);
    }
  }

  /** A role is effective if and only if some provenance entry carries it. */
  lemma RolesExplained(d: Directory, trust: ForeignTrust, user: string, tenant: string, entries: seq<Provenance>, role: string)
    requires ReadUser(d, user).Ok?
    requires Explained(d, trust, user, ReadUser(d, user).value, tenant, entries, Sources(d, user))
    ensures role in RolesOf(entries) <==> HasRole(d, trust, user, tenant, role)
  {
    var u := ReadUser(d, user).value;
    if role in RolesOf(entries) {
      var i :| 0 <= i < |entries| && role in entries[i].roles;
      assert Truthful(d, trust, user, u, tenant, entries[i]);
      assert Grants(d, entries[i].source, tenant, role);
    }
    if HasRole(d, trust, user, tenant, role) {
      var p :| Source(d, user, p) && Grants(d, p, tenant, role);
      assert role in EligibleRoles(trust, u, tenant, d.assignments[(tenant, p)].roles);
      SourceListed(d, user, p);
      assert p in SourcesOf(entries);
      var i :| 0 <= i < |entries| && entries[i].source == p;
      assert Truthful(d, trust, user, u, tenant, entries[i]);
      assert role in entries[i].roles;
    }
  }

  lemma SourceListed(d: Directory, user: string, p: Principal)
    requires Source(d, user, p)
    ensures p in Sources(d, user)
  {
    if p.GroupPrincipal? {
      assert (user, p.id) in d.userGroups;
      assert p.id in GroupsOf(d, user);
    }
  }

  // ----- Tenants of a user -----

  /** The tenants the reverse sets of `sources` name, the retired one left out. */
  function ReachedVia(d: Directory, sources: set<Principal>): set<string>
  {
    set p | p in d.tenants && p.0 in sources && p.1 != RETIRED_TENANT :: p.1
  }

  /** The user itself and those of the groups that are active. */
  function ActiveSources(d: Directory, user: string, groups: set<string>): set<Principal>
  {
    {UserPrincipal(user)} + set g | g in groups && g in d.groups && d.groups[g].active :: GroupPrincipal(g)
  }

  ghost predicate GroupScanned(d: Directory, g: string)
  {
    && GroupReadable(d, g)
    && (d.groups[g].active ==>
          |TenantsOf(d, GroupPrincipal(g))| <= MAXIMUM_RELATIONSHIPS &&
          forall t :: t in TenantsOf(d, GroupPrincipal(g)) ==> CanonicalTenant(t))
  }

  ghost predicate Roleful(d: Directory, trust: ForeignTrust, user: string, tenant: string)
  {
    exists role :: HasRole(d, trust, user, tenant, role)
  }

  function Kept(tenants: set<string>): set<string>
  {
    tenants - {RETIRED_TENANT}
  }

  lemma ReachedMore(d: Directory, sources: set<Principal>, p: Principal)
    ensures ReachedVia(d, sources + {p}) == ReachedVia(d, sources) + Kept(TenantsOf(d, p))
    ensures ReachedVia(d, {p}) == Kept(TenantsOf(d, p))
  {
    forall t
      ensures t in ReachedVia(d, sources + {p}) <==> t in ReachedVia(d, sources) + Kept(TenantsOf(d, p))
      ensures t in ReachedVia(d, {p}) <==> t in Kept(TenantsOf(d, p))
    {
      assert t in TenantsOf(d, p) <==> (p, t) in d.tenants;
      if t in ReachedVia(d, sources + {p}) {
        var q :| q in d.tenants && q.0 in sources + {p} && q.1 != RETIRED_TENANT && q.1 == t;
        assert q.0 == p || q.0 in sources;
      }
      if t in ReachedVia(d, sources) {
        var q :| q in d.tenants && q.0 in sources && q.1 != RETIRED_TENANT && q.1 == t;
        assert q.0 in sources + {p};
      }
      if t in Kept(TenantsOf(d, p)) {
        assert (p, t).0 in sources + {p} && (p, t).0 in {p};
      }
    }
  }

  lemma ActiveMore(d: Directory, user: string, groups: set<string>, g: string)
    requires g in d.groups
    ensures ActiveSources(d, user, groups + {g}) ==
            ActiveSources(d, user, groups) + (if d.groups[g].active then {GroupPrincipal(g)} else {})
  {
  }

  function ActiveTenantsOf(d: Directory, g: string): set<string>
    requires g in d.groups
  {
    if d.groups[g].active then Kept(TenantsOf(d, GroupPrincipal(g))) else {}
  }

  lemma ReachedStep(d: Directory, user: string, seen: set<string>, g: string)
    requires g in d.groups
    ensures ReachedVia(d, ActiveSources(d, user, seen + {g})) == ReachedVia(d, ActiveSources(d, user, seen)) + ActiveTenantsOf(d, g)
  {
    ActiveMore(d, user, seen, g);
    if d.groups[g].active {
      ReachedMore(d, ActiveSources(d, user, seen), GroupPrincipal(g));
    } else {
      assert ActiveSources(d, user, seen + {g}) == ActiveSources(d, user, seen);
    }
  }

  method ScanGroup(d: Directory, g: string) returns (r: Read<set<string>>)
    ensures r.Failed? <==> !GroupScanned(d, g)
    ensures r.Ok? ==> GroupReadable(d, g) && r.value == ActiveTenantsOf(d, g) && forall t :: t in r.value ==> ActiveTenant(t)
  {
    if !GroupReadable(d, g) { return Failed(Corrupt); }
    if !d.groups[g].active { return Ok({}); }
    var tenants := TenantsOf(d, GroupPrincipal(g));
    if |tenants| > MAXIMUM_RELATIONSHIPS || exists t :: t in tenants && !CanonicalTenant(t) { return Failed(Corrupt); }
    r := Ok(Kept(tenants));
  }

  /** The union of the reverse sets; `None` when it outgrows `maximum` on the way. */
  method CollectTenants(d: Directory, user: string, maximum: nat) returns (r: Read<Option<set<string>>>)
    ensures r.Failed? ==> !Scannable(d, user)
    ensures r.Ok? && r.value.Some? ==>
              && r.value.value == ReachedVia(d, ActiveSources(d, user, GroupsOf(d, user)))
              && GroupsReadable(d, user) && (forall t :: t in r.value.value ==> ActiveTenant(t))
    ensures r.Ok? && r.value.None? ==> |ReachedVia(d, ActiveSources(d, user, GroupsOf(d, user)))| > maximum
  {
    var direct := DirectTenants(d, user);
    if direct.Failed? { return Failed(Corrupt); }
    var found := direct.value;
    var groups := GroupsOf(d, user);
    var todo, seen: set<string> := groups, {};
    while todo != {}
      invariant todo <= groups && seen == groups - todo
      invariant found == ReachedVia(d, ActiveSources(d, user, seen))
      invariant forall t :: t in found ==> ActiveTenant(t)
      invariant forall g :: g in seen ==> GroupReadable(d, g)
      decreases todo
    {
      var g :| g in todo;
      var scanned := ScanGroup(d, g);
      if scanned.Failed? { return Failed(Corrupt); }
      ReachedStep(d, user, seen, g);
      found, todo, seen := found + scanned.value, todo - {g}, seen + {g};
      if d.groups[g].active && |found| > maximum {
        ReachedGrows(d, user, seen);
        return Ok(None);
      }
    }
    assert seen == groups;
    r := Ok(Some(found));
  }

  method DirectTenants(d: Directory, user: string) returns (r: Read<set<string>>)
    ensures r.Failed? ==> !Scannable(d, user)
    ensures r.Ok? ==>
              && r.value == ReachedVia(d, ActiveSources(d, user, {})) && |GroupsOf(d, user)| <= MAXIMUM_RELATIONSHIPS
              && forall t :: t in r.value ==> ActiveTenant(t)
  {
    var direct := TenantsOf(d, UserPrincipal(user));
    if |GroupsOf(d, user)| > MAXIMUM_RELATIONSHIPS || exists t :: t in direct && !CanonicalTenant(t) { return Failed(Corrupt); }
    ReachedMore(d, {}, UserPrincipal(user));
    assert ActiveSources(d, user, {}) == {UserPrincipal(user)};
    r := Ok(Kept(direct));
  }

  /** Every set the tenant reader visits is within its bound and well formed. */
  ghost predicate Scannable(d: Directory, user: string)
  {
    && |GroupsOf(d, user)| <= MAXIMUM_RELATIONSHIPS
    && (forall t :: t in TenantsOf(d, UserPrincipal(user)) ==> CanonicalTenant(t))
    && (forall g :: g in GroupsOf(d, user) ==> GroupScanned(d, g))
  }

  lemma ReachedGrows(d: Directory, user: string, groups: set<string>)
    requires groups <= GroupsOf(d, user)
    ensures |ReachedVia(d, ActiveSources(d, user, groups))| <= |ReachedVia(d, ActiveSources(d, user, GroupsOf(d, user)))|
  {
    var few, all := ActiveSources(d, user, groups), ActiveSources(d, user, GroupsOf(d, user));
    assert few <= all;
    SubsetSize(ReachedVia(d, few), ReachedVia(d, all));
  }

  method ListEffectiveTenantIds(d: Directory, trust: ForeignTrust, user: string, maximum: int) returns (r: Read<(seq<string>, bool)>)
    ensures !(1 <= maximum <= MAXIMUM_RELATIONSHIPS) || ReadUser(d, user).Failed? ==> r.Failed?
    ensures r.Failed? ==>
              || !(1 <= maximum <= MAXIMUM_RELATIONSHIPS) || ReadUser(d, user).Failed?
              || !Scannable(d, user)
    ensures r.Ok? && !r.value.1 ==>
              && Increasing(r.value.0) && |r.value.0| <= maximum
              && forall t :: t in r.value.0 <==>
                   && t in ReachedVia(d, ActiveSources(d, user, GroupsOf(d, user)))
                   && (ForeignSaml(ReadUser(d, user).value, t) ==> Roleful(d, trust, user, t))
    ensures r.Ok? && r.value.1 ==> |ReachedVia(d, ActiveSources(d, user, GroupsOf(d, user)))| > maximum
  {
    if !(1 <= maximum <= MAXIMUM_RELATIONSHIPS) { return Failed(InvalidArgument); }
    var stored := ReadUser(d, user);
    if stored.Failed? { return Failed(stored.error); }
    var u := stored.value;
    var collected := CollectTenants(d, user, maximum);
    if collected.Failed? { return Failed(collected.error); }
    if collected.value.None? { return Ok(([], true)); }
    var found := collected.value.value;
    var kept := KeepEligible(d, trust, user, u, found);
    var sorted := SortedKeys(kept);
    assert forall t :: t in sorted <==> t in Elements(sorted);
    SubsetSize(kept, found);
    r := Ok((sorted, |sorted| > maximum));
  }

  /** Drop the tenants in which a SAML user of another tenant holds no eligible role. */
  method KeepEligible(d: Directory, trust: ForeignTrust, user: string, u: User, found: set<string>) returns (kept: set<string>)
    requires ReadUser(d, user) == Ok(u) && GroupsReadable(d, user) && forall t :: t in found ==> ActiveTenant(t)
    ensures kept <= found
    ensures forall t :: t in found ==> (t in kept <==> (ForeignSaml(u, t) ==> Roleful(d, trust, user, t)))
  {
    kept := {};
    var todo := found;
    while todo != {}
      invariant todo <= found && kept <= found - todo
      invariant forall t :: t in found - todo ==> (t in kept <==> (ForeignSaml(u, t) ==> Roleful(d, trust, user, t)))
      decreases todo
    {
      var t :| t in todo;
      todo := todo - {t};
      var keep := true;
      if ForeignSaml(u, t) {
        var read := GetEffectiveTenantRoles(d, trust, user, t);
        keep := HasForeignTrust(trust, Company(u), t) && |read.value.0| > 0;
        RolefulExplained(d, trust, user, t, read.value.0, read.value.1);
      }
      if keep {
        kept := kept + {t};
      }
    }
  }

  lemma RolefulExplained(d: Directory, trust: ForeignTrust, user: string, tenant: string, roles: seq<string>, entries: seq<Provenance>)
    requires ReadUser(d, user).Ok? && Elements(roles) == RolesOf(entries)
    requires Explained(d, trust, user, ReadUser(d, user).value, tenant, entries, Sources(d, user))
    ensures |roles| > 0 <==> Roleful(d, trust, user, tenant)
    ensures NoTrust(trust, ReadUser(d, user).value, tenant) ==> |roles| == 0
  {
    if |roles| > 0 {
      assert roles[0] in Elements(roles);
      RolesExplained(d, trust, user, tenant, entries, roles[0]);
    }
    if Roleful(d, trust, user, tenant) {
      var role :| HasRole(d, trust, user, tenant, role);
      RolesExplained(d, trust, user, tenant, entries, role);
      assert role in Elements(roles);
    }
  }

  // ----- Users of a tenant -----

  function AssignedIn(d: Directory, tenant: string): set<Principal>
  {
    set k | k in d.assignments && k.0 == tenant :: k.1
  }

  /** The users one assigned principal stands for. */
  function UsersBehind(d: Directory, p: Principal): set<string>
  {
    if p.UserPrincipal? then {p.id}
    else if p.id in d.groups && d.groups[p.id].active then MembersOf(d, p.id) else {}
  }

  ghost predicate Listed(d: Directory, tenant: string, user: string)
  {
    exists p :: p in AssignedIn(d, tenant) && user in UsersBehind(d, p)
  }

  ghost predicate Behind(d: Directory, principals: set<Principal>, user: string)
  {
    exists p :: p in principals && user in UsersBehind(d, p)
  }

  lemma BehindMore(d: Directory, principals: set<Principal>, p: Principal, user: string)
    ensures Behind(d, principals + {p}, user) <==> Behind(d, principals, user) || user in UsersBehind(d, p)
  {
    if Behind(d, principals, user) {
      var q :| q in principals && user in UsersBehind(d, q);
      assert q in principals + {p};
    }
    if user in UsersBehind(d, p) {
      assert p in principals + {p};
    }
  }

  /** The forward scan of a tenant's assignments, as `ListTenantDirectoryUsers` makes it before sorting. */
  method CollectTenantUsers(d: Directory, tenant: string) returns (r: Read<set<string>>)
    ensures r.Ok? ==> forall u :: u in r.value <==> Listed(d, tenant, u)
    ensures r.Ok? ==> forall u :: u in r.value ==> ReadUser(d, u).Ok?
    ensures r.Failed? ==>
              || !ActiveTenant(tenant) || |AssignedIn(d, tenant)| > MAXIMUM_ASSIGNMENTS
              || (exists p :: p in AssignedIn(d, tenant) && p.GroupPrincipal? && !GroupReadable(d, p.id))
              || (exists u :: Listed(d, tenant, u) && ReadUser(d, u).Failed?)
              || (exists many: set<string> :: |many| > MAXIMUM_USERS && forall u :: u in many ==> Listed(d, tenant, u))
  {
    if !ActiveTenant(tenant) { return Failed(InvalidArgument); }
    var principals := AssignedIn(d, tenant);
    if |principals| > MAXIMUM_ASSIGNMENTS { return Failed(Corrupt); }
    var todo, seen: set<Principal>, users: set<string> := principals, {}, {};
    while todo != {}
      invariant todo <= principals && seen == principals - todo
      invariant forall u :: u in users <==> Behind(d, seen, u)
      decreases todo
    {
      var p :| p in todo;
      if p.GroupPrincipal? && !GroupReadable(d, p.id) { return Failed(Corrupt); }
      forall u
        ensures u in users + UsersBehind(d, p) <==> Behind(d, seen + {p}, u)
      {
        BehindMore(d, seen, p, u);
      }
      users, todo, seen := users + UsersBehind(d, p), todo - {p}, seen + {p};
      if |users| > MAXIMUM_USERS {
        assert forall u :: u in users ==> Listed(d, tenant, u);
        return Failed(Corrupt);
      }
    }
    assert seen == principals;
    if u :| u in users && ReadUser(d, u).Failed? {
      assert Behind(d, principals, u);
      return Failed(Corrupt);
    }
    r := Ok(users);
  }

  // ----- The readers agree -----

  ghost predicate Assigned(d: Directory, user: string, tenant: string)
  {
    exists p :: Source(d, user, p) && (tenant, p) in d.assignments
  }

  /** The reverse route: through the principal-to-tenant sets. */
  lemma ReachedIsAssigned(d: Directory, user: string, tenant: string)
    requires AssignmentsAgree(d.assignments, d.tenants, d.users.Keys, d.groups.Keys)
    ensures tenant in ReachedVia(d, ActiveSources(d, user, GroupsOf(d, user))) <==> Assigned(d, user, tenant)
  {
    var sources := ActiveSources(d, user, GroupsOf(d, user));
    if tenant in ReachedVia(d, sources) {
      var q :| q in d.tenants && q.0 in sources && q.1 != RETIRED_TENANT && q.1 == tenant;
      assert (q.1, q.0) in d.assignments;
      if q.0.GroupPrincipal? {
        assert q.0.id in GroupsOf(d, user) && (user, q.0.id) in d.userGroups;
      }
      assert Source(d, user, q.0);
    }
    if Assigned(d, user, tenant) {
      var p :| Source(d, user, p) && (tenant, p) in d.assignments;
      assert (p, tenant) in d.tenants && ValidAssignment((tenant, p).0, d.assignments[(tenant, p)]);
      if p.GroupPrincipal? {
        assert (user, p.id) in d.userGroups && p.id in GroupsOf(d, user);
      }
      assert (p, tenant).0 in sources;
    }
  }

  /** The forward route: through the assignments and the group-to-user sets. */
  lemma ListedIsAssigned(d: Directory, user: string, tenant: string)
    requires MembersAgree(d.members, d.userGroups, d.groups.Keys, d.users.Keys)
    ensures Listed(d, tenant, user) <==> Assigned(d, user, tenant)
  {
    if Listed(d, tenant, user) {
      var p :| p in AssignedIn(d, tenant) && user in UsersBehind(d, p);
      assert (tenant, p) in d.assignments;
      if p.GroupPrincipal? {
        assert (p.id, user) in d.members && (user, p.id) in d.userGroups;
      }
      assert Source(d, user, p);
    }
    if Assigned(d, user, tenant) {
      var p :| Source(d, user, p) && (tenant, p) in d.assignments;
      assert (tenant, p).1 in AssignedIn(d, tenant);
      if p.GroupPrincipal? {
        assert (user, p.id) in d.userGroups && (p.id, user) in d.members;
        assert user in MembersOf(d, p.id);
      }
      assert user in UsersBehind(d, p);
    }
  }

  /** Some principal of the user is assigned a role the user may hold. */
  ghost predicate AssignedEligible(d: Directory, trust: ForeignTrust, user: string, u: User, tenant: string)
  {
    exists p, i ::
      && Source(d, user, p) && (tenant, p) in d.assignments && 0 <= i < |d.assignments[(tenant, p)].roles|
      && Eligible(trust, u, tenant, d.assignments[(tenant, p)].roles[i])
  }

  lemma RolefulIsEligible(d: Directory, trust: ForeignTrust, user: string, tenant: string)
    requires ReadUser(d, user).Ok?
    ensures Roleful(d, trust, user, tenant) <==> AssignedEligible(d, trust, user, ReadUser(d, user).value, tenant)
  {
    var u := ReadUser(d, user).value;
    if Roleful(d, trust, user, tenant) {
      var role :| HasRole(d, trust, user, tenant, role);
      var p :| Source(d, user, p) && Grants(d, p, tenant, role);
      var i :| 0 <= i < |d.assignments[(tenant, p)].roles| && d.assignments[(tenant, p)].roles[i] == role;
    }
    if AssignedEligible(d, trust, user, u, tenant) {
      var p, i :|
        && Source(d, user, p) && (tenant, p) in d.assignments && 0 <= i < |d.assignments[(tenant, p)].roles|
        && Eligible(trust, u, tenant, d.assignments[(tenant, p)].roles[i]);
      assert Grants(d, p, tenant, d.assignments[(tenant, p)].roles[i]);
      assert HasRole(d, trust, user, tenant, d.assignments[(tenant, p)].roles[i]);
    }
  }

  lemma AssignedIsRoleful(d: Directory, trust: ForeignTrust, user: string, tenant: string)
    requires AssignmentsAgree(d.assignments, d.tenants, d.users.Keys, d.groups.Keys) && ReadUser(d, user).Ok?
    requires !ForeignSaml(ReadUser(d, user).value, tenant)
    ensures Assigned(d, user, tenant) <==> Roleful(d, trust, user, tenant)
  {
    RolefulIsEligible(d, trust, user, tenant);
    if Assigned(d, user, tenant) {
      var p :| Source(d, user, p) && (tenant, p) in d.assignments;
      assert ValidAssignment((tenant, p).0, d.assignments[(tenant, p)]);
      assert Eligible(trust, ReadUser(d, user).value, tenant, d.assignments[(tenant, p)].roles[0]);
    }
  }

  /**
   In every state that satisfies the invariant, a tenant passes the tenant reader's test if and only if
   the role reader returns a role there; and, unless the user is a SAML user of another tenant, if and
   only if the user is listed by the tenant's user reader.
   */
  lemma ReadersAgree(d: Directory, trust: ForeignTrust, user: string, tenant: string)
    requires DirectoryInv(d) && ReadUser(d, user).Ok?
    ensures
      var reached := tenant in ReachedVia(d, ActiveSources(d, user, GroupsOf(d, user)));
      var u := ReadUser(d, user).value;
      && (reached && (ForeignSaml(u, tenant) ==> Roleful(d, trust, user, tenant)) <==> Roleful(d, trust, user, tenant))
      && (!ForeignSaml(u, tenant) ==> (Listed(d, tenant, user) <==> Roleful(d, trust, user, tenant)))
      && (Roleful(d, trust, user, tenant) ==> Listed(d, tenant, user))
  {
    ReachedIsAssigned(d, user, tenant);
    ListedIsAssigned(d, user, tenant);
    RolefulIsEligible(d, trust, user, tenant);
    if !ForeignSaml(ReadUser(d, user).value, tenant) {
      AssignedIsRoleful(d, trust, user, tenant);
    }
  }

  /** For a SAML user of another tenant, listing and roles agree exactly when some assigned role is trusted, or none is assigned. */
  lemma ForeignReadersAgree(d: Directory, trust: ForeignTrust, user: string, tenant: string)
    requires DirectoryInv(d) && ReadUser(d, user).Ok?
    ensures
      (Listed(d, tenant, user) <==> Roleful(d, trust, user, tenant)) <==>
      (!Assigned(d, user, tenant) || AssignedEligible(d, trust, user, ReadUser(d, user).value, tenant))
  {
    ListedIsAssigned(d, user, tenant);
    RolefulIsEligible(d, trust, user, tenant);
  }

  function ForeignExample(): Directory
  {
    Directory(
      map["u" := User("a@b", "", CompanyEmployee, Active, Some("home"), 0, 0, true, "s", false)],
      map[], map[], map["a@b" := "u"], {("a@b", "u")},
      map["g" := Group("ops", "", true, 1)], map["ops" := "g"], {("ops", "g")}, {("g", "u")}, {("u", "g")},
      map[("acme", GroupPrincipal("g")) := Assignment(["viewer"], 1)], {(GroupPrincipal("g"), "acme")},
      map[], {}, map[], {}, map[], map[], None)
  }

  lemma ForeignExampleGroups()
    ensures var d := ForeignExample(); GroupsAgree(d.groups, d.names, d.order)
  {
    assert Fold("ops") == "ops";
  }

  lemma ForeignExampleAssignments()
    ensures var d := ForeignExample(); AssignmentsAgree(d.assignments, d.tenants, d.users.Keys, d.groups.Keys)
  {
    assert RoleName("viewer") && ActiveTenant("acme");
    assert CanonicalRoles(["viewer"]);
  }

  lemma ForeignExampleUsers()
    ensures
      var d := ForeignExample();
      UsersAgree(d.users, d.emails, d.index) && MembersAgree(d.members, d.userGroups, d.groups.Keys, d.users.Keys)
  {
  }

  lemma ForeignExampleAssigned()
    ensures Assigned(ForeignExample(), "u", "acme") && !AssignedEligible(ForeignExample(), map[], "u", ForeignExample().users["u"], "acme")
  {
    assert Source(ForeignExample(), "u", GroupPrincipal("g"));
  }

  /** A SAML user put into a group is listed in the group's foreign tenant without holding any role there. */
  lemma ForeignUserListedWithoutRoles()
    ensures DirectoryInv(ForeignExample()) && ReadUser(ForeignExample(), "u").Ok?
    ensures Listed(ForeignExample(), "acme", "u") && !Roleful(ForeignExample(), map[], "u", "acme")
  {
    ForeignExampleUsers();
    ForeignExampleGroups();
    ForeignExampleAssignments();
    ForeignExampleAssigned();
    ListedIsAssigned(ForeignExample(), "u", "acme");
    RolefulIsEligible(ForeignExample(), map[], "u", "acme");
  }
}
