/** Legacy and v2 tenant memberships over whole runs, account deletions included. */
module Memberships {
  import opened Prelude
  import opened DirectoryState
  import opened DirectoryTransactions
  import opened DirectoryAtomic
  import opened DirectoryErasure
  import opened DirectoryRuns
  import opened DirectoryHistory

  // ----- The two v2 operations -----

  datatype Outcome = Stored(membership: Membership, created: bool) | Conflicting | BrokenContract | Invalid

  /** `Ensure`: the script, then the checks on what it returned. */
  function EnsureOutcome(d: Directory, tenant: string, user: string, roles: seq<string>, at: int): Outcome
  {
    if !ActiveTenant(tenant) || !CanonicalRoles(roles) then Invalid
    else
      match EnsureStatus(d, tenant, user, Membership(Derived(tenant, user), roles, at))
      case Corrupted => BrokenContract
      case Shadowed => Conflicting
      case Created(m) => if !ValidV2(m, tenant, user) || m.roles != roles then BrokenContract else Stored(m, true)
      case Existing(m) =>
        if !ValidV2(m, tenant, user) then BrokenContract else if m.roles != roles then Conflicting else Stored(m, false)
  }

  datatype ExactResult = Absent | Present(membership: Membership) | BrokenRead

  /** `GetExact`: the v2 read script and the checks on its reply. */
  function GetExact(d: Directory, tenant: string, user: string): ExactResult
  {
    var k := (tenant, user);
    if k !in d.memberships2 then
      if (user, tenant) in d.membershipTenants2 then BrokenRead else Absent
    else if (user, tenant) !in d.membershipTenants2 || !ValidV2(d.memberships2[k], tenant, user) then BrokenRead
    else Present(d.memberships2[k])
  }

  /** In a mirrored store neither operation reports corruption. */
  lemma NeverCorrupt(d: Directory, tenant: string, user: string, roles: seq<string>, at: int)
    requires MembershipsAgree(d)
    ensures !EnsureOutcome(d, tenant, user, roles, at).BrokenContract?
    ensures !GetExact(d, tenant, user).BrokenRead?
  {
    assert (tenant, user) in d.memberships2 <==> (user, tenant) in d.membershipTenants2;
    assert (tenant, user) in d.memberships <==> (user, tenant) in d.membershipTenants;
  }

  /**
   `Ensure` succeeds if and only if the pair has no membership of either generation, or already has a
   v2 membership with exactly these roles; it then reads back, and every other outcome writes nothing.
   */
  lemma EnsureEstablishes(d: Directory, tenant: string, user: string, roles: seq<string>, at: int)
    requires MembershipsAgree(d) && ActiveTenant(tenant) && CanonicalRoles(roles)
    ensures
      var o, d' := EnsureOutcome(d, tenant, user, roles, at), RunEnsure(d, tenant, user, roles, at);
      && (o.Stored? <==> (tenant, user) !in d.memberships || (GetExact(d, tenant, user).Present? && d.memberships2[(tenant, user)].roles == roles))
      && (o.Stored? ==> GetExact(d', tenant, user) == Present(o.membership) && o.membership.roles == roles)
      && (o.Stored? && o.created <==> d' != d)
      && (!o.Stored? ==> o == Conflicting)
  {
    NeverCorrupt(d, tenant, user, roles, at);
    var k := (tenant, user);
    assert k in d.memberships2 <==> (user, tenant) in d.membershipTenants2;
    assert k in d.memberships <==> (user, tenant) in d.membershipTenants;
    if k !in d.memberships {
      assert k in RunEnsure(d, tenant, user, roles, at).memberships;
    }
  }

  /** A second `Ensure` with the same arguments finds the first one's membership. */
  lemma EnsureTwice(d: Directory, tenant: string, user: string, roles: seq<string>, at: int, later: int)
    requires MembershipsAgree(d) && EnsureOutcome(d, tenant, user, roles, at).Stored?
    ensures
      var d' := RunEnsure(d, tenant, user, roles, at);
      EnsureOutcome(d', tenant, user, roles, later) == Stored(EnsureOutcome(d, tenant, user, roles, at).membership, false)
  {
    EnsureEstablishes(d, tenant, user, roles, at);
    ScriptKeepsMirror(d, Ensure(tenant, user, roles, at));
    EnsureEstablishes(RunEnsure(d, tenant, user, roles, at), tenant, user, roles, later);
  }

  // ----- Every script keeps the mirror -----

  lemma EnsureKeepsMirror(d: Directory, tenant: string, user: string, roles: seq<string>, at: int)
    requires MembershipsAgree(d)
    ensures MembershipsAgree(RunEnsure(d, tenant, user, roles, at))
  {
  }

  lemma LegacyCreateKeepsMirror(d: Directory, tenant: string, user: string, m: Membership)
    requires MembershipsAgree(d)
    ensures MembershipsAgree(RunLegacyCreate(d, tenant, user, m))
  {
  }

  lemma LegacyDeleteKeepsMirror(d: Directory, tenant: string, user: string)
    requires MembershipsAgree(d)
    ensures MembershipsAgree(RunLegacyDelete(d, tenant, user))
  {
  }

  lemma WorkloadKeepsMirror(d: Directory, tenant: string, id: string, email: string)
    requires MembershipsAgree(d)
    ensures MembershipsAgree(RunWorkloadDelete(d, tenant, id, email))
  {
  }

  lemma OtherScriptsSpareMemberships(d: Directory, script: Script)
    requires !script.Ensure? && !script.LegacyCreate? && !script.LegacyDelete? && !script.WorkloadDelete?
    ensures SameMemberships(d, RunScript(d, script))
  {
  }

  lemma ScriptKeepsMirror(d: Directory, script: Script)
    requires MembershipsAgree(d)
    ensures MembershipsAgree(RunScript(d, script))
  {
    if script.Ensure? {
      EnsureKeepsMirror(d, script.tenant, script.id, script.roles, script.at);
    } else if script.LegacyCreate? {
      LegacyCreateKeepsMirror(d, script.tenant, script.id, script.membership);
    } else if script.LegacyDelete? {
      LegacyDeleteKeepsMirror(d, script.tenant, script.id);
    } else if script.WorkloadDelete? {
      WorkloadKeepsMirror(d, script.tenant, script.id, script.email);
    } else {
      OtherScriptsSpareMemberships(d, script);
    }
  }

  lemma ScriptStepKeepsMirror(s: Sys, script: Script, s': Sys)
    requires MembershipsAgree(s.d) && ScriptStep(s, script, s')
    ensures MembershipsAgree(s'.d)
  {
    if CreatesGroup(script) {
      assert SameMemberships(s.d, s'.d);
    } else {
      ScriptKeepsMirror(s.d, script);
    }
  }

  lemma StepKeepsMirror(s: Sys, a: Action, s': Sys)
    requires MembershipsAgree(s.d) && ClientsInv(s) && Step(s, a, s')
    ensures MembershipsAgree(s'.d)
  {
    if a.Commit? {
      CommitFits(s, a.client);
      PlanKeepsMemberships(s.d, s.clients[a.client].point.plan);
    } else if a.Run? {
      ScriptStepKeepsMirror(s, a.script, s');
    }
  }

  /** A v2 membership has all four entries with one payload in every state of every run. */
  lemma {:induction false} MembershipsAlwaysAgree(states: seq<Sys>, actions: seq<Action>, i: nat)
    requires IsRun(states, actions) && i < |states|
    ensures MembershipsAgree(states[i].d)
  {
    if i > 0 {
      MembershipsAlwaysAgree(states, actions, i - 1);
      RunKeepsClients(states, actions, i - 1);
      StepKeepsMirror(states[i - 1], actions[i - 1], states[i]);
    }
  }

  // ----- A v2 membership never changes -----

  /** It stays as it is, or all four entries go together. */
  ghost predicate KeptOrGone(d: Directory, d': Directory, k: (string, string))
    requires k in d.memberships2
  {
    if k in d'.memberships2 then d'.memberships2[k] == d.memberships2[k]
    else k !in d'.memberships && (k.1, k.0) !in d'.membershipTenants && (k.1, k.0) !in d'.membershipTenants2
  }

  lemma WorkloadKeepsOrDrops(d: Directory, tenant: string, id: string, email: string, k: (string, string))
    requires MembershipsAgree(d) && k in d.memberships2
    ensures KeptOrGone(d, RunWorkloadDelete(d, tenant, id, email), k)
  {
  }

  lemma ScriptKeepsOrDrops(d: Directory, script: Script, k: (string, string))
    requires MembershipsAgree(d) && k in d.memberships2
    ensures KeptOrGone(d, RunScript(d, script), k)
  {
    if script.WorkloadDelete? {
      WorkloadKeepsOrDrops(d, script.tenant, script.id, script.email, k);
    } else if !script.Ensure? && !script.LegacyCreate? && !script.LegacyDelete? {
      OtherScriptsSpareMemberships(d, script);
    }
  }

  lemma ScriptStepKeepsOrDrops(s: Sys, script: Script, s': Sys, k: (string, string))
    requires MembershipsAgree(s.d) && ScriptStep(s, script, s') && k in s.d.memberships2
    ensures KeptOrGone(s.d, s'.d, k)
  {
    if CreatesGroup(script) {
      assert SameMemberships(s.d, s'.d);
    } else {
      ScriptKeepsOrDrops(s.d, script, k);
    }
  }

  lemma DeletionKeepsOrDrops(d: Directory, id: string, del: Deletion, k: (string, string))
    requires MembershipsAgree(d) && RelationsRead(d, id, del) && k in d.memberships2
    ensures KeptOrGone(d, WithoutUser(d, id, del), k)
  {
    if k.1 == id {
      assert (k.0, k.1) in d.memberships && (k.0, k.1) in d.memberships2;
      assert (k.1, k.0) in d.membershipTenants && (k.1, k.0) in d.membershipTenants2;
      assert (k.1, k.0).1 in LegacyTenantsOf(d, id) && (k.1, k.0).1 in V2TenantsOf(d, id);
    }
  }

  lemma PlanKeepsOrDrops(d: Directory, plan: Plan, k: (string, string))
    requires MembershipsAgree(d) && Fits(d, plan) && k in d.memberships2
    ensures KeptOrGone(d, Apply(d, plan), k)
  {
    if plan.EraseUser? {
      DeletionKeepsOrDrops(d, plan.id, plan.deletion, k);
    } else {
      OtherPlansSpareMemberships(d, plan);
    }
  }

  /** No step of any run alters a v2 membership: it keeps its payload until all four entries are removed together. */
  lemma MembershipImmutable(states: seq<Sys>, actions: seq<Action>, i: nat, k: (string, string))
    requires IsRun(states, actions) && i < |actions| && k in states[i].d.memberships2
    ensures KeptOrGone(states[i].d, states[i + 1].d, k)
  {
    MembershipsAlwaysAgree(states, actions, i);
    RunKeepsClients(states, actions, i);
    assert Step(states[i], actions[i], states[i + 1]);
    StepKeepsOrDrops(states[i], actions[i], states[i + 1], k);
  }

  lemma StepKeepsOrDrops(s: Sys, a: Action, s': Sys, k: (string, string))
    requires MembershipsAgree(s.d) && ClientsInv(s) && Step(s, a, s') && k in s.d.memberships2
    ensures KeptOrGone(s.d, s'.d, k)
  {
    if a.Commit? {
      CommitFits(s, a.client);
      PlanKeepsOrDrops(s.d, s.clients[a.client].point.plan, k);
    } else if a.Run? {
      ScriptStepKeepsOrDrops(s, a.script, s', k);
    }
  }

  // ----- Workload account deletion against the directory -----

  /** On a store whose memberships mirror, that is: unless the user is stored with this email and has a v2 membership of the tenant. */
  lemma WorkloadDeletionBreaksMirrored(d: Directory, tenant: string, id: string, email: string)
    requires DirectoryInv(d) && MembershipsAgree(d)
    ensures DirectoryInv(RunWorkloadDelete(d, tenant, id, email)) <==>
            !(id in d.users && d.users[id].email == email && (tenant, id) in d.memberships2)
  {
    WorkloadDeletionBreaksIndex(d, tenant, id, email);
    assert (tenant, id) in d.memberships2 <==> (id, tenant) in d.membershipTenants2;
    assert (tenant, id) in d.memberships <==> (id, tenant) in d.membershipTenants;
  }
}
