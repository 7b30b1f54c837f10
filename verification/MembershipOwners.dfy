/** When a tenant membership outlives the user it belongs to. */
module MembershipOwners {
  import opened Prelude
  import opened DirectoryState
  import opened DirectoryTransactions
  import opened DirectoryAtomic
  import opened DirectoryErasure
  import opened DirectoryRuns
  import opened DirectoryHistory
  import opened Memberships

  predicate Known(d: Directory, user: string)
  {
    user in d.users || user in d.federated
  }

  /** Every membership belongs to a stored user. */
  predicate Owned(d: Directory)
  {
    forall k :: k in d.memberships ==> Known(d, k.1)
  }

  /** A deletion by email of a user that has a membership, and no federated record beside. */
  predicate PlanOrphans(d: Directory, plan: Plan)
  {
    plan.EraseByEmail? && LegacyTenantsOf(d, plan.id) != {} && plan.id !in d.federated
  }

  /** A membership for a user that is not stored, or a workload account deletion that leaves one in another tenant. */
  predicate ScriptOrphans(d: Directory, script: Script)
  {
    match script
    case LegacyCreate(tenant, id, _) => !V2Locked(d, tenant, id) && !Known(d, id)
    case Ensure(tenant, id, roles, at) =>
      CanonicalRoles(roles) && (tenant, id) !in d.memberships && (tenant, id) !in d.memberships2 && !Known(d, id)
    case WorkloadDelete(tenant, id, email) =>
      AccountComplete(d, tenant, id, email) && id !in d.federated && LegacyTenantsOf(d, id) != {tenant}
    case _ => false
  }

  ghost predicate Orphans(s: Sys, a: Action)
  {
    match a
    case Commit(c) => c in s.clients && s.clients[c].point.Ready? && PlanOrphans(s.d, s.clients[c].point.plan)
    case Run(script) => ScriptOrphans(s.d, script)
    case _ => false
  }

  lemma SomeMembership(d: Directory, id: string) returns (tenant: string)
    requires MembershipsAgree(d) && LegacyTenantsOf(d, id) != {}
    ensures (tenant, id) in d.memberships
  {
    tenant :| tenant in LegacyTenantsOf(d, id);
    assert (id, tenant) in d.membershipTenants;
  }

  lemma TenantListed(d: Directory, tenant: string, id: string)
    requires MembershipsAgree(d) && (tenant, id) in d.memberships
    ensures tenant in LegacyTenantsOf(d, id)
  {
    assert (id, tenant).1 in LegacyTenantsOf(d, id);
  }

  lemma EmailDeletionOrphans(d: Directory, plan: Plan)
    requires MembershipsAgree(d) && plan.EraseByEmail? && PlanOrphans(d, plan)
    ensures !Owned(Apply(d, plan))
  {
    var tenant := SomeMembership(d, plan.id);
    assert (tenant, plan.id) in Apply(d, plan).memberships && !Known(Apply(d, plan), (tenant, plan.id).1);
  }

  lemma EmailDeletionOwned(d: Directory, plan: Plan)
    requires MembershipsAgree(d) && Owned(d) && plan.EraseByEmail? && !PlanOrphans(d, plan)
    ensures Owned(Apply(d, plan))
  {
    forall k | k in Apply(d, plan).memberships
      ensures Known(Apply(d, plan), k.1)
    {
      assert Known(d, k.1);
      TenantListed(d, k.0, k.1);
    }
  }

  lemma DeletionOwned(d: Directory, id: string, del: Deletion)
    requires MembershipsAgree(d) && Owned(d) && RelationsRead(d, id, del)
    ensures Owned(WithoutUser(d, id, del))
  {
    var d' := WithoutUser(d, id, del);
    forall k | k in d'.memberships
      ensures Known(d', k.1)
    {
      assert Known(d, k.1);
      TenantListed(d, k.0, k.1);
    }
  }

  /** Only a deletion by email leaves memberships without a user. */
  lemma PlanKeepsOwners(d: Directory, plan: Plan)
    requires MembershipsAgree(d) && Owned(d) && Fits(d, plan)
    ensures Owned(Apply(d, plan)) <==> !PlanOrphans(d, plan)
  {
    if plan.EraseByEmail? {
      if PlanOrphans(d, plan) {
        EmailDeletionOrphans(d, plan);
      } else {
        EmailDeletionOwned(d, plan);
      }
    } else if plan.EraseUser? {
      DeletionOwned(d, plan.id, plan.deletion);
    } else {
      OtherPlansSpareMemberships(d, plan);
      if WritesUser(plan) {
        UserPlansKeepUsers(d, plan);
      } else {
        OtherPlansSpareUsers(d, plan);
      }
      SameOwners(d, Apply(d, plan));
    }
  }

  predicate WritesUser(plan: Plan)
  {
    plan.WriteUser? || plan.WriteImport? || plan.WriteSecret? || plan.WriteFederated?
  }

  lemma MoreKeys<K, V>(m: map<K, V>, k: K, v: V)
    ensures m.Keys <= m[k := v].Keys
  {
  }

  lemma UserPlansKeepUsers(d: Directory, plan: Plan)
    requires WritesUser(plan)
    ensures d.users.Keys <= Apply(d, plan).users.Keys && d.federated.Keys <= Apply(d, plan).federated.Keys
  {
    MoreKeys(d.users, plan.id, plan.user);
    MoreKeys(d.federated, plan.id, plan.user);
  }

  lemma OtherPlansSpareUsers(d: Directory, plan: Plan)
    requires !plan.EraseUser? && !plan.EraseByEmail? && !WritesUser(plan)
    ensures SameUsers(d, Apply(d, plan))
  {
  }

  lemma SameOwners(d: Directory, d': Directory)
    requires Owned(d) && d'.memberships == d.memberships
    requires d.users.Keys <= d'.users.Keys && d.federated.Keys <= d'.federated.Keys
    ensures Owned(d')
  {
    forall k | k in d'.memberships
      ensures Known(d', k.1)
    {
      assert Known(d, k.1);
    }
  }

  lemma WorkloadLeavesOthers(d: Directory, tenant: string, id: string, email: string, k: (string, string))
    requires MembershipsAgree(d) && Owned(d) && AccountComplete(d, tenant, id, email)
    requires id in d.federated || LegacyTenantsOf(d, id) == {tenant}
    requires k in RunWorkloadDelete(d, tenant, id, email).memberships
    ensures Known(RunWorkloadDelete(d, tenant, id, email), k.1)
  {
    assert Known(d, k.1);
    TenantListed(d, k.0, k.1);
  }

  lemma WorkloadOrphans(d: Directory, tenant: string, id: string, email: string)
    requires MembershipsAgree(d) && AccountComplete(d, tenant, id, email)
    requires id !in d.federated && LegacyTenantsOf(d, id) != {tenant}
    ensures !Owned(RunWorkloadDelete(d, tenant, id, email))
  {
    TenantListed(d, tenant, id);
    var other :| other in LegacyTenantsOf(d, id) && other != tenant;
    assert (id, other) in d.membershipTenants && (other, id) in d.memberships;
    assert (other, id) in RunWorkloadDelete(d, tenant, id, email).memberships;
    assert !Known(RunWorkloadDelete(d, tenant, id, email), (other, id).1);
  }

  lemma WorkloadOwners(d: Directory, tenant: string, id: string, email: string)
    requires MembershipsAgree(d) && Owned(d)
    ensures Owned(RunWorkloadDelete(d, tenant, id, email)) <==> !ScriptOrphans(d, WorkloadDelete(tenant, id, email))
  {
    if AccountComplete(d, tenant, id, email) {
      if ScriptOrphans(d, WorkloadDelete(tenant, id, email)) {
        WorkloadOrphans(d, tenant, id, email);
      } else {
        forall k | k in RunWorkloadDelete(d, tenant, id, email).memberships
          ensures Known(RunWorkloadDelete(d, tenant, id, email), k.1)
        {
          WorkloadLeavesOthers(d, tenant, id, email, k);
        }
      }
    }
  }

  lemma NewMembership(d: Directory, d': Directory, k: (string, string), m: Membership)
    requires Owned(d) && d'.memberships == d.memberships[k := m] && d'.users == d.users && d'.federated == d.federated
    ensures Owned(d') <==> Known(d, k.1)
  {
    assert k in d'.memberships && (Known(d', k.1) <==> Known(d, k.1));
    forall other | other in d'.memberships && other != k
      ensures Known(d', other.1)
    {
      assert Known(d, other.1);
    }
  }

  lemma LegacyOwners(d: Directory, tenant: string, id: string, m: Membership)
    requires MembershipsAgree(d) && Owned(d)
    ensures Owned(RunLegacyCreate(d, tenant, id, m)) <==> !ScriptOrphans(d, LegacyCreate(tenant, id, m))
  {
    if !V2Locked(d, tenant, id) {
      NewMembership(d, RunLegacyCreate(d, tenant, id, m), (tenant, id), m);
    }
  }

  lemma EnsureCreates(d: Directory, tenant: string, id: string, roles: seq<string>, at: int)
    requires MembershipsAgree(d)
    ensures EnsureStatus(d, tenant, id, Membership(Derived(tenant, id), roles, at)).Created? <==>
            (tenant, id) !in d.memberships && (tenant, id) !in d.memberships2
  {
    assert (tenant, id) in d.memberships <==> (id, tenant) in d.membershipTenants;
    assert (tenant, id) in d.memberships2 <==> (id, tenant) in d.membershipTenants2;
  }

  lemma EnsureOwners(d: Directory, tenant: string, id: string, roles: seq<string>, at: int)
    requires MembershipsAgree(d) && Owned(d)
    ensures Owned(RunEnsure(d, tenant, id, roles, at)) <==> !ScriptOrphans(d, Ensure(tenant, id, roles, at))
  {
    var m := Membership(Derived(tenant, id), roles, at);
    EnsureCreates(d, tenant, id, roles, at);
    if CanonicalRoles(roles) && EnsureStatus(d, tenant, id, m).Created? {
      NewMembership(d, RunEnsure(d, tenant, id, roles, at), (tenant, id), m);
    }
  }

  lemma ScriptKeepsOwners(d: Directory, script: Script)
    requires MembershipsAgree(d) && Owned(d)
    ensures Owned(RunScript(d, script)) <==> !ScriptOrphans(d, script)
  {
    if script.WorkloadDelete? {
      WorkloadOwners(d, script.tenant, script.id, script.email);
    } else if script.LegacyCreate? {
      LegacyOwners(d, script.tenant, script.id, script.membership);
    } else if script.Ensure? {
      EnsureOwners(d, script.tenant, script.id, script.roles, script.at);
    }
  }

  /**
   In every run, a step from a state in which every membership belongs to a stored user leads to another such
   state if and only if it is none of the steps above.
   */
  lemma OwnedUntilOrphaned(states: seq<Sys>, actions: seq<Action>, i: nat)
    requires IsRun(states, actions) && i < |actions| && Owned(states[i].d)
    ensures Owned(states[i + 1].d) <==> !Orphans(states[i], actions[i])
  {
    MembershipsAlwaysAgree(states, actions, i);
    RunKeepsClients(states, actions, i);
    var s, a, s' := states[i], actions[i], states[i + 1];
    assert Step(s, a, s');
    if a.Commit? {
      CommitFits(s, a.client);
      PlanKeepsOwners(s.d, s.clients[a.client].point.plan);
    } else if a.Run? {
      ScriptStepKeepsOwners(s, a.script, s');
    }
  }

  lemma ScriptStepKeepsOwners(s: Sys, script: Script, s': Sys)
    requires MembershipsAgree(s.d) && Owned(s.d) && ScriptStep(s, script, s')
    ensures Owned(s'.d) <==> !ScriptOrphans(s.d, script)
  {
    if !CreatesGroup(script) {
      ScriptKeepsOwners(s.d, script);
    }
  }
}
