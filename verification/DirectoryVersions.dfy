/** What versions and revisions determine over whole runs, and the life of a v2 membership. */
module DirectoryVersions {
  import opened Prelude
  import opened DirectoryState
  import opened DirectoryTransactions
  import opened DirectoryAtomic
  import opened DirectoryInvariant
  import opened DirectoryErasure
  import opened DirectoryRuns
  import opened DirectoryHistory

  /** A version never falls, and equal versions mean equal contents. */
  ghost predicate Rises<T(!new)>(v: nat, a: T, w: nat, b: T)
  {
    v <= w && (v == w ==> a == b)
  }

  // ----- What holds in every run, broken agreement or not -----

  /** Group-to-user and user-to-group sets mirror each other. */
  ghost predicate Mirrored(members: set<(string, string)>, userGroups: set<(string, string)>)
  {
    forall g, u :: (g, u) in members <==> (u, g) in userGroups
  }

  /** Ids are drawn before they are used, and a group is pending no more. */
  predicate IdsDrawn(groups: set<string>, pending: set<string>, used: set<string>)
  {
    groups <= used && pending <= used && groups !! pending
  }

  ghost predicate GroupsInv(s: Sys)
  {
    Mirrored(s.d.members, s.d.userGroups) && IdsDrawn(s.d.groups.Keys, s.pending.Keys, s.used)
  }

  lemma UserDropMirrored(members: set<(string, string)>, userGroups: set<(string, string)>, user: string, affected: set<string>)
    requires Mirrored(members, userGroups) && affected == set p | p in userGroups && p.0 == user :: p.1
    ensures Mirrored(RemoveEach(members, affected, user), Del(userGroups, user))
  {
    forall g, u
      ensures (g, u) in members && !(g in affected && u == user) <==> (u, g) in userGroups && u != user
    {
      assert (u, g) in userGroups && u == user ==> (u, g).1 in affected;
    }
  }

  lemma GroupDropMirrored(d: Directory, group: string)
    requires Mirrored(d.members, d.userGroups)
    ensures Mirrored(Del(d.members, group), RemoveEach(d.userGroups, MembersOf(d, group), group))
  {
    forall g, u
      ensures (g, u) in d.members && g != group <==> (u, g) in d.userGroups && !(u in MembersOf(d, group) && g == group)
    {
      assert (g, u) in d.members && g == group ==> (g, u).1 in MembersOf(d, group);
    }
  }

  lemma DeletionMirrored(d: Directory, id: string, del: Deletion)
    requires Mirrored(d.members, d.userGroups) && GroupsRead(d, id, del)
    ensures var d' := WithoutUser(d, id, del); Mirrored(d'.members, d'.userGroups)
  {
    UserDropMirrored(d.members, d.userGroups, id, del.bumped.Keys);
  }

  lemma EmailDeletionMirrored(d: Directory, email: string, id: string, user: User, tenants: set<string>, bumped: map<string, Group>)
    requires Mirrored(d.members, d.userGroups) && BumpsExactly(d, GroupsOf(d, id), bumped)
    ensures var d' := WithoutEmail(d, email, id, user, tenants, bumped); Mirrored(d'.members, d'.userGroups)
  {
    UserDropMirrored(d.members, d.userGroups, id, bumped.Keys);
  }

  lemma GroupErasureMirrored(d: Directory, group: string, before: Group, members: set<string>, tenants: set<string>)
    requires Mirrored(d.members, d.userGroups) && members == MembersOf(d, group)
    ensures var d' := WithoutGroup(d, group, before, members, tenants); Mirrored(d'.members, d'.userGroups)
  {
    GroupDropMirrored(d, group);
  }

  lemma PairMirrored(members: set<(string, string)>, userGroups: set<(string, string)>, group: string, member: string)
    requires Mirrored(members, userGroups)
    ensures Mirrored(members + {(group, member)}, userGroups + {(member, group)})
    ensures Mirrored(members - {(group, member)}, userGroups - {(member, group)})
  {
  }

  lemma MemberWritten(d: Directory, group: string, member: string, after: Group, add: bool)
    ensures
      var d', pair, mirror := WithMember(d, group, member, after, add), {(group, member)}, {(member, group)};
      && d'.members == (if add then d.members + pair else d.members - pair)
      && d'.userGroups == (if add then d.userGroups + mirror else d.userGroups - mirror)
  {
  }

  lemma MemberWriteMirrored(d: Directory, group: string, member: string, after: Group, add: bool)
    requires Mirrored(d.members, d.userGroups)
    ensures var d' := WithMember(d, group, member, after, add); Mirrored(d'.members, d'.userGroups)
  {
    MemberWritten(d, group, member, after, add);
    PairMirrored(d.members, d.userGroups, group, member);
  }

  lemma PlanMirrored(d: Directory, plan: Plan)
    requires Mirrored(d.members, d.userGroups) && Fits(d, plan)
    ensures Mirrored(Apply(d, plan).members, Apply(d, plan).userGroups)
  {
    match plan
    case EraseUser(id, del) => DeletionMirrored(d, id, del);
    case EraseByEmail(email, id, user, tenants, bumped) => EmailDeletionMirrored(d, email, id, user, tenants, bumped);
    case EraseGroup(group, before, members, tenants) => GroupErasureMirrored(d, group, before, members, tenants);
    case WriteMember(group, member, after, add) => MemberWriteMirrored(d, group, member, after, add);
    case WriteGroup(_, _, _) =>
    case _ => OtherPlansSpareGroups(d, plan);
  }

  lemma ScriptGroupsInv(s: Sys, script: Script, s': Sys)
    requires GroupsInv(s) && ScriptStep(s, script, s')
    ensures GroupsInv(s')
  {
    if !CreatesGroup(script) {
      ScriptSparesGroups(s.d, script);
    }
  }

  lemma StepGroupsInv(s: Sys, a: Action, s': Sys)
    requires GroupsInv(s) && ClientsInv(s) && Step(s, a, s')
    ensures GroupsInv(s')
  {
    if a.Commit? {
      CommitFits(s, a.client);
      PlanMirrored(s.d, s.clients[a.client].point.plan);
      PlanAddsNoGroup(s.d, s.clients[a.client].point.plan);
    } else if a.Run? {
      ScriptGroupsInv(s, a.script, s');
    }
  }

  /** The two member relations mirror each other in every state of every run, also after the indexes disagree. */
  lemma {:induction false} MembersAlwaysMirrored(states: seq<Sys>, actions: seq<Action>, i: nat)
    requires IsRun(states, actions) && i < |states|
    ensures GroupsInv(states[i])
  {
    if i > 0 {
      MembersAlwaysMirrored(states, actions, i - 1);
      RunKeepsClients(states, actions, i - 1);
      StepGroupsInv(states[i - 1], actions[i - 1], states[i]);
    }
  }

  // ----- Groups -----

  /** What a group's version stands for: its record and its member set. */
  ghost predicate GroupRises(d: Directory, d': Directory, g: string)
    requires g in d.groups && g in d'.groups
  {
    Rises(d.groups[g].version, (d.groups[g], MembersOf(d, g)), d'.groups[g].version, (d'.groups[g], MembersOf(d', g)))
  }

  lemma SameMembersOf(d: Directory, d': Directory, g: string)
    requires forall u :: (g, u) in d.members <==> (g, u) in d'.members
    ensures MembersOf(d, g) == MembersOf(d', g)
  {
    assert forall u :: u in MembersOf(d, g) <==> (g, u) in d.members;
    assert forall u :: u in MembersOf(d', g) <==> (g, u) in d'.members;
  }

  lemma MemberChangeRises(d: Directory, group: string, member: string, after: Group, add: bool, g: string)
    requires MemberFits(d, group, member, after, add) && g in d.groups
    ensures g in WithMember(d, group, member, after, add).groups
    ensures GroupRises(d, WithMember(d, group, member, after, add), g)
  {
    if g != group {
      SameMembersOf(d, WithMember(d, group, member, after, add), g);
    }
  }

  lemma GroupWriteRises(d: Directory, d': Directory, group: string, after: Group, g: string)
    requires group in d.groups && after.version == d.groups[group].version + 1 && g in d.groups
    requires d'.groups == d.groups[group := after] && d'.members == d.members
    ensures GroupRises(d, d', g)
  {
    SameMembersOf(d, d', g);
  }

  lemma GroupErasureRises(d: Directory, group: string, before: Group, members: set<string>, tenants: set<string>, g: string)
    requires g in d.groups && g != group
    ensures g in WithoutGroup(d, group, before, members, tenants).groups
    ensures GroupRises(d, WithoutGroup(d, group, before, members, tenants), g)
  {
    SameMembersOf(d, WithoutGroup(d, group, before, members, tenants), g);
  }

  /** Removing a user from its groups bumps every group that loses a member. */
  lemma UserErasureRises(d: Directory, d': Directory, id: string, bumped: map<string, Group>, g: string)
    requires Mirrored(d.members, d.userGroups) && BumpsExactly(d, GroupsOf(d, id), bumped) && g in d.groups
    requires d'.groups == d.groups + bumped && d'.members == RemoveEach(d.members, bumped.Keys, id)
    ensures GroupRises(d, d', g)
  {
    if g !in bumped {
      assert (g, id) in d.members ==> (id, g) in d.userGroups && (id, g).1 in GroupsOf(d, id);
      SameMembersOf(d, d', g);
    }
  }

  lemma SameGroupRises(d: Directory, d': Directory, g: string)
    requires d'.groups == d.groups && d'.members == d.members && g in d.groups
    ensures GroupRises(d, d', g)
  {
    SameMembersOf(d, d', g);
  }

  lemma OtherPlansSpareGroups(d: Directory, plan: Plan)
    requires !plan.WriteMember? && !plan.WriteGroup? && !plan.EraseGroup? && !plan.EraseUser? && !plan.EraseByEmail?
    ensures SameGroups(d, Apply(d, plan))
  {
  }

  lemma PlanRises(d: Directory, plan: Plan, g: string)
    requires Mirrored(d.members, d.userGroups) && Fits(d, plan) && g in d.groups
    ensures g in Apply(d, plan).groups ==> GroupRises(d, Apply(d, plan), g)
    ensures g !in Apply(d, plan).groups ==> plan.EraseGroup?
  {
    if plan.WriteMember? {
      MemberChangeRises(d, plan.group, plan.member, plan.after, plan.add, g);
    } else if plan.WriteGroup? {
      GroupWriteRises(d, Apply(d, plan), plan.group, plan.after, g);
    } else if plan.EraseGroup? {
      if g != plan.group {
        GroupErasureRises(d, plan.group, plan.before, plan.members, plan.tenants, g);
      }
    } else if plan.EraseUser? {
      UserErasureRises(d, Apply(d, plan), plan.id, plan.deletion.bumped, g);
    } else if plan.EraseByEmail? {
      UserErasureRises(d, Apply(d, plan), plan.id, plan.bumped, g);
    } else {
      OtherPlansSpareGroups(d, plan);
      SameGroupRises(d, Apply(d, plan), g);
    }
  }

  lemma ScriptRises(s: Sys, script: Script, s': Sys, g: string)
    requires GroupsInv(s) && ScriptStep(s, script, s') && g in s.d.groups
    ensures g in s'.d.groups && GroupRises(s.d, s'.d, g)
  {
    if CreatesGroup(script) {
      SameMembersOf(s.d, s'.d, g);
    } else {
      ScriptSparesGroups(s.d, script);
      SameGroupRises(s.d, s'.d, g);
    }
  }

  lemma ScriptSparesGroups(d: Directory, script: Script)
    ensures SameGroups(d, RunScript(d, script))
  {
  }

  lemma StepRises(s: Sys, a: Action, s': Sys, g: string)
    requires GroupsInv(s) && ClientsInv(s) && Step(s, a, s') && g in s.d.groups
    ensures g in s'.d.groups ==> GroupRises(s.d, s'.d, g)
  {
    if a.Commit? {
      CommitFits(s, a.client);
      PlanRises(s.d, s.clients[a.client].point.plan, g);
    } else if a.Run? {
      ScriptRises(s, a.script, s', g);
    }
  }

  /** An id whose group was created, or whose creation was given up. */
  ghost predicate Settled(s: Sys, g: string)
  {
    g in s.used && g !in s.pending
  }

  lemma PlanAddsNoGroup(d: Directory, plan: Plan)
    requires Fits(d, plan)
    ensures Apply(d, plan).groups.Keys <= d.groups.Keys
  {
    if !plan.WriteGroup? && !plan.EraseGroup? {
      QuietPlan(d, plan);
    }
  }

  lemma ScriptSettled(s: Sys, script: Script, s': Sys, g: string)
    requires ScriptStep(s, script, s') && Settled(s, g)
    ensures Settled(s', g) && (g !in s.d.groups ==> g !in s'.d.groups)
  {
    if !CreatesGroup(script) {
      ScriptSparesGroups(s.d, script);
    }
  }

  /** A settled id never gains a group again. */
  lemma StepSettled(s: Sys, a: Action, s': Sys, g: string)
    requires ClientsInv(s) && Step(s, a, s') && Settled(s, g)
    ensures Settled(s', g) && (g !in s.d.groups ==> g !in s'.d.groups)
  {
    if a.Commit? {
      if g !in s.d.groups {
        CommitFits(s, a.client);
        PlanAddsNoGroup(s.d, s.clients[a.client].point.plan);
      }
    } else if a.Run? {
      ScriptSettled(s, a.script, s', g);
    }
  }

  /** One step, as far as one group is concerned. */
  ghost predicate GroupMoves(s: Sys, s': Sys, g: string)
  {
    && (g in s.d.groups ==> Settled(s, g))
    && (Settled(s, g) ==> Settled(s', g) && (g in s'.d.groups ==> g in s.d.groups))
    && (g in s.d.groups && g in s'.d.groups ==> GroupRises(s.d, s'.d, g))
  }

  lemma StepMoves(s: Sys, a: Action, s': Sys, g: string)
    requires GroupsInv(s) && ClientsInv(s) && Step(s, a, s')
    ensures GroupMoves(s, s', g)
  {
    if g in s.d.groups {
      StepRises(s, a, s', g);
    }
    if Settled(s, g) {
      StepSettled(s, a, s', g);
    }
  }

  lemma RunMoves(states: seq<Sys>, actions: seq<Action>, k: nat, g: string)
    requires IsRun(states, actions) && k < |actions|
    ensures GroupMoves(states[k], states[k + 1], g)
  {
    MembersAlwaysMirrored(states, actions, k);
    RunKeepsClients(states, actions, k);
    StepMoves(states[k], actions[k], states[k + 1], g);
  }

  lemma {:induction false} ChainRises(states: seq<Sys>, i: nat, j: nat, g: string)
    requires i <= j < |states| && g in states[i].d.groups && (i == j || Settled(states[i], g))
    requires forall k :: i <= k < j ==> GroupMoves(states[k], states[k + 1], g)
    ensures i < j ==> Settled(states[j], g)
    ensures g in states[j].d.groups ==> GroupRises(states[i].d, states[j].d, g)
    decreases j
  {
    if i < j {
      ChainRises(states, i, j - 1, g);
      assert GroupMoves(states[j - 1], states[j - 1 + 1], g);
    }
  }

  /**
   Over a whole run a group's id and version determine its name, description, status and members:
   an If-Match on the version can never accept a group other than the one its sender saw.
   */
  lemma GroupVersionDetermines(states: seq<Sys>, actions: seq<Action>, i: nat, j: nat, g: string)
    requires IsRun(states, actions) && i <= j < |states|
    requires g in states[i].d.groups && g in states[j].d.groups
    ensures GroupRises(states[i].d, states[j].d, g)
  {
    forall k | i <= k < j
      ensures GroupMoves(states[k], states[k + 1], g)
    {
      RunMoves(states, actions, k, g);
    }
    if i < j {
      RunMoves(states, actions, i, g);
    }
    ChainRises(states, i, j, g);
  }
}
