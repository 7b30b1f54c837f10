/** Invariants of whole runs: the agreement of all indexes, and what exactly ends it. */
module DirectoryHistory {
  import opened Prelude
  import opened DirectoryState
  import opened DirectoryTransactions
  import opened DirectoryAtomic
  import opened DirectoryInvariant
  import opened DirectoryErasure
  import opened DirectoryRuns

  // ----- Group creation in two commands -----

  /** Ids are never drawn twice, a pending creation has no group yet, and a name key it holds is that of its own name. */
  ghost predicate Drawn(groups: map<string, Group>, names: map<string, string>, pending: map<string, Group>, used: set<string>)
  {
    && (forall g :: g in pending ==> g !in groups && g in used && ValidGroup(pending[g]))
    && (forall n :: n in names && names[n] in pending ==> n == Fold(pending[names[n]].name))
    && (forall g :: g in groups ==> g in used)
    && (forall n :: n in names ==> names[n] in used)
  }

  predicate Owns(names: map<string, string>, id: string, group: Group)
  {
    Fold(group.name) in names && names[Fold(group.name)] == id
  }

  /** Every pending creation owns the key of its folded name. */
  ghost predicate Reserved(names: map<string, string>, pending: map<string, Group>)
  {
    forall g :: g in pending ==> Owns(names, g, pending[g])
  }

  ghost predicate SysInv(s: Sys)
  {
    DirectoryInv(s.d) && Drawn(s.d.groups, s.d.names, s.pending, s.used)
  }

  lemma ReserveKeepsPending(groups: map<string, Group>, names: map<string, string>, pending: map<string, Group>,
                            used: set<string>, id: string, group: Group)
    requires Drawn(groups, names, pending, used) && id !in used && ValidGroup(group) && Fold(group.name) !in names
    ensures Drawn(groups, names[Fold(group.name) := id], pending[id := group], used + {id})
    ensures Reserved(names, pending) ==> Reserved(names[Fold(group.name) := id], pending[id := group])
  {
  }

  lemma ReserveKeepsNames(groups: map<string, Group>, names: map<string, string>, order: set<(string, string)>, id: string, name: string)
    requires GroupsAgree(groups, names, order) && id !in groups && name !in names
    ensures GroupsAgree(groups, names[name := id], order)
  {
  }

  lemma FinishKeepsPending(groups: map<string, Group>, names: map<string, string>, id: string, pending: map<string, Group>, used: set<string>)
    requires Drawn(groups, names, pending, used) && id in pending
    ensures Drawn(groups[id := pending[id]], names, pending - {id}, used)
    ensures Reserved(names, pending) ==> Reserved(names, pending - {id})
  {
  }

  lemma FinishOwned(d: Directory, id: string, pending: map<string, Group>, used: set<string>)
    requires DirectoryInv(d) && Drawn(d.groups, d.names, pending, used) && id in pending && Owns(d.names, id, pending[id])
    ensures DirectoryInv(RunFinish(d, id, pending[id]))
  {
    var group := pending[id];
    NewGroup(d.groups, d.names, d.order, id, group);
    assert d.names[Fold(group.name) := id] == d.names;
    MoreGroupsKeep(d, d.groups[id := group].Keys);
  }

  lemma FinishUnowned(d: Directory, id: string, group: Group)
    requires !Owns(d.names, id, group)
    ensures !DirectoryInv(RunFinish(d, id, group))
  {
    assert id in RunFinish(d, id, group).groups;
  }

  /** The second command of a creation keeps the agreement if and only if the creation still owns the name it reserved. */
  lemma FinishKeeps(d: Directory, id: string, pending: map<string, Group>, used: set<string>)
    requires DirectoryInv(d) && Drawn(d.groups, d.names, pending, used) && id in pending
    ensures DirectoryInv(RunFinish(d, id, pending[id])) <==> Owns(d.names, id, pending[id])
  {
    if Owns(d.names, id, pending[id]) {
      FinishOwned(d, id, pending, used);
    } else {
      FinishUnowned(d, id, pending[id]);
    }
  }

  lemma MoreGroupsKeep(d: Directory, groups: set<string>)
    requires DirectoryInv(d) && d.groups.Keys <= groups
    ensures MembersAgree(d.members, d.userGroups, groups, d.users.Keys)
    ensures AssignmentsAgree(d.assignments, d.tenants, d.users.Keys, groups)
  {
  }

  predicate FreeOfGroups(d: Directory, name: string)
  {
    name in d.names ==> d.names[name] !in d.groups
  }

  /** Deleting a name key keeps the agreement if and only if no stored group owns the name. */
  lemma DropNameKeeps(d: Directory, group: Group)
    requires DirectoryInv(d)
    ensures DirectoryInv(RunAbort(d, group)) <==> FreeOfGroups(d, Fold(group.name))
  {
    var name, d' := Fold(group.name), RunAbort(d, group);
    if FreeOfGroups(d, name) {
      assert GroupsAgree(d.groups, d.names - {name}, d.order);
    } else {
      assert Fold(d'.groups[d.names[name]].name) == name && name !in d'.names;
    }
  }

  lemma DropKeepsPending(groups: map<string, Group>, names: map<string, string>, pending: map<string, Group>, used: set<string>, name: string)
    requires Drawn(groups, names, pending, used)
    ensures Drawn(groups, names - {name}, pending, used)
  {
  }

  lemma AbortKeepsPending(groups: map<string, Group>, names: map<string, string>, pending: map<string, Group>, used: set<string>, id: string)
    requires Drawn(groups, names, pending, used) && id in pending
    ensures Drawn(groups, names - {Fold(pending[id].name)}, pending - {id}, used)
    ensures Reserved(names, pending) ==> Reserved(names - {Fold(pending[id].name)}, pending - {id})
  {
  }

  // ----- A creation whose second reply is lost -----

  function RunCreate(d: Directory, id: string, group: Group): Directory
  {
    RunFinish(RunReserve(d, id, group), id, group)
  }

  /** It frees the name of its own group, and a second creation leaves two groups with one name. */
  lemma LostReplySplitsName(d: Directory, id: string, group: Group, other: string, again: Group)
    requires DirectoryInv(d) && id !in d.groups && other !in d.groups && id != other
    requires Fold(group.name) !in d.names && Fold(again.name) == Fold(group.name)
    ensures !DirectoryInv(RunAbort(RunCreate(d, id, group), group))
    ensures Fold(again.name) !in RunAbort(RunCreate(d, id, group), group).names
    ensures
      var d' := RunCreate(RunAbort(RunCreate(d, id, group), group), other, again);
      id in d'.groups && other in d'.groups && Fold(d'.groups[id].name) == Fold(d'.groups[other].name)
  {
    var lost := RunAbort(RunCreate(d, id, group), group);
    assert id in lost.groups && Fold(lost.groups[id].name) !in lost.names;
  }

  // ----- Plans and pending creations -----

  lemma PatchKeepsPending(groups: map<string, Group>, names: map<string, string>, order: set<(string, string)>,
                          pending: map<string, Group>, used: set<string>, g: string, after: Group)
    requires GroupsAgree(groups, names, order) && Drawn(groups, names, pending, used) && g in groups
    requires Fold(after.name) !in names || names[Fold(after.name)] == g
    ensures Drawn(groups[g := after], (names - {Fold(groups[g].name)})[Fold(after.name) := g], pending, used)
    ensures Reserved(names, pending) ==> Reserved((names - {Fold(groups[g].name)})[Fold(after.name) := g], pending)
  {
  }

  lemma EraseKeepsPending(groups: map<string, Group>, names: map<string, string>, order: set<(string, string)>,
                          pending: map<string, Group>, used: set<string>, g: string)
    requires GroupsAgree(groups, names, order) && Drawn(groups, names, pending, used) && g in groups
    ensures Drawn(groups - {g}, names - {Fold(groups[g].name)}, pending, used)
    ensures Reserved(names, pending) ==> Reserved(names - {Fold(groups[g].name)}, pending)
  {
  }

  lemma SameKeysKeepPending(groups: map<string, Group>, after: map<string, Group>, names: map<string, string>,
                            pending: map<string, Group>, used: set<string>)
    requires Drawn(groups, names, pending, used) && after.Keys == groups.Keys
    ensures Drawn(after, names, pending, used)
  {
  }

  lemma QuietDeletion(d: Directory, id: string, del: Deletion)
    requires BumpsExactly(d, del.groups, del.bumped)
    ensures WithoutUser(d, id, del).groups.Keys == d.groups.Keys && WithoutUser(d, id, del).names == d.names
  {
    assert (d.groups + del.bumped).Keys == d.groups.Keys;
  }

  lemma QuietEmailDeletion(d: Directory, email: string, id: string, user: User, tenants: set<string>, bumped: map<string, Group>)
    requires BumpsExactly(d, GroupsOf(d, id), bumped)
    ensures WithoutEmail(d, email, id, user, tenants, bumped).groups.Keys == d.groups.Keys
  {
    assert (d.groups + bumped).Keys == d.groups.Keys;
  }

  lemma QuietMember(d: Directory, group: string, member: string, after: Group, add: bool)
    requires group in d.groups
    ensures WithMember(d, group, member, after, add).groups.Keys == d.groups.Keys
  {
    assert d.groups[group := after].Keys == d.groups.Keys;
  }

  /** Plans that leave the set of groups and the names alone. */
  lemma QuietPlan(d: Directory, plan: Plan)
    requires Fits(d, plan) && !plan.WriteGroup? && !plan.EraseGroup?
    ensures Apply(d, plan).groups.Keys == d.groups.Keys && Apply(d, plan).names == d.names
  {
    if plan.EraseUser? {
      QuietDeletion(d, plan.id, plan.deletion);
    } else if plan.EraseByEmail? {
      QuietEmailDeletion(d, plan.email, plan.id, plan.user, plan.tenants, plan.bumped);
    } else if plan.WriteMember? {
      QuietMember(d, plan.group, plan.member, plan.after, plan.add);
    }
  }

  lemma GroupPlanKeepsPending(d: Directory, group: string, before: Group, after: Group, pending: map<string, Group>, used: set<string>)
    requires DirectoryInv(d) && Drawn(d.groups, d.names, pending, used) && GroupFits(d, group, before, after)
    ensures var d' := WithGroup(d, group, before, after); Drawn(d'.groups, d'.names, pending, used)
    ensures Reserved(d.names, pending) ==> Reserved(WithGroup(d, group, before, after).names, pending)
  {
    if before.name == after.name {
      SameKeysKeepPending(d.groups, d.groups[group := after], d.names, pending, used);
    } else {
      PatchKeepsPending(d.groups, d.names, d.order, pending, used, group, after);
    }
  }

  lemma PlanKeepsPending(d: Directory, plan: Plan, pending: map<string, Group>, used: set<string>)
    requires DirectoryInv(d) && Drawn(d.groups, d.names, pending, used) && Fits(d, plan)
    ensures Drawn(Apply(d, plan).groups, Apply(d, plan).names, pending, used)
    ensures Reserved(d.names, pending) ==> Reserved(Apply(d, plan).names, pending)
  {
    if plan.WriteGroup? {
      GroupPlanKeepsPending(d, plan.group, plan.before, plan.after, pending, used);
    } else if plan.EraseGroup? {
      EraseKeepsPending(d.groups, d.names, d.order, pending, used, plan.group);
    } else {
      QuietPlan(d, plan);
      SameKeysKeepPending(d.groups, Apply(d, plan).groups, d.names, pending, used);
    }
  }

  // ----- Scripts -----

  lemma CreateUserKeeps(d: Directory, id: string, input: User)
    requires DirectoryInv(d)
    ensures DirectoryInv(RunCreateUser(d, id, input))
  {
    var user := input.(revision := 0);
    if RunCreateUser(d, id, input) != d {
      if id in d.users {
        SetUser(d.users, d.emails, d.index, id, user);
        assert d.users[id := user] == d.users && d.emails[user.email := id] == d.emails;
      } else {
        assert user.email !in d.emails;
        NewUserKeeps(d, id, user);
      }
    }
  }

  /** The two creation scripts look only at their own hash, so one id can come to have a record in both. */
  lemma OneIdTwoRecords(d: Directory, id: string, tenant: string, subject: string, federated: User, input: User)
    requires DirectoryInv(d) && id !in d.users && id !in d.federated && (tenant, subject) !in d.aliases && input.email !in d.emails
    ensures
      var d' := RunCreateUser(RunCreateFederated(d, tenant, subject, id, federated), id, input);
      DirectoryInv(d') && SameMemberships(d, d') && id in d'.users && id in d'.federated
  {
    var after := RunCreateFederated(d, tenant, subject, id, federated);
    SameCoreKeeps(d, after);
    CreateUserKeeps(after, id, input);
    UserCreated(after, id, input);
  }

  lemma UserCreated(d: Directory, id: string, input: User)
    requires id !in d.users && input.email !in d.emails
    ensures id in RunCreateUser(d, id, input).users && RunCreateUser(d, id, input).federated == d.federated
  {
  }

  lemma SameCoreKeeps(d: Directory, d': Directory)
    requires DirectoryInv(d) && SameCore(d, d')
    ensures DirectoryInv(d')
  {
  }

  lemma OtherScriptsSpareCore(d: Directory, script: Script)
    requires !script.WorkloadDelete? && !script.CreateUser?
    ensures SameCore(d, RunScript(d, script))
  {
  }

  /** Scripts other than group creation and workload deletion. */
  lemma ScriptKeepsDirectory(d: Directory, script: Script)
    requires DirectoryInv(d) && !script.WorkloadDelete?
    ensures DirectoryInv(RunScript(d, script)) && SameGroups(d, RunScript(d, script))
  {
    if script.CreateUser? {
      CreateUserKeeps(d, script.id, script.user);
    } else {
      OtherScriptsSpareCore(d, script);
      SameCoreKeeps(d, RunScript(d, script));
    }
  }

  /** The account is stored under this email and the pair has all four membership entries with one payload. */
  predicate AccountComplete(d: Directory, tenant: string, id: string, email: string)
  {
    && email in d.emails && d.emails[email] == id && id in d.users
    && (tenant, id) in d.memberships2 && (id, tenant) in d.membershipTenants2
    && (tenant, id) in d.memberships && (id, tenant) in d.membershipTenants
    && d.memberships[(tenant, id)] == d.memberships2[(tenant, id)]
  }

  /**
   The workload deletion script never removes the account's entry of the ordered email index. Called on an
   agreeing directory it keeps the agreement if and only if it finds no complete account to delete.
   */
  lemma WorkloadDeletionBreaksIndex(d: Directory, tenant: string, id: string, email: string)
    requires DirectoryInv(d)
    ensures DirectoryInv(RunWorkloadDelete(d, tenant, id, email)) <==> !AccountComplete(d, tenant, id, email)
  {
    var d' := RunWorkloadDelete(d, tenant, id, email);
    if AccountComplete(d, tenant, id, email) {
      assert (d.users[id].email, id) in d'.index && id !in d'.users;
    }
  }

  // ----- What ends the agreement -----

  /**
   A workload account deletion that finds its account complete; a group written without the name its creation had reserved;
   or a creation, failed or without reply, that gives up a name which by now is that of a stored group.
   */
  predicate ScriptBreaks(s: Sys, script: Script)
  {
    match script
    case WorkloadDelete(tenant, id, email) => AccountComplete(s.d, tenant, id, email)
    case FinishGroup(id) => id in s.pending && !Owns(s.d.names, id, s.pending[id])
    case AbortGroup(id) => id in s.pending && !FreeOfGroups(s.d, Fold(s.pending[id].name))
    case DropName(id) => id in s.finished && !FreeOfGroups(s.d, Fold(s.finished[id].name))
    case _ => false
  }

  predicate Breaks(s: Sys, a: Action)
  {
    a.Run? && ScriptBreaks(s, a.script)
  }

  lemma CommitFits(s: Sys, c: int)
    requires ClientsInv(s) && c in s.clients && s.clients[c].point.Ready? && !s.clients[c].dirty
    ensures Fits(s.d, s.clients[c].point.plan)
  {
    var client := s.clients[c];
    assert ClientInv(s.d, client);
    assert RunN(client.op, s.d, client.steps) == Ready(client.point.plan);
    CommitsFit(client.op, s.d, client.point.plan);
  }

  lemma GroupScriptAgrees(s: Sys, script: Script, s': Sys)
    requires SysInv(s) && ScriptStep(s, script, s') && CreatesGroup(script)
    ensures if ScriptBreaks(s, script) then !DirectoryInv(s'.d) else SysInv(s')
  {
    if script.ReserveGroup? {
      ReserveKeepsPending(s.d.groups, s.d.names, s.pending, s.used, script.id, script.group);
      ReserveKeepsNames(s.d.groups, s.d.names, s.d.order, script.id, Fold(script.group.name));
    } else if script.FinishGroup? {
      FinishKeeps(s.d, script.id, s.pending, s.used);
      FinishKeepsPending(s.d.groups, s.d.names, script.id, s.pending, s.used);
    } else if script.AbortGroup? {
      DropNameKeeps(s.d, s.pending[script.id]);
      AbortKeepsPending(s.d.groups, s.d.names, s.pending, s.used, script.id);
    } else {
      DropNameKeeps(s.d, s.finished[script.id]);
      DropKeepsPending(s.d.groups, s.d.names, s.pending, s.used, Fold(s.finished[script.id].name));
    }
  }

  lemma ScriptAgrees(s: Sys, script: Script, s': Sys)
    requires SysInv(s) && ScriptStep(s, script, s')
    ensures if ScriptBreaks(s, script) then !DirectoryInv(s'.d) else SysInv(s')
  {
    if CreatesGroup(script) {
      GroupScriptAgrees(s, script, s');
    } else if script.WorkloadDelete? {
      WorkloadDeletionBreaksIndex(s.d, script.tenant, script.id, script.email);
    } else {
      ScriptKeepsDirectory(s.d, script);
    }
  }

  lemma CommitAgrees(s: Sys, c: int, s': Sys)
    requires SysInv(s) && ClientsInv(s) && Step(s, Commit(c), s')
    ensures SysInv(s')
  {
    CommitFits(s, c);
    var plan := s.clients[c].point.plan;
    PlanKeepsDirectory(s.d, plan);
    PlanKeepsPending(s.d, plan, s.pending, s.used);
  }

  lemma StepAgrees(s: Sys, a: Action, s': Sys)
    requires SysInv(s) && ClientsInv(s) && Step(s, a, s')
    ensures if Breaks(s, a) then !DirectoryInv(s'.d) else SysInv(s')
  {
    if a.Commit? {
      CommitAgrees(s, a.client, s');
    } else if a.Run? {
      ScriptAgrees(s, a.script, s');
    }
  }

  // ----- Runs -----

  lemma RunStepAgrees(states: seq<Sys>, actions: seq<Action>, i: nat)
    requires IsRun(states, actions) && i < |actions| && SysInv(states[i])
    ensures if Breaks(states[i], actions[i]) then !DirectoryInv(states[i + 1].d) else SysInv(states[i + 1])
  {
    RunKeepsClients(states, actions, i);
    assert Step(states[i], actions[i], states[i + 1]);
    StepAgrees(states[i], actions[i], states[i + 1]);
  }

  lemma StartAgrees(states: seq<Sys>, actions: seq<Action>)
    requires IsRun(states, actions)
    ensures SysInv(states[0])
  {
  }

  // An invariant that steps keep unless they break what it implies, whatever the steps.

  ghost predicate UpTo(P: nat -> bool, n: nat)
  {
    forall i: nat :: i < n ==> P(i)
  }

  ghost predicate Guards(inv: nat -> bool, ok: nat -> bool, bad: nat -> bool, n: nat)
  {
    && inv(0) && (forall i: nat :: i <= n && inv(i) ==> ok(i))
    && forall i: nat :: i < n && inv(i) ==> if bad(i) then !ok(i + 1) else inv(i + 1)
  }

  lemma {:induction false} OkUnlessBad(inv: nat -> bool, ok: nat -> bool, bad: nat -> bool, n: nat)
    requires Guards(inv, ok, bad, n)
    ensures UpTo(ok, n + 1) <==> forall i: nat :: i < n ==> !bad(i)
    ensures (forall i: nat :: i < n ==> !bad(i)) ==> inv(n)
  {
    if n > 0 {
      OkUnlessBad(inv, ok, bad, n - 1);
      assert UpTo(ok, n + 1) <==> UpTo(ok, n) && ok(n);
      assert n - 1 + 1 == n;
    }
  }

  ghost function Agreeing(states: seq<Sys>): nat -> bool
  {
    (i: nat) => i < |states| && DirectoryInv(states[i].d)
  }

  ghost function Breaking(states: seq<Sys>, actions: seq<Action>): nat -> bool
  {
    (i: nat) => i < |states| && i < |actions| && Breaks(states[i], actions[i])
  }

  /** No step before the `n`-th state breaks the agreement. */
  ghost predicate Unbroken(states: seq<Sys>, actions: seq<Action>, n: nat)
  {
    forall i: nat :: i < n ==> !Breaking(states, actions)(i)
  }

  /**
   Of any run, under any interleaving, every index of the directory agrees with its records in every state so far if and only
   if no step so far was one of those above.
   */
  lemma DirectoryAlwaysAgrees(states: seq<Sys>, actions: seq<Action>, n: nat)
    requires IsRun(states, actions) && n < |states|
    ensures UpTo(Agreeing(states), n + 1) <==> Unbroken(states, actions, n)
    ensures Unbroken(states, actions, n) ==> SysInv(states[n])
  {
    var inv := (i: nat) => i < |states| && SysInv(states[i]);
    StartAgrees(states, actions);
    forall i: nat | i < n && inv(i)
      ensures if Breaking(states, actions)(i) then !Agreeing(states)(i + 1) else inv(i + 1)
    {
      RunStepAgrees(states, actions, i);
    }
    OkUnlessBad(inv, Agreeing(states), Breaking(states, actions), n);
  }

  // ----- Runs without lost replies -----

  predicate NoLostReply(actions: seq<Action>)
  {
    forall i :: 0 <= i < |actions| ==> !(actions[i].Run? && actions[i].script.DropName?)
  }

  lemma StepKeepsReserved(s: Sys, a: Action, s': Sys)
    requires SysInv(s) && Reserved(s.d.names, s.pending) && ClientsInv(s) && Step(s, a, s')
    requires !(a.Run? && a.script.DropName?)
    ensures Reserved(s'.d.names, s'.pending)
  {
    if a.Commit? {
      CommitFits(s, a.client);
      PlanKeepsPending(s.d, s.clients[a.client].point.plan, s.pending, s.used);
    } else if a.Run? {
      ScriptKeepsReserved(s, a.script, s');
    }
  }

  lemma ScriptKeepsReserved(s: Sys, script: Script, s': Sys)
    requires SysInv(s) && Reserved(s.d.names, s.pending) && ScriptStep(s, script, s') && !script.DropName?
    ensures Reserved(s'.d.names, s'.pending)
  {
    if script.ReserveGroup? {
      ReserveKeepsPending(s.d.groups, s.d.names, s.pending, s.used, script.id, script.group);
    } else if script.FinishGroup? {
      FinishKeepsPending(s.d.groups, s.d.names, script.id, s.pending, s.used);
    } else if script.AbortGroup? {
      AbortKeepsPending(s.d.groups, s.d.names, s.pending, s.used, script.id);
    } else if !script.WorkloadDelete? {
      ScriptKeepsDirectory(s.d, script);
    }
  }

  /** In a run without lost replies every group creation, between its two commands, still owns the name it reserved, whatever ran in between. */
  lemma {:induction false} NameStaysReserved(states: seq<Sys>, actions: seq<Action>, i: nat)
    requires IsRun(states, actions) && NoLostReply(actions) && i < |states| && Unbroken(states, actions, i)
    ensures Reserved(states[i].d.names, states[i].pending)
  {
    if i > 0 {
      NameStaysReserved(states, actions, i - 1);
      DirectoryAlwaysAgrees(states, actions, i - 1);
      RunKeepsClients(states, actions, i - 1);
      StepKeepsReserved(states[i - 1], actions[i - 1], states[i]);
    }
  }

  /** The action deletes a workload account. */
  predicate DeletesAccount(s: Sys, a: Action)
  {
    && a.Run? && a.script.WorkloadDelete?
    && AccountComplete(s.d, a.script.tenant, a.script.id, a.script.email)
  }

  lemma ReservedStepBreaks(s: Sys, a: Action)
    requires SysInv(s) && Reserved(s.d.names, s.pending) && !(a.Run? && a.script.DropName?)
    ensures Breaks(s, a) <==> DeletesAccount(s, a)
  {
    if a.Run? && (a.script.FinishGroup? || a.script.AbortGroup?) && a.script.id in s.pending {
      PendingNameFree(s, a.script.id);
    }
  }

  lemma PendingNameFree(s: Sys, id: string)
    requires SysInv(s) && Reserved(s.d.names, s.pending) && id in s.pending
    ensures Owns(s.d.names, id, s.pending[id]) && FreeOfGroups(s.d, Fold(s.pending[id].name))
  {
  }

  /** So in such a run only a workload account deletion that deletes can end the agreement. */
  lemma OnlyDeletionsBreak(states: seq<Sys>, actions: seq<Action>, i: nat)
    requires IsRun(states, actions) && NoLostReply(actions) && i < |actions| && Unbroken(states, actions, i)
    ensures Breaks(states[i], actions[i]) <==> DeletesAccount(states[i], actions[i])
  {
    NameStaysReserved(states, actions, i);
    DirectoryAlwaysAgrees(states, actions, i);
    ReservedStepBreaks(states[i], actions[i]);
  }

  /** Group names are unique up to case. */
  lemma NamesUnique(d: Directory, g: string, h: string)
    requires DirectoryInv(d) && g in d.groups && h in d.groups && Fold(d.groups[g].name) == Fold(d.groups[h].name)
    ensures g == h
  {
    assert d.names[Fold(d.groups[g].name)] == g;
  }
}
