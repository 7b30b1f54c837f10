/** Runs that show where deletions and group creations fall short. */
module DirectoryExamples {
  import opened Prelude
  import opened DirectoryState
  import opened DirectoryTransactions
  import opened DirectoryErasure
  import opened DirectoryRuns
  import opened DirectoryHistory

  function Converted(): User
  {
    User("u@x", "", CompanyEmployee, Active, Some("home"), 0, 0, true, "s", false)
  }

  function Federated(): User
  {
    Converted().(email := "f@x")
  }

  /**
   A directory user "u", converted to SAML, with a v2 membership of "acme"; and a federated principal "f" that holds
   the alias of the same tenant and subject.
   */
  function Store(): Directory
  {
    var m := map[("acme", "u") := Membership(Derived("acme", "u"), ["viewer"], 0)];
    Directory(
      map["u" := Converted()], map["f" := Federated()], map[], map["u@x" := "u"], {("u@x", "u")},
      map[], map[], {}, {}, {}, map[], {}, m, {("u", "acme")}, m, {("u", "acme")}, map[("home", "s") := "f"], map[], Some(BACKFILL_VERSION))
  }

  lemma StoreMirrors()
    ensures MembershipsAgree(Store())
  {
    assert RoleName("viewer");
    assert CanonicalRoles(["viewer"]);
  }

  lemma StoreInit()
    ensures DirectoryInv(Store()) && MembershipsAgree(Store()) && Init(Sys(Store(), map[], map[], map[], {}))
  {
    StoreMirrors();
    assert UsersAgree(Store().users, Store().emails, Store().index);
  }

  // ----- Deletion by email -----

  function EmailOp(): Op
  {
    DeleteByEmail("u@x", "u", {})
  }

  function EmailPlan(): Plan
  {
    EraseByEmail("u@x", "u", Converted(), {}, map[])
  }

  lemma NoGroupsNoTenants()
    ensures GroupsOf(Store(), "u") == {} && TenantsOf(Store(), UserPrincipal("u")) == {}
  {
  }

  lemma EmailAdvances()
    ensures Advance(EmailOp(), Start, Store()) == First
    ensures Advance(EmailOp(), First, Store()) == Short(EmailUser)
    ensures Advance(EmailOp(), Short(EmailUser), Store()) == Short(EmailGroups(Converted()))
  {
  }

  lemma EmailAdvancesOn()
    ensures Advance(EmailOp(), Short(EmailGroups(Converted())), Store()) == Short(EmailTenants(Converted(), {}))
    ensures Advance(EmailOp(), Short(EmailTenants(Converted(), {})), Store()) == Ready(EmailPlan())
  {
    NoGroupsNoTenants();
  }

  lemma EmailCommits()
    ensures Commits(EmailOp(), Store(), EmailPlan())
  {
    var op, d := EmailOp(), Store();
    EmailAdvances();
    EmailAdvancesOn();
    RunStep(op, d, 0);
    RunStep(op, d, 1);
    RunStep(op, d, 2);
    RunStep(op, d, 3);
    RunStep(op, d, 4);
    assert RunN(op, d, 5) == Ready(EmailPlan());
  }

  lemma EmailLeaves()
    ensures
      var d' := Apply(Store(), EmailPlan());
      && "u" !in d'.users && ("acme", "u") in d'.memberships && ("acme", "u") in d'.memberships2
      && ("home", "s") in Store().aliases && Store().aliases[("home", "s")] == "f" && "f" in d'.federated && ("home", "s") !in d'.aliases
  {
  }

  /** In some run a deletion by email leaves the user's tenant membership behind and drops the SAML alias of another principal. */
  lemma EmailDeletionFallsShort() returns (states: seq<Sys>, actions: seq<Action>)
    ensures IsRun(states, actions) && |actions| > 0 && actions[|actions| - 1] == Commit(0)
    ensures
      var d, d' := states[0].d, states[|actions|].d;
      && DirectoryInv(d) && MembershipsAgree(d) && "u" in d.users && "u" !in d'.users && !Erased(d', "u")
      && ("acme", "u") in d'.memberships && ("acme", "u") in d'.memberships2
      && ("home", "s") in d.aliases && d.aliases[("home", "s")] == "f" && "f" in d'.federated && ("home", "s") !in d'.aliases
  {
    StoreInit();
    EmailCommits();
    EmailLeaves();
    states, actions := AtomicOutcomeIsReached(EmailOp(), Store(), {}, EmailPlan());
    assert ("acme", "u").1 == "u";
  }

  // ----- Workload account deletion -----

  lemma WorkloadLeaves()
    ensures
      var d' := RunWorkloadDelete(Store(), "acme", "u", "u@x");
      d' == RunScript(Store(), WorkloadDelete("acme", "u", "u@x")) && ("u@x", "u") in d'.index && "u" !in d'.users
  {
  }

  lemma IndexBroken(d: Directory)
    requires ("u@x", "u") in d.index && "u" !in d.users
    ensures !DirectoryInv(d)
  {
    assert ("u@x", "u").1 !in d.users;
  }

  function Deletion(): Script
  {
    WorkloadDelete("acme", "u", "u@x")
  }

  function Lone(d: Directory): Sys
  {
    Sys(d, map[], map[], map[], {})
  }

  /** One script, run alone. */
  lemma ScriptRuns(d: Directory, script: Script)
    requires Init(Lone(d)) && !CreatesGroup(script)
    ensures IsRun([Lone(d), Lone(RunScript(d, script))], [Run(script)])
  {
    var states, actions := [Lone(d), Lone(RunScript(d, script))], [Run(script)];
    assert Step(states[0], actions[0], states[1]);
  }

  /** In some run one workload account deletion ends the agreement of the directory. */
  lemma WorkloadDeletionFallsShort() returns (states: seq<Sys>, actions: seq<Action>)
    ensures IsRun(states, actions) && actions == [Run(WorkloadDelete("acme", "u", "u@x"))]
    ensures DirectoryInv(states[0].d) && MembershipsAgree(states[0].d) && !DirectoryInv(states[1].d)
  {
    StoreInit();
    ScriptRuns(Store(), Deletion());
    WorkloadLeaves();
    IndexBroken(RunScript(Store(), Deletion()));
    states, actions := [Lone(Store()), Lone(RunScript(Store(), Deletion()))], [Run(Deletion())];
  }

  // ----- A group creation that loses a reply -----

  function Quiet(d: Directory, pending: map<string, Group>, finished: map<string, Group>, used: set<string>): Sys
  {
    Sys(d, map[], pending, finished, used)
  }

  predicate NewTeam(d: Directory, used: set<string>, id: string, group: Group)
  {
    ValidGroup(group) && group.version == 1 && group.active && Fold(group.name) !in d.names && id !in used
  }

  /** A script while no transaction runs. */
  lemma QuietStep(s: Sys, script: Script, s': Sys)
    requires ScriptStep(s, script, s') && s.clients == map[] && s'.clients == map[]
    ensures Steps()(s, Run(script), s')
  {
  }

  lemma CreateKeeps(d: Directory, id: string, group: Group, used: set<string>)
    requires Init(Quiet(d, map[], map[], used)) && NewTeam(d, used, id, group)
    ensures DirectoryInv(RunCreate(d, id, group))
  {
    ReserveKeepsNames(d.groups, d.names, d.order, id, Fold(group.name));
    ReserveKeepsPending(d.groups, d.names, map[], used, id, group);
    FinishOwned(RunReserve(d, id, group), id, map[id := group], used + {id});
  }

  /** The two commands of a creation. */
  lemma Creates(d: Directory, used: set<string>, id: string, group: Group) returns (mid: Sys, e: Directory)
    requires NewTeam(d, used, id, group)
    ensures Steps()(Quiet(d, map[], map[], used), Run(ReserveGroup(id, group)), mid)
    ensures Steps()(mid, Run(FinishGroup(id)), Quiet(e, map[], map[id := group], used + {id}))
    ensures e.groups == d.groups[id := group] && e.names == d.names[Fold(group.name) := id]
    ensures Init(Quiet(d, map[], map[], used)) ==> DirectoryInv(e)
  {
    mid, e := Quiet(RunReserve(d, id, group), map[id := group], map[], used + {id}), RunCreate(d, id, group);
    QuietStep(Quiet(d, map[], map[], used), ReserveGroup(id, group), mid);
    QuietStep(mid, FinishGroup(id), Quiet(e, map[], map[id := group], used + {id}));
    if Init(Quiet(d, map[], map[], used)) {
      CreateKeeps(d, id, group, used);
    }
  }

  /** The DEL of a creation that missed the reply. */
  lemma Drops(d: Directory, used: set<string>, id: string, group: Group) returns (e: Directory)
    requires DirectoryInv(d) && Fold(group.name) in d.names && d.names[Fold(group.name)] in d.groups
    ensures Steps()(Quiet(d, map[], map[id := group], used), Run(DropName(id)), Quiet(e, map[], map[], used))
    ensures e.groups == d.groups && Fold(group.name) !in e.names && !DirectoryInv(e)
  {
    e := RunAbort(d, group);
    QuietStep(Quiet(d, map[], map[id := group], used), DropName(id), Quiet(e, map[], map[], used));
    DropNameKeeps(d, group);
  }

  /** A creation that misses the reply gives up its name; the name is then free for another. */
  lemma CreatedAndFreed(d: Directory, used: set<string>, id: string, other: string, group: Group)
    returns (s1: Sys, s2: Sys, freed: Directory)
    requires Init(Quiet(d, map[], map[], used)) && NewTeam(d, used, id, group) && NewTeam(d, used, other, group) && id != other
    ensures Steps()(Quiet(d, map[], map[], used), Run(ReserveGroup(id, group)), s1) && Steps()(s1, Run(FinishGroup(id)), s2)
    ensures Steps()(s2, Run(DropName(id)), Quiet(freed, map[], map[], used + {id})) && DirectoryInv(s2.d) && !DirectoryInv(freed)
    ensures NewTeam(freed, used + {id}, other, group) && freed.groups == d.groups[id := group]
  {
    var made: Directory;
    s1, made := Creates(d, used, id, group);
    freed := Drops(made, used + {id}, id, group);
    s2 := Quiet(made, map[], map[id := group], used + {id});
  }

  /** Five steps make a path, whatever they are. */
  lemma FivePath(R: (Sys, Action, Sys) -> bool, s0: Sys, a0: Action, s1: Sys, a1: Action, s2: Sys, a2: Action, s3: Sys,
                 a3: Action, s4: Sys, a4: Action, s5: Sys) returns (states: seq<Sys>, actions: seq<Action>)
    requires R(s0, a0, s1) && R(s1, a1, s2) && R(s2, a2, s3) && R(s3, a3, s4) && R(s4, a4, s5)
    ensures Path(R, states, actions) && |states| == 6 && states[0] == s0 && actions[2] == a2 && states[2..] == [s2, s3, states[4], s5]
  {
    states, actions := [s0, s1, s2, s3, s4, s5], [a0, a1, a2, a3, a4];
  }

  /** The states and actions of a creation that loses its reply, and of a second one under the same name. */
  lemma LostReplyPath(d: Directory, used: set<string>, id: string, other: string, group: Group)
    returns (states: seq<Sys>, actions: seq<Action>, created: Sys, freed: Sys, twice: Sys)
    requires Init(Quiet(d, map[], map[], used)) && NewTeam(d, used, id, group) && NewTeam(d, used, other, group) && id != other
    ensures Path(Steps(), states, actions) && |states| == 6 && states[0] == Quiet(d, map[], map[], used)
    ensures actions[2] == Run(DropName(id)) && states[2..] == [created, freed, states[4], twice]
    ensures DirectoryInv(created.d) && !DirectoryInv(freed.d)
    ensures id in twice.d.groups && other in twice.d.groups && twice.d.groups[id] == twice.d.groups[other] == group
  {
    var s1, e, s4, f;
    s1, created, e := CreatedAndFreed(d, used, id, other, group);
    s4, f := Creates(e, used + {id}, other, group);
    freed, twice := Quiet(e, map[], map[], used + {id}), Quiet(f, map[], map[other := group], used + {id} + {other});
    states, actions := FivePath(Steps(), Quiet(d, map[], map[], used), Run(ReserveGroup(id, group)), s1, Run(FinishGroup(id)), created,
                                Run(DropName(id)), freed, Run(ReserveGroup(other, group)), s4, Run(FinishGroup(other)), twice);
  }

  /**
   From every agreeing store some run goes on in which a lost reply ends the agreement, and a second creation of the same
   name makes two groups of one name.
   */
  lemma LostReplyFallsShort(d: Directory, used: set<string>, id: string, other: string, group: Group)
    returns (states: seq<Sys>, actions: seq<Action>, created: Sys, freed: Sys, twice: Sys)
    requires Init(Quiet(d, map[], map[], used)) && NewTeam(d, used, id, group) && NewTeam(d, used, other, group) && id != other
    ensures IsRun(states, actions) && |states| == 6 && actions[2] == Run(DropName(id)) && states[2..] == [created, freed, states[4], twice]
    ensures DirectoryInv(created.d) && !DirectoryInv(freed.d)
    ensures id in twice.d.groups && other in twice.d.groups && twice.d.groups[id] == twice.d.groups[other] == group
  {
    states, actions, created, freed, twice := LostReplyPath(d, used, id, other, group);
    PathIsRun(states, actions);
  }
}
