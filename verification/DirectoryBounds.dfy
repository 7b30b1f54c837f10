/** No group ever outgrows the bound that its readers enforce. */
module DirectoryBounds {
  import opened Prelude
  import opened DirectoryState
  import opened DirectoryTransactions
  import opened DirectoryAtomic
  import opened DirectoryRuns
  import opened DirectoryHistory
  import opened DirectoryVersions

  ghost predicate Bounded(d: Directory)
  {
    forall g :: |MembersOf(d, g)| <= MAXIMUM_RELATIONSHIPS
  }

  lemma MembersIn(d: Directory, g: string, u: string)
    ensures u in MembersOf(d, g) <==> (g, u) in d.members
  {
  }

  lemma FewerMembers(d: Directory, d': Directory, g: string)
    requires d'.members <= d.members
    ensures |MembersOf(d', g)| <= |MembersOf(d, g)|
  {
    var few, many := MembersOf(d', g), MembersOf(d, g);
    assert few <= many;
    assert many == few + (many - few);
  }

  lemma FewerBounded(d: Directory, d': Directory)
    requires Bounded(d) && d'.members <= d.members
    ensures Bounded(d')
  {
    forall g
      ensures |MembersOf(d', g)| <= MAXIMUM_RELATIONSHIPS
    {
      FewerMembers(d, d', g);
    }
  }

  lemma OneMoreMember(d: Directory, d': Directory, group: string, member: string, g: string)
    requires d'.members == d.members + {(group, member)} && (group, member) !in d.members
    ensures |MembersOf(d', g)| == |MembersOf(d, g)| + if g == group then 1 else 0
  {
    forall u
      ensures u in MembersOf(d', g) <==> u in MembersOf(d, g) + (if g == group then {member} else {})
    {
      MembersIn(d, g, u);
      MembersIn(d', g, u);
    }
    MembersIn(d, group, member);
    assert MembersOf(d', g) == MembersOf(d, g) + (if g == group then {member} else {});
  }

  lemma MemberChangeBounded(d: Directory, group: string, member: string, after: Group, add: bool)
    requires Bounded(d) && MemberFits(d, group, member, after, add)
    ensures Bounded(WithMember(d, group, member, after, add))
  {
    var d' := WithMember(d, group, member, after, add);
    if add {
      forall g
        ensures |MembersOf(d', g)| <= MAXIMUM_RELATIONSHIPS
      {
        OneMoreMember(d, d', group, member, g);
      }
    } else {
      FewerBounded(d, d');
    }
  }

  lemma ErasureShrinks(d: Directory, plan: Plan)
    requires plan.EraseGroup? || plan.EraseUser? || plan.EraseByEmail?
    ensures Apply(d, plan).members <= d.members
  {
    if plan.EraseGroup? {
      assert Apply(d, plan).members == Del(d.members, plan.group);
    } else if plan.EraseUser? {
      assert Apply(d, plan).members == RemoveEach(d.members, plan.deletion.bumped.Keys, plan.id);
    } else {
      assert Apply(d, plan).members == RemoveEach(d.members, plan.bumped.Keys, plan.id);
    }
  }

  lemma PlanBounded(d: Directory, plan: Plan)
    requires Bounded(d) && Fits(d, plan)
    ensures Bounded(Apply(d, plan))
  {
    if plan.WriteMember? {
      MemberChangeBounded(d, plan.group, plan.member, plan.after, plan.add);
    } else if plan.EraseGroup? || plan.EraseUser? || plan.EraseByEmail? {
      ErasureShrinks(d, plan);
      FewerBounded(d, Apply(d, plan));
    } else {
      if !plan.WriteGroup? {
        OtherPlansSpareGroups(d, plan);
      }
      FewerBounded(d, Apply(d, plan));
    }
  }

  lemma StepBounded(s: Sys, a: Action, s': Sys)
    requires Bounded(s.d) && ClientsInv(s) && Step(s, a, s')
    ensures Bounded(s'.d)
  {
    if a.Commit? {
      CommitFits(s, a.client);
      PlanBounded(s.d, s.clients[a.client].point.plan);
    } else if a.Run? {
      if !CreatesGroup(a.script) {
        ScriptSparesGroups(s.d, a.script);
      }
      FewerBounded(s.d, s'.d);
    }
  }

  /** Under any interleaving of member additions no group exceeds 500 members, so no reader fails for that reason. */
  lemma {:induction false} GroupsStayBounded(states: seq<Sys>, actions: seq<Action>, i: nat)
    requires IsRun(states, actions) && Bounded(states[0].d) && i < |states|
    ensures Bounded(states[i].d)
  {
    if i > 0 {
      GroupsStayBounded(states, actions, i - 1);
      RunKeepsClients(states, actions, i - 1);
      StepBounded(states[i - 1], actions[i - 1], states[i]);
    }
  }
}
