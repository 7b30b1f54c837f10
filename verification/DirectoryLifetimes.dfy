/** What versions mean between the creation and the removal of one record, and the life of a v2 membership. */
module DirectoryLifetimes {
  import opened Prelude
  import opened DirectoryState
  import opened DirectoryTransactions
  import opened DirectoryAtomic
  import opened DirectoryErasure
  import opened DirectoryRuns
  import opened DirectoryHistory
  import opened DirectoryVersions
  import opened DirectoryConditions

  // ----- One step of one user record, one assignment -----

  /** A record that survives a step is the same, or has the next revision. */
  predicate UserMoves(users: map<string, User>, users': map<string, User>, id: string)
  {
    id in users && id in users' && users'[id] != users[id] ==> users'[id].revision == users[id].revision + 1
  }

  predicate AssignmentMoves(a: map<(string, Principal), Assignment>, a': map<(string, Principal), Assignment>, k: (string, Principal))
  {
    k in a && k in a' && a'[k] != a[k] ==> a'[k].version == a[k].version + 1
  }

  lemma PlanMovesUser(d: Directory, plan: Plan, id: string)
    requires Fits(d, plan)
    ensures UserMoves(d.users, Apply(d, plan).users, id)
  {
    var d' := Apply(d, plan);
    if plan.WriteUser? || plan.WriteImport? {
      assert d'.users == d.users[plan.id := plan.user];
    } else if plan.EraseUser? {
      assert d'.users == if plan.deletion.fed then d.users else d.users - {plan.id};
    } else if plan.EraseByEmail? {
      assert d'.users == d.users - {plan.id};
    } else if !plan.WriteSecret? {
      assert d'.users == d.users;
    }
  }

  lemma PlanMovesAssignment(d: Directory, plan: Plan, k: (string, Principal))
    requires Fits(d, plan)
    ensures AssignmentMoves(d.assignments, Apply(d, plan).assignments, k)
  {
    if plan.EraseUser? {
      assert Apply(d, plan).assignments == HDelEach(d.assignments, plan.deletion.tenants, UserPrincipal(plan.id));
    } else if plan.EraseByEmail? {
      assert Apply(d, plan).assignments == HDelEach(d.assignments, plan.tenants, UserPrincipal(plan.id));
    } else if plan.EraseGroup? {
      assert Apply(d, plan).assignments == HDelEach(d.assignments, plan.tenants, GroupPrincipal(plan.group));
    } else if !plan.WriteAssignment? && !plan.EraseAssignment? {
      assert Apply(d, plan).assignments == d.assignments;
    }
  }

  lemma ScriptMoves(d: Directory, script: Script, id: string)
    ensures UserMoves(d.users, RunScript(d, script).users, id)
    ensures RunScript(d, script).assignments == d.assignments
  {
  }

  lemma ScriptMovesRecords(s: Sys, script: Script, s': Sys, id: string)
    requires ScriptStep(s, script, s')
    ensures UserMoves(s.d.users, s'.d.users, id) && s'.d.assignments == s.d.assignments
  {
    if !CreatesGroup(script) {
      ScriptMoves(s.d, script, id);
    }
  }

  lemma CommitMovesRecords(s: Sys, c: int, id: string, k: (string, Principal))
    requires ClientsInv(s) && c in s.clients && s.clients[c].point.Ready? && !s.clients[c].dirty
    ensures
      var d' := Apply(s.d, s.clients[c].point.plan);
      UserMoves(s.d.users, d'.users, id) && AssignmentMoves(s.d.assignments, d'.assignments, k)
  {
    CommitFits(s, c);
    PlanMovesUser(s.d, s.clients[c].point.plan, id);
    PlanMovesAssignment(s.d, s.clients[c].point.plan, k);
  }

  /** Holds in every run, workload deletions included. */
  lemma StepMovesRecords(s: Sys, a: Action, s': Sys, id: string, k: (string, Principal))
    requires ClientsInv(s) && Step(s, a, s')
    ensures UserMoves(s.d.users, s'.d.users, id) && AssignmentMoves(s.d.assignments, s'.d.assignments, k)
  {
    if a.Commit? {
      CommitMovesRecords(s, a.client, id, k);
    } else if a.Run? {
      ScriptMovesRecords(s, a.script, s', id);
    }
  }

  lemma RunMovesRecords(states: seq<Sys>, actions: seq<Action>, i: nat, id: string, k: (string, Principal))
    requires IsRun(states, actions) && i < |actions|
    ensures UserMoves(states[i].d.users, states[i + 1].d.users, id)
    ensures AssignmentMoves(states[i].d.assignments, states[i + 1].d.assignments, k)
  {
    RunKeepsClients(states, actions, i);
    StepMovesRecords(states[i], actions[i], states[i + 1], id, k);
  }

  // ----- Lifetimes -----

  /** The user is stored in every state from `i` to `j`. */
  ghost predicate Lives(states: seq<Sys>, i: nat, j: nat, id: string)
    requires i <= j < |states|
  {
    forall k :: i <= k <= j ==> id in states[k].d.users
  }

  lemma {:induction false} UserChain(states: seq<Sys>, i: nat, j: nat, id: string)
    requires i <= j < |states| && Lives(states, i, j, id)
    requires forall k :: i <= k < j ==> UserMoves(states[k].d.users, states[k + 1].d.users, id)
    ensures var u, v := states[i].d.users[id], states[j].d.users[id]; Rises(u.revision, u, v.revision, v)
    decreases j
  {
    if i < j {
      UserChain(states, i, j - 1, id);
      assert UserMoves(states[j - 1].d.users, states[j - 1 + 1].d.users, id);
    }
  }

  /** Within one lifetime the revision of a user determines the whole record. */
  lemma RevisionDetermines(states: seq<Sys>, actions: seq<Action>, i: nat, j: nat, id: string)
    requires IsRun(states, actions) && i <= j < |states| && Lives(states, i, j, id)
    ensures var u, v := states[i].d.users[id], states[j].d.users[id]; Rises(u.revision, u, v.revision, v)
  {
    forall k | i <= k < j
      ensures UserMoves(states[k].d.users, states[k + 1].d.users, id)
    {
      RunMovesRecords(states, actions, k, id, ("", UserPrincipal(id)));
    }
    UserChain(states, i, j, id);
  }

  lemma {:induction false} AssignmentChain(states: seq<Sys>, i: nat, j: nat, a: (string, Principal))
    requires i <= j < |states|
    requires forall k :: i <= k <= j ==> a in states[k].d.assignments
    requires forall k :: i <= k < j ==> AssignmentMoves(states[k].d.assignments, states[k + 1].d.assignments, a)
    ensures var x, y := states[i].d.assignments[a], states[j].d.assignments[a]; Rises(x.version, x, y.version, y)
    decreases j
  {
    if i < j {
      AssignmentChain(states, i, j - 1, a);
      assert AssignmentMoves(states[j - 1].d.assignments, states[j - 1 + 1].d.assignments, a);
    }
  }

  /** Within one lifetime the version of an assignment determines its roles. */
  lemma AssignmentVersionDetermines(states: seq<Sys>, actions: seq<Action>, i: nat, j: nat, a: (string, Principal))
    requires IsRun(states, actions) && i <= j < |states|
    requires forall k :: i <= k <= j ==> a in states[k].d.assignments
    ensures var x, y := states[i].d.assignments[a], states[j].d.assignments[a]; Rises(x.version, x, y.version, y)
  {
    forall k | i <= k < j
      ensures AssignmentMoves(states[k].d.assignments, states[k + 1].d.assignments, a)
    {
      RunMovesRecords(states, actions, k, "", a);
    }
    AssignmentChain(states, i, j, a);
  }

  // ----- Token versions -----

  /**
   The caller of the update `op` had read the record in state `m`, in this lifetime, and asks to save it under the token
   version it read plus `raise`: one for a status write or an increment, none for any other update.
   */
  ghost predicate Read(states: seq<Sys>, m: nat, k: nat, op: Op, raise: nat)
    requires op.UpdateUser?
  {
    && m <= k < |states| && Lives(states, m, k, op.id)
    && var read := states[m].d.users[op.id]; op.user.revision == read.revision && op.user.tokenVersion == read.tokenVersion + raise
  }

  /** The `k`-th action is an EXEC that writes the record of `id`. */
  ghost predicate Writes(states: seq<Sys>, actions: seq<Action>, k: nat, id: string)
    requires k < |actions| < |states|
  {
    && actions[k].Commit? && actions[k].client in states[k].clients
    && var p := states[k].clients[actions[k].client].point;
       p.Ready? && (p.plan.WriteUser? || p.plan.WriteSecret?) && p.plan.id == id
  }

  ghost function Writer(states: seq<Sys>, actions: seq<Action>, k: nat, id: string): Op
    requires k < |actions| < |states| && Writes(states, actions, k, id)
  {
    states[k].clients[actions[k].client].op
  }

  /** It is a consumption of a temporary password, or an update that raises the token version its caller read. */
  ghost predicate Increments(states: seq<Sys>, actions: seq<Action>, k: nat, id: string)
    requires k < |actions| < |states|
  {
    && Writes(states, actions, k, id)
    && var op := Writer(states, actions, k, id);
       op.ConsumePassword? || (op.UpdateUser? && exists m :: Read(states, m, k, op, 1))
  }

  /** Callers save what they read: the token version as it was, or the next one. */
  ghost predicate CarriesOrRaises(states: seq<Sys>, actions: seq<Action>, k: nat, id: string)
    requires k < |actions| < |states|
  {
    Writes(states, actions, k, id) ==>
      var op := Writer(states, actions, k, id);
      op.UpdateUser? ==> exists m, raise :: Read(states, m, k, op, raise) && raise <= 1
  }

  lemma PlanWritesUser(d: Directory, plan: Plan, id: string)
    requires Fits(d, plan) && id in d.users && id in Apply(d, plan).users
    ensures
      Apply(d, plan).users[id] == if (plan.WriteUser? || plan.WriteSecret?) && plan.id == id then plan.user else d.users[id]
  {
    var d' := Apply(d, plan);
    if plan.WriteUser? || plan.WriteImport? {
      assert d'.users == d.users[plan.id := plan.user];
    } else if plan.EraseUser? {
      assert d'.users == if plan.deletion.fed then d.users else d.users - {plan.id};
    } else if plan.EraseByEmail? {
      assert d'.users == d.users - {plan.id};
    } else if !plan.WriteSecret? {
      assert d'.users == d.users;
    }
  }

  lemma ScriptSameUser(s: Sys, script: Script, s': Sys, id: string)
    requires ScriptStep(s, script, s') && id in s.d.users && id in s'.d.users
    ensures s'.d.users[id] == s.d.users[id]
  {
  }

  /** What an update read is what it replaces: the store's record has not moved since. */
  lemma ReadIsCurrent(states: seq<Sys>, actions: seq<Action>, m: nat, k: nat, op: Op, raise: nat)
    requires IsRun(states, actions) && op.UpdateUser? && Read(states, m, k, op, raise)
    requires states[k].d.users[op.id].revision == op.user.revision
    ensures op.user.tokenVersion == states[k].d.users[op.id].tokenVersion + raise
  {
    RevisionDetermines(states, actions, m, k, op.id);
  }

  lemma UpdateCounts(states: seq<Sys>, actions: seq<Action>, k: nat, id: string)
    requires IsRun(states, actions) && k < |actions| && Writes(states, actions, k, id) && id in states[k].d.users
    requires Writer(states, actions, k, id).UpdateUser? && Writer(states, actions, k, id).id == id
    requires Writer(states, actions, k, id).user.revision == states[k].d.users[id].revision
    requires CarriesOrRaises(states, actions, k, id)
    ensures
      Writer(states, actions, k, id).user.tokenVersion ==
        states[k].d.users[id].tokenVersion + if Increments(states, actions, k, id) then 1 else 0
  {
    var op := Writer(states, actions, k, id);
    var m, raise :| Read(states, m, k, op, raise) && raise <= 1;
    ReadIsCurrent(states, actions, m, k, op, raise);
    if Increments(states, actions, k, id) {
      var n :| Read(states, n, k, op, 1);
      ReadIsCurrent(states, actions, n, k, op, 1);
    }
  }

  /** What the `k`-th action does to the record and its two counters. */
  ghost predicate Counts(states: seq<Sys>, actions: seq<Action>, k: nat, id: string)
    requires k < |actions| < |states|
  {
    && id in states[k].d.users && id in states[k + 1].d.users
    && var u, v := states[k].d.users[id], states[k + 1].d.users[id];
       && v.tokenVersion == u.tokenVersion + (if Increments(states, actions, k, id) then 1 else 0)
       && v.revision == u.revision + (if Writes(states, actions, k, id) then 1 else 0)
       && (!Writes(states, actions, k, id) ==> v == u)
  }

  lemma CommitCounts(states: seq<Sys>, actions: seq<Action>, k: nat, id: string)
    requires IsRun(states, actions) && k < |actions| && actions[k].Commit? && CarriesOrRaises(states, actions, k, id)
    requires id in states[k].d.users && id in states[k + 1].d.users
    ensures Counts(states, actions, k, id)
  {
    var c := actions[k].client;
    CommitHonours(states, actions, k, c);
    assert Step(states[k], actions[k], states[k + 1]);
    var d, plan := states[k].d, states[k].clients[c].point.plan;
    PlanWritesUser(d, plan, id);
    if plan.WriteUser? && plan.id == id {
      UpdateCounts(states, actions, k, id);
    }
  }

  lemma ActionCounts(states: seq<Sys>, actions: seq<Action>, k: nat, id: string)
    requires IsRun(states, actions) && k < |actions| && CarriesOrRaises(states, actions, k, id)
    requires id in states[k].d.users && id in states[k + 1].d.users
    ensures Counts(states, actions, k, id)
  {
    assert Step(states[k], actions[k], states[k + 1]);
    if actions[k].Commit? {
      CommitCounts(states, actions, k, id);
    } else if actions[k].Run? {
      ScriptSameUser(states[k], actions[k].script, states[k + 1], id);
    }
  }

  /** How many of the actions from `i` to `j` have the property. */
  function Count(P: nat -> bool, i: nat, j: nat): nat
    requires i <= j
    decreases j
  {
    if i == j then 0 else Count(P, i, j - 1) + if P(j - 1) then 1 else 0
  }

  ghost function Incrementing(states: seq<Sys>, actions: seq<Action>, id: string): nat -> bool
    requires |actions| < |states|
  {
    (k: nat) => k < |actions| && Increments(states, actions, k, id)
  }

  ghost function Writing(states: seq<Sys>, actions: seq<Action>, id: string): nat -> bool
    requires |actions| < |states|
  {
    (k: nat) => k < |actions| && Writes(states, actions, k, id)
  }

  lemma {:induction false} CountsUp(states: seq<Sys>, actions: seq<Action>, i: nat, j: nat, id: string)
    requires i <= j <= |actions| < |states| && Lives(states, i, j, id)
    requires forall k :: i <= k < j ==> Counts(states, actions, k, id)
    ensures
      var u, v := states[i].d.users[id], states[j].d.users[id];
      && v.tokenVersion == u.tokenVersion + Count(Incrementing(states, actions, id), i, j)
      && v.revision == u.revision + Count(Writing(states, actions, id), i, j)
    decreases j
  {
    if i < j {
      CountsUp(states, actions, i, j - 1, id);
      assert Counts(states, actions, j - 1, id);
    }
  }

  /**
   Between two states of one lifetime the revision rises by exactly the number of committed writes, and the token version
   by exactly the number of committed increments, status writes and temporary-password consumptions, however these
   interleave with each other and with updates that carry the token version over.
   */
  lemma TokenVersionCounts(states: seq<Sys>, actions: seq<Action>, i: nat, j: nat, id: string)
    requires IsRun(states, actions) && i <= j < |states| && Lives(states, i, j, id)
    requires forall k :: i <= k < j ==> CarriesOrRaises(states, actions, k, id)
    ensures
      var u, v := states[i].d.users[id], states[j].d.users[id];
      && v.tokenVersion == u.tokenVersion + Count(Incrementing(states, actions, id), i, j)
      && v.revision == u.revision + Count(Writing(states, actions, id), i, j)
  {
    forall k | i <= k < j
      ensures Counts(states, actions, k, id)
    {
      ActionCounts(states, actions, k, id);
    }
    CountsUp(states, actions, i, j, id);
  }
}
