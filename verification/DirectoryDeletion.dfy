/** Deleting a user, over whole runs: what a committed deletion does and what one that stops leaves alone. */
module DirectoryDeletion {
  import opened Prelude
  import opened DirectoryState
  import opened DirectoryTransactions
  import opened DirectoryAtomic
  import opened DirectoryErasure
  import opened DirectoryRuns
  import opened DirectoryHistory
  import opened Memberships

  /** The client's transaction commits the erasure of a user at this step of the run. */
  ghost predicate Erases(states: seq<Sys>, actions: seq<Action>, i: nat, c: int)
    requires IsRun(states, actions)
  {
    && i < |actions| && actions[i] == Commit(c) && c in states[i].clients
    && states[i].clients[c].point.Ready? && states[i].clients[c].point.plan.EraseUser?
  }

  lemma ErasureFits(states: seq<Sys>, actions: seq<Action>, i: nat, c: int)
    requires IsRun(states, actions) && Erases(states, actions, i, c)
    ensures
      var op, plan := states[i].clients[c].op, states[i].clients[c].point.plan;
      && op.DeleteUser? && op.id == plan.id && DeletionAllowed(states[i].d, op)
      && Fits(states[i].d, plan) && states[i + 1].d == Apply(states[i].d, plan)
  {
    CommitIsAtomic(states, actions, i, c);
  }

  /**
   In every run in which nothing has broken the agreement before, a committed deletion was requested by a then active ADMIN for the
   version then stored, and leaves no trace of its subject.
   */
  lemma CommittedDeletionErases(states: seq<Sys>, actions: seq<Action>, i: nat, c: int)
    requires IsRun(states, actions) && Erases(states, actions, i, c) && Unbroken(states, actions, i)
    ensures
      var op := states[i].clients[c].op;
      op.DeleteUser? && DeletionAllowed(states[i].d, op) && Erased(states[i + 1].d, op.id)
  {
    ErasureFits(states, actions, i, c);
    DirectoryAlwaysAgrees(states, actions, i);
    MembershipsAlwaysAgree(states, actions, i);
    var plan := states[i].clients[c].point.plan;
    DeletionErases(states[i].d, plan.id, plan.deletion);
  }

  /** It raises the versions of exactly the subject's groups by one and changes nobody else's effective roles. */
  lemma CommittedDeletionSpares(states: seq<Sys>, actions: seq<Action>, i: nat, c: int, trust: ForeignTrust, user: string,
                                tenant: string, role: string)
    requires IsRun(states, actions) && Erases(states, actions, i, c) && Unbroken(states, actions, i)
    ensures
      var d, d', id := states[i].d, states[i + 1].d, states[i].clients[c].point.plan.id;
      && d'.groups.Keys == d.groups.Keys
      && (forall g :: g in d.groups ==> d'.groups[g] == if (g, id) in d.members then Bump(d.groups[g]) else d.groups[g])
      && (user != id ==> (HasRole(d', trust, user, tenant, role) <==> HasRole(d, trust, user, tenant, role)))
  {
    ErasureFits(states, actions, i, c);
    DirectoryAlwaysAgrees(states, actions, i);
    var plan := states[i].clients[c].point.plan;
    DeletionBumps(states[i].d, plan.id, plan.deletion);
    if user != plan.id {
      DeletionKeepsAccess(states[i].d, plan.id, plan.deletion, trust, user, tenant, role);
    }
  }

  /** Until its EXEC succeeds a transaction changes nothing, however many checks it passed and wherever it stops. */
  lemma OnlyCommitsWrite(states: seq<Sys>, actions: seq<Action>, i: nat)
    requires IsRun(states, actions) && i < |actions| && !actions[i].Run?
    ensures states[i + 1].d != states[i].d ==> actions[i].Commit? && actions[i].client in states[i].clients &&
                                               states[i].clients[actions[i].client].point.Ready?
  {
    assert Step(states[i], actions[i], states[i + 1]);
  }

  // ----- A deletion that goes through -----

  function ExampleUser(email: string, role: PlatformRole): User
  {
    User(email, "hash", role, Active, None, 0, 0, false, "", false)
  }

  /** An administrator "a" and a user "b" without relations, after the backfill. */
  function Example(): Directory
  {
    Directory(
      map["a" := ExampleUser("a@x", Admin), "b" := ExampleUser("b@x", CompanyEmployee)],
      map[], map[], map["a@x" := "a", "b@x" := "b"], {("a@x", "a"), ("b@x", "b")},
      map[], map[], {}, {}, {}, map[], {}, map[], {}, map[], {}, map[], map[], Some(BACKFILL_VERSION))
  }

  function ExampleOp(): Op
  {
    DeleteUser("b", 1, Initiator("a", 0, 0, false))
  }

  function ExampleDeletion(): Deletion
  {
    NewDeletion(ExampleUser("b@x", CompanyEmployee), false).(ownsEmail := true)
  }

  lemma ExampleChecks()
    ensures RunN(ExampleOp(), Example(), 6) == Deleting(Relation(0), NewDeletion(ExampleUser("b@x", CompanyEmployee), false))
  {
    var op, d := ExampleOp(), Example();
    var a, b := ExampleUser("a@x", Admin), ExampleUser("b@x", CompanyEmployee);
    RunStep(op, d, 0);
    assert RunN(op, d, 1) == First;
    RunStep(op, d, 1);
    assert RunN(op, d, 2) == Actor(ActorFederated(Some(a)));
    RunStep(op, d, 2);
    assert RunN(op, d, 3) == Actor(ReadMarker);
    RunStep(op, d, 3);
    assert RunN(op, d, 4) == Actor(Target);
    RunStep(op, d, 4);
    assert RunN(op, d, 5) == Actor(TargetFederated(Some(b)));
    RunStep(op, d, 5);
  }

  function Untouched(): Deletion
  {
    NewDeletion(ExampleUser("b@x", CompanyEmployee), false)
  }

  lemma NoRelations()
    ensures
      var d := Example();
      GroupsOf(d, "b") == {} && TenantsOf(d, UserPrincipal("b")) == {} && LegacyTenantsOf(d, "b") == {} && V2TenantsOf(d, "b") == {}
  {
  }

  lemma RelationAdvances(number: nat)
    requires number <= 3
    ensures Advance(ExampleOp(), Deleting(Relation(number), Untouched()), Example()) ==
            Deleting(if number < 3 then Relation(number + 1) else WatchAliases, Untouched())
  {
    NoRelations();
  }

  lemma AliasAdvances()
    ensures Advance(ExampleOp(), Deleting(WatchAliases, Untouched()), Example()) == Deleting(AliasIndex, Untouched())
    ensures Advance(ExampleOp(), Deleting(AliasIndex, Untouched()), Example()) == Deleting(AliasEmail, Untouched())
    ensures Advance(ExampleOp(), Deleting(AliasEmail, Untouched()), Example()) == Deleting(AliasLegacy, ExampleDeletion())
  {
  }

  lemma LegacyAdvances()
    ensures Advance(ExampleOp(), Deleting(AliasLegacy, ExampleDeletion()), Example()) == Ready(EraseUser("b", ExampleDeletion()))
  {
    ExampleLoops();
  }

  /** One more command, when it is known where it leads. */
  lemma Follow(n: nat, p: Point, q: Point)
    requires RunN(ExampleOp(), Example(), n) == p && Advance(ExampleOp(), p, Example()) == q
    ensures RunN(ExampleOp(), Example(), n + 1) == q
  {
    RunStep(ExampleOp(), Example(), n);
  }

  lemma ExampleRelations()
    ensures RunN(ExampleOp(), Example(), 10) == Deleting(WatchAliases, Untouched())
  {
    ExampleChecks();
    RelationAdvances(0);
    RelationAdvances(1);
    RelationAdvances(2);
    RelationAdvances(3);
    Follow(6, Deleting(Relation(0), Untouched()), Deleting(Relation(1), Untouched()));
    Follow(7, Deleting(Relation(1), Untouched()), Deleting(Relation(2), Untouched()));
    Follow(8, Deleting(Relation(2), Untouched()), Deleting(Relation(3), Untouched()));
    Follow(9, Deleting(Relation(3), Untouched()), Deleting(WatchAliases, Untouched()));
  }

  lemma ExampleLoops()
    ensures Each("b", GroupLoop, ExampleDeletion()) == Ready(EraseUser("b", ExampleDeletion()))
  {
    var del := ExampleDeletion();
    assert Each("b", V2Loop, del) == Saml("b", del);
    assert Each("b", LegacyLoop, del) == Each("b", V2Loop, del.(todo := {}));
    assert Each("b", TenantLoop, del) == Each("b", LegacyLoop, del.(todo := {}));
  }

  lemma ExampleAliases()
    ensures RunN(ExampleOp(), Example(), 14) == Ready(EraseUser("b", ExampleDeletion()))
  {
    ExampleRelations();
    AliasAdvances();
    LegacyAdvances();
    Follow(10, Deleting(WatchAliases, Untouched()), Deleting(AliasIndex, Untouched()));
    Follow(11, Deleting(AliasIndex, Untouched()), Deleting(AliasEmail, Untouched()));
    Follow(12, Deleting(AliasEmail, Untouched()), Deleting(AliasLegacy, ExampleDeletion()));
    Follow(13, Deleting(AliasLegacy, ExampleDeletion()), Ready(EraseUser("b", ExampleDeletion())));
  }

  lemma ExampleInit()
    ensures Init(Sys(Example(), map[], map[], map[], {}))
  {
    var d := Example();
    assert UsersAgree(d.users, d.emails, d.index);
  }

  /** The theorems about committed deletions are not empty: there is a run in which one commits and erases its user. */
  lemma DeletionHappens() returns (states: seq<Sys>, actions: seq<Action>)
    ensures IsRun(states, actions) && |actions| > 0 && actions[|actions| - 1] == Commit(0)
    ensures "b" in states[0].d.users && "b" !in states[|actions|].d.users && "a" in states[|actions|].d.users
  {
    var plan := EraseUser("b", ExampleDeletion());
    ExampleInit();
    ExampleAliases();
    assert Commits(ExampleOp(), Example(), plan);
    states, actions := AtomicOutcomeIsReached(ExampleOp(), Example(), {}, plan);
    ExampleGone();
  }

  lemma ExampleGone()
    ensures "b" in Example().users
    ensures "b" !in Apply(Example(), EraseUser("b", ExampleDeletion())).users && "a" in Apply(Example(), EraseUser("b", ExampleDeletion())).users
  {
  }
}
