/** When a user deletion commits: on an agreeing store, exactly if it is authorised and a few guards on the store hold. */
module DeletionCommits {
  import opened Prelude
  import opened DirectoryState
  import opened DirectoryTransactions
  import opened DirectoryAtomic
  import opened DirectoryErasure
  import opened DirectoryRuns
  import opened DirectoryCommits

  // ----- The guards, on the store alone -----

  function Relations(d: Directory, id: string): nat
  {
    |GroupsOf(d, id)| + |TenantsOf(d, UserPrincipal(id))| + |LegacyTenantsOf(d, id)| + |V2TenantsOf(d, id)|
  }

  predicate LegacyConsistent(d: Directory, id: string, u: User)
  {
    u.email in d.legacyUsers && d.legacyUsers[u.email].id == id ==> d.legacyUsers[u.email].user.email == u.email
  }

  ghost predicate LegacyCanonical(d: Directory, id: string)
  {
    forall t :: t in LegacyTenantsOf(d, id) ==> CanonicalTenant(t)
  }

  predicate HomeActive(u: User)
  {
    u.company.Some? && ActiveTenant(u.company.value)
  }

  /** The alias of a SAML user is its own or absent. */
  predicate AliasFree(d: Directory, id: string, u: User)
    requires u.company.Some?
  {
    (u.company.value, u.subject) in d.aliases ==> d.aliases[(u.company.value, u.subject)] == id
  }

  /** A session entry of the user is its own or absent. */
  predicate SessionFree(d: Directory, id: string, home: string, key: SessionKey)
  {
    key in d.sessions ==> OwnedSession(key, d.sessions[key], home, id)
  }

  ghost predicate SamlConsistent(d: Directory, id: string, u: User)
  {
    && HomeActive(u) && AliasFree(d, id, u)
    && SessionFree(d, id, u.company.value, SubjectKey(u.company.value, id))
    && SessionFree(d, id, u.company.value, NameIdKey(u.company.value, NameIdOf(d, id, u)))
  }

  ghost predicate Deletable(d: Directory, id: string, u: User)
  {
    && Relations(d, id) <= MAXIMUM_RELATIONSHIPS && LegacyConsistent(d, id, u) && LegacyCanonical(d, id)
    && (u.saml ==> SamlConsistent(d, id, u))
  }

  /** The actor may delete, the version is current, and nothing stored about the user stands in the way. */
  ghost predicate DeletionCommits(d: Directory, op: Op)
    requires op.DeleteUser?
  {
    DeletionAllowed(d, op) && Deletable(d, op.id, StoredUser(d, op.id).value)
  }

  /** What a refusal says about the store. */
  ghost predicate DeletionErrorTrue(d: Directory, op: Op, e: Error)
    requires op.DeleteUser?
  {
    match e
    case DeletionDenied => !ActorAuthorised(d, op.actor)
    case MarkerMissing => d.marker.None?
    case VersionConflict => StoredUser(d, op.id).Some? && StoredUser(d, op.id).value.revision + 1 != op.version
    case Corrupt =>
      || (op.actor.id in d.users && op.actor.id in d.federated) || (op.id in d.users && op.id in d.federated)
      || (d.marker.Some? && d.marker.value != BACKFILL_VERSION)
      || (StoredUser(d, op.id).Some? && !Deletable(d, op.id, StoredUser(d, op.id).value))
    case _ => false
  }

  // ----- What a deletion has found out so far -----

  /** The guards behind the four loops. */
  ghost predicate LoopGuards(d: Directory, id: string, del: Deletion)
  {
    Relations(d, id) <= MAXIMUM_RELATIONSHIPS && LegacyConsistent(d, id, del.user)
  }

  /** What a loop still visits is part of its set; the legacy tenants already visited are canonical. */
  ghost predicate LoopEntered(d: Directory, id: string, loop: Loop, del: Deletion)
  {
    && RelationsRead(d, id, del) && LoopGuards(d, id, del)
    && match loop
       case GroupLoop => del.todo <= del.groups
       case TenantLoop => del.todo <= del.tenants
       case LegacyLoop => del.todo <= del.legacy && forall t :: t in del.legacy - del.todo ==> CanonicalTenant(t)
       case V2Loop => del.todo <= del.v2 && LegacyCanonical(d, id)
  }

  ghost predicate LoopTold(d: Directory, id: string, loop: Loop, del: Deletion)
  {
    && LoopEntered(d, id, loop, del) && del.todo != {}
    && (loop.LegacyLoop? || loop.V2Loop? ==> CanonicalTenant(Pick(del.todo)))
  }

  ghost predicate SamlTold(d: Directory, id: string, stage: Stage, del: Deletion)
  {
    && TargetFound(d, id, del.user, del.fed) && LoopGuards(d, id, del) && LegacyCanonical(d, id) && del.user.saml && HomeActive(del.user)
    && (!stage.WatchAlias? && !stage.CheckAlias? ==> AliasFree(d, id, del.user))
    && (stage.WatchNameId? || stage.CheckNameId? ==>
          && SessionFree(d, id, del.user.company.value, SubjectKey(del.user.company.value, id))
          && stage.nameId == NameIdOf(d, id, del.user))
  }

  ghost predicate StageTold(d: Directory, id: string, stage: Stage, del: Deletion)
  {
    match stage
    case Relation(number) =>
      && number <= 3 && TargetFound(d, id, del.user, del.fed)
      && (number >= 1 ==> del.groups == GroupsOf(d, id))
      && (number >= 2 ==> del.tenants == TenantsOf(d, UserPrincipal(id)))
      && (number >= 3 ==> del.legacy == LegacyTenantsOf(d, id))
    case WatchAliases => RelationsRead(d, id, del) && Relations(d, id) <= MAXIMUM_RELATIONSHIPS
    case AliasIndex => RelationsRead(d, id, del) && Relations(d, id) <= MAXIMUM_RELATIONSHIPS
    case AliasEmail => RelationsRead(d, id, del) && Relations(d, id) <= MAXIMUM_RELATIONSHIPS
    case AliasLegacy => RelationsRead(d, id, del) && Relations(d, id) <= MAXIMUM_RELATIONSHIPS
    case Watching(loop) => LoopTold(d, id, loop, del)
    case Reading(loop) => LoopTold(d, id, loop, del)
    case Rereading(loop, m) =>
      && LoopTold(d, id, loop, del) && (loop.GroupLoop? || loop.V2Loop?)
      && (loop.V2Loop? ==> m == Lookup(d.memberships2, (Pick(del.todo), id)))
    case _ => SamlTold(d, id, stage, del)
  }

  /** The `Faithful` part of the actor checks, and which of them a recovered master makes. */
  ghost predicate ActorTold(d: Directory, op: Op, check: ActorPoint)
    requires op.DeleteUser?
  {
    ActorChecked(d, op, check) && (check.ActorAssignment? || check.ActorReverse? ==> op.actor.recoveredMaster)
  }

  /** At the end of the body the store has decided. */
  ghost predicate Judged(d: Directory, op: Op, p: Point)
    requires op.DeleteUser?
  {
    match p
    case Start => true
    case First => true
    case Actor(check) => ActorTold(d, op, check)
    case Deleting(stage, del) => DeletionAllowed(d, op) && StageTold(d, op.id, stage, del)
    case Ready(plan) => if plan.EraseUser? then DeletionCommits(d, op) else plan == NoWrites && StoredUser(d, op.id).None?
    case Halted(e) => !DeletionCommits(d, op) && DeletionErrorTrue(d, op, e)
    case _ => false
  }

  // ----- The commands left -----

  function ActorLeft(check: ActorPoint): nat
  {
    match check
    case ActorFederated(_) => 6
    case ActorAssignment => 5
    case ActorReverse(_) => 4
    case ReadMarker => 3
    case Target => 2
    case TargetFederated(_) => 1
  }

  /** What the running loop and those after it have still to visit. */
  function ToVisit(loop: Loop, del: Deletion): nat
  {
    match loop
    case GroupLoop => |del.todo| + |del.tenants| + |del.legacy| + |del.v2|
    case TenantLoop => |del.todo| + |del.legacy| + |del.v2|
    case LegacyLoop => |del.todo| + |del.v2|
    case V2Loop => |del.todo|
  }

  function StageLeft(total: nat, stage: Stage, del: Deletion): nat
  {
    match stage
    case Relation(number) => if number <= 3 then 4 * total + 30 - number else 0
    case WatchAliases => 4 * total + 26
    case AliasIndex => 4 * total + 25
    case AliasEmail => 4 * total + 24
    case AliasLegacy => 4 * total + 23
    case Watching(loop) => 4 * ToVisit(loop, del) + 13
    case Reading(loop) => 4 * ToVisit(loop, del) + 12
    case Rereading(loop, _) => 4 * ToVisit(loop, del) + 11
    case WatchAlias => 6
    case CheckAlias => 5
    case WatchSubject => 4
    case CheckSubject => 3
    case WatchNameId(_) => 2
    case CheckNameId(_) => 1
  }

  ghost function DeletionLeft(d: Directory, op: Op, p: Point): nat
    requires op.DeleteUser?
  {
    var total := Relations(d, op.id);
    match p
    case Start => 4 * total + 50
    case First => 4 * total + 49
    case Actor(check) => 4 * total + 40 + ActorLeft(check)
    case Deleting(stage, del) => StageLeft(total, stage, del)
    case _ => 0
  }

  ghost predicate Judges(d: Directory, op: Op, p: Point, left: nat)
    requires op.DeleteUser?
  {
    Judged(d, op, p) && DeletionLeft(d, op, p) < left
  }

  /** Where one command of a deletion leads, as far as its subject is concerned. */
  ghost predicate StageJudged(d: Directory, id: string, u: User, p: Point, left: nat)
  {
    && (p.Deleting? || p.Ready? || p.Halted?)
    && (p.Deleting? ==> p.del.user == u && StageTold(d, id, p.stage, p.del) && StageLeft(Relations(d, id), p.stage, p.del) < left)
    && (p.Ready? ==> p.plan.EraseUser? && Deletable(d, id, u))
    && (p.Halted? ==> p.error == Corrupt && !Deletable(d, id, u))
  }

  // ----- Loops -----

  lemma TargetStored(d: Directory, op: Op, del: Deletion)
    requires op.DeleteUser? && TargetFound(d, op.id, del.user, del.fed)
    ensures StoredUser(d, op.id) == Some(del.user)
  {
  }

  lemma TenantActive(d: Directory, id: string, t: string)
    requires DirectoryInv(d) && t in TenantsOf(d, UserPrincipal(id))
    ensures ActiveTenant(t) && (t, UserPrincipal(id)) in d.assignments
  {
    assert (UserPrincipal(id), t) in d.tenants;
    assert (t, UserPrincipal(id)) in d.assignments;
    assert ValidAssignment((t, UserPrincipal(id)).0, d.assignments[(t, UserPrincipal(id))]);
  }

  lemma GroupStored(d: Directory, id: string, g: string)
    requires DirectoryInv(d) && g in GroupsOf(d, id)
    ensures (g, id) in d.members && g in d.groups
  {
    assert (id, g) in d.userGroups;
    assert (g, id) in d.members && (g, id).0 in d.groups.Keys;
  }

  lemma LegacyStored(d: Directory, id: string, t: string)
    requires MembershipsAgree(d) && t in LegacyTenantsOf(d, id)
    ensures (t, id) in d.memberships
  {
    assert (id, t) in d.membershipTenants;
  }

  lemma V2Stored(d: Directory, id: string, t: string)
    requires MembershipsAgree(d) && t in V2TenantsOf(d, id)
    ensures (t, id) in d.memberships2 && ValidV2(d.memberships2[(t, id)], t, id)
    ensures t in LegacyTenantsOf(d, id) && (t, id) in d.memberships && d.memberships[(t, id)] == d.memberships2[(t, id)]
  {
    assert (id, t) in d.membershipTenants2;
    assert (t, id) in d.memberships2;
    assert (id, t) in d.membershipTenants;
    assert (id, t).1 in LegacyTenantsOf(d, id);
  }

  lemma SamlEntered(d: Directory, id: string, del: Deletion)
    requires RelationsRead(d, id, del) && LoopGuards(d, id, del) && LegacyCanonical(d, id)
    ensures StageJudged(d, id, del.user, Saml(id, del), 7)
  {
  }

  /** What agreement of the store gives a deletion. */
  ghost predicate Listed(d: Directory, id: string)
  {
    && (id in d.users ==> d.users[id].email in d.emails && d.emails[d.users[id].email] == id)
    && (forall g :: g in GroupsOf(d, id) ==> (g, id) in d.members && g in d.groups)
    && (forall t :: t in TenantsOf(d, UserPrincipal(id)) ==> ActiveTenant(t) && (t, UserPrincipal(id)) in d.assignments)
    && (forall t :: t in LegacyTenantsOf(d, id) ==> (t, id) in d.memberships)
    && (forall t :: t in V2TenantsOf(d, id) ==> V2Listed(d, id, t))
  }

  predicate V2Listed(d: Directory, id: string, t: string)
  {
    && t in LegacyTenantsOf(d, id) && (t, id) in d.memberships2 && ValidV2(d.memberships2[(t, id)], t, id)
    && (t, id) in d.memberships && d.memberships[(t, id)] == d.memberships2[(t, id)]
  }

  lemma AgreeingLists(d: Directory, id: string)
    requires DirectoryInv(d) && MembershipsAgree(d)
    ensures Listed(d, id)
  {
    forall g | g in GroupsOf(d, id)
      ensures (g, id) in d.members && g in d.groups
    {
      GroupStored(d, id, g);
    }
    forall t | t in TenantsOf(d, UserPrincipal(id))
      ensures ActiveTenant(t) && (t, UserPrincipal(id)) in d.assignments
    {
      TenantActive(d, id, t);
    }
    forall t | t in LegacyTenantsOf(d, id)
      ensures (t, id) in d.memberships
    {
      LegacyStored(d, id, t);
    }
    forall t | t in V2TenantsOf(d, id)
      ensures V2Listed(d, id, t)
    {
      V2Stored(d, id, t);
    }
  }

  /** Entering a loop, or what comes after it. */
  lemma EachJudges(d: Directory, id: string, loop: Loop, del: Deletion)
    requires Listed(d, id) && LoopEntered(d, id, loop, del)
    ensures StageJudged(d, id, del.user, Each(id, loop, del), 4 * ToVisit(loop, del) + 14)
    decreases match loop case GroupLoop => 3 case TenantLoop => 2 case LegacyLoop => 1 case V2Loop => 0
  {
    if del.todo == {} {
      if loop.V2Loop? {
        SamlEntered(d, id, del);
      } else {
        NextEntered(d, id, loop, del);
        EachJudges(d, id, After(loop), Entering(loop, del));
      }
    } else {
      EachPicks(d, id, loop, del);
    }
  }

  function After(loop: Loop): Loop
  {
    match loop
    case GroupLoop => TenantLoop
    case TenantLoop => LegacyLoop
    case _ => V2Loop
  }

  function Entering(loop: Loop, del: Deletion): Deletion
  {
    del.(todo := match loop case GroupLoop => del.tenants case TenantLoop => del.legacy case _ => del.v2)
  }

  lemma NextEntered(d: Directory, id: string, loop: Loop, del: Deletion)
    requires LoopEntered(d, id, loop, del) && del.todo == {} && !loop.V2Loop?
    ensures LoopEntered(d, id, After(loop), Entering(loop, del)) && ToVisit(After(loop), Entering(loop, del)) == ToVisit(loop, del)
    ensures Each(id, loop, del) == Each(id, After(loop), Entering(loop, del))
  {
    if loop.LegacyLoop? {
      assert del.legacy - del.todo == del.legacy;
    }
  }

  lemma EachPicks(d: Directory, id: string, loop: Loop, del: Deletion)
    requires Listed(d, id) && LoopEntered(d, id, loop, del) && del.todo != {}
    ensures StageJudged(d, id, del.user, Each(id, loop, del), 4 * ToVisit(loop, del) + 14)
  {
    var t := Pick(del.todo);
    if (loop.LegacyLoop? || loop.V2Loop?) && !CanonicalTenant(t) {
      PickCanonical(d, id, loop, del);
    }
    PickOpens(id, loop, del);
  }

  lemma PickOpens(id: string, loop: Loop, del: Deletion)
    requires del.todo != {}
    ensures
      var t := Pick(del.todo);
      Each(id, loop, del) ==
      if (loop.TenantLoop? && !ActiveTenant(t)) || ((loop.LegacyLoop? || loop.V2Loop?) && !CanonicalTenant(t)) ||
         (loop.V2Loop? && t !in del.legacy)
      then Halted(Corrupt) else Deleting(Watching(loop), del)
  {
  }

  lemma PickCanonical(d: Directory, id: string, loop: Loop, del: Deletion)
    requires Listed(d, id) && LoopEntered(d, id, loop, del) && (loop.LegacyLoop? || loop.V2Loop?)
    requires del.todo != {} && !CanonicalTenant(Pick(del.todo))
    ensures !Deletable(d, id, del.user)
  {
    assert Pick(del.todo) in LegacyTenantsOf(d, id);
  }

  // ----- One command at a time -----

  ghost function AfterActor(d: Directory, op: Op, check: ActorPoint): Point
    requires op.DeleteUser?
  {
    ResumeActor(op, check, Answer(d, NextActor(op, check).query))
  }

  ghost function AfterStage(d: Directory, id: string, stage: Stage, del: Deletion): Point
  {
    var next := NextDeletion(id, stage, del);
    ResumeDeletion(id, stage, del, if next.Ask? then Answer(d, next.query) else Ack)
  }

  /** Only the stored user behind the actor's id can be the one who may delete. */
  lemma NobodyElse(d: Directory, actor: Initiator)
    requires actor.id in d.users && actor.id in d.federated
    ensures !ActorAuthorised(d, actor)
  {
  }

  lemma ActorIs(d: Directory, actor: Initiator, u: User)
    requires StoredUser(d, actor.id) == Some(u) && !(actor.id in d.users && actor.id in d.federated)
    ensures (exists v :: ActorStored(d, actor, v)) <==> ActorAllowed(actor, u) && (actor.recoveredMaster ==> MayRecover(u))
  {
    if ActorAllowed(actor, u) && (actor.recoveredMaster ==> MayRecover(u)) {
      assert ActorStored(d, actor, u);
    }
  }

  lemma ActorFoundJudges(d: Directory, op: Op, check: ActorPoint)
    requires op.DeleteUser? && ActorTold(d, op, check) && check.ActorFederated?
    ensures Judges(d, op, AfterActor(d, op, check), 4 * Relations(d, op.id) + 46)
  {
    var actor := op.actor;
    if StoredUser(d, actor.id).Some? && !(actor.id in d.users && actor.id in d.federated) {
      ActorIs(d, actor, StoredUser(d, actor.id).value);
    }
  }

  lemma ActorAssignmentJudges(d: Directory, op: Op, check: ActorPoint)
    requires op.DeleteUser? && ActorTold(d, op, check) && (check.ActorAssignment? || check.ActorReverse?)
    ensures Judges(d, op, AfterActor(d, op, check), 4 * Relations(d, op.id) + 40 + ActorLeft(check))
  {
  }

  lemma TargetJudges(d: Directory, op: Op, check: ActorPoint)
    requires op.DeleteUser? && op.actor.id != op.id && ActorTold(d, op, check) && (check.ReadMarker? || check.Target? || check.TargetFederated?)
    ensures Judges(d, op, AfterActor(d, op, check), 4 * Relations(d, op.id) + 40 + ActorLeft(check))
  {
  }

  lemma ActorRestJudges(d: Directory, op: Op, check: ActorPoint)
    requires op.DeleteUser? && op.actor.id != op.id && ActorTold(d, op, check) && !check.ActorFederated?
    ensures Judges(d, op, AfterActor(d, op, check), 4 * Relations(d, op.id) + 40 + ActorLeft(check))
  {
    if check.ActorAssignment? || check.ActorReverse? {
      ActorAssignmentJudges(d, op, check);
    } else {
      TargetJudges(d, op, check);
    }
  }

  function RelationSet(d: Directory, id: string, number: nat): set<string>
  {
    if number == 0 then GroupsOf(d, id) else if number == 1 then TenantsOf(d, UserPrincipal(id))
    else if number == 2 then LegacyTenantsOf(d, id) else V2TenantsOf(d, id)
  }

  lemma RelationReaches(d: Directory, id: string, number: nat, del: Deletion)
    requires number <= 3
    ensures AfterStage(d, id, Relation(number), del) == ResumeRelation(number, del, RelationSet(d, id, number))
  {
  }

  lemma RelationJudges(d: Directory, id: string, number: nat, del: Deletion)
    requires StageTold(d, id, Relation(number), del)
    ensures StageJudged(d, id, del.user, AfterStage(d, id, Relation(number), del), StageLeft(Relations(d, id), Relation(number), del))
  {
    RelationReaches(d, id, number, del);
    if number == 3 {
      LastRelationJudges(d, id, del);
    }
  }

  lemma LastRelationJudges(d: Directory, id: string, del: Deletion)
    requires StageTold(d, id, Relation(3), del)
    ensures
      var p := ResumeRelation(3, del, V2TenantsOf(d, id));
      StageJudged(d, id, del.user, p, StageLeft(Relations(d, id), Relation(3), del))
  {
  }

  lemma AliasJudges(d: Directory, id: string, stage: Stage, del: Deletion)
    requires Listed(d, id) && StageTold(d, id, stage, del)
    requires stage.WatchAliases? || stage.AliasIndex? || stage.AliasEmail?
    ensures StageJudged(d, id, del.user, AfterStage(d, id, stage, del), StageLeft(Relations(d, id), stage, del))
  {
  }

  lemma LegacyJudges(d: Directory, id: string, del: Deletion)
    requires Listed(d, id) && StageTold(d, id, AliasLegacy, del)
    ensures StageJudged(d, id, del.user, AfterStage(d, id, AliasLegacy, del), StageLeft(Relations(d, id), AliasLegacy, del))
  {
    if LegacyConsistent(d, id, del.user) {
      var owns := del.user.email in d.legacyUsers && d.legacyUsers[del.user.email].id == id;
      EachJudges(d, id, GroupLoop, del.(ownsLegacy := owns, todo := del.groups));
    }
  }

  lemma WatchingJudges(d: Directory, id: string, loop: Loop, del: Deletion)
    requires LoopTold(d, id, loop, del)
    ensures StageJudged(d, id, del.user, AfterStage(d, id, Watching(loop), del), StageLeft(Relations(d, id), Watching(loop), del))
  {
  }

  /** The element just visited leaves what is still to visit. */
  lemma VisitedEnters(d: Directory, id: string, loop: Loop, del: Deletion, bumped: map<string, Group>)
    requires LoopTold(d, id, loop, del)
    ensures LoopEntered(d, id, loop, Visited(del).(bumped := bumped))
    ensures ToVisit(loop, Visited(del).(bumped := bumped)) == ToVisit(loop, del) - 1
  {
    var t := Pick(del.todo);
    assert |del.todo - {t}| == |del.todo| - 1;
    if loop.LegacyLoop? {
      assert del.legacy - (del.todo - {t}) == (del.legacy - del.todo) + {t};
    }
  }

  lemma VisitJudges(d: Directory, id: string, loop: Loop, del: Deletion, bumped: map<string, Group>)
    requires Listed(d, id) && LoopTold(d, id, loop, del)
    ensures StageJudged(d, id, del.user, Each(id, loop, Visited(del).(bumped := bumped)), 4 * ToVisit(loop, del) + 10)
  {
    VisitedEnters(d, id, loop, del, bumped);
    EachJudges(d, id, loop, Visited(del).(bumped := bumped));
  }

  lemma VisitOnlyJudges(d: Directory, id: string, loop: Loop, del: Deletion)
    requires Listed(d, id) && LoopTold(d, id, loop, del)
    ensures StageJudged(d, id, del.user, Each(id, loop, Visited(del)), 4 * ToVisit(loop, del) + 10)
  {
    assert Visited(del).(bumped := del.bumped) == Visited(del);
    VisitJudges(d, id, loop, del, del.bumped);
  }

  /** What a loop reads about the element it visits. */
  predicate PickStored(d: Directory, id: string, loop: Loop, t: string)
  {
    match loop
    case GroupLoop => (t, id) in d.members && t in d.groups
    case TenantLoop => (t, UserPrincipal(id)) in d.assignments
    case LegacyLoop => (t, id) in d.memberships
    case V2Loop => V2Listed(d, id, t)
  }

  lemma PickListed(d: Directory, id: string, loop: Loop, del: Deletion)
    requires Listed(d, id) && LoopTold(d, id, loop, del)
    ensures PickStored(d, id, loop, Pick(del.todo))
  {
    assert Pick(del.todo) in del.todo;
  }

  /** The reply to the first read of a loop is that the element is there. */
  lemma ReadingReaches(d: Directory, id: string, loop: Loop, del: Deletion)
    requires del.todo != {} && PickStored(d, id, loop, Pick(del.todo))
    ensures AfterStage(d, id, Reading(loop), del) ==
            match loop
            case GroupLoop => Deleting(Rereading(GroupLoop, None), del)
            case V2Loop => Deleting(Rereading(V2Loop, Lookup(d.memberships2, (Pick(del.todo), id))), del)
            case _ => Each(id, loop, Visited(del))
  {
  }

  lemma ReadingJudges(d: Directory, id: string, loop: Loop, del: Deletion)
    requires Listed(d, id) && LoopTold(d, id, loop, del)
    ensures StageJudged(d, id, del.user, AfterStage(d, id, Reading(loop), del), StageLeft(Relations(d, id), Reading(loop), del))
  {
    PickListed(d, id, loop, del);
    ReadingReaches(d, id, loop, del);
    if loop.TenantLoop? || loop.LegacyLoop? {
      VisitOnlyJudges(d, id, loop, del);
    }
  }

  lemma RereadingReaches(d: Directory, id: string, loop: Loop, m: Option<Membership>, del: Deletion)
    requires del.todo != {} && PickStored(d, id, loop, Pick(del.todo)) && (loop.GroupLoop? || loop.V2Loop?)
    requires loop.V2Loop? ==> m == Lookup(d.memberships2, (Pick(del.todo), id))
    ensures
      var t := Pick(del.todo);
      AfterStage(d, id, Rereading(loop, m), del) ==
      if loop.GroupLoop? then Each(id, loop, Visited(del).(bumped := del.bumped[t := Bump(d.groups[t])])) else Each(id, loop, Visited(del))
  {
  }

  lemma RereadingJudges(d: Directory, id: string, loop: Loop, m: Option<Membership>, del: Deletion)
    requires Listed(d, id) && StageTold(d, id, Rereading(loop, m), del)
    ensures StageJudged(d, id, del.user, AfterStage(d, id, Rereading(loop, m), del), StageLeft(Relations(d, id), Rereading(loop, m), del))
  {
    PickListed(d, id, loop, del);
    RereadingReaches(d, id, loop, m, del);
    if loop.GroupLoop? {
      VisitJudges(d, id, loop, del, del.bumped[Pick(del.todo) := Bump(d.groups[Pick(del.todo)])]);
    } else {
      VisitOnlyJudges(d, id, loop, del);
    }
  }

  lemma SamlJudges(d: Directory, id: string, stage: Stage, del: Deletion)
    requires SamlTold(d, id, stage, del)
    requires stage.WatchAlias? || stage.CheckAlias? || stage.WatchSubject?
    ensures StageJudged(d, id, del.user, AfterStage(d, id, stage, del), StageLeft(Relations(d, id), stage, del))
  {
  }

  lemma SubjectJudges(d: Directory, id: string, del: Deletion)
    requires SamlTold(d, id, CheckSubject, del)
    ensures StageJudged(d, id, del.user, AfterStage(d, id, CheckSubject, del), StageLeft(Relations(d, id), CheckSubject, del))
  {
  }

  lemma NameIdJudges(d: Directory, id: string, stage: Stage, del: Deletion)
    requires SamlTold(d, id, stage, del) && (stage.WatchNameId? || stage.CheckNameId?)
    ensures StageJudged(d, id, del.user, AfterStage(d, id, stage, del), StageLeft(Relations(d, id), stage, del))
  {
  }

  lemma LoopStageJudges(d: Directory, id: string, stage: Stage, del: Deletion)
    requires Listed(d, id) && StageTold(d, id, stage, del)
    requires stage.Watching? || stage.Reading? || stage.Rereading?
    ensures StageJudged(d, id, del.user, AfterStage(d, id, stage, del), StageLeft(Relations(d, id), stage, del))
  {
    match stage
    case Watching(loop) => WatchingJudges(d, id, loop, del);
    case Reading(loop) => ReadingJudges(d, id, loop, del);
    case Rereading(loop, m) => RereadingJudges(d, id, loop, m, del);
  }

  lemma EarlyStageJudges(d: Directory, id: string, stage: Stage, del: Deletion)
    requires Listed(d, id) && StageTold(d, id, stage, del)
    requires stage.Relation? || stage.WatchAliases? || stage.AliasIndex? || stage.AliasEmail? || stage.AliasLegacy?
    ensures StageJudged(d, id, del.user, AfterStage(d, id, stage, del), StageLeft(Relations(d, id), stage, del))
  {
    match stage
    case Relation(number) => RelationJudges(d, id, number, del);
    case AliasLegacy => LegacyJudges(d, id, del);
    case _ => AliasJudges(d, id, stage, del);
  }

  lemma LateStageJudges(d: Directory, id: string, stage: Stage, del: Deletion)
    requires SamlTold(d, id, stage, del)
    requires stage.WatchAlias? || stage.CheckAlias? || stage.WatchSubject? || stage.CheckSubject? || stage.WatchNameId? || stage.CheckNameId?
    ensures StageJudged(d, id, del.user, AfterStage(d, id, stage, del), StageLeft(Relations(d, id), stage, del))
  {
    if stage.WatchAlias? || stage.CheckAlias? || stage.WatchSubject? {
      SamlJudges(d, id, stage, del);
    } else if stage.CheckSubject? {
      SubjectJudges(d, id, del);
    } else {
      NameIdJudges(d, id, stage, del);
    }
  }

  lemma StageJudges(d: Directory, id: string, stage: Stage, del: Deletion)
    requires Listed(d, id) && StageTold(d, id, stage, del)
    ensures StageJudged(d, id, del.user, AfterStage(d, id, stage, del), StageLeft(Relations(d, id), stage, del))
  {
    if stage.Watching? || stage.Reading? || stage.Rereading? {
      LoopStageJudges(d, id, stage, del);
    } else if stage.Relation? || stage.WatchAliases? || stage.AliasIndex? || stage.AliasEmail? || stage.AliasLegacy? {
      EarlyStageJudges(d, id, stage, del);
    } else {
      LateStageJudges(d, id, stage, del);
    }
  }

  lemma AdvanceIs(d: Directory, op: Op, p: Point)
    requires op.DeleteUser? && Judged(d, op, p)
    ensures p.Actor? ==> Running(op, p) && Advance(op, p, d) == AfterActor(d, op, p.check)
    ensures p.Deleting? ==> Running(op, p) && Advance(op, p, d) == AfterStage(d, op.id, p.stage, p.del)
    ensures p.First? ==> Running(op, p) && Advance(op, p, d) == Actor(ActorFederated(Lookup(d.users, op.actor.id)))
    ensures p.Start? ==> Running(op, p) && Advance(op, p, d) == First
    ensures !p.Actor? && !p.Deleting? && !p.First? && !p.Start? ==> !Running(op, p)
  {
  }

  lemma StageTarget(d: Directory, op: Op, stage: Stage, del: Deletion)
    requires op.DeleteUser? && StageTold(d, op.id, stage, del)
    ensures StoredUser(d, op.id) == Some(del.user)
  {
    TargetStored(d, op, del);
  }

  lemma StepJudges(d: Directory, op: Op, p: Point)
    requires op.DeleteUser? && op.actor.id != op.id && Listed(d, op.id) && Judged(d, op, p)
    ensures Judged(d, op, Advance(op, p, d))
    ensures Running(op, p) ==> DeletionLeft(d, op, Advance(op, p, d)) < DeletionLeft(d, op, p)
  {
    AdvanceIs(d, op, p);
    match p
    case Actor(check) => if check.ActorFederated? { ActorFoundJudges(d, op, check); } else { ActorRestJudges(d, op, check); }
    case Deleting(stage, del) =>
      StageJudges(d, op.id, stage, del);
      StageTarget(d, op, stage, del);
    case _ =>
  }

  // ----- Whole deletions -----

  lemma RunJudges(d: Directory, op: Op, n: nat)
    requires op.DeleteUser? && op.actor.id != op.id && DirectoryInv(d) && MembershipsAgree(d)
    ensures Judged(d, op, RunN(op, d, n))
  {
    AgreeingLists(d, op.id);
    var I := (p: Point, w: set<Key>) => Judged(d, op, p);
    forall p, w | I(p, w)
      ensures I(Machine(op, d)(p), w + KeysBy(op)(p))
    {
      StepJudges(d, op, p);
    }
    IterateKeeps(Machine(op, d), KeysBy(op), I, n);
    assert I(RunN(op, d, n), WatchN(op, d, n));
  }

  lemma DeletionEnds(d: Directory, op: Op) returns (m: nat)
    requires op.DeleteUser? && op.actor.id != op.id && DirectoryInv(d) && MembershipsAgree(d)
    ensures !Running(op, RunN(op, d, m))
  {
    AgreeingLists(d, op.id);
    var running, rank := (p: Point) => Running(op, p), (p: Point) => DeletionLeft(d, op, p);
    forall k: nat | running(Iterate(Machine(op, d), k))
      ensures rank(Iterate(Machine(op, d), k + 1)) < rank(Iterate(Machine(op, d), k))
    {
      RunJudges(d, op, k);
      RunStep(op, d, k);
      StepJudges(d, op, RunN(op, d, k));
    }
    m := ComesToRest(Machine(op, d), running, rank, 0);
  }

  /**
   On an agreeing store a user deletion commits exactly if the actor may delete and the version is current, the user's relations are
   at most 500 together, its legacy record is under its own email, its memberships are of canonical tenants, and, for a SAML user,
   the home tenant is active and alias and session entries are absent or its own.
   */
  lemma DeletionCommitsIff(d: Directory, op: Op)
    requires op.DeleteUser? && Admissible(op) && DirectoryInv(d) && MembershipsAgree(d)
    ensures (exists del :: Commits(op, d, EraseUser(op.id, del))) <==> DeletionCommits(d, op)
  {
    if DeletionCommits(d, op) {
      var m := DeletionEnds(d, op);
      RunJudges(d, op, m);
      DeletionReached(d, op, m);
    }
    if del :| Commits(op, d, EraseUser(op.id, del)) {
      var n :| RunN(op, d, n) == Ready(EraseUser(op.id, del));
      RunJudges(d, op, n);
    }
  }

  lemma DeletionReached(d: Directory, op: Op, m: nat)
    requires op.DeleteUser? && Admissible(op) && Judged(d, op, RunN(op, d, m)) && !Running(op, RunN(op, d, m)) && DeletionCommits(d, op)
    ensures exists del :: Commits(op, d, EraseUser(op.id, del))
  {
    var p := RunN(op, d, m);
    AdvanceIs(d, op, p);
    assert p.Ready? && p.plan.EraseUser?;
    assert Commits(op, d, p.plan);
    CommitsFit(op, d, p.plan);
    assert p.plan == EraseUser(op.id, p.plan.deletion);
  }

  /** A deletion that is refused says why, truly; one that finds no such user writes nothing. */
  lemma DeletionRefusalsTrue(d: Directory, op: Op, n: nat)
    requires op.DeleteUser? && Admissible(op) && DirectoryInv(d) && MembershipsAgree(d)
    ensures
      var p := RunN(op, d, n);
      && !p.Retry? && !p.Finished?
      && (p.Halted? ==> !DeletionCommits(d, op) && DeletionErrorTrue(d, op, p.error))
      && (p == Ready(NoWrites) ==> op.id !in d.users && op.id !in d.federated)
  {
    RunJudges(d, op, n);
  }
}
