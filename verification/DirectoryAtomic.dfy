/**
 What a transaction has established when it reaches EXEC. `Faithful` says that the local variables of
 a program point are what the store holds; an uninterrupted execution keeps it, so the plan it ends
 with `Fits` the store. `Watching` says which keys are under WATCH at a point, from which every read
 of every transaction is of a key already watched.
 */
module DirectoryAtomic {
  import opened Prelude
  import opened DirectoryState
  import opened DirectoryTransactions

  // ----- Plans against the store -----

  ghost predicate BumpsExactly(d: Directory, groups: set<string>, bumped: map<string, Group>)
  {
    && bumped.Keys == groups
    && forall g :: g in bumped ==> g in d.groups && bumped[g] == Bump(d.groups[g])
  }

  ghost predicate TargetFound(d: Directory, id: string, user: User, fed: bool)
  {
    if fed then id !in d.users && id in d.federated && d.federated[id] == user
    else id in d.users && id !in d.federated && d.users[id] == user
  }

  ghost predicate RelationsRead(d: Directory, id: string, del: Deletion)
  {
    && TargetFound(d, id, del.user, del.fed)
    && del.groups == GroupsOf(d, id)
    && del.tenants == TenantsOf(d, UserPrincipal(id))
    && del.legacy == LegacyTenantsOf(d, id)
    && del.v2 == V2TenantsOf(d, id)
  }

  ghost predicate AliasesRead(d: Directory, id: string, del: Deletion)
  {
    && RelationsRead(d, id, del)
    && (del.ownsEmail <==> del.user.email in d.emails && d.emails[del.user.email] == id)
    && (!del.fed ==> del.user.email !in d.emails || del.ownsEmail)
  }

  ghost predicate LegacyFlag(d: Directory, id: string, del: Deletion)
  {
    del.ownsLegacy <==> del.user.email in d.legacyUsers && d.legacyUsers[del.user.email].id == id
  }

  ghost predicate GroupsRead(d: Directory, id: string, del: Deletion)
  {
    && AliasesRead(d, id, del)
    && LegacyFlag(d, id, del)
    && BumpsExactly(d, del.groups, del.bumped)
  }

  predicate SamlUnread(del: Deletion)
  {
    !del.ownsAlias && del.sessions == {}
  }

  /** The alias of a SAML user is its own, or absent. */
  ghost predicate AliasRead(d: Directory, id: string, del: Deletion)
  {
    && del.user.company.Some?
    && (del.ownsAlias <==> (del.user.company.value, del.user.subject) in d.aliases)
    && (del.ownsAlias ==> d.aliases[(del.user.company.value, del.user.subject)] == id)
  }

  /** Sessions to be erased exist and belong to the subject. */
  ghost predicate OwnSessions(d: Directory, id: string, sessions: set<SessionKey>)
  {
    forall k :: k in sessions ==> k in d.sessions && d.sessions[k].subject == id
  }

  /** The name id whose session entry the deletion looks up. */
  ghost function NameIdOf(d: Directory, id: string, user: User): string
  {
    var key := SubjectKey(Company(user), id);
    if key in d.sessions then d.sessions[key].nameId else user.subject
  }

  ghost predicate SubjectRead(d: Directory, id: string, del: Deletion)
  {
    && AliasRead(d, id, del)
    && OwnSessions(d, id, del.sessions)
    && (SubjectKey(Company(del.user), id) in d.sessions ==> SubjectKey(Company(del.user), id) in del.sessions)
  }

  ghost predicate SamlRead(d: Directory, id: string, del: Deletion)
  {
    if del.user.saml then
      && SubjectRead(d, id, del)
      && (NameIdKey(Company(del.user), NameIdOf(d, id, del.user)) in d.sessions ==>
            NameIdKey(Company(del.user), NameIdOf(d, id, del.user)) in del.sessions)
    else SamlUnread(del)
  }

  ghost predicate UserFits(d: Directory, id: string, user: User, previous: string)
  {
    && id in d.users && d.users[id].email == previous && user.revision == d.users[id].revision + 1
    && (user.email == previous || user.email !in d.emails || d.emails[user.email] == id)
  }

  ghost predicate SecretFits(d: Directory, id: string, user: User)
  {
    && id in d.users && d.users[id].mustChange
    && user == d.users[id].(password := user.password, mustChange := false,
                            tokenVersion := d.users[id].tokenVersion + 1, revision := d.users[id].revision + 1)
  }

  ghost predicate FederatedFits(d: Directory, id: string, user: User)
  {
    && id in d.federated && user.revision == d.federated[id].revision + 1
    && user.tokenVersion >= d.federated[id].tokenVersion
  }

  ghost predicate ImportFits(d: Directory, id: string, user: User)
  {
    id !in d.users && id !in d.federated && user.email !in d.emails && d.marker.None?
  }

  ghost predicate GroupFits(d: Directory, group: string, before: Group, after: Group)
  {
    && group in d.groups && d.groups[group] == before && after.version == before.version + 1
    && GroupText(after.name, after.description)
    && (after.name == before.name || Fold(after.name) !in d.names || d.names[Fold(after.name)] == group)
  }

  ghost predicate GroupErasureFits(d: Directory, group: string, before: Group, members: set<string>, tenants: set<string>)
  {
    && group in d.groups && d.groups[group] == before
    && members == MembersOf(d, group) && tenants == TenantsOf(d, GroupPrincipal(group))
  }

  ghost predicate MemberFits(d: Directory, group: string, member: string, after: Group, add: bool)
  {
    && group in d.groups && after == Bump(d.groups[group])
    && (if add then member in d.users && (group, member) !in d.members && |MembersOf(d, group)| < MAXIMUM_RELATIONSHIPS
        else (group, member) in d.members)
  }

  ghost predicate AssignmentFits(d: Directory, tenant: string, principal: Principal, a: Assignment)
  {
    && Exists(d.users.Keys, d.groups.Keys, principal) && ActiveTenant(tenant) && CanonicalRoles(a.roles)
    && (if (tenant, principal) in d.assignments
        then a.version == d.assignments[(tenant, principal)].version + 1 && a.roles != d.assignments[(tenant, principal)].roles
        else a.version == 1)
  }

  ghost predicate EmailErasureFits(d: Directory, email: string, id: string, user: User, tenants: set<string>,
                                   bumped: map<string, Group>)
  {
    && id in d.users && d.users[id] == user && user.email == email
    && email in d.emails && d.emails[email] == id
    && tenants == TenantsOf(d, UserPrincipal(id)) && BumpsExactly(d, GroupsOf(d, id), bumped)
  }

  /** The facts about the store under which a plan was made. */
  ghost predicate Fits(d: Directory, plan: Plan)
  {
    match plan
    case NoWrites => true
    case WriteUser(id, user, previous) => UserFits(d, id, user, previous)
    case WriteSecret(id, user) => SecretFits(d, id, user)
    case WriteFederated(id, user) => FederatedFits(d, id, user)
    case WriteImport(id, user) => ImportFits(d, id, user)
    case WriteGroup(group, before, after) => GroupFits(d, group, before, after)
    case EraseGroup(group, before, members, tenants) => GroupErasureFits(d, group, before, members, tenants)
    case WriteMember(group, member, after, add) => MemberFits(d, group, member, after, add)
    case WriteAssignment(tenant, principal, a) => AssignmentFits(d, tenant, principal, a)
    case EraseAssignment(tenant, principal) => (tenant, principal) in d.assignments
    case EraseUser(id, del) => GroupsRead(d, id, del) && SamlRead(d, id, del)
    case EraseByEmail(email, id, user, tenants, bumped) => EmailErasureFits(d, email, id, user, tenants, bumped)
  }

  ghost predicate EmailRead(d: Directory, email: string, id: string, u: User)
  {
    email in d.emails && d.emails[email] == id && id in d.users && d.users[id] == u && u.email == email
  }

  ghost predicate GroupIs(d: Directory, group: string, g: Group)
  {
    group in d.groups && d.groups[group] == g
  }

  /** The local variables of a point agree with the store. */
  ghost predicate Faithful(op: Op, p: Point, d: Directory)
  {
    && (p.Ready? ==> Fits(d, p.plan))
    && (p.Short? ==> FaithfulShort(op, p.at, d))
    && (p.Actor? && p.check.TargetFederated? && op.DeleteUser? ==> p.check.found == Lookup(d.users, op.id))
    && (p.Deleting? && op.DeleteUser? ==> FaithfulStage(op.id, p.stage, p.del, d))
  }

  ghost predicate FaithfulShort(op: Op, at: ShortPoint, d: Directory)
  {
    && (op.UpdateUser? && at.CheckOwner? ==>
          && op.id in d.users && d.users[op.id] == at.user
          && at.user.email == op.previousEmail && at.user.revision == op.user.revision)
    && (op.ImportLegacy? && at.CheckImport? ==>
          && d.marker.None?
          && (at.step >= 1 ==> op.email !in d.emails)
          && (at.step >= 2 ==> at.legacy.Some? && at.legacy.value.user.email == op.email)
          && (at.step >= 3 ==> at.legacy.value.id !in d.users)
          && (at.step >= 4 ==> at.legacy.value.id !in d.federated))
    && (op.PatchGroup? && at.CheckName? ==>
          && GroupIs(d, op.group, at.before) && at.after == Patched(at.before, op.patch)
          && GroupText(at.after.name, at.after.description))
    && (op.DeleteGroup? && at.ReadGroupMembers? ==> GroupIs(d, op.group, at.before))
    && (op.DeleteGroup? && at.ReadGroupTenants? ==> GroupIs(d, op.group, at.before) && at.items == MembersOf(d, op.group))
    && (op.ChangeMember? && at.MemberGroup? ==> op.add && op.member in d.users)
    && (op.ChangeMember? && at.MemberPresent? ==> GroupIs(d, op.group, at.before) && (op.add ==> op.member in d.users))
    && (op.ChangeMember? && at.MemberCount? ==>
          GroupIs(d, op.group, at.before) && op.add && op.member in d.users && (op.group, op.member) !in d.members)
    && (op.PutAssignment? && at.ReadAssignment? ==> Exists(d.users.Keys, d.groups.Keys, op.principal))
    && (op.DeleteByEmail? ==> FaithfulEmail(op.email, op.id, at, d))
  }

  ghost predicate FaithfulEmail(email: string, id: string, at: ShortPoint, d: Directory)
  {
    && (at.EmailUser? ==> email in d.emails && d.emails[email] == id)
    && (at.EmailGroups? ==> EmailRead(d, email, id, at.user))
    && (at.EmailTenants? ==> EmailRead(d, email, id, at.user) && at.items == GroupsOf(d, id))
    && (at.EmailEach? ==>
          && EmailRead(d, email, id, at.user) && at.tenants == TenantsOf(d, UserPrincipal(id))
          && at.todo <= GroupsOf(d, id) && BumpsExactly(d, GroupsOf(d, id) - at.todo, at.bumped))
  }

  ghost predicate FaithfulStage(id: string, stage: Stage, del: Deletion, d: Directory)
  {
    match stage
    case Relation(number) =>
      && TargetFound(d, id, del.user, del.fed) && del.bumped == map[] && !del.ownsEmail && SamlUnread(del)
      && (number >= 1 ==> del.groups == GroupsOf(d, id))
      && (number >= 2 ==> del.tenants == TenantsOf(d, UserPrincipal(id)))
      && (number >= 3 ==> del.legacy == LegacyTenantsOf(d, id))
    case WatchAliases => RelationsRead(d, id, del) && del.bumped == map[] && !del.ownsEmail && SamlUnread(del)
    case AliasIndex => RelationsRead(d, id, del) && del.bumped == map[] && !del.ownsEmail && SamlUnread(del)
    case AliasEmail => RelationsRead(d, id, del) && del.bumped == map[] && !del.ownsEmail && SamlUnread(del)
    case AliasLegacy => AliasesRead(d, id, del) && del.bumped == map[] && SamlUnread(del)
    case Watching(loop) => FaithfulLoop(id, loop, del, d)
    case Reading(loop) => FaithfulLoop(id, loop, del, d)
    case Rereading(loop, _) => FaithfulLoop(id, loop, del, d)
    case WatchAlias => GroupsRead(d, id, del) && FaithfulSaml(id, stage, del, d)
    case CheckAlias => GroupsRead(d, id, del) && FaithfulSaml(id, stage, del, d)
    case WatchSubject => GroupsRead(d, id, del) && FaithfulSaml(id, stage, del, d)
    case CheckSubject => GroupsRead(d, id, del) && FaithfulSaml(id, stage, del, d)
    case WatchNameId(_) => GroupsRead(d, id, del) && FaithfulSaml(id, stage, del, d)
    case CheckNameId(_) => GroupsRead(d, id, del) && FaithfulSaml(id, stage, del, d)
  }

  ghost predicate FaithfulSaml(id: string, stage: Stage, del: Deletion, d: Directory)
  {
    && del.user.saml && del.user.company.Some?
    && (stage.WatchAlias? || stage.CheckAlias? ==> SamlUnread(del))
    && (stage.WatchSubject? || stage.CheckSubject? ==> AliasRead(d, id, del) && del.sessions == {})
    && (stage.WatchNameId? ==> SubjectRead(d, id, del) && stage.nameId == NameIdOf(d, id, del.user))
    && (stage.CheckNameId? ==> SubjectRead(d, id, del) && stage.nameId == NameIdOf(d, id, del.user))
  }

  /** In the group loop the groups already visited are bumped; after it, all are. */
  ghost predicate FaithfulLoop(id: string, loop: Loop, del: Deletion, d: Directory)
  {
    && SamlUnread(del)
    && if loop.GroupLoop? then
         && AliasesRead(d, id, del) && LegacyFlag(d, id, del)
         && del.todo <= del.groups && BumpsExactly(d, del.groups - del.todo, del.bumped)
       else GroupsRead(d, id, del)
  }

  // ----- One undisturbed command keeps the locals faithful -----

  /** A command on an unchanged store: its reply, and the point it leads to. */
  ghost predicate Undisturbed(op: Op, p: Point, d: Directory, r: Reply)
  {
    if Next(op, p).Ask? then r == Answer(d, Next(op, p).query) else Next(op, p).Watch? && r == Ack
  }

  /** What holds at the points of a deletion past its checks. */
  ghost predicate FaithfulDeletion(id: string, p: Point, d: Directory)
  {
    && (p.Deleting? || p.Ready? || p.Halted? || p.Retry?)
    && (p.Deleting? ==> FaithfulStage(id, p.stage, p.del, d))
    && (p.Ready? ==> p.plan.EraseUser? && GroupsRead(d, p.plan.id, p.plan.deletion) && SamlRead(d, p.plan.id, p.plan.deletion))
  }

  ghost predicate UndisturbedDeletion(id: string, stage: Stage, del: Deletion, d: Directory, r: Reply)
  {
    var next := NextDeletion(id, stage, del);
    if next.Ask? then r == Answer(d, next.query) else next.Watch? && r == Ack
  }

  lemma EachFaithful(id: string, loop: Loop, del: Deletion, d: Directory)
    requires FaithfulLoop(id, loop, del, d)
    ensures FaithfulDeletion(id, Each(id, loop, del), d)
    decreases match loop case GroupLoop => 3 case TenantLoop => 2 case LegacyLoop => 1 case V2Loop => 0
  {
    if del.todo == {} {
      match loop
      case GroupLoop =>
        assert del.groups - del.todo == del.groups;
        EachFaithful(id, TenantLoop, del.(todo := del.tenants), d);
      case TenantLoop => EachFaithful(id, LegacyLoop, del.(todo := del.legacy), d);
      case LegacyLoop => EachFaithful(id, V2Loop, del.(todo := del.v2), d);
      case V2Loop =>
    }
  }

  lemma AliasesFaithful(id: string, stage: Stage, del: Deletion, d: Directory, r: Reply)
    requires FaithfulStage(id, stage, del, d)
    requires stage.AliasIndex? || stage.AliasEmail? || stage.AliasLegacy? || stage.WatchAliases?
    requires UndisturbedDeletion(id, stage, del, d, r)
    ensures FaithfulDeletion(id, ResumeDeletion(id, stage, del, r), d)
  {
    if stage.AliasLegacy? {
      assert del.groups - del.groups == {};
      var next := del.(ownsLegacy := r.legacy.Some? && r.legacy.value.id == id, todo := del.groups);
      assert FaithfulLoop(id, GroupLoop, next, d);
      EachFaithful(id, GroupLoop, next, d);
    }
  }

  lemma BumpOne(d: Directory, groups: set<string>, todo: set<string>, bumped: map<string, Group>, g: string)
    requires todo <= groups && g in todo && g in d.groups
    requires BumpsExactly(d, groups - todo, bumped)
    ensures BumpsExactly(d, groups - (todo - {g}), bumped[g := Bump(d.groups[g])])
  {
    assert groups - (todo - {g}) == (groups - todo) + {g};
  }

  lemma GroupVisitFaithful(id: string, del: Deletion, d: Directory)
    requires FaithfulLoop(id, GroupLoop, del, d) && del.todo != {} && Pick(del.todo) in d.groups
    ensures
      var next := Visited(del).(bumped := del.bumped[Pick(del.todo) := Bump(d.groups[Pick(del.todo)])]);
      FaithfulDeletion(id, Each(id, GroupLoop, next), d)
  {
    var g := Pick(del.todo);
    var next := Visited(del).(bumped := del.bumped[g := Bump(d.groups[g])]);
    BumpOne(d, del.groups, del.todo, del.bumped, g);
    assert AliasesRead(d, id, next);
    EachFaithful(id, GroupLoop, next, d);
  }

  lemma ReadingFaithful(id: string, loop: Loop, del: Deletion, d: Directory)
    requires FaithfulLoop(id, loop, del, d) && del.todo != {}
    ensures FaithfulDeletion(id, ResumeReading(id, loop, del, Answer(d, LoopRead(loop, Pick(del.todo), id))), d)
  {
    if !loop.GroupLoop? {
      EachFaithful(id, loop, Visited(del), d);
    }
  }

  lemma RereadingFaithful(id: string, loop: Loop, m: Option<Membership>, del: Deletion, d: Directory, r: Reply)
    requires FaithfulLoop(id, loop, del, d) && del.todo != {}
    requires r == if loop.GroupLoop? then GroupReply(Lookup(d.groups, Pick(del.todo)))
                  else MembershipReply(Lookup(d.memberships, (Pick(del.todo), id)))
    ensures FaithfulDeletion(id, ResumeDeletion(id, Rereading(loop, m), del, r), d)
  {
    if loop.GroupLoop? {
      if Pick(del.todo) in d.groups {
        GroupVisitFaithful(id, del, d);
      }
    } else {
      EachFaithful(id, loop, Visited(del), d);
    }
  }

  lemma RelationFaithful(id: string, number: nat, del: Deletion, d: Directory, r: Reply)
    requires FaithfulStage(id, Relation(number), del, d)
    requires UndisturbedDeletion(id, Relation(number), del, d, r)
    ensures FaithfulDeletion(id, ResumeDeletion(id, Relation(number), del, r), d)
  {
  }

  lemma SamlReadFaithful(id: string, stage: Stage, del: Deletion, d: Directory)
    requires FaithfulSaml(id, stage, del, d) && NextDeletion(id, stage, del).Ask?
    requires stage.CheckAlias? || stage.CheckSubject? || stage.CheckNameId?
    ensures
      var p := ResumeDeletion(id, stage, del, Answer(d, NextDeletion(id, stage, del).query));
      && (p.Deleting? ==> FaithfulSaml(id, p.stage, p.del, d) && SameRelations(del, p.del))
      && (p.Deleting? ==> p.stage.WatchSubject? || p.stage.WatchNameId?)
      && (p.Ready? ==> p.plan.EraseUser? && SamlRead(d, id, p.plan.deletion) && SameRelations(del, p.plan.deletion))
      && (p.Deleting? || p.Ready? || p.Halted?)
  {
  }

  /** All but the SAML fields are equal. */
  predicate SameRelations(a: Deletion, b: Deletion)
  {
    a.(ownsAlias := b.ownsAlias, sessions := b.sessions) == b
  }

  lemma SameRelationsRead(d: Directory, id: string, a: Deletion, b: Deletion)
    requires GroupsRead(d, id, a) && SameRelations(a, b)
    ensures GroupsRead(d, id, b)
  {
  }

  lemma SamlWatchFaithful(id: string, stage: Stage, del: Deletion, d: Directory, r: Reply)
    requires GroupsRead(d, id, del) && FaithfulSaml(id, stage, del, d)
    requires stage.WatchAlias? || stage.WatchSubject? || stage.WatchNameId?
    ensures FaithfulDeletion(id, ResumeDeletion(id, stage, del, r), d)
  {
  }

  lemma SamlFaithful(id: string, stage: Stage, del: Deletion, d: Directory, r: Reply)
    requires GroupsRead(d, id, del) && FaithfulSaml(id, stage, del, d)
    requires stage.CheckAlias? || stage.CheckSubject? || stage.CheckNameId?
    requires NextDeletion(id, stage, del).Ask? && r == Answer(d, NextDeletion(id, stage, del).query)
    ensures FaithfulDeletion(id, ResumeDeletion(id, stage, del, r), d)
  {
    SamlReadFaithful(id, stage, del, d);
    var p := ResumeDeletion(id, stage, del, r);
    if p.Deleting? {
      SameRelationsRead(d, id, del, p.del);
    } else if p.Ready? {
      SameRelationsRead(d, id, del, p.plan.deletion);
    }
  }

  lemma LoopFaithful(id: string, stage: Stage, del: Deletion, d: Directory, r: Reply)
    requires FaithfulStage(id, stage, del, d) && UndisturbedDeletion(id, stage, del, d, r)
    requires stage.Watching? || stage.Reading? || stage.Rereading?
    ensures FaithfulDeletion(id, ResumeDeletion(id, stage, del, r), d)
  {
    if stage.Reading? {
      ReadingFaithful(id, stage.loop, del, d);
    } else if stage.Rereading? {
      RereadingFaithful(id, stage.loop, stage.membership, del, d, r);
    }
  }

  lemma SamlStageFaithful(id: string, stage: Stage, del: Deletion, d: Directory, r: Reply)
    requires FaithfulStage(id, stage, del, d) && UndisturbedDeletion(id, stage, del, d, r)
    requires stage.WatchAlias? || stage.CheckAlias? || stage.WatchSubject? || stage.CheckSubject? ||
             stage.WatchNameId? || stage.CheckNameId?
    ensures FaithfulDeletion(id, ResumeDeletion(id, stage, del, r), d)
  {
    if stage.WatchAlias? || stage.WatchSubject? || stage.WatchNameId? {
      SamlWatchFaithful(id, stage, del, d, r);
    } else {
      SamlFaithful(id, stage, del, d, r);
    }
  }

  lemma StageFaithful(id: string, stage: Stage, del: Deletion, d: Directory, r: Reply)
    requires FaithfulStage(id, stage, del, d) && UndisturbedDeletion(id, stage, del, d, r)
    ensures FaithfulDeletion(id, ResumeDeletion(id, stage, del, r), d)
  {
    if stage.Relation? {
      RelationFaithful(id, stage.number, del, d, r);
    } else if stage.WatchAliases? || stage.AliasIndex? || stage.AliasEmail? || stage.AliasLegacy? {
      AliasesFaithful(id, stage, del, d, r);
    } else if stage.Watching? || stage.Reading? || stage.Rereading? {
      LoopFaithful(id, stage, del, d, r);
    } else {
      SamlStageFaithful(id, stage, del, d, r);
    }
  }

  lemma DeletionFaithful(op: Op, stage: Stage, del: Deletion, d: Directory, r: Reply)
    requires op.DeleteUser? && FaithfulStage(op.id, stage, del, d) && UndisturbedDeletion(op.id, stage, del, d, r)
    ensures Faithful(op, ResumeDeletion(op.id, stage, del, r), d)
  {
    StageFaithful(op.id, stage, del, d, r);
  }

  lemma ActorFaithful(op: Op, check: ActorPoint, d: Directory, r: Reply)
    requires op.DeleteUser? && Faithful(op, Actor(check), d)
    requires Undisturbed(op, Actor(check), d, r)
    ensures Faithful(op, ResumeActor(op, check, r), d)
  {
  }

  lemma FirstFaithful(op: Op, d: Directory, r: Reply)
    requires Admissible(op) && Undisturbed(op, First, d, r)
    ensures Faithful(op, ResumeFirst(op, r), d)
  {
  }

  lemma EachEmailFaithful(op: Op, u: User, tenants: set<string>, todo: set<string>, bumped: map<string, Group>, d: Directory)
    requires op.DeleteByEmail? && EmailRead(d, op.email, op.id, u) && tenants == TenantsOf(d, UserPrincipal(op.id))
    requires todo <= GroupsOf(d, op.id) && BumpsExactly(d, GroupsOf(d, op.id) - todo, bumped)
    ensures Faithful(op, EachEmailGroup(op.email, op.id, u, tenants, todo, bumped), d)
  {
    if todo == {} {
      assert GroupsOf(d, op.id) - todo == GroupsOf(d, op.id);
    }
  }

  lemma EmailEachFaithful(op: Op, at: ShortPoint, d: Directory)
    requires op.DeleteByEmail? && at.EmailEach? && FaithfulEmail(op.email, op.id, at, d) && at.todo != {}
    ensures Faithful(op, ResumeEmail(op.email, op.id, at, GroupReply(Lookup(d.groups, Pick(at.todo)))), d)
  {
    var g := Pick(at.todo);
    if g in d.groups {
      BumpOne(d, GroupsOf(d, op.id), at.todo, at.bumped, g);
      EachEmailFaithful(op, at.user, at.tenants, at.todo - {g}, at.bumped[g := Bump(d.groups[g])], d);
    }
  }

  lemma EmailStartFaithful(op: Op, at: ShortPoint, d: Directory, r: Reply)
    requires op.DeleteByEmail? && !at.EmailEach? && FaithfulEmail(op.email, op.id, at, d)
    requires Undisturbed(op, Short(at), d, r)
    ensures Faithful(op, ResumeEmail(op.email, op.id, at, r), d)
  {
    if at.EmailTenants? {
      assert at.items - at.items == {} && BumpsExactly(d, {}, map[]);
      EachEmailFaithful(op, at.user, TenantsOf(d, UserPrincipal(op.id)), at.items, map[], d);
    }
  }

  lemma EmailFaithful(op: Op, at: ShortPoint, d: Directory, r: Reply)
    requires op.DeleteByEmail? && FaithfulEmail(op.email, op.id, at, d)
    requires Undisturbed(op, Short(at), d, r)
    ensures Faithful(op, ResumeEmail(op.email, op.id, at, r), d)
  {
    if at.EmailEach? {
      EmailEachFaithful(op, at, d);
    } else {
      EmailStartFaithful(op, at, d, r);
    }
  }

  lemma UserFaithful(op: Op, at: ShortPoint, d: Directory, r: Reply)
    requires (op.UpdateUser? || op.ImportLegacy?) && FaithfulShort(op, at, d)
    requires Undisturbed(op, Short(at), d, r)
    ensures Faithful(op, ResumeShort(op, at, r), d)
  {
  }

  lemma GroupFaithful(op: Op, at: ShortPoint, d: Directory, r: Reply)
    requires (op.PatchGroup? || op.DeleteGroup?) && FaithfulShort(op, at, d)
    requires Undisturbed(op, Short(at), d, r)
    ensures Faithful(op, ResumeShort(op, at, r), d)
  {
  }

  lemma MemberFaithful(op: Op, at: ShortPoint, d: Directory, r: Reply)
    requires op.ChangeMember? && FaithfulShort(op, at, d)
    requires Undisturbed(op, Short(at), d, r)
    ensures Faithful(op, ResumeMember(op, at, r), d)
  {
  }

  lemma PutFaithful(op: Op, at: ShortPoint, d: Directory, r: Reply)
    requires op.PutAssignment? && Admissible(op) && FaithfulShort(op, at, d)
    requires Undisturbed(op, Short(at), d, r)
    ensures Faithful(op, ResumeShort(op, at, r), d)
  {
  }

  lemma ShortFaithful(op: Op, at: ShortPoint, d: Directory, r: Reply)
    requires Admissible(op) && FaithfulShort(op, at, d)
    requires Undisturbed(op, Short(at), d, r)
    ensures Faithful(op, ResumeShort(op, at, r), d)
  {
    match op
    case UpdateUser(_, _, _) => UserFaithful(op, at, d, r);
    case ImportLegacy(_) => UserFaithful(op, at, d, r);
    case PatchGroup(_, _, _) => GroupFaithful(op, at, d, r);
    case DeleteGroup(_, _) => GroupFaithful(op, at, d, r);
    case ChangeMember(_, _, _, _) => MemberFaithful(op, at, d, r);
    case DeleteByEmail(_, _, _) => EmailFaithful(op, at, d, r);
    case PutAssignment(_, _, _, _, _) => PutFaithful(op, at, d, r);
    case _ =>
  }

  /** Running one command on an unchanged store keeps the locals faithful. */
  lemma StepFaithful(op: Op, p: Point, d: Directory, r: Reply)
    requires Admissible(op) && Faithful(op, p, d) && Undisturbed(op, p, d, r)
    ensures Faithful(op, Resume(op, p, r), d)
  {
    match p
    case First => FirstFaithful(op, d, r);
    case Short(at) => ShortFaithful(op, at, d, r);
    case Actor(check) => ActorFaithful(op, check, d, r);
    case Deleting(stage, del) => DeletionFaithful(op, stage, del, d, r);
    case _ =>
  }

  // ----- Who may delete -----

  ghost predicate ActorStored(d: Directory, actor: Initiator, u: User)
  {
    && ((Lookup(d.users, actor.id) == Some(u) && actor.id !in d.federated) ||
        (Lookup(d.federated, actor.id) == Some(u) && actor.id !in d.users))
    && ActorAllowed(actor, u) && (actor.recoveredMaster ==> MayRecover(u))
  }

  /**
   The actor is a stored, active ADMIN of the expected version; a recovered master also holds the master tenant's
   ADMIN role, and is a password user of another company.
   */
  ghost predicate ActorAuthorised(d: Directory, actor: Initiator)
  {
    && (exists u :: ActorStored(d, actor, u))
    && (actor.recoveredMaster ==> MasterAssigned(d, actor.id))
  }

  ghost predicate MasterAssigned(d: Directory, id: string)
  {
    && (MASTER_TENANT, UserPrincipal(id)) in d.assignments
    && d.assignments[(MASTER_TENANT, UserPrincipal(id))].roles == ["ADMIN"]
    && (UserPrincipal(id), MASTER_TENANT) in d.tenants
  }

  /** Everything a deletion checks before its first write. */
  ghost predicate DeletionAllowed(d: Directory, op: Op)
    requires op.DeleteUser?
  {
    && ActorAuthorised(d, op.actor) && d.marker == Some(BACKFILL_VERSION) && op.actor.id != op.id
    && ((op.id in d.users && op.id !in d.federated && d.users[op.id].revision + 1 == op.version) ||
        (op.id !in d.users && op.id in d.federated && d.federated[op.id].revision + 1 == op.version))
  }

  ghost predicate ActorChecked(d: Directory, op: Op, check: ActorPoint)
    requires op.DeleteUser?
  {
    match check
    case ActorFederated(found) => found == Lookup(d.users, op.actor.id)
    case ActorAssignment => exists u :: ActorStored(d, op.actor, u)
    case ActorReverse(roles) =>
      && (exists u :: ActorStored(d, op.actor, u))
      && (MASTER_TENANT, UserPrincipal(op.actor.id)) in d.assignments
      && d.assignments[(MASTER_TENANT, UserPrincipal(op.actor.id))].roles == roles
    case ReadMarker => ActorAuthorised(d, op.actor)
    case Target => ActorAuthorised(d, op.actor) && d.marker == Some(BACKFILL_VERSION)
    case TargetFederated(found) =>
      ActorAuthorised(d, op.actor) && d.marker == Some(BACKFILL_VERSION) && found == Lookup(d.users, op.id)
  }

  /** What the checks of a deletion have established at a point. */
  ghost predicate Authorised(op: Op, p: Point, d: Directory)
  {
    && (op.DeleteUser? && p.Actor? ==> ActorChecked(d, op, p.check))
    && (op.DeleteUser? && p.Deleting? ==> DeletionAllowed(d, op))
    && (op.DeleteUser? && p.Ready? && p.plan != NoWrites ==> DeletionAllowed(d, op))
    && (p.Ready? && p.plan.EraseUser? ==> op.DeleteUser? && op.id == p.plan.id)
    && (p.Short? ==> !op.DeleteUser?)
  }

  lemma EachTarget(id: string, loop: Loop, del: Deletion)
    ensures var p := Each(id, loop, del); p.Deleting? || p.Halted? || (p.Ready? && p.plan.EraseUser? && p.plan.id == id)
    decreases match loop case GroupLoop => 3 case TenantLoop => 2 case LegacyLoop => 1 case V2Loop => 0
  {
    if del.todo == {} {
      match loop
      case GroupLoop => EachTarget(id, TenantLoop, del.(todo := del.tenants));
      case TenantLoop => EachTarget(id, LegacyLoop, del.(todo := del.legacy));
      case LegacyLoop => EachTarget(id, V2Loop, del.(todo := del.v2));
      case V2Loop =>
    }
  }

  lemma DeletionTarget(id: string, stage: Stage, del: Deletion, r: Reply)
    ensures var p := ResumeDeletion(id, stage, del, r);
            p.Deleting? || p.Halted? || p.Retry? || (p.Ready? && p.plan.EraseUser? && p.plan.id == id)
  {
    match stage
    case AliasLegacy =>
      if r.LegacyReply? {
        EachTarget(id, GroupLoop, del.(ownsLegacy := r.legacy.Some? && r.legacy.value.id == id, todo := del.groups));
      }
    case Reading(loop) =>
      if del.todo != {} {
        EachTarget(id, loop, Visited(del));
      }
    case Rereading(loop, _) =>
      if del.todo != {} {
        if loop.GroupLoop? && r.GroupReply? && r.group.Some? {
          EachTarget(id, loop, Visited(del).(bumped := del.bumped[Pick(del.todo) := Bump(r.group.value)]));
        } else {
          EachTarget(id, loop, Visited(del));
        }
      }
    case _ =>
  }

  lemma ActorStepAuthorised(op: Op, check: ActorPoint, d: Directory, r: Reply, w: set<Key>)
    requires op.DeleteUser? && Admissible(op) && ActorChecked(d, op, check)
    requires NextActor(op, check).Ask? && r == Answer(d, NextActor(op, check).query)
    requires WatchedAt(op, Actor(check), w)
    ensures Authorised(op, ResumeActor(op, check, r), d)
  {
    match check
    case ActorFederated(found) =>
      if r.user.Some? {
        var u := r.user.value;
        assert found.None? && ActorAllowed(op.actor, u) && (op.actor.recoveredMaster ==> MayRecover(u)) ==> ActorStored(d, op.actor, u);
      } else if found.Some? {
        var u := found.value;
        assert ActorAllowed(op.actor, u) && (op.actor.recoveredMaster ==> MayRecover(u)) ==> ActorStored(d, op.actor, u);
      }
    case _ =>
  }

  /** A deletion reaches its writes only with an authorised actor and the expected version of the subject. */
  lemma StepAuthorised(op: Op, p: Point, d: Directory, r: Reply, w: set<Key>)
    requires Admissible(op) && Authorised(op, p, d) && Undisturbed(op, p, d, r)
    requires WatchedAt(op, p, w)
    ensures Authorised(op, Resume(op, p, r), d)
  {
    match p
    case Actor(check) => ActorStepAuthorised(op, check, d, r, w);
    case Deleting(stage, del) =>
      if op.DeleteUser? {
        DeletionTarget(op.id, stage, del, r);
      }
    case _ =>
  }

  // ----- Every read is of a watched key -----

  ghost predicate WatchedAt(op: Op, p: Point, w: set<Key>)
  {
    && (p != Start ==> BaseKeys(op) <= w)
    && (p.Short? && p.at.CheckName? && op.PatchGroup? ==> NameKey(Fold(p.at.after.name)) in w)
    && (p.Actor? && op.DeleteUser? && (p.check.ActorAssignment? || p.check.ActorReverse?) ==> op.actor.recoveredMaster)
    && (p.Deleting? && op.DeleteUser? ==> StageWatched(op.id, p.stage, p.del, w))
  }

  ghost predicate StageWatched(id: string, stage: Stage, del: Deletion, w: set<Key>)
  {
    match stage
    case Relation(_) => true
    case WatchAliases => true
    case AliasIndex => {EmailKey(del.user.email), IndexKey, LegacyUsersKey} <= w
    case AliasEmail => {EmailKey(del.user.email), IndexKey, LegacyUsersKey} <= w
    case AliasLegacy => {EmailKey(del.user.email), IndexKey, LegacyUsersKey} <= w
    case Watching(loop) => LoopWatched(loop, del, w)
    case Reading(loop) => LoopWatched(loop, del, w) && (del.todo != {} ==> LoopKey(loop, Pick(del.todo)) in w)
    case Rereading(loop, _) => (loop.GroupLoop? || loop.V2Loop?) && LoopWatched(loop, del, w)
    case WatchAlias => true
    case CheckAlias => AliasKey(Company(del.user), del.user.subject) in w
    case WatchSubject => true
    case CheckSubject => SessionIndexKey(SubjectKey(Company(del.user), id)) in w
    case WatchNameId(_) => true
    case CheckNameId(nameId) => SessionIndexKey(NameIdKey(Company(del.user), nameId)) in w
  }

  /** The legacy membership hashes already visited are watched, which the v2 loop relies on. */
  ghost predicate LoopWatched(loop: Loop, del: Deletion, w: set<Key>)
  {
    && (loop.LegacyLoop? ==> forall t :: t in del.legacy && t !in del.todo ==> MembershipsKey(t) in w)
    && (loop.V2Loop? ==> forall t :: t in del.legacy ==> MembershipsKey(t) in w)
    && (loop.V2Loop? && del.todo != {} ==> Pick(del.todo) in del.legacy)
  }

  /** What is watched at the points of a deletion past its checks. */
  ghost predicate DeletionWatched(id: string, p: Point, w: set<Key>)
  {
    (p.Deleting? || p.Ready? || p.Halted? || p.Retry?) && (p.Deleting? ==> StageWatched(id, p.stage, p.del, w))
  }

  lemma EachWatched(id: string, loop: Loop, del: Deletion, w: set<Key>)
    requires loop.LegacyLoop? ==> forall t :: t in del.legacy && t !in del.todo ==> MembershipsKey(t) in w
    requires loop.V2Loop? ==> forall t :: t in del.legacy ==> MembershipsKey(t) in w
    ensures DeletionWatched(id, Each(id, loop, del), w)
    decreases match loop case GroupLoop => 3 case TenantLoop => 2 case LegacyLoop => 1 case V2Loop => 0
  {
    if del.todo == {} {
      match loop
      case GroupLoop => EachWatched(id, TenantLoop, del.(todo := del.tenants), w);
      case TenantLoop => EachWatched(id, LegacyLoop, del.(todo := del.legacy), w);
      case LegacyLoop => EachWatched(id, V2Loop, del.(todo := del.v2), w);
      case V2Loop =>
    }
  }

  lemma LoopReadsWatched(id: string, stage: Stage, del: Deletion, w: set<Key>, r: Reply)
    requires (stage.Reading? || stage.Rereading?) && StageWatched(id, stage, del, w) && del.todo != {}
    ensures DeletionWatched(id, ResumeDeletion(id, stage, del, r), w)
  {
    if stage.Rereading? && stage.loop.GroupLoop? {
      if r.GroupReply? && r.group.Some? {
        EachWatched(id, stage.loop, Visited(del).(bumped := del.bumped[Pick(del.todo) := Bump(r.group.value)]), w);
      }
    } else {
      EachWatched(id, stage.loop, Visited(del), w);
    }
  }

  lemma OtherReadsWatched(id: string, stage: Stage, del: Deletion, w: set<Key>, r: Reply)
    requires !stage.Reading? && !stage.Rereading? && StageWatched(id, stage, del, w) && NextDeletion(id, stage, del).Ask?
    ensures DeletionWatched(id, ResumeDeletion(id, stage, del, r), w)
  {
    if stage.AliasLegacy? && r.LegacyReply? {
      EachWatched(id, GroupLoop, del.(ownsLegacy := r.legacy.Some? && r.legacy.value.id == id, todo := del.groups), w);
    }
  }

  lemma StageKeyWatched(op: Op, stage: Stage, del: Deletion, w: set<Key>)
    requires op.DeleteUser? && BaseKeys(op) <= w && StageWatched(op.id, stage, del, w)
    requires NextDeletion(op.id, stage, del).Ask?
    ensures KeyOf(NextDeletion(op.id, stage, del).query) in w
  {
  }

  lemma StageReadsWatched(op: Op, stage: Stage, del: Deletion, w: set<Key>, r: Reply)
    requires op.DeleteUser? && BaseKeys(op) <= w && StageWatched(op.id, stage, del, w)
    requires NextDeletion(op.id, stage, del).Ask?
    ensures KeyOf(NextDeletion(op.id, stage, del).query) in w
    ensures WatchedAt(op, ResumeDeletion(op.id, stage, del, r), w)
  {
    StageKeyWatched(op, stage, del, w);
    if stage.Reading? || stage.Rereading? {
      LoopReadsWatched(op.id, stage, del, w, r);
    } else {
      OtherReadsWatched(op.id, stage, del, w, r);
    }
  }

  lemma ShortReadsWatched(op: Op, at: ShortPoint, w: set<Key>, r: Reply)
    requires WatchedAt(op, Short(at), w) && NextShort(op, at).Ask?
    ensures KeyOf(NextShort(op, at).query) in w && WatchedAt(op, ResumeShort(op, at, r), w)
  {
  }

  lemma FirstReadWatched(op: Op, w: set<Key>, r: Reply)
    requires BaseKeys(op) <= w
    ensures FirstRead(op).Ask? && KeyOf(FirstRead(op).query) in w && WatchedAt(op, ResumeFirst(op, r), w)
  {
  }

  /** No transaction reads a key it has not watched first, whatever replies it gets. */
  lemma ReadsAreWatched(op: Op, p: Point, w: set<Key>, r: Reply)
    requires WatchedAt(op, p, w)
    ensures Next(op, p).Ask? ==> KeyOf(Next(op, p).query) in w && WatchedAt(op, Resume(op, p, r), w)
    ensures Next(op, p).Watch? ==> WatchedAt(op, Resume(op, p, r), w + Next(op, p).keys)
  {
    match p
    case First => FirstReadWatched(op, w, r);
    case Short(at) =>
      if NextShort(op, at).Ask? {
        ShortReadsWatched(op, at, w, r);
      }
    case Deleting(stage, del) =>
      if op.DeleteUser? && NextDeletion(op.id, stage, del).Ask? {
        StageReadsWatched(op, stage, del, w, r);
      }
    case _ =>
  }
}
