/**
 When a transaction commits a write. `Allowed` states, on the store alone, what each operation asks for; a body
 run undisturbed ends in EXEC of a write exactly if it holds. User deletions have their own module.
 */
module DirectoryCommits {
  import opened Prelude
  import opened DirectoryState
  import opened DirectoryTransactions
  import opened DirectoryAtomic
  import opened DirectoryRuns

  // ----- Bodies end -----

  /** Whatever is iterated comes to rest if every step lowers a rank. */
  lemma {:induction false} ComesToRest(f: Point -> Point, running: Point -> bool, rank: Point -> nat, n: nat) returns (m: nat)
    requires forall k: nat :: running(Iterate(f, k)) ==> rank(Iterate(f, k + 1)) < rank(Iterate(f, k))
    ensures !running(Iterate(f, m))
    decreases rank(Iterate(f, n))
  {
    if running(Iterate(f, n)) {
      m := ComesToRest(f, running, rank, n + 1);
    } else {
      m := n;
    }
  }

  // ----- What each operation asks of the store -----

  predicate UpdateAllowed(d: Directory, id: string, user: User, previous: string)
  {
    && id in d.users && d.users[id].revision == user.revision && d.users[id].email == previous
    && (user.email != previous && user.email in d.emails ==> d.emails[user.email] == id)
  }

  predicate ConsumptionAllowed(d: Directory, id: string, password: string, version: nat)
  {
    && id in d.users && d.users[id].status == Active && !d.users[id].saml && d.users[id].mustChange
    && d.users[id].password == password && d.users[id].tokenVersion == version
  }

  /** A federated record keeps its home tenant and subject, and never loses a token version. */
  predicate FederatedAllowed(d: Directory, id: string, user: User)
  {
    && id in d.federated && d.federated[id].revision == user.revision && user.company.Some?
    && d.federated[id].company == user.company && d.federated[id].subject == user.subject
    && d.federated[id].tokenVersion <= user.tokenVersion
  }

  predicate ImportAllowed(d: Directory, email: string)
  {
    && d.marker.None? && email !in d.emails && email in d.legacyUsers
    && var legacy := d.legacyUsers[email];
       && (legacy.user.password != "" || legacy.user.saml) && legacy.user.email == email
       && legacy.id !in d.users && legacy.id !in d.federated
  }

  /** A patch that changes something, to valid texts and a name that is free up to case. */
  predicate PatchAllowed(d: Directory, group: string, patch: Patch, ifMatch: IfMatch)
  {
    && group in d.groups && MatchesVersion(ifMatch, d.groups[group].version)
    && var name := if patch.name.Some? then patch.name.value else d.groups[group].name;
       var description := if patch.description.Some? then patch.description.value else d.groups[group].description;
       && GroupText(name, description)
       && (name != d.groups[group].name || description != d.groups[group].description ||
           (patch.active.Some? && patch.active.value != d.groups[group].active))
       && (name != d.groups[group].name && Fold(name) in d.names ==> d.names[Fold(name)] == group)
  }

  predicate GroupDeletionAllowed(d: Directory, group: string, ifMatch: IfMatch)
  {
    && group in d.groups && MatchesVersion(ifMatch, d.groups[group].version)
    && |MembersOf(d, group)| <= MAXIMUM_RELATIONSHIPS && |TenantsOf(d, GroupPrincipal(group))| <= MAXIMUM_RELATIONSHIPS
  }

  predicate AdditionAllowed(d: Directory, group: string, member: string, ifMatch: IfMatch)
  {
    && group in d.groups && MatchesVersion(ifMatch, d.groups[group].version) && member in d.users
    && (group, member) !in d.members && |MembersOf(d, group)| < MAXIMUM_RELATIONSHIPS
  }

  predicate RemovalAllowed(d: Directory, group: string, member: string, ifMatch: IfMatch)
  {
    group in d.groups && MatchesVersion(ifMatch, d.groups[group].version) && (group, member) in d.members
  }

  /** The roles are not refused to a SAML user of another tenant, and differ from what is assigned under a version that matches. */
  predicate PutAllowed(d: Directory, tenant: string, principal: Principal, roles: seq<string>, ifMatch: IfMatch, trust: ForeignTrust)
  {
    && (if principal.UserPrincipal? then principal.id in d.users && !ForeignRefused(d.users[principal.id], tenant, roles, trust)
        else principal.id in d.groups)
    && (if (tenant, principal) in d.assignments
        then d.assignments[(tenant, principal)].roles != roles && MatchesVersion(ifMatch, d.assignments[(tenant, principal)].version)
        else ifMatch == Empty || ifMatch == Star)
  }

  predicate WithdrawalAllowed(d: Directory, tenant: string, principal: Principal, ifMatch: IfMatch)
  {
    (tenant, principal) in d.assignments && MatchesVersion(ifMatch, d.assignments[(tenant, principal)].version)
  }

  predicate EmailDeletionAllowed(d: Directory, email: string, id: string)
  {
    && email in d.emails && d.emails[email] == id && id in d.users && d.users[id].email == email
    && |GroupsOf(d, id)| <= MAXIMUM_RELATIONSHIPS && |TenantsOf(d, UserPrincipal(id))| <= MAXIMUM_RELATIONSHIPS
    && GroupsOf(d, id) <= d.groups.Keys
  }

  /** The store lets the operation write. */
  predicate Allowed(d: Directory, op: Op)
    requires !op.DeleteUser?
  {
    match op
    case UpdateUser(id, user, previous) => UpdateAllowed(d, id, user, previous)
    case ConsumePassword(id, password, version, _) => ConsumptionAllowed(d, id, password, version)
    case UpdateFederated(id, user) => FederatedAllowed(d, id, user)
    case ImportLegacy(email) => ImportAllowed(d, email)
    case PatchGroup(group, patch, ifMatch) => PatchAllowed(d, group, patch, ifMatch)
    case DeleteGroup(group, ifMatch) => GroupDeletionAllowed(d, group, ifMatch)
    case ChangeMember(group, member, ifMatch, add) =>
      if add then AdditionAllowed(d, group, member, ifMatch) else RemovalAllowed(d, group, member, ifMatch)
    case PutAssignment(tenant, principal, roles, ifMatch, trust) => PutAllowed(d, tenant, principal, roles, ifMatch, trust)
    case DeleteAssignment(tenant, principal, ifMatch) => WithdrawalAllowed(d, tenant, principal, ifMatch)
    case DeleteByEmail(email, id, _) => EmailDeletionAllowed(d, email, id)
  }

  // ----- What refusals say -----

  predicate Missing(d: Directory, op: Op)
  {
    match op
    case UpdateUser(id, _, _) => id !in d.users
    case UpdateFederated(id, _) => id !in d.federated
    case ImportLegacy(email) => email in d.legacyUsers && d.legacyUsers[email].user.password == "" && !d.legacyUsers[email].user.saml
    case PatchGroup(group, _, _) => group !in d.groups
    case ChangeMember(group, member, _, add) => group !in d.groups || (add && member !in d.users)
    case PutAssignment(_, principal, _, _, _) => if principal.UserPrincipal? then principal.id !in d.users else principal.id !in d.groups
    case _ => false
  }

  /** The version asked for is not the one stored, or a new group name is another's. */
  predicate Conflicts(d: Directory, op: Op)
  {
    match op
    case UpdateUser(id, user, _) => id in d.users && d.users[id].revision != user.revision
    case UpdateFederated(id, user) => id in d.federated && d.federated[id].revision != user.revision
    case PatchGroup(group, patch, ifMatch) =>
      && group in d.groups
      && (!MatchesVersion(ifMatch, d.groups[group].version) ||
          (patch.name.Some? && Fold(patch.name.value) in d.names && d.names[Fold(patch.name.value)] != group))
    case DeleteGroup(group, ifMatch) => group in d.groups && !MatchesVersion(ifMatch, d.groups[group].version)
    case ChangeMember(group, _, ifMatch, _) => group in d.groups && !MatchesVersion(ifMatch, d.groups[group].version)
    case PutAssignment(tenant, principal, _, ifMatch, _) =>
      if (tenant, principal) in d.assignments then !MatchesVersion(ifMatch, d.assignments[(tenant, principal)].version)
      else ifMatch != Empty && ifMatch != Star
    case DeleteAssignment(tenant, principal, ifMatch) =>
      (tenant, principal) in d.assignments && !MatchesVersion(ifMatch, d.assignments[(tenant, principal)].version)
    case _ => false
  }

  /** The store breaks a rule of the directory, or would outgrow a bound. */
  predicate Breaches(d: Directory, op: Op)
  {
    match op
    case UpdateFederated(id, user) =>
      && id in d.federated
      && (d.federated[id].company.None? || d.federated[id].company != user.company || d.federated[id].subject != user.subject ||
          user.tokenVersion < d.federated[id].tokenVersion)
    case ImportLegacy(email) =>
      || (d.marker.Some? && d.marker.value != BACKFILL_VERSION)
      || (email in d.legacyUsers &&
          (d.legacyUsers[email].user.email != email || d.legacyUsers[email].id in d.users || d.legacyUsers[email].id in d.federated))
    case DeleteGroup(group, _) =>
      |MembersOf(d, group)| > MAXIMUM_RELATIONSHIPS || |TenantsOf(d, GroupPrincipal(group))| > MAXIMUM_RELATIONSHIPS
    case ChangeMember(group, _, _, add) => add && |MembersOf(d, group)| >= MAXIMUM_RELATIONSHIPS
    case DeleteByEmail(email, id, _) =>
      || id !in d.users || d.users[id].email != email || |GroupsOf(d, id)| > MAXIMUM_RELATIONSHIPS
      || |TenantsOf(d, UserPrincipal(id))| > MAXIMUM_RELATIONSHIPS || !(GroupsOf(d, id) <= d.groups.Keys)
    case _ => false
  }

  /** An error names something that is true of the store. */
  predicate ErrorTrue(d: Directory, op: Op, e: Error)
    requires !op.DeleteUser?
  {
    match e
    case NotFound => Missing(d, op)
    case VersionConflict => Conflicts(d, op)
    case Corrupt => Breaches(d, op)
    case EmailExists => op.UpdateUser? && op.user.email in d.emails && d.emails[op.user.email] != op.id
    case InvalidCredentials => op.ConsumePassword? && !Allowed(d, op)
    case InvalidTenant =>
      && op.PutAssignment? && op.principal.UserPrincipal? && op.principal.id in d.users
      && ForeignRefused(d.users[op.principal.id], op.tenant, op.roles, op.trust)
    case InvalidArgument =>
      && op.PatchGroup? && op.group in d.groups
      && var after := Patched(d.groups[op.group], op.patch); !GroupText(after.name, after.description)
    case _ => false
  }

  /** There is nothing to do. */
  predicate AlreadyDone(d: Directory, op: Op)
  {
    match op
    case ImportLegacy(email) => d.marker == Some(BACKFILL_VERSION) || email !in d.legacyUsers
    case PatchGroup(group, patch, _) => group in d.groups && Patched(d.groups[group], patch) == d.groups[group]
    case DeleteGroup(group, _) => group !in d.groups
    case ChangeMember(group, member, _, add) => group in d.groups && ((group, member) in d.members <==> add)
    case PutAssignment(tenant, principal, roles, _, _) =>
      (tenant, principal) in d.assignments && d.assignments[(tenant, principal)].roles == roles
    case DeleteAssignment(tenant, principal, _) => (tenant, principal) !in d.assignments
    case DeleteByEmail(email, _, _) => email !in d.emails
    case _ => false
  }

  /** What was read before the WATCH has changed since. */
  predicate Outdated(d: Directory, op: Op)
  {
    match op
    case UpdateUser(id, _, previous) => id in d.users && d.users[id].email != previous
    case ImportLegacy(email) => email in d.emails
    case DeleteByEmail(email, id, _) => email in d.emails && d.emails[email] != id
    case _ => false
  }

  // ----- What a body has found out so far -----

  predicate Found(d: Directory, group: string, before: Group)
  {
    group in d.groups && d.groups[group] == before
  }

  ghost predicate ToldEmail(d: Directory, email: string, id: string, at: ShortPoint)
  {
    match at
    case EmailUser => email in d.emails && d.emails[email] == id
    case EmailGroups(u) => EmailRead(d, email, id, u)
    case EmailTenants(u, items) => EmailRead(d, email, id, u) && items == GroupsOf(d, id) && |items| <= MAXIMUM_RELATIONSHIPS
    case EmailEach(u, tenants, todo, bumped) =>
      && EmailRead(d, email, id, u) && |GroupsOf(d, id)| <= MAXIMUM_RELATIONSHIPS
      && |TenantsOf(d, UserPrincipal(id))| <= MAXIMUM_RELATIONSHIPS
      && todo != {} && todo <= GroupsOf(d, id) && GroupsOf(d, id) - todo <= d.groups.Keys
    case _ => false
  }

  predicate ToldImport(d: Directory, email: string, step: nat, legacy: Option<LegacyUser>)
  {
    && step <= 4 && d.marker.None? && (step >= 1 ==> email !in d.emails)
    && (step >= 2 ==>
          && legacy.Some? && email in d.legacyUsers && d.legacyUsers[email] == legacy.value
          && (legacy.value.user.password != "" || legacy.value.user.saml) && legacy.value.user.email == email)
    && (step >= 3 ==> legacy.value.id !in d.users)
    && (step >= 4 ==> legacy.value.id !in d.federated)
  }

  /** The checks behind a point have succeeded, and the locals are what the store holds. */
  ghost predicate Told(d: Directory, op: Op, at: ShortPoint)
  {
    match op
    case UpdateUser(id, user, previous) =>
      && at.CheckOwner? && id in d.users && d.users[id].revision == user.revision && d.users[id].email == previous
      && user.email != previous
    case ImportLegacy(email) => at.CheckImport? && ToldImport(d, email, at.step, at.legacy)
    case PatchGroup(group, patch, ifMatch) =>
      && at.CheckName? && Found(d, group, at.before) && at.after == Patched(at.before, patch) && at.after.name != at.before.name
      && GroupText(at.after.name, at.after.description) && MatchesVersion(ifMatch, at.before.version)
    case DeleteGroup(group, ifMatch) =>
      && (at.ReadGroupMembers? || at.ReadGroupTenants?) && Found(d, group, at.before) && MatchesVersion(ifMatch, at.before.version)
      && (at.ReadGroupTenants? ==> |MembersOf(d, group)| <= MAXIMUM_RELATIONSHIPS)
    case ChangeMember(group, member, ifMatch, add) =>
      && (at.MemberGroup? || at.MemberPresent? || at.MemberCount?)
      && (add ==> member in d.users) && (!add ==> at.MemberPresent?)
      && (!at.MemberGroup? ==> Found(d, group, at.before))
      && (at.MemberCount? ==> (group, member) !in d.members && MatchesVersion(ifMatch, at.before.version))
    case PutAssignment(tenant, principal, roles, _, trust) =>
      && at.ReadAssignment?
      && (if principal.UserPrincipal? then principal.id in d.users && !ForeignRefused(d.users[principal.id], tenant, roles, trust)
          else principal.id in d.groups)
    case DeleteByEmail(email, id, _) => ToldEmail(d, email, id, at)
    case _ => false
  }

  /** At the end of a body the store has decided: a write exactly if it is allowed. */
  ghost predicate Decided(d: Directory, op: Op, p: Point)
    requires !op.DeleteUser?
  {
    match p
    case Start => true
    case First => true
    case Short(at) => Told(d, op, at)
    case Ready(plan) => plan != NoWrites && Allowed(d, op)
    case Halted(e) => !Allowed(d, op) && ErrorTrue(d, op, e)
    case Retry => !Allowed(d, op) && Outdated(d, op)
    case Finished => !Allowed(d, op) && AlreadyDone(d, op)
    case _ => false
  }

  /** An upper bound on the commands left. */
  ghost function Left(d: Directory, op: Op, p: Point): nat
  {
    var base := if op.DeleteByEmail? then |GroupsOf(d, op.id)| else 0;
    match p
    case Start => base + 12
    case First => base + 11
    case Short(at) => LeftShort(d, at, base)
    case _ => 0
  }

  ghost function LeftShort(d: Directory, at: ShortPoint, base: nat): nat
  {
    match at
    case CheckImport(step, _) => if step <= 4 then 6 - step else 0
    case MemberGroup => 3
    case MemberPresent(_) => 2
    case ReadGroupMembers(_) => 2
    case EmailUser => base + 5
    case EmailGroups(_) => base + 4
    case EmailTenants(_, items) => |items| + 3
    case EmailEach(_, _, todo, _) => |todo| + 1
    case _ => 1
  }

  // ----- One command at a time -----

  ghost predicate Advances(d: Directory, op: Op, p: Point, q: Point)
    requires !op.DeleteUser?
  {
    Decided(d, op, q) && Left(d, op, q) < Left(d, op, p)
  }

  lemma FirstUserDecides(d: Directory, op: Op, r: Reply)
    requires op.UpdateUser? || op.ConsumePassword? || op.UpdateFederated? || op.ImportLegacy?
    requires r == Answer(d, FirstRead(op).query)
    ensures Advances(d, op, First, ResumeFirst(op, r))
  {
  }

  lemma FirstGroupDecides(d: Directory, op: Op, r: Reply)
    requires op.PatchGroup? || op.DeleteGroup? || op.ChangeMember?
    requires r == Answer(d, FirstRead(op).query)
    ensures Advances(d, op, First, ResumeFirst(op, r))
  {
  }

  lemma FirstOtherDecides(d: Directory, op: Op, r: Reply)
    requires op.PutAssignment? || op.DeleteAssignment? || op.DeleteByEmail?
    requires r == Answer(d, FirstRead(op).query)
    ensures Advances(d, op, First, ResumeFirst(op, r))
  {
  }

  lemma UpdateDecides(d: Directory, op: Op, at: ShortPoint)
    requires op.UpdateUser? && Told(d, op, at)
    ensures NextShort(op, at).Ask? && Advances(d, op, Short(at), ResumeShort(op, at, Answer(d, NextShort(op, at).query)))
  {
  }

  lemma ImportFindsLegacy(d: Directory, op: Op, at: ShortPoint)
    requires op.ImportLegacy? && Told(d, op, at) && at.step <= 1
    ensures NextShort(op, at).Ask? && Advances(d, op, Short(at), ResumeShort(op, at, Answer(d, NextShort(op, at).query)))
  {
  }

  lemma ImportFindsUnused(d: Directory, op: Op, at: ShortPoint)
    requires op.ImportLegacy? && Told(d, op, at) && at.step >= 2
    ensures NextShort(op, at).Ask? && Advances(d, op, Short(at), ResumeShort(op, at, Answer(d, NextShort(op, at).query)))
  {
  }

  lemma ImportDecides(d: Directory, op: Op, at: ShortPoint)
    requires op.ImportLegacy? && Told(d, op, at)
    ensures NextShort(op, at).Ask? && Advances(d, op, Short(at), ResumeShort(op, at, Answer(d, NextShort(op, at).query)))
  {
    if at.step <= 1 {
      ImportFindsLegacy(d, op, at);
    } else {
      ImportFindsUnused(d, op, at);
    }
  }

  lemma GroupDecides(d: Directory, op: Op, at: ShortPoint)
    requires (op.PatchGroup? || op.DeleteGroup?) && Told(d, op, at)
    ensures NextShort(op, at).Ask? && Advances(d, op, Short(at), ResumeShort(op, at, Answer(d, NextShort(op, at).query)))
  {
  }

  lemma MemberDecides(d: Directory, op: Op, at: ShortPoint)
    requires op.ChangeMember? && Told(d, op, at)
    ensures NextShort(op, at).Ask? && Advances(d, op, Short(at), ResumeShort(op, at, Answer(d, NextShort(op, at).query)))
  {
  }

  lemma PutDecides(d: Directory, op: Op, at: ShortPoint)
    requires op.PutAssignment? && Told(d, op, at)
    ensures NextShort(op, at).Ask? && Advances(d, op, Short(at), ResumeShort(op, at, Answer(d, NextShort(op, at).query)))
  {
  }

  lemma EmailDecides(d: Directory, op: Op, at: ShortPoint)
    requires op.DeleteByEmail? && !at.EmailEach? && Told(d, op, at)
    ensures NextShort(op, at).Ask? && Advances(d, op, Short(at), ResumeShort(op, at, Answer(d, NextShort(op, at).query)))
  {
    if at.EmailTenants? {
      assert at.items - at.items == {};
    }
  }

  lemma OneLess(all: set<string>, todo: set<string>, g: string, known: set<string>)
    requires todo <= all && g in todo && all - todo <= known
    ensures |todo - {g}| == |todo| - 1 && todo - {g} <= all
    ensures g in known ==> all - (todo - {g}) <= known
  {
    assert all - (todo - {g}) == (all - todo) + {g};
  }

  lemma EmailEachDecides(d: Directory, op: Op, at: ShortPoint)
    requires op.DeleteByEmail? && at.EmailEach? && Told(d, op, at)
    ensures NextShort(op, at).Ask? && Advances(d, op, Short(at), ResumeShort(op, at, Answer(d, NextShort(op, at).query)))
  {
    OneLess(GroupsOf(d, op.id), at.todo, Pick(at.todo), d.groups.Keys);
  }

  lemma ShortDecides(d: Directory, op: Op, at: ShortPoint)
    requires !op.DeleteUser? && Told(d, op, at)
    ensures NextShort(op, at).Ask? && Advances(d, op, Short(at), ResumeShort(op, at, Answer(d, NextShort(op, at).query)))
  {
    match op
    case UpdateUser(_, _, _) => UpdateDecides(d, op, at);
    case ImportLegacy(_) => ImportDecides(d, op, at);
    case PatchGroup(_, _, _) => GroupDecides(d, op, at);
    case DeleteGroup(_, _) => GroupDecides(d, op, at);
    case ChangeMember(_, _, _, _) => MemberDecides(d, op, at);
    case PutAssignment(_, _, _, _, _) => PutDecides(d, op, at);
    case DeleteByEmail(_, _, _) => if at.EmailEach? { EmailEachDecides(d, op, at); } else { EmailDecides(d, op, at); }
  }

  lemma FirstDecides(d: Directory, op: Op)
    requires !op.DeleteUser?
    ensures FirstRead(op).Ask? && Advances(d, op, First, ResumeFirst(op, Answer(d, FirstRead(op).query)))
  {
    var r := Answer(d, FirstRead(op).query);
    if op.UpdateUser? || op.ConsumePassword? || op.UpdateFederated? || op.ImportLegacy? {
      FirstUserDecides(d, op, r);
    } else if op.PatchGroup? || op.DeleteGroup? || op.ChangeMember? {
      FirstGroupDecides(d, op, r);
    } else {
      FirstOtherDecides(d, op, r);
    }
  }

  lemma StepDecides(d: Directory, op: Op, p: Point)
    requires !op.DeleteUser? && Decided(d, op, p)
    ensures Decided(d, op, Advance(op, p, d))
    ensures Running(op, p) ==> Left(d, op, Advance(op, p, d)) < Left(d, op, p)
  {
    match p
    case First => FirstDecides(d, op);
    case Short(at) => ShortDecides(d, op, at);
    case _ =>
  }

  // ----- Whole bodies -----

  lemma RunDecides(d: Directory, op: Op, n: nat)
    requires !op.DeleteUser?
    ensures Decided(d, op, RunN(op, d, n))
  {
    var I := (p: Point, w: set<Key>) => Decided(d, op, p);
    forall p, w | I(p, w)
      ensures I(Machine(op, d)(p), w + KeysBy(op)(p))
    {
      StepDecides(d, op, p);
    }
    IterateKeeps(Machine(op, d), KeysBy(op), I, n);
    assert I(RunN(op, d, n), WatchN(op, d, n));
  }

  lemma BodyEnds(d: Directory, op: Op) returns (m: nat)
    requires !op.DeleteUser?
    ensures !Running(op, RunN(op, d, m))
  {
    var running, rank := (p: Point) => Running(op, p), (p: Point) => Left(d, op, p);
    forall k: nat | running(Iterate(Machine(op, d), k))
      ensures rank(Iterate(Machine(op, d), k + 1)) < rank(Iterate(Machine(op, d), k))
    {
      RunDecides(d, op, k);
      RunStep(op, d, k);
      StepDecides(d, op, RunN(op, d, k));
    }
    m := ComesToRest(Machine(op, d), running, rank, 0);
  }

  /** Run undisturbed on a store, an operation commits a write exactly if the store allows it. */
  lemma CommitsIffAllowed(d: Directory, op: Op)
    requires !op.DeleteUser?
    ensures (exists plan :: Commits(op, d, plan) && plan != NoWrites) <==> Allowed(d, op)
  {
    if Allowed(d, op) {
      var m := BodyEnds(d, op);
      RunDecides(d, op, m);
      var p := RunN(op, d, m);
      assert p.Ready? && Commits(op, d, p.plan);
    }
    if plan :| Commits(op, d, plan) && plan != NoWrites {
      var n :| RunN(op, d, n) == Ready(plan);
      RunDecides(d, op, n);
    }
  }

  /** A body that ends without a write says why, and what it says is true of the store. */
  lemma RefusalsTrue(d: Directory, op: Op, n: nat)
    requires !op.DeleteUser?
    ensures
      var p := RunN(op, d, n);
      && (p.Halted? ==> !Allowed(d, op) && ErrorTrue(d, op, p.error))
      && (p.Finished? ==> !Allowed(d, op) && AlreadyDone(d, op))
      && (p.Retry? ==> !Allowed(d, op) && Outdated(d, op))
  {
    RunDecides(d, op, n);
  }
}
