/** Conditional writes: what a transaction was told to expect still holds of the store when it commits. */
module DirectoryConditions {
  import opened Prelude
  import opened DirectoryState
  import opened DirectoryTransactions
  import opened DirectoryAtomic
  import opened DirectoryRuns

  /** An If-Match that a version satisfies, or for a new assignment one that expects none. */
  predicate CreatesOrMatches(ifMatch: IfMatch, next: nat)
  {
    (next == 1 && (ifMatch == Empty || ifMatch == Star)) || (next >= 1 && MatchesVersion(ifMatch, next - 1))
  }

  /** A SAML user gets no foreign roles without trust. */
  predicate TrustHonoured(d: Directory, op: Op)
    requires op.PutAssignment?
  {
    op.principal.UserPrincipal? ==>
      op.principal.id in d.users && !ForeignRefused(d.users[op.principal.id], op.tenant, op.roles, op.trust)
  }

  predicate UserWriteHonoured(d: Directory, op: Op, plan: Plan)
  {
    && (plan.WriteUser? ==> op.UpdateUser? && plan == WriteUser(op.id, op.user.(revision := op.user.revision + 1), op.previousEmail))
    && (plan.WriteSecret? ==>
          && op.ConsumePassword? && plan.id == op.id && op.id in d.users && plan.user.password == op.replacement
          && d.users[op.id].status == Active && !d.users[op.id].saml
          && d.users[op.id].password == op.expectedPassword && d.users[op.id].tokenVersion == op.expectedVersion)
    && (plan.WriteFederated? ==>
          && op.UpdateFederated? && plan == WriteFederated(op.id, op.user.(revision := op.user.revision + 1)) && op.id in d.federated
          && op.user.company == d.federated[op.id].company && op.user.subject == d.federated[op.id].subject)
  }

  predicate GroupWriteHonoured(op: Op, plan: Plan)
  {
    && (plan.WriteGroup? ==>
          && op.PatchGroup? && plan.group == op.group && plan.after == Bump(Patched(plan.before, op.patch))
          && MatchesVersion(op.ifMatch, plan.before.version))
    && (plan.EraseGroup? ==> op.DeleteGroup? && plan.group == op.group && MatchesVersion(op.ifMatch, plan.before.version))
    && (plan.WriteMember? ==>
          && op.ChangeMember? && plan.group == op.group && plan.member == op.member && plan.add == op.add
          && plan.after.version >= 1 && MatchesVersion(op.ifMatch, plan.after.version - 1))
  }

  predicate AssignmentWriteHonoured(d: Directory, op: Op, plan: Plan)
  {
    && (plan.WriteAssignment? ==>
          && op.PutAssignment? && plan.tenant == op.tenant && plan.principal == op.principal && plan.assignment.roles == op.roles
          && CreatesOrMatches(op.ifMatch, plan.assignment.version) && TrustHonoured(d, op))
    && (plan.EraseAssignment? ==>
          && op.DeleteAssignment? && plan == EraseAssignment(op.tenant, op.principal) && (op.tenant, op.principal) in d.assignments
          && MatchesVersion(op.ifMatch, d.assignments[(op.tenant, op.principal)].version))
  }

  /** The plan does what its operation was asked to do, under the conditions it was given. */
  predicate Honoured(op: Op, d: Directory, plan: Plan)
  {
    && UserWriteHonoured(d, op, plan) && GroupWriteHonoured(op, plan) && AssignmentWriteHonoured(d, op, plan)
    && (plan.EraseByEmail? ==> op.DeleteByEmail? && plan.email == op.email && plan.id == op.id)
    && (plan.EraseUser? ==> op.DeleteUser? && plan.id == op.id)
    && (plan.WriteImport? ==>
          && op.ImportLegacy? && op.email in d.legacyUsers
          && plan == WriteImport(d.legacyUsers[op.email].id, d.legacyUsers[op.email].user))
  }

  predicate ShortHonoured(op: Op, d: Directory, at: ShortPoint)
  {
    && (op.PatchGroup? && at.CheckName? ==> at.after == Patched(at.before, op.patch) && MatchesVersion(op.ifMatch, at.before.version))
    && (op.DeleteGroup? && at.ReadGroupMembers? ==> MatchesVersion(op.ifMatch, at.before.version))
    && (op.DeleteGroup? && at.ReadGroupTenants? ==> MatchesVersion(op.ifMatch, at.before.version))
    && (op.ChangeMember? && at.MemberCount? ==> op.add && MatchesVersion(op.ifMatch, at.before.version))
    && (op.PutAssignment? && at.ReadAssignment? ==> TrustHonoured(d, op))
    && (op.ImportLegacy? && at.CheckImport? && at.step >= 2 ==> at.legacy.Some? && at.legacy == Lookup(d.legacyUsers, op.email))
  }

  predicate HonouredAt(op: Op, p: Point, d: Directory)
  {
    (p.Ready? ==> Honoured(op, d, p.plan)) && (p.Short? ==> ShortHonoured(op, d, p.at))
  }

  lemma FirstHonoured(op: Op, d: Directory, r: Reply)
    requires Undisturbed(op, First, d, r)
    ensures HonouredAt(op, ResumeFirst(op, r), d)
  {
  }

  lemma GroupHonoured(op: Op, at: ShortPoint, d: Directory, r: Reply)
    requires ShortHonoured(op, d, at) && (op.PatchGroup? || op.DeleteGroup? || op.ChangeMember?)
    ensures HonouredAt(op, ResumeShort(op, at, r), d)
  {
  }

  lemma OtherHonoured(op: Op, at: ShortPoint, d: Directory, r: Reply)
    requires ShortHonoured(op, d, at) && !op.PatchGroup? && !op.DeleteGroup? && !op.ChangeMember?
    requires Undisturbed(op, Short(at), d, r)
    ensures HonouredAt(op, ResumeShort(op, at, r), d)
  {
  }

  lemma ActorHonoured(op: Op, check: ActorPoint, d: Directory, r: Reply)
    requires op.DeleteUser?
    ensures HonouredAt(op, ResumeActor(op, check, r), d)
  {
  }

  lemma StepHonoured(op: Op, p: Point, d: Directory, r: Reply)
    requires HonouredAt(op, p, d) && Undisturbed(op, p, d, r)
    ensures HonouredAt(op, Resume(op, p, r), d)
  {
    match p
    case First => FirstHonoured(op, d, r);
    case Short(at) =>
      if op.PatchGroup? || op.DeleteGroup? || op.ChangeMember? {
        GroupHonoured(op, at, d, r);
      } else {
        OtherHonoured(op, at, d, r);
      }
    case Actor(check) =>
      if op.DeleteUser? {
        ActorHonoured(op, check, d, r);
      }
    case Deleting(stage, del) =>
      if op.DeleteUser? {
        DeletionTarget(op.id, stage, del, r);
      }
    case _ =>
  }

  lemma AdvanceHonoured(op: Op, p: Point, d: Directory)
    requires HonouredAt(op, p, d)
    ensures HonouredAt(op, Advance(op, p, d), d)
  {
    if Running(op, p) {
      StepHonoured(op, p, d, ReplyAt(op, p, d));
    }
  }

  lemma RunHonoured(op: Op, d: Directory, n: nat)
    ensures HonouredAt(op, RunN(op, d, n), d)
  {
    var I := (p: Point, w: set<Key>) => HonouredAt(op, p, d);
    forall p, w | I(p, w)
      ensures I(Machine(op, d)(p), w + KeysBy(op)(p))
    {
      AdvanceHonoured(op, p, d);
    }
    IterateKeeps(Machine(op, d), KeysBy(op), I, n);
    assert I(RunN(op, d, n), WatchN(op, d, n));
  }

  /**
   In every interleaving a committed write is the one its caller asked for, and the version, password or trust its
   caller relied on is that of the store it replaces: no update is lost and no check is stale.
   */
  lemma CommitHonours(states: seq<Sys>, actions: seq<Action>, i: nat, c: int)
    requires IsRun(states, actions) && i < |actions| && actions[i] == Commit(c)
    ensures c in states[i].clients && states[i].clients[c].point.Ready?
    ensures Honoured(states[i].clients[c].op, states[i].d, states[i].clients[c].point.plan)
    ensures Fits(states[i].d, states[i].clients[c].point.plan)
  {
    CommitIsAtomic(states, actions, i, c);
    var client, d := states[i].clients[c], states[i].d;
    var n :| RunN(client.op, d, n) == Ready(client.point.plan);
    RunHonoured(client.op, d, n);
  }
}
