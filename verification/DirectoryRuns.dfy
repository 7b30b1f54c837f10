/**
 Clients of one Redis server running directory transactions concurrently. Each client sends one
 command per step; scripts run in one step; EXEC succeeds only while no watched key has changed.
 */
module DirectoryRuns {
  import opened Prelude
  import opened DirectoryState
  import opened DirectoryTransactions
  import opened DirectoryAtomic

  // ----- A body run without interruption -----

  ghost function ReplyAt(op: Op, p: Point, d: Directory): Reply
  {
    if Next(op, p).Ask? then Answer(d, Next(op, p).query) else Ack
  }

  ghost predicate Running(op: Op, p: Point)
  {
    Next(op, p).Ask? || Next(op, p).Watch?
  }

  ghost function Advance(op: Op, p: Point, d: Directory): Point
  {
    if Running(op, p) then Resume(op, p, ReplyAt(op, p, d)) else p
  }

  ghost function KeysAt(op: Op, p: Point): set<Key>
  {
    if Next(op, p).Watch? then Next(op, p).keys else {}
  }

  ghost function Iterate(f: Point -> Point, n: nat): Point
  {
    if n == 0 then Start else f(Iterate(f, n - 1))
  }

  ghost function Collect(f: Point -> Point, keys: Point -> set<Key>, n: nat): set<Key>
  {
    if n == 0 then {} else Collect(f, keys, n - 1) + keys(Iterate(f, n - 1))
  }

  ghost function Machine(op: Op, d: Directory): Point -> Point
  {
    p => Advance(op, p, d)
  }

  ghost function KeysBy(op: Op): Point -> set<Key>
  {
    p => KeysAt(op, p)
  }

  /** The point after `n` commands of the body, all answered by the same store, and the keys watched by then. */
  ghost function RunN(op: Op, d: Directory, n: nat): Point
  {
    Iterate(Machine(op, d), n)
  }

  ghost function WatchN(op: Op, d: Directory, n: nat): set<Key>
  {
    Collect(Machine(op, d), KeysBy(op), n)
  }

  lemma RunStep(op: Op, d: Directory, n: nat)
    ensures RunN(op, d, n + 1) == Advance(op, RunN(op, d, n), d)
    ensures WatchN(op, d, n + 1) == WatchN(op, d, n) + KeysAt(op, RunN(op, d, n))
  {
  }

  // Iteration, whatever is iterated.

  lemma {:induction false} IterateKeeps(f: Point -> Point, keys: Point -> set<Key>, I: (Point, set<Key>) -> bool, n: nat)
    requires I(Start, {}) && forall p, w :: I(p, w) ==> I(f(p), w + keys(p))
    ensures I(Iterate(f, n), Collect(f, keys, n))
  {
    if n > 0 {
      IterateKeeps(f, keys, I, n - 1);
    }
  }

  lemma {:induction false} IterateSame(f: Point -> Point, g: Point -> Point, keys: Point -> set<Key>, n: nat)
    requires forall k :: 0 <= k < n ==> f(Iterate(f, k)) == g(Iterate(f, k))
    ensures Iterate(g, n) == Iterate(f, n) && Collect(g, keys, n) == Collect(f, keys, n)
  {
    if n > 0 {
      IterateSame(f, g, keys, n - 1);
    }
  }

  lemma {:induction false} CollectGrows(f: Point -> Point, keys: Point -> set<Key>, k: nat, n: nat)
    requires k <= n
    ensures Collect(f, keys, k) <= Collect(f, keys, n)
  {
    if k < n {
      CollectGrows(f, keys, k, n - 1);
    }
  }

  lemma {:induction false} IterateStops(f: Point -> Point, n: nat, m: nat)
    requires n <= m && f(Iterate(f, n)) == Iterate(f, n)
    ensures Iterate(f, m) == Iterate(f, n)
  {
    if n < m {
      IterateStops(f, n, m - 1);
    }
  }

  /** Running the whole body at once on `d` ends in EXEC of `plan`. */
  ghost predicate Commits(op: Op, d: Directory, plan: Plan)
  {
    exists n :: RunN(op, d, n) == Ready(plan)
  }

  lemma RunStops(op: Op, d: Directory, n: nat, m: nat)
    requires n <= m && !Running(op, RunN(op, d, n))
    ensures RunN(op, d, m) == RunN(op, d, n)
  {
    IterateStops(Machine(op, d), n, m);
  }

  /** A body has one outcome per store. */
  lemma CommitsOnce(op: Op, d: Directory, plan: Plan, other: Plan)
    requires Commits(op, d, plan) && Commits(op, d, other)
    ensures plan == other
  {
    var n :| RunN(op, d, n) == Ready(plan);
    var m :| RunN(op, d, m) == Ready(other);
    if n <= m {
      RunStops(op, d, n, m);
    } else {
      RunStops(op, d, m, n);
    }
  }

  lemma AdvanceWatched(op: Op, p: Point, d: Directory, w: set<Key>)
    requires WatchedAt(op, p, w)
    ensures WatchedAt(op, Advance(op, p, d), w + KeysAt(op, p))
  {
    ReadsAreWatched(op, p, w, ReplyAt(op, p, d));
    assert w + {} == w;
  }

  lemma RunWatched(op: Op, d: Directory, n: nat)
    ensures WatchedAt(op, RunN(op, d, n), WatchN(op, d, n))
  {
    var I := (p: Point, w: set<Key>) => WatchedAt(op, p, w);
    forall p, w | I(p, w)
      ensures I(Machine(op, d)(p), w + KeysBy(op)(p))
    {
      AdvanceWatched(op, p, d, w);
    }
    IterateKeeps(Machine(op, d), KeysBy(op), I, n);
  }

  ghost predicate Good(op: Op, p: Point, d: Directory, w: set<Key>)
  {
    WatchedAt(op, p, w) && Faithful(op, p, d) && Authorised(op, p, d)
  }

  lemma AdvanceGood(op: Op, p: Point, d: Directory, w: set<Key>)
    requires Admissible(op) && Good(op, p, d, w)
    ensures Good(op, Advance(op, p, d), d, w + KeysAt(op, p))
  {
    AdvanceWatched(op, p, d, w);
    AdvanceFaithful(op, p, d);
    AdvanceAuthorised(op, p, d, w);
  }

  lemma AdvanceFaithful(op: Op, p: Point, d: Directory)
    requires Admissible(op) && Faithful(op, p, d)
    ensures Faithful(op, Advance(op, p, d), d)
  {
    if Running(op, p) {
      StepFaithful(op, p, d, ReplyAt(op, p, d));
    }
  }

  lemma AdvanceAuthorised(op: Op, p: Point, d: Directory, w: set<Key>)
    requires Admissible(op) && WatchedAt(op, p, w) && Authorised(op, p, d)
    ensures Authorised(op, Advance(op, p, d), d)
  {
    if Running(op, p) {
      StepAuthorised(op, p, d, ReplyAt(op, p, d), w);
    }
  }

  lemma RunFaithful(op: Op, d: Directory, n: nat)
    requires Admissible(op)
    ensures Faithful(op, RunN(op, d, n), d) && Authorised(op, RunN(op, d, n), d)
  {
    var I := (p: Point, w: set<Key>) => Good(op, p, d, w);
    forall p, w | I(p, w)
      ensures I(Machine(op, d)(p), w + KeysBy(op)(p))
    {
      AdvanceGood(op, p, d, w);
    }
    IterateKeeps(Machine(op, d), KeysBy(op), I, n);
    assert I(RunN(op, d, n), WatchN(op, d, n));
  }

  /** The plan a body ends with fits the store it ran on. */
  lemma CommitsFit(op: Op, d: Directory, plan: Plan)
    requires Admissible(op) && Commits(op, d, plan)
    ensures Fits(d, plan)
    ensures op.DeleteUser? && plan != NoWrites ==> DeletionAllowed(d, op)
    ensures plan.EraseUser? ==> op.DeleteUser? && op.id == plan.id
  {
    var n :| RunN(op, d, n) == Ready(plan);
    RunFaithful(op, d, n);
  }

  // ----- WATCH detects every change that could alter the run -----

  ghost predicate SameOn(d: Directory, d': Directory, keys: set<Key>)
  {
    forall q :: KeyOf(q) in keys ==> Answer(d, q) == Answer(d', q)
  }

  lemma AnswersSame(d: Directory, d': Directory, keys: set<Key>, q: Query)
    requires SameOn(d, d', keys) && KeyOf(q) in keys
    ensures Answer(d, q) == Answer(d', q)
  {
  }

  lemma AdvanceSame(op: Op, p: Point, d: Directory, d': Directory, w: set<Key>)
    requires WatchedAt(op, p, w) && SameOn(d, d', w)
    ensures Advance(op, p, d) == Advance(op, p, d')
  {
    ReadsAreWatched(op, p, w, Ack);
    var next := Next(op, p);
    if next.Ask? {
      AnswersSame(d, d', w, next.query);
    }
  }

  lemma NextPointSame(op: Op, d: Directory, d': Directory, k: nat, n: nat)
    requires k <= n && SameOn(d, d', WatchN(op, d, n))
    ensures Advance(op, RunN(op, d, k), d) == Advance(op, RunN(op, d, k), d')
  {
    RunWatched(op, d, k);
    CollectGrows(Machine(op, d), KeysBy(op), k, n);
    FewerKeys(d, d', WatchN(op, d, k), WatchN(op, d, n));
    AdvanceSame(op, RunN(op, d, k), d, d', WatchN(op, d, k));
  }

  lemma FewerKeys(d: Directory, d': Directory, fewer: set<Key>, keys: set<Key>)
    requires SameOn(d, d', keys) && fewer <= keys
    ensures SameOn(d, d', fewer)
  {
  }

  /** If no watched key changed, the body so far would have run the same on the new store. */
  lemma RunUndisturbed(op: Op, d: Directory, d': Directory, n: nat)
    requires SameOn(d, d', WatchN(op, d, n))
    ensures RunN(op, d', n) == RunN(op, d, n) && WatchN(op, d', n) == WatchN(op, d, n)
  {
    var f, g := Machine(op, d), Machine(op, d');
    forall k | 0 <= k < n
      ensures f(Iterate(f, k)) == g(Iterate(f, k))
    {
      NextPointSame(op, d, d', k, n);
    }
    IterateSame(f, g, KeysBy(op), n);
  }

  // ----- Scripts -----

  /** The single-command and Lua writers, and the SAML session store. */
  datatype Script =
    | CreateUser(id: string, user: User)
    | CreateFederated(tenant: string, subject: string, id: string, user: User)
    | ReserveGroup(id: string, group: Group)
    | FinishGroup(id: string)
    | AbortGroup(id: string)
    | DropName(id: string)
    | LegacyCreate(tenant: string, id: string, membership: Membership)
    | LegacyDelete(tenant: string, id: string)
    | Ensure(tenant: string, id: string, roles: seq<string>, at: int)
    | CompleteBackfill
    | DropLegacyUser(email: string)
    | StoreSessions(sessions: map<SessionKey, Session>)
    | WorkloadDelete(tenant: string, id: string, email: string)

  function RunCreateUser(d: Directory, id: string, input: User): (r: Directory)
    ensures SameMemberships(d, r) && SameGroups(d, r)
  {
    var user := input.(revision := 0);
    if user.email in d.emails && d.emails[user.email] != id then d
    else if id in d.users && d.users[id] != user then d
    else WithUser(d, id, user, user.email)
  }

  function RunCreateFederated(d: Directory, tenant: string, subject: string, id: string, user: User): (r: Directory)
    ensures SameMemberships(d, r) && SameCore(d, r)
  {
    if (tenant, subject) in d.aliases || id in d.federated then d
    else d.(federated := d.federated[id := user], aliases := d.aliases[(tenant, subject) := id])
  }

  datatype EnsureResult = Corrupted | Existing(membership: Membership) | Shadowed | Created(membership: Membership)

  function EnsureStatus(d: Directory, tenant: string, user: string, candidate: Membership): EnsureResult
  {
    var k, reverse := (tenant, user), (user, tenant);
    if k in d.memberships2 then
      if reverse !in d.membershipTenants2 || k !in d.memberships || reverse !in d.membershipTenants ||
         d.memberships[k] != d.memberships2[k]
      then Corrupted else Existing(d.memberships2[k])
    else if reverse in d.membershipTenants2 then Corrupted
    else if k in d.memberships || reverse in d.membershipTenants then Shadowed
    else Created(candidate)
  }

  function RunEnsure(d: Directory, tenant: string, user: string, roles: seq<string>, at: int): (r: Directory)
    ensures forall k :: k in d.memberships2 ==> k in r.memberships2 && r.memberships2[k] == d.memberships2[k]
    ensures SameCore(d, r)
  {
    var m := Membership(Derived(tenant, user), roles, at);
    if !CanonicalRoles(roles) || !EnsureStatus(d, tenant, user, m).Created? then d
    else d.(memberships2 := d.memberships2[(tenant, user) := m],
            membershipTenants2 := d.membershipTenants2 + {(user, tenant)},
            memberships := d.memberships[(tenant, user) := m],
            membershipTenants := d.membershipTenants + {(user, tenant)})
  }

  predicate V2Locked(d: Directory, tenant: string, user: string)
  {
    (tenant, user) in d.memberships2 || (user, tenant) in d.membershipTenants2
  }

  function RunLegacyCreate(d: Directory, tenant: string, user: string, m: Membership): (r: Directory)
    ensures r.memberships2 == d.memberships2 && r.membershipTenants2 == d.membershipTenants2
    ensures SameCore(d, r)
  {
    if V2Locked(d, tenant, user) then d
    else d.(memberships := d.memberships[(tenant, user) := m], membershipTenants := d.membershipTenants + {(user, tenant)})
  }

  function RunLegacyDelete(d: Directory, tenant: string, user: string): (r: Directory)
    ensures r.memberships2 == d.memberships2 && r.membershipTenants2 == d.membershipTenants2
    ensures SameCore(d, r)
  {
    if V2Locked(d, tenant, user) then d
    else d.(memberships := d.memberships - {(tenant, user)}, membershipTenants := d.membershipTenants - {(user, tenant)})
  }

  datatype WorkloadStatus = WorkloadMissing | WorkloadCorrupt | WorkloadDeleted

  function WorkloadResult(d: Directory, tenant: string, id: string, email: string): WorkloadStatus
  {
    if email !in d.emails && id !in d.users && email !in d.legacyUsers then WorkloadMissing
    else if email !in d.emails || d.emails[email] != id || id !in d.users then WorkloadCorrupt
    else
      var k, reverse := (tenant, id), (id, tenant);
      if k !in d.memberships2 || reverse !in d.membershipTenants2 || k !in d.memberships ||
         reverse !in d.membershipTenants || d.memberships[k] != d.memberships2[k]
      then WorkloadCorrupt else WorkloadDeleted
  }

  function RunWorkloadDelete(d: Directory, tenant: string, id: string, email: string): (r: Directory)
    ensures SameGroups(d, r)
  {
    if !WorkloadResult(d, tenant, id, email).WorkloadDeleted? then d
    else d.(memberships2 := d.memberships2 - {(tenant, id)},
            membershipTenants2 := d.membershipTenants2 - {(id, tenant)},
            memberships := d.memberships - {(tenant, id)},
            membershipTenants := d.membershipTenants - {(id, tenant)},
            users := d.users - {id},
            emails := d.emails - {email},
            legacyUsers := d.legacyUsers - {email})
  }

  /** SETNX of the name key: the creation owns the folded name before the group exists. */
  function RunReserve(d: Directory, id: string, group: Group): (r: Directory)
    ensures SameMemberships(d, r)
  {
    d.(names := d.names[Fold(group.name) := id])
  }

  function RunFinish(d: Directory, id: string, group: Group): (r: Directory)
    ensures SameMemberships(d, r)
  {
    d.(groups := d.groups[id := group], order := d.order + {(Fold(group.name), id)})
  }

  function RunAbort(d: Directory, group: Group): (r: Directory)
    ensures SameMemberships(d, r)
  {
    d.(names := d.names - {Fold(group.name)})
  }

  // ----- The machine -----

  datatype Client = Client(op: Op, point: Point, watched: set<Key>, dirty: bool, steps: nat)

  /**
   `pending` holds group creations between their two commands, `finished` those that may still miss the reply
   of the second, `used` every group id ever drawn.
   */
  datatype Sys = Sys(d: Directory, clients: map<int, Client>, pending: map<string, Group>, finished: map<string, Group>, used: set<string>)

  datatype Action =
    | Begin(client: int, op: Op)
    | Send(client: int)
    | Commit(client: int)
    | Stop(client: int)
    | Run(script: Script)

  ghost function Sent(c: Client, d: Directory): Client
  {
    Client(c.op, Advance(c.op, c.point, d), c.watched + KeysAt(c.op, c.point), c.dirty, c.steps + 1)
  }

  /** A write marks at least the clients that watch a key whose content it changed. */
  ghost predicate Marked(cs: map<int, Client>, cs': map<int, Client>, d: Directory, d': Directory)
  {
    && cs'.Keys == cs.Keys
    && forall c :: c in cs ==>
         && cs'[c] == cs[c].(dirty := cs'[c].dirty)
         && (!cs'[c].dirty ==> !cs[c].dirty && SameOn(d, d', cs[c].watched))
  }

  ghost predicate Init(s: Sys)
  {
    && DirectoryInv(s.d) && MembershipsAgree(s.d) && s.clients == map[] && s.pending == map[] && s.finished == map[]
    && s.d.groups.Keys <= s.used && (forall n :: n in s.d.names ==> s.d.names[n] in s.used)
  }

  predicate CreatesGroup(script: Script)
  {
    script.ReserveGroup? || script.FinishGroup? || script.AbortGroup? || script.DropName?
  }

  /**
   What a script writes. A group creation moves on from `pending` when its second command runs, or gives up its name when
   that command fails. It also gives up its name, with `DropName`, when the command ran but the reply was lost.
   */
  ghost predicate ScriptStep(s: Sys, script: Script, s': Sys)
  {
    match script
    case ReserveGroup(id, group) =>
      && id !in s.used && ValidGroup(group) && group.version == 1 && group.active && Fold(group.name) !in s.d.names
      && s'.d == RunReserve(s.d, id, group) && s'.pending == s.pending[id := group]
      && s'.finished == s.finished && s'.used == s.used + {id}
    case FinishGroup(id) =>
      && id in s.pending && s'.d == RunFinish(s.d, id, s.pending[id]) && s'.pending == s.pending - {id}
      && s'.finished == s.finished[id := s.pending[id]] && s'.used == s.used
    case AbortGroup(id) =>
      && id in s.pending && s'.d == RunAbort(s.d, s.pending[id]) && s'.pending == s.pending - {id}
      && s'.finished == s.finished && s'.used == s.used
    case DropName(id) =>
      && id in s.finished && s'.d == RunAbort(s.d, s.finished[id]) && s'.pending == s.pending
      && s'.finished == s.finished - {id} && s'.used == s.used
    case _ => s'.d == RunScript(s.d, script) && s'.pending == s.pending && s'.finished == s.finished && s'.used == s.used
  }

  function RunScript(d: Directory, script: Script): Directory
  {
    match script
    case CreateUser(id, user) => RunCreateUser(d, id, user)
    case CreateFederated(tenant, subject, id, user) => RunCreateFederated(d, tenant, subject, id, user)
    case LegacyCreate(tenant, user, m) => RunLegacyCreate(d, tenant, user, m)
    case LegacyDelete(tenant, user) => RunLegacyDelete(d, tenant, user)
    case Ensure(tenant, user, roles, at) => RunEnsure(d, tenant, user, roles, at)
    case CompleteBackfill => d.(marker := Some(BACKFILL_VERSION))
    case DropLegacyUser(email) => d.(legacyUsers := d.legacyUsers - {email})
    case StoreSessions(sessions) => d.(sessions := sessions)
    case WorkloadDelete(tenant, id, email) => RunWorkloadDelete(d, tenant, id, email)
    case _ => d
  }

  ghost predicate Step(s: Sys, a: Action, s': Sys)
  {
    match a
    case Begin(c, op) =>
      c !in s.clients && Admissible(op) && s' == s.(clients := s.clients[c := Client(op, Start, {}, false, 0)])
    case Send(c) =>
      && c in s.clients && Running(s.clients[c].op, s.clients[c].point)
      && s' == s.(clients := s.clients[c := Sent(s.clients[c], s.d)])
    case Commit(c) =>
      && c in s.clients && s.clients[c].point.Ready? && !s.clients[c].dirty
      && s'.d == Apply(s.d, s.clients[c].point.plan)
      && s'.pending == s.pending && s'.finished == s.finished && s'.used == s.used
      && Marked(s.clients - {c}, s'.clients, s.d, s'.d)
    case Stop(c) => c in s.clients && s' == s.(clients := s.clients - {c})
    case Run(script) => ScriptStep(s, script, s') && Marked(s.clients, s'.clients, s.d, s'.d)
  }

  /** A run: its states and the actions between them. */
  ghost predicate IsRun(states: seq<Sys>, actions: seq<Action>)
  {
    && |states| == |actions| + 1 && Init(states[0])
    && forall i :: 0 <= i < |actions| ==> Step(states[i], actions[i], states[i + 1])
  }

  // ----- Serializability -----

  /** While a client is not marked, its point and watch set are those of an uninterrupted run on the store as it is now. */
  ghost predicate ClientInv(d: Directory, c: Client)
  {
    && Admissible(c.op)
    && (!c.dirty ==> c.point == RunN(c.op, d, c.steps) && c.watched == WatchN(c.op, d, c.steps))
  }

  ghost predicate ClientsInv(s: Sys)
  {
    forall c :: c in s.clients ==> ClientInv(s.d, s.clients[c])
  }

  lemma MarkedKeeps(cs: map<int, Client>, cs': map<int, Client>, d: Directory, d': Directory)
    requires (forall c :: c in cs ==> ClientInv(d, cs[c])) && Marked(cs, cs', d, d')
    ensures forall c :: c in cs' ==> ClientInv(d', cs'[c])
  {
    forall c | c in cs'
      ensures ClientInv(d', cs'[c])
    {
      assert c in cs && ClientInv(d, cs[c]);
      if !cs'[c].dirty {
        RunUndisturbed(cs[c].op, d, d', cs[c].steps);
      }
    }
  }

  lemma SendKeepsClient(d: Directory, c: Client)
    requires ClientInv(d, c)
    ensures ClientInv(d, Sent(c, d))
  {
    if !c.dirty {
      SentAlone(c.op, d, c.steps);
    }
  }

  lemma StepKeepsClients(s: Sys, a: Action, s': Sys)
    requires ClientsInv(s) && Step(s, a, s')
    ensures ClientsInv(s')
  {
    if a.Commit? {
      MarkedKeeps(s.clients - {a.client}, s'.clients, s.d, s'.d);
    } else if a.Run? {
      MarkedKeeps(s.clients, s'.clients, s.d, s'.d);
    } else if a.Send? {
      SendKeepsClient(s.d, s.clients[a.client]);
    }
  }

  lemma {:induction false} RunKeepsClients(states: seq<Sys>, actions: seq<Action>, i: nat)
    requires IsRun(states, actions) && i < |states|
    ensures ClientsInv(states[i])
  {
    if i > 0 {
      RunKeepsClients(states, actions, i - 1);
      StepKeepsClients(states[i - 1], actions[i - 1], states[i]);
    }
  }

  /**
   Serializability. In every run, a successful EXEC has the effect of running the whole body,
   from its first read, atomically on the store as it is at that moment; no other plan could result.
   */
  lemma CommitIsAtomic(states: seq<Sys>, actions: seq<Action>, i: nat, c: int)
    requires IsRun(states, actions) && i < |actions| && actions[i] == Commit(c)
    ensures c in states[i].clients && states[i].clients[c].point.Ready?
    ensures
      var op, d, plan := states[i].clients[c].op, states[i].d, states[i].clients[c].point.plan;
      && Admissible(op) && Commits(op, d, plan) && Fits(d, plan)
      && (forall other :: Commits(op, d, other) ==> other == plan)
      && states[i + 1].d == Apply(d, plan)
      && (plan.EraseUser? ==> op.DeleteUser? && op.id == plan.id && DeletionAllowed(d, op))
  {
    RunKeepsClients(states, actions, i);
    assert Step(states[i], actions[i], states[i + 1]);
    var s := states[i];
    var client := s.clients[c];
    assert ClientInv(s.d, client);
    assert RunN(client.op, s.d, client.steps) == Ready(client.point.plan);
    CommitsFit(client.op, s.d, client.point.plan);
    forall other | Commits(client.op, s.d, other)
      ensures other == client.point.plan
    {
      CommitsOnce(client.op, s.d, other, client.point.plan);
    }
  }

  // ----- Every atomic outcome is reached -----

  /** A lone client after `Begin` and `k` commands. */
  ghost function Alone(op: Op, d: Directory, used: set<string>, k: nat): Sys
  {
    Sys(d, map[0 := Client(op, RunN(op, d, k), WatchN(op, d, k), false, k)], map[], map[], used)
  }

  lemma AloneSends(op: Op, d: Directory, used: set<string>, k: nat)
    requires Running(op, RunN(op, d, k))
    ensures Step(Alone(op, d, used, k), Send(0), Alone(op, d, used, k + 1))
  {
    var c := Client(op, RunN(op, d, k), WatchN(op, d, k), false, k);
    SentAlone(op, d, k);
    assert map[0 := c][0 := Sent(c, d)] == map[0 := Sent(c, d)];
  }

  lemma SentAlone(op: Op, d: Directory, k: nat)
    ensures Sent(Client(op, RunN(op, d, k), WatchN(op, d, k), false, k), d) == Client(op, RunN(op, d, k + 1), WatchN(op, d, k + 1), false, k + 1)
  {
    RunStep(op, d, k);
  }

  lemma AloneBegins(op: Op, d: Directory, used: set<string>)
    requires Admissible(op)
    ensures Step(Sys(d, map[], map[], map[], used), Begin(0, op), Alone(op, d, used, 0))
  {
  }

  lemma AloneCommits(op: Op, d: Directory, used: set<string>, n: nat, plan: Plan)
    requires RunN(op, d, n) == Ready(plan)
    ensures Step(Alone(op, d, used, n), Commit(0), Sys(Apply(d, plan), map[], map[], map[], used))
  {
    assert Alone(op, d, used, n).clients - {0} == map[];
  }

  // Paths, whatever the steps.

  ghost predicate Path(R: (Sys, Action, Sys) -> bool, states: seq<Sys>, actions: seq<Action>)
  {
    |states| == |actions| + 1 && forall i :: 0 <= i < |actions| ==> R(states[i], actions[i], states[i + 1])
  }

  lemma PathExtends(R: (Sys, Action, Sys) -> bool, states: seq<Sys>, actions: seq<Action>, a: Action, s: Sys)
    requires Path(R, states, actions) && R(states[|actions|], a, s)
    ensures Path(R, states + [s], actions + [a])
  {
    var more, acts := states + [s], actions + [a];
    forall i | 0 <= i < |acts|
      ensures R(more[i], acts[i], more[i + 1])
    {
      if i < |actions| {
        assert R(states[i], actions[i], states[i + 1]);
      }
    }
  }

  lemma {:induction false} PathAlong(R: (Sys, Action, Sys) -> bool, first: Sys, begin: Action, f: nat -> Sys, k: nat)
    returns (states: seq<Sys>, actions: seq<Action>)
    requires R(first, begin, f(0)) && forall j: nat :: j < k ==> R(f(j), Send(0), f(j + 1))
    ensures Path(R, states, actions) && states[0] == first && states[|actions|] == f(k)
  {
    if k == 0 {
      states, actions := [first, f(0)], [begin];
    } else {
      states, actions := PathAlong(R, first, begin, f, k - 1);
      PathExtends(R, states, actions, Send(0), f(k - 1 + 1));
      states, actions := states + [f(k)], actions + [Send(0)];
    }
  }

  ghost function Steps(): (Sys, Action, Sys) -> bool
  {
    (s, a, s') => Step(s, a, s')
  }

  ghost function Along(op: Op, d: Directory, used: set<string>): nat -> Sys
  {
    (k: nat) => Alone(op, d, used, k)
  }

  lemma PathIsRun(states: seq<Sys>, actions: seq<Action>)
    requires Path(Steps(), states, actions) && Init(states[0])
    ensures IsRun(states, actions)
  {
    forall i | 0 <= i < |actions|
      ensures Step(states[i], actions[i], states[i + 1])
    {
      assert Steps()(states[i], actions[i], states[i + 1]);
    }
  }

  /** Every point of the body before the `k`-th sends a command. */
  ghost predicate KeepsRunning(op: Op, d: Directory, k: nat)
  {
    forall j :: 0 <= j < k ==> Running(op, RunN(op, d, j))
  }

  lemma PathWhole(R: (Sys, Action, Sys) -> bool, first: Sys, begin: Action, f: nat -> Sys, m: nat, end: Action, done: Sys)
    returns (states: seq<Sys>, actions: seq<Action>)
    requires R(first, begin, f(0)) && (forall j: nat :: j < m ==> R(f(j), Send(0), f(j + 1))) && R(f(m), end, done)
    ensures Path(R, states, actions) && states[0] == first
    ensures |actions| > 0 && actions[|actions| - 1] == end && states[|actions|] == done
  {
    states, actions := PathAlong(R, first, begin, f, m);
    PathExtends(R, states, actions, end, done);
    states, actions := states + [done], actions + [end];
  }

  lemma LoneSend(op: Op, d: Directory, used: set<string>, m: nat, j: nat)
    requires KeepsRunning(op, d, m) && j < m
    ensures Steps()(Along(op, d, used)(j), Send(0), Along(op, d, used)(j + 1))
  {
    AloneSends(op, d, used, j);
  }

  lemma LonePath(op: Op, d: Directory, used: set<string>, m: nat, plan: Plan) returns (states: seq<Sys>, actions: seq<Action>)
    requires Admissible(op) && KeepsRunning(op, d, m) && RunN(op, d, m) == Ready(plan)
    ensures Path(Steps(), states, actions) && states[0] == Sys(d, map[], map[], map[], used)
    ensures |actions| > 0 && actions[|actions| - 1] == Commit(0) && states[|actions|].d == Apply(d, plan)
  {
    AloneBegins(op, d, used);
    AloneCommits(op, d, used, m, plan);
    forall j: nat | j < m
      ensures Steps()(Along(op, d, used)(j), Send(0), Along(op, d, used)(j + 1))
    {
      LoneSend(op, d, used, m, j);
    }
    states, actions := PathWhole(Steps(), Sys(d, map[], map[], map[], used), Begin(0, op), Along(op, d, used), m, Commit(0),
                                 Sys(Apply(d, plan), map[], map[], map[], used));
  }

  /** The first point at which a body that commits is ready; every point before it sends a command. */
  lemma {:induction false} FirstReady(op: Op, d: Directory, plan: Plan, n: nat) returns (m: nat)
    requires RunN(op, d, n) == Ready(plan)
    ensures RunN(op, d, m) == Ready(plan) && KeepsRunning(op, d, m)
  {
    if k :| 0 <= k < n && !Running(op, RunN(op, d, k)) {
      RunStops(op, d, k, n);
      m := FirstReady(op, d, plan, k);
    } else {
      m := n;
    }
  }

  /** The converse of serializability: whatever a body commits when it runs atomically on a store, some run commits. */
  lemma AtomicOutcomeIsReached(op: Op, d: Directory, used: set<string>, plan: Plan) returns (states: seq<Sys>, actions: seq<Action>)
    requires Init(Sys(d, map[], map[], map[], used)) && Admissible(op) && Commits(op, d, plan)
    ensures IsRun(states, actions) && |actions| > 0 && actions[|actions| - 1] == Commit(0)
    ensures states[0].d == d && states[|actions|].d == Apply(d, plan)
  {
    var n :| RunN(op, d, n) == Ready(plan);
    var m := FirstReady(op, d, plan, n);
    states, actions := LonePath(op, d, used, m, plan);
    PathIsRun(states, actions);
  }
}
