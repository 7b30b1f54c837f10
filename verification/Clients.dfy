/**
 Clients and the marker mirror of managed clients. Every script is one atomic command on the two hashes;
 the Go methods are loops of commands between which other clients run commands of their own.
 */
module Clients {
  import opened Prelude
  import opened DirectoryState
  import opened ScopePolicy

  datatype ClientType = Confidential | Public | Service

  datatype Client = Client(
    id: string,
    tenant: string,
    secretHash: string,
    kind: ClientType,
    grants: seq<string>,
    scopes: seq<string>,
    active: bool,
    managedBy: string
  )

  const CODE_ADMIN := "code-admin-api"
  const CODE_ADMIN_MANAGER := "tikti:code-admin-audience:v1"
  const WORKLOAD_MANAGER := "tikti:workload-account-bff:v1"
  const AI_GATEWAY := "code-llm-service"
  const AI_GATEWAY_MANAGER := "tikti:ai-gateway-audience:v1"
  const TOKEN_EXCHANGE := "token_exchange"
  const ATTEMPTS := 4

  // ----- Shapes -----

  predicate CredentialFree(tenant: string, c: Client)
  {
    c.tenant == tenant && c.secretHash == "" && c.grants == [TOKEN_EXCHANGE]
  }

  /** The one manager that may own a client of this id. */
  function ManagerOf(id: string): string
  {
    if id == CODE_ADMIN then CODE_ADMIN_MANAGER else if id == AI_GATEWAY then AI_GATEWAY_MANAGER else WORKLOAD_MANAGER
  }

  predicate IsManagedCodeAdmin(tenant: string, c: Client)
  {
    CredentialFree(tenant, c) && c.id == CODE_ADMIN && c.kind == Service && c.active && c.managedBy == CODE_ADMIN_MANAGER
  }

  predicate IsManagedWorkload(tenant: string, c: Client)
  {
    && CredentialFree(tenant, c) && c.id != "" && c.id != CODE_ADMIN && c.id != AI_GATEWAY
    && c.kind == Service && c.active && c.managedBy == WORKLOAD_MANAGER
  }

  predicate IsManagedAIGateway(tenant: string, c: Client)
  {
    CredentialFree(tenant, c) && c.id == AI_GATEWAY && c.kind == Service && c.managedBy == AI_GATEWAY_MANAGER
  }

  predicate ValidManaged(m: Manifest, tenant: string, c: Client)
  {
    && ActiveTenant(tenant)
    && (IsManagedCodeAdmin(tenant, c) || IsManagedWorkload(tenant, c) || IsManagedAIGateway(tenant, c))
    && ValidScopes(m, c.scopes)
  }

  predicate IsBootstrapLegacy(tenant: string, c: Client)
  {
    CredentialFree(tenant, c) && c.id == CODE_ADMIN && c.kind == Public && c.active && c.managedBy == ""
  }

  /** An unmarked record that a managed one may replace. */
  predicate Adoptable(m: Manifest, tenant: string, legacy: Client, desired: Client)
  {
    && CredentialFree(tenant, legacy) && legacy.id == CODE_ADMIN && legacy.kind == Service && legacy.active
    && legacy.managedBy == "" && ValidScopes(m, legacy.scopes)
    && legacy.id == desired.id && legacy.tenant == desired.tenant
    && forall i :: 0 <= i < |legacy.scopes| ==> legacy.scopes[i] in desired.scopes
  }

  predicate SameOwner(a: Client, b: Client)
  {
    a.id == b.id && a.tenant == b.tenant && a.managedBy == b.managedBy
  }

  // ----- Scripts -----

  type Key = (string, string)  // tenant, client id

  datatype Store = Store(values: map<Key, Client>, markers: map<Key, Client>)

  datatype Command =
    | CreateOnce(tenant: string, client: Client)
    | Bootstrap(tenant: string, client: Client)
    | EnsureManaged(tenant: string, client: Client)
    | Reconcile(tenant: string, before: Client, after: Client)
    | Adopt(tenant: string, before: Client, after: Client)
    | SwapScopes(tenant: string, before: Client, after: Client, managed: bool)

  datatype Reply = Stored | Protected | Exists | Created | Existing(value: Client) | Shadow(value: Client) | Changed | Swapped | Corrupt

  /** What the Go code guarantees about the arguments it sends. */
  predicate Legal(m: Manifest, c: Command)
  {
    match c
    case CreateOnce(tenant, client) => ActiveTenant(tenant) && client.managedBy == ""
    case Bootstrap(tenant, client) => ActiveTenant(tenant) && client.managedBy == ""
    case EnsureManaged(tenant, client) => ValidManaged(m, tenant, client)
    case Reconcile(tenant, before, after) =>
      ValidManaged(m, tenant, before) && ValidManaged(m, tenant, after) && SameOwner(before, after)
    case Adopt(tenant, before, after) => ValidManaged(m, tenant, after) && Adoptable(m, tenant, before, after)
    case SwapScopes(tenant, before, after, managed) =>
      && after == before.(scopes := after.scopes) && ValidScopes(m, after.scopes)
      && (if managed then ActiveTenant(tenant) && IsManagedCodeAdmin(tenant, before) else IsBootstrapLegacy(tenant, before))
  }

  function KeyOf(c: Command): Key
  {
    match c
    case CreateOnce(tenant, client) => (tenant, client.id)
    case Bootstrap(tenant, client) => (tenant, client.id)
    case EnsureManaged(tenant, client) => (tenant, client.id)
    case Reconcile(tenant, before, _) => (tenant, before.id)
    case Adopt(tenant, before, _) => (tenant, before.id)
    case SwapScopes(tenant, before, _, _) => (tenant, before.id)
  }

  function Write(s: Store, k: Key, c: Client): Store
  {
    s.(values := s.values[k := c])
  }

  function WriteBoth(s: Store, k: Key, c: Client): Store
  {
    Store(s.values[k := c], s.markers[k := c])
  }

  function Exec(s: Store, c: Command): (Store, Reply)
  {
    var k := KeyOf(c);
    match c
    case CreateOnce(_, client) =>
      if k in s.markers then (s, Protected)
      else if k in s.values then (s, if s.values[k].managedBy != "" then Corrupt else Exists)
      else (Write(s, k, client), Stored)
    case Bootstrap(_, client) => if k in s.markers then (s, Protected) else (Write(s, k, client), Stored)
    case EnsureManaged(_, client) =>
      if k !in s.values && k !in s.markers then (WriteBoth(s, k, client), Created)
      else if k in s.values && k !in s.markers then (s, Shadow(s.values[k]))
      else if k !in s.values || s.markers[k] != s.values[k] then (s, Corrupt)
      else (s, Existing(s.values[k]))
    case Reconcile(_, before, after) =>
      if k !in s.values || k !in s.markers || s.values[k] != before || s.markers[k] != before then (s, Changed)
      else (WriteBoth(s, k, after), Swapped)
    case Adopt(_, before, after) =>
      if k !in s.values || k in s.markers || s.values[k] != before then (s, Changed) else (WriteBoth(s, k, after), Swapped)
    case SwapScopes(_, before, after, managed) =>
      if k !in s.values || s.values[k] != before then (s, Changed)
      else if managed then
        if k !in s.markers || s.markers[k] != s.values[k] then (s, Changed) else (WriteBoth(s, k, after), Swapped)
      else if k in s.markers then (s, Changed) else (Write(s, k, after), Swapped)
  }

  datatype Reading = Missing | Legacy(value: Client) | Managed(value: Client) | Broken

  function ReadScript(s: Store, k: Key): Reading
  {
    if k !in s.values && k !in s.markers then Missing
    else if k in s.values && k !in s.markers then Legacy(s.values[k])
    else if k !in s.values || s.markers[k] != s.values[k] then Broken
    else Managed(s.values[k])
  }

  // ----- The mirror -----

  /** A marker implies an equal stored value, a valid managed record under its own id; an unmarked value has no owner. */
  ghost predicate Mirror(m: Manifest, s: Store)
  {
    && (forall k :: k in s.markers ==> k in s.values && s.values[k] == s.markers[k])
    && (forall k :: k in s.markers ==> ValidManaged(m, k.0, s.markers[k]) && s.markers[k].id == k.1)
    && (forall k :: k in s.values && k !in s.markers ==> s.values[k].managedBy == "")
  }

  /** A managed record is never unmarked and keeps its id, tenant and owner. */
  ghost predicate Evolves(s: Store, s': Store)
  {
    forall k :: k in s.markers ==> k in s'.markers && SameOwner(s'.markers[k], s.markers[k])
  }

  lemma WriteKeeps(m: Manifest, s: Store, k: Key, c: Client)
    requires Mirror(m, s) && k !in s.markers && c.managedBy == ""
    ensures Mirror(m, Write(s, k, c))
  {
  }

  lemma WriteBothKeeps(m: Manifest, s: Store, k: Key, c: Client)
    requires Mirror(m, s) && ValidManaged(m, k.0, c) && c.id == k.1
    ensures Mirror(m, WriteBoth(s, k, c))
  {
  }

  /** The client a command writes, if it writes. */
  function Written(c: Command): Client
  {
    if c.CreateOnce? || c.Bootstrap? || c.EnsureManaged? then c.client else c.after
  }

  lemma ExecWrites(s: Store, c: Command)
    ensures
      var s', k := Exec(s, c).0, KeyOf(c);
      || s' == s
      || (s' == Write(s, k, Written(c)) && k !in s.markers && (c.CreateOnce? || c.Bootstrap? || (c.SwapScopes? && !c.managed)))
      || (s' == WriteBoth(s, k, Written(c)) && (c.EnsureManaged? || c.Reconcile? || c.Adopt? || (c.SwapScopes? && c.managed)))
  {
  }

  /** When a command writes: a creation only where nothing is stored, a swap only over the record its caller read. */
  predicate Writes(s: Store, c: Command)
  {
    var k := KeyOf(c);
    match c
    case CreateOnce(_, _) => k !in s.values && k !in s.markers
    case Bootstrap(_, _) => k !in s.markers
    case EnsureManaged(_, _) => k !in s.values && k !in s.markers
    case Reconcile(_, before, _) => k in s.values && s.values[k] == before && k in s.markers && s.markers[k] == before
    case Adopt(_, before, _) => k in s.values && s.values[k] == before && k !in s.markers
    case SwapScopes(_, before, _, managed) =>
      k in s.values && s.values[k] == before && (if managed then k in s.markers && s.markers[k] == before else k !in s.markers)
  }

  /** Managed records are written with their marker. */
  predicate WritesMarker(c: Command)
  {
    c.EnsureManaged? || c.Reconcile? || c.Adopt? || (c.SwapScopes? && c.managed)
  }

  ghost predicate StoredAt(m: map<Key, Client>, m': map<Key, Client>, k: Key, c: Client)
  {
    k in m' && m'[k] == c && forall x :: x != k ==> (x in m' <==> x in m) && (x in m ==> m'[x] == m[x])
  }

  /** A command writes its client under its own key and touches no other, or writes nothing and says so. */
  lemma ExecEffect(s: Store, c: Command)
    ensures
      var (s', reply) := Exec(s, c);
      if Writes(s, c)
      then
        && StoredAt(s.values, s'.values, KeyOf(c), Written(c))
        && (if WritesMarker(c) then StoredAt(s.markers, s'.markers, KeyOf(c), Written(c)) else s'.markers == s.markers)
        && (reply.Stored? || reply.Created? || reply.Swapped?)
      else
        && s' == s && !reply.Stored? && !reply.Created? && !reply.Swapped?
        && (reply.Existing? || reply.Shadow? ==> KeyOf(c) in s.values && reply.value == s.values[KeyOf(c)])
  {
  }

  /** A create never changes a stored value. */
  lemma CreateOverwritesNothing(s: Store, c: Command, k: Key)
    requires c.CreateOnce? && k in s.values
    ensures k in Exec(s, c).0.values && Exec(s, c).0.values[k] == s.values[k]
  {
    ExecEffect(s, c);
  }

  /** Every script keeps the mirror. */
  lemma ExecKeepsMirror(m: Manifest, s: Store, c: Command)
    requires Mirror(m, s) && Legal(m, c)
    ensures Mirror(m, Exec(s, c).0)
  {
    ExecWrites(s, c);
    var s', k := Exec(s, c).0, KeyOf(c);
    if s' == Write(s, k, Written(c)) && k !in s.markers && !c.EnsureManaged? && !c.Reconcile? && !c.Adopt? &&
       !(c.SwapScopes? && c.managed) {
      WriteKeeps(m, s, k, Written(c));
    } else if s' != s {
      WriteBothKeeps(m, s, k, Written(c));
    }
  }

  lemma ExecEvolves(m: Manifest, s: Store, c: Command)
    requires Mirror(m, s) && Legal(m, c)
    ensures Evolves(s, Exec(s, c).0)
  {
    var s', k := Exec(s, c).0, KeyOf(c);
    if k in s.markers && s' != s {
      assert c.Reconcile? || c.SwapScopes?;
    }
  }

  /** The scripts never report corruption. */
  lemma NeverCorrupt(m: Manifest, s: Store, c: Command, k: Key)
    requires Mirror(m, s)
    ensures Exec(s, c).1 != Corrupt && ReadScript(s, k) != Broken
  {
  }

  function RunAll(s: Store, cs: seq<Command>): Store
    decreases |cs|
  {
    if cs == [] then s else RunAll(Exec(s, cs[0]).0, cs[1..])
  }

  lemma {:induction false} RunKeepsMirror(m: Manifest, s: Store, cs: seq<Command>)
    requires Mirror(m, s) && forall i :: 0 <= i < |cs| ==> Legal(m, cs[i])
    ensures Mirror(m, RunAll(s, cs)) && Evolves(s, RunAll(s, cs))
    decreases |cs|
  {
    if cs != [] {
      ExecKeepsMirror(m, s, cs[0]);
      ExecEvolves(m, s, cs[0]);
      RunKeepsMirror(m, Exec(s, cs[0]).0, cs[1..]);
    }
  }

  lemma CreatedMeans(s: Store, c: Command)
    ensures Exec(s, c).1 == Created ==> KeyOf(c) in Exec(s, c).0.markers
    ensures KeyOf(c) in s.markers ==> Exec(s, c).1 != Created
  {
  }

  lemma StaysMarked(m: Manifest, s: Store, between: seq<Command>, k: Key)
    requires Mirror(m, s) && (forall i :: 0 <= i < |between| ==> Legal(m, between[i])) && k in s.markers
    ensures k in RunAll(s, between).markers
  {
    RunKeepsMirror(m, s, between);
  }

  /** A creation is reported at most once per client in a run. */
  lemma CreatedOnce(m: Manifest, s: Store, c: Command, between: seq<Command>, d: Command)
    requires Mirror(m, s) && Legal(m, c) && Legal(m, d) && (forall i :: 0 <= i < |between| ==> Legal(m, between[i]))
    requires KeyOf(c) == KeyOf(d) && Exec(s, c).1 == Created
    ensures Exec(RunAll(Exec(s, c).0, between), d).1 != Created
  {
    ExecKeepsMirror(m, s, c);
    CreatedMeans(s, c);
    StaysMarked(m, Exec(s, c).0, between, KeyOf(c));
    CreatedMeans(RunAll(Exec(s, c).0, between), d);
  }

  // ----- Ensure -----

  datatype Result = Ok(client: Client, changed: bool) | Absent | Conflict | ContractBroken | Invalid

  /** The commands other clients run before our `k`-th script call. */
  function Others(env: seq<seq<Command>>, k: nat): seq<Command>
  {
    if k < |env| then env[k] else []
  }

  ghost predicate LegalEnv(m: Manifest, env: seq<seq<Command>>)
  {
    forall i, j :: 0 <= i < |env| && 0 <= j < |env[i]| ==> Legal(m, env[i][j])
  }

  /** Nobody else runs a command. */
  ghost predicate Undisturbed(env: seq<seq<Command>>)
  {
    forall k: nat :: Others(env, k) == []
  }

  /** Nothing is stored under the key, or a managed record, or one that may be adopted. */
  predicate Ensurable(m: Manifest, s: Store, tenant: string, client: Client)
  {
    var k := (tenant, client.id);
    k in s.values && k !in s.markers ==> Adoptable(m, tenant, s.values[k], client)
  }

  /** The id of a valid managed client determines its owner. */
  lemma OwnerOfId(m: Manifest, tenant: string, c: Client)
    requires ValidManaged(m, tenant, c)
    ensures c.managedBy == ManagerOf(c.id) && c.tenant == tenant && c.id != ""
  {
  }

  method RunOthers(m: Manifest, s: Store, env: seq<seq<Command>>, k: nat) returns (s': Store)
    requires Mirror(m, s) && LegalEnv(m, env)
    ensures Mirror(m, s') && Evolves(s, s') && s' == RunAll(s, Others(env, k))
  {
    var cs := Others(env, k);
    RunKeepsMirror(m, s, cs);
    s' := s;
    for n := 0 to |cs|
      invariant RunAll(s', cs[n..]) == RunAll(s, cs)
    {
      assert cs[n..][0] == cs[n] && cs[n..][1..] == cs[n + 1..];
      s' := Exec(s', cs[n]).0;
    }
  }

  lemma EvolvesTransitive(a: Store, b: Store, c: Store)
    requires Evolves(a, b) && Evolves(b, c)
    ensures Evolves(a, c)
  {
  }

  /** One of our own commands, after others ran theirs. */
  method Call(m: Manifest, s: Store, env: seq<seq<Command>>, k: nat, c: Command) returns (seen: Store, s': Store, reply: Reply)
    requires Mirror(m, s) && LegalEnv(m, env) && Legal(m, c)
    ensures Mirror(m, seen) && Evolves(s, seen) && seen == RunAll(s, Others(env, k))
    ensures (s', reply) == Exec(seen, c) && Mirror(m, s') && Evolves(s, s') && reply != Corrupt
  {
    seen := RunOthers(m, s, env, k);
    ExecKeepsMirror(m, seen, c);
    ExecEvolves(m, seen, c);
    NeverCorrupt(m, seen, c, KeyOf(c));
    var (after, answer) := Exec(seen, c);
    EvolvesTransitive(s, seen, after);
    s', reply := after, answer;
  }

  lemma NobodyElse(s: Store, env: seq<seq<Command>>, k: nat)
    ensures Undisturbed(env) ==> RunAll(s, Others(env, k)) == s
  {
  }

  lemma SwapMeans(s: Store, c: Command)
    requires c.Reconcile? || c.Adopt?
    ensures Writes(s, c) ==> Exec(s, c).1 != Changed
    ensures Exec(s, c).1 != Changed && c.after.id == c.before.id ==> ReadScript(Exec(s, c).0, KeyOf(c)) == Managed(c.after)
  {
  }

  /** A compare-and-swap of a managed record, or of one to adopt. */
  method SwapIn(m: Manifest, s: Store, env: seq<seq<Command>>, n: nat, c: Command) returns (s': Store, swapped: bool)
    requires Mirror(m, s) && LegalEnv(m, env) && Legal(m, c) && (c.Reconcile? || c.Adopt?) && c.after.id == c.before.id
    ensures Mirror(m, s') && Evolves(s, s')
    ensures swapped ==> ReadScript(s', KeyOf(c)) == Managed(c.after)
    ensures Undisturbed(env) && Writes(s, c) ==> swapped
  {
    NobodyElse(s, env, n);
    var seen, after, reply := Call(m, s, env, n, c);
    SwapMeans(seen, c);
    s', swapped := after, reply != Changed;
  }

  /** What the read-or-create script says about the record. */
  lemma EnsureMeans(s: Store, tenant: string, client: Client)
    ensures
      var (s', reply) := Exec(s, EnsureManaged(tenant, client));
      var k := (tenant, client.id);
      && (reply.Created? ==> k !in s.values && k !in s.markers && ReadScript(s', k) == Managed(client))
      && (reply.Shadow? ==> s' == s && k in s.values && k !in s.markers && s.values[k] == reply.value)
      && (reply.Existing? ==> s' == s && k in s.values && k in s.markers && s.values[k] == reply.value && s.markers[k] == reply.value)
      && (reply.Created? || reply.Shadow? || reply.Existing? || reply == Corrupt)
  {
  }

  /** What follows the read: nothing, a refusal, or a swap. */
  function Follow(m: Manifest, tenant: string, client: Client, reply: Reply): (r: Option<Command>)
    requires reply.Shadow? || reply.Existing?
  {
    if reply.Shadow? then Some(Adopt(tenant, reply.value, client))
    else if reply.value == client then None
    else Some(Reconcile(tenant, reply.value, client))
  }

  lemma FollowLegal(m: Manifest, s: Store, tenant: string, client: Client, reply: Reply)
    requires Mirror(m, s) && ValidManaged(m, tenant, client) && (tenant, client.id) in s.values
    requires (reply.Shadow? && (tenant, client.id) !in s.markers && Adoptable(m, tenant, reply.value, client)) ||
             (reply.Existing? && (tenant, client.id) in s.markers)
    requires s.values[(tenant, client.id)] == reply.value
    ensures
      var c := Follow(m, tenant, client, reply);
      c.Some? ==> Legal(m, c.value) && Writes(s, c.value) && c.value.before.id == client.id && KeyOf(c.value) == (tenant, client.id)
  {
    if reply.Existing? {
      OwnerOfId(m, tenant, reply.value);
      OwnerOfId(m, tenant, client);
    }
  }

  /** One round of `EnsureManagedAudience`; `None` is another attempt. */
  method EnsureOnce(m: Manifest, s: Store, tenant: string, client: Client, env: seq<seq<Command>>, n: nat)
    returns (s': Store, r: Option<Result>)
    requires Mirror(m, s) && LegalEnv(m, env) && ValidManaged(m, tenant, client)
    ensures Mirror(m, s') && Evolves(s, s')
    ensures r.Some? ==> r.value.Ok? || r.value.Conflict?
    ensures r.Some? && r.value.Ok? ==>
              && r.value.client == client && ReadScript(s', (tenant, client.id)) == Managed(client)
              && (r.value.changed ==> (tenant, client.id) !in s.markers)
    ensures Undisturbed(env) ==> r.Some? && (r.value.Ok? <==> Ensurable(m, s, tenant, client))
  {
    NobodyElse(s, env, n);
    var seen, first, reply := Call(m, s, env, n, EnsureManaged(tenant, client));
    EnsureMeans(seen, tenant, client);
    if reply.Created? { return first, Some(Ok(client, true)); }
    if reply.Shadow? && !Adoptable(m, tenant, reply.value, client) { return first, Some(Conflict); }
    FollowLegal(m, first, tenant, client, reply);
    var command := Follow(m, tenant, client, reply);
    if command.None? { return first, Some(Ok(client, false)); }
    var second, swapped := SwapIn(m, first, env, n + 1, command.value);
    EvolvesTransitive(s, first, second);
    s', r := second, if swapped then Some(Ok(client, false)) else None;
  }

  /**
   `EnsureManagedAudience` under any interference. Success means that at our last script the stored
   record and its marker are exactly the desired client; a stored contract mismatch is never reported;
   `changed` reports a creation, which the scripts grant once per client. Alone it succeeds exactly
   where the client may be ensured.
   */
  method EnsureManagedAudience(m: Manifest, s0: Store, tenant: string, client: Client, env: seq<seq<Command>>)
    returns (s: Store, r: Result)
    requires Mirror(m, s0) && LegalEnv(m, env)
    ensures Mirror(m, s) && Evolves(s0, s)
    ensures r.Invalid? <==> !ValidManaged(m, tenant, client)
    ensures !r.ContractBroken? && !r.Absent?
    ensures r.Ok? ==> r.client == client && ReadScript(s, (tenant, client.id)) == Managed(client)
    ensures r.Ok? && r.changed ==> (tenant, client.id) !in s0.markers
    ensures Undisturbed(env) && !r.Invalid? ==> (r.Ok? <==> Ensurable(m, s0, tenant, client))
  {
    s := s0;
    if !ValidManaged(m, tenant, client) { return s, Invalid; }
    for attempt := 0 to ATTEMPTS
      invariant Mirror(m, s) && Evolves(s0, s) && (Undisturbed(env) ==> attempt == 0 && s == s0)
    {
      var next, result := EnsureOnce(m, s, tenant, client, env, 2 * attempt);
      EvolvesTransitive(s0, s, next);
      s := next;
      if result.Some? { return s, result.value; }
    }
    r := Conflict;
  }

  // ----- Status -----

  /** A managed client of this owner, which stays valid under the new status. */
  predicate StatusSettable(m: Manifest, s: Store, tenant: string, id: string, managedBy: string, active: bool)
  {
    var k := (tenant, id);
    && k in s.values && k in s.markers && s.values[k].managedBy == managedBy
    && (s.values[k].active != active ==> ValidManaged(m, tenant, s.values[k].(active := active)))
  }

  /** What a status call reports when it is done. */
  ghost predicate StatusReported(s: Store, k: Key, managedBy: string, active: bool, r: Result, swapped: Client)
  {
    && !r.ContractBroken?
    && (r.Ok? ==> ReadScript(s, k) == Managed(r.client) && r.client.active == active && r.client.managedBy == managedBy)
    && (r.Ok? && r.changed ==> r.client == swapped.(active := active) && swapped.active != active && swapped.managedBy == managedBy)
  }

  /** One round of `SetManagedAudienceStatus`; `None` is another attempt. */
  method StatusOnce(m: Manifest, s: Store, tenant: string, id: string, managedBy: string, active: bool, env: seq<seq<Command>>, n: nat)
    returns (s': Store, r: Option<Result>, ghost swapped: Client)
    requires Mirror(m, s) && LegalEnv(m, env)
    ensures Mirror(m, s') && Evolves(s, s')
    ensures r.Some? ==> StatusReported(s', (tenant, id), managedBy, active, r.value, swapped)
    ensures r.Some? && r.value.Absent? ==> (tenant, id) !in s.markers
    ensures Undisturbed(env) ==>
              && r.Some? && (r.value.Absent? <==> (tenant, id) !in s.values)
              && (r.value.Ok? <==> StatusSettable(m, s, tenant, id, managedBy, active))
  {
    var k := (tenant, id);
    swapped := Client("", "", "", Public, [], [], false, "");
    NobodyElse(s, env, n);
    var seen := RunOthers(m, s, env, n);
    NobodyElse(seen, env, n + 1);
    var reading := ReadScript(seen, k);
    if reading.Missing? { return seen, Some(Absent), swapped; }
    if reading.Legacy? { return seen, Some(Conflict), swapped; }
    var current := reading.value;
    if current.id != id || current.managedBy != managedBy { return seen, Some(Conflict), swapped; }
    if current.active == active { return seen, Some(Ok(current, false)), swapped; }
    var next := current.(active := active);
    if !ValidManaged(m, tenant, next) { return seen, Some(Invalid), swapped; }
    var _, t, updated := Call(m, seen, env, n + 1, Reconcile(tenant, current, next));
    EvolvesTransitive(s, seen, t);
    s', r, swapped := t, if updated != Changed then Some(Ok(next, true)) else None, current;
  }

  /**
   `SetManagedAudienceStatus`: swaps the status of the record it read, retains every other field, never
   creates one. Alone it succeeds exactly where the status may be set.
   */
  method SetManagedAudienceStatus(m: Manifest, s0: Store, tenant: string, id: string, managedBy: string, active: bool,
                                  env: seq<seq<Command>>)
    returns (s: Store, r: Result, ghost swapped: Client)
    requires Mirror(m, s0) && LegalEnv(m, env)
    ensures Mirror(m, s) && Evolves(s0, s)
    ensures StatusReported(s, (tenant, id), managedBy, active, r, swapped)
    ensures r.Absent? ==> (tenant, id) !in s0.markers
    ensures Undisturbed(env) && ActiveTenant(tenant) && id != "" && managedBy != "" ==>
              && (r.Absent? <==> (tenant, id) !in s0.values)
              && (r.Ok? <==> StatusSettable(m, s0, tenant, id, managedBy, active))
  {
    s, swapped := s0, Client("", "", "", Public, [], [], false, "");
    if !ActiveTenant(tenant) || id == "" || managedBy == "" { return s, Invalid, swapped; }
    for attempt := 0 to ATTEMPTS
      invariant Mirror(m, s) && Evolves(s0, s) && (Undisturbed(env) ==> attempt == 0 && s == s0)
    {
      var next, result, before := StatusOnce(m, s, tenant, id, managedBy, active, env, 2 * attempt);
      EvolvesTransitive(s0, s, next);
      s, swapped := next, before;
      if result.Some? { return s, result.value, swapped; }
    }
    r := Conflict;
  }

  // ----- Raising the scope ceiling -----

  ghost predicate IsUnion(r: seq<string>, a: seq<string>, b: seq<string>)
  {
    Increasing(r) && Elements(r) == Elements(a) + Elements(b)
  }

  /** The additions are all there already. */
  predicate Contains(scopes: seq<string>, additions: seq<string>)
  {
    forall i :: 0 <= i < |additions| ==> additions[i] in scopes
  }

  lemma UnionRaises(before: Client, after: Client, additions: seq<string>)
    requires after == before.(scopes := after.scopes) && IsUnion(after.scopes, before.scopes, additions)
    ensures Contains(after.scopes, before.scopes) && Contains(after.scopes, additions)
  {
    forall i | 0 <= i < |before.scopes|
      ensures before.scopes[i] in after.scopes
    {
      assert before.scopes[i] in Elements(before.scopes) && before.scopes[i] in Elements(after.scopes);
    }
    forall i | 0 <= i < |additions|
      ensures additions[i] in after.scopes
    {
      assert additions[i] in Elements(additions) && additions[i] in Elements(after.scopes);
    }
  }

  /** A command that only adds to the ceiling of the client it swaps. */
  predicate Raises(c: Command)
  {
    (c.Reconcile? || c.SwapScopes?) && c.after == c.before.(scopes := c.after.scopes) && Contains(c.after.scopes, c.before.scopes)
  }

  ghost predicate OnlyRaises(cs: seq<Command>)
  {
    forall i :: 0 <= i < |cs| ==> Raises(cs[i])
  }

  ghost predicate OthersRaise(env: seq<seq<Command>>)
  {
    forall i :: 0 <= i < |env| ==> OnlyRaises(env[i])
  }

  /** The record holds every one of the scopes. */
  predicate Holds(s: Store, k: Key, scopes: seq<string>)
  {
    k in s.values && Contains(s.values[k].scopes, scopes)
  }

  /** A call that started on `s` and ended after the schedule `ran` left its additions in the ceiling. */
  predicate Succeeded(s: Store, ran: seq<Command>, k: Key, additions: seq<string>)
  {
    Holds(RunAll(s, ran), k, additions)
  }

  lemma {:induction false} RunAllJoined(s: Store, a: seq<Command>, b: seq<Command>)
    ensures RunAll(s, a + b) == RunAll(RunAll(s, a), b)
    decreases |a|
  {
    if a == [] {
      assert a + b == b;
    } else {
      RunAllJoined(Exec(s, a[0]).0, a[1..], b);
      assert (a + b)[0] == a[0] && (a + b)[1..] == a[1..] + b;
    }
  }

  /** What ran on the store up to and including a call of ours. */
  lemma CallRuns(s0: Store, ran: seq<Command>, others: seq<Command>, c: Command)
    ensures RunAll(s0, ran + others) == RunAll(RunAll(s0, ran), others)
    ensures RunAll(s0, ran + others + [c]) == Exec(RunAll(s0, ran + others), c).0
  {
    RunAllJoined(s0, ran, others);
    RunAllJoined(s0, ran + others, [c]);
    assert [c][1..] == [];
  }

  /** The store reached from `s0` by the schedule `ran`. */
  ghost predicate ReachedBy(m: Manifest, env: seq<seq<Command>>, s0: Store, ran: seq<Command>, s: Store)
  {
    Mirror(m, s) && Evolves(s0, s) && s == RunAll(s0, ran) && (OthersRaise(env) ==> OnlyRaises(ran))
  }

  lemma OthersReach(m: Manifest, env: seq<seq<Command>>, s0: Store, ran: seq<Command>, s: Store, n: nat, now: Store)
    requires ReachedBy(m, env, s0, ran, s) && Mirror(m, now) && Evolves(s, now) && now == RunAll(s, Others(env, n))
    ensures ReachedBy(m, env, s0, ran + Others(env, n), now)
  {
    RunAllJoined(s0, ran, Others(env, n));
    EvolvesTransitive(s0, s, now);
  }

  /** One of our own commands, after others ran theirs, as part of the schedule. */
  method CallOn(m: Manifest, env: seq<seq<Command>>, s0: Store, ghost ran: seq<Command>, s: Store, n: nat, c: Command)
    returns (seen: Store, s': Store, reply: Reply, ghost more: seq<Command>)
    requires LegalEnv(m, env) && Legal(m, c) && Raises(c) && ReachedBy(m, env, s0, ran, s)
    ensures ReachedBy(m, env, s0, more, s') && (s', reply) == Exec(seen, c) && seen == RunAll(s, Others(env, n))
  {
    seen, s', reply := Call(m, s, env, n, c);
    more := ran + Others(env, n) + [c];
    CallReaches(m, env, s0, ran, s, n, c, seen, s');
  }

  lemma CallReaches(m: Manifest, env: seq<seq<Command>>, s0: Store, ran: seq<Command>, s: Store, n: nat, c: Command,
                    seen: Store, s': Store)
    requires ReachedBy(m, env, s0, ran, s) && Raises(c)
    requires seen == RunAll(s, Others(env, n)) && s' == Exec(seen, c).0 && Mirror(m, s') && Evolves(s, s')
    ensures ReachedBy(m, env, s0, ran + Others(env, n) + [c], s')
  {
    CallRuns(s0, ran, Others(env, n), c);
    EvolvesTransitive(s0, s, s');
    RaisesAppended(env, ran, n, c);
  }

  lemma RaisesAppended(env: seq<seq<Command>>, ran: seq<Command>, n: nat, c: Command)
    requires Raises(c) && (OthersRaise(env) ==> OnlyRaises(ran))
    ensures OthersRaise(env) ==> OnlyRaises(ran + Others(env, n)) && OnlyRaises(ran + Others(env, n) + [c])
  {
  }

  /** What one attempt decides from the record it read. */
  datatype Attempt = Refuse | Replay(current: Client) | Swap(command: Command)

  /** The swap of a record for itself with the union as its ceiling. */
  ghost predicate IsRaise(c: Command, k: Key, additions: seq<string>)
  {
    && KeyOf(c) == k && Raises(c) && (c.Reconcile? || (c.SwapScopes? && !c.managed)) && !Contains(c.before.scopes, additions)
    && c.after == c.before.(scopes := c.after.scopes) && IsUnion(c.after.scopes, c.before.scopes, additions)
    && Contains(c.after.scopes, additions)
  }

  /** A managed client, or the bootstrap's own, whose ceiling the union of scopes does not outgrow. */
  predicate Raisable(m: Manifest, s: Store, tenant: string, additions: seq<string>)
  {
    var k := (tenant, CODE_ADMIN);
    && k in s.values
    && (k !in s.markers ==> IsBootstrapLegacy(tenant, s.values[k]) && ValidScopes(m, s.values[k].scopes))
    && (Contains(s.values[k].scopes, additions) || |s.values[k].scopes| + |additions| <= MAXIMUM_SCOPES)
  }

  method Decide(m: Manifest, s: Store, tenant: string, additions: seq<string>) returns (r: Attempt)
    requires Mirror(m, s) && ActiveTenant(tenant) && ValidScopes(m, additions)
    ensures r.Replay? ==> (tenant, CODE_ADMIN) in s.values && r.current == s.values[(tenant, CODE_ADMIN)] && Contains(r.current.scopes, additions)
    ensures r.Swap? ==> Legal(m, r.command) && IsRaise(r.command, (tenant, CODE_ADMIN), additions) && Writes(s, r.command)
    ensures r.Refuse? <==> !Raisable(m, s, tenant, additions)
  {
    var reading := ReadScript(s, (tenant, CODE_ADMIN));
    if reading.Missing? { return Refuse; }
    var current, legacy := reading.value, reading.Legacy?;
    if legacy && !(IsBootstrapLegacy(tenant, current) && ValidScopes(m, current.scopes)) { return Refuse; }
    if Contains(current.scopes, additions) { return Replay(current); }
    TrimmedUnion(m, current.scopes, additions);
    var raised := CanonicalAudienceScopes(m, current.scopes + additions);
    if raised.None? { return Refuse; }
    var next := current.(scopes := raised.value);
    UnionRaises(current, next, additions);
    r := Swap(if legacy then SwapScopes(tenant, current, next, false) else Reconcile(tenant, current, next));
  }

  /**
   `RaiseManagedCodeAdminAudienceScopes` under any interference. A reported change swapped the record
   `before` for the same record with exactly the sorted duplicate-free union as its ceiling; a reported
   non-change wrote nothing and the ceiling already holds every addition. `ran` is the schedule of the
   call: what others and it ran on the store.
   */
  method RaiseScopes(m: Manifest, s0: Store, tenant: string, additions: seq<string>, env: seq<seq<Command>>)
    returns (s: Store, r: Result, ghost before: Client, ghost seen: Store, ghost ran: seq<Command>)
    requires Mirror(m, s0) && LegalEnv(m, env)
    ensures Mirror(m, s) && Evolves(s0, s) && !r.ContractBroken? && !r.Absent?
    ensures r.Invalid? <==> !ActiveTenant(tenant) || !ValidScopes(m, additions)
    ensures
      var k := (tenant, CODE_ADMIN);
      r.Ok? ==>
        && k in seen.values && k in s.values && s.values[k] == r.client
        && (if r.changed then
              && seen.values[k] == before && !Contains(before.scopes, additions)
              && r.client == before.(scopes := r.client.scopes) && IsUnion(r.client.scopes, before.scopes, additions)
              && (k in s.markers <==> k in seen.markers)
            else s == seen && Contains(r.client.scopes, additions))
    ensures s == RunAll(s0, ran) && (OthersRaise(env) ==> OnlyRaises(ran))
    ensures Undisturbed(env) && !r.Invalid? ==> (r.Ok? <==> Raisable(m, s0, tenant, additions))
    ensures r.Ok? ==> Succeeded(s0, ran, (tenant, CODE_ADMIN), additions)
  {
    s, seen, before, ran := s0, s0, Client("", "", "", Public, [], [], false, ""), [];
    if !ActiveTenant(tenant) || !ValidScopes(m, additions) { return s, Invalid, before, seen, ran; }
    var k := (tenant, CODE_ADMIN);
    for attempt := 0 to ATTEMPTS
      invariant ReachedBy(m, env, s0, ran, s) && (Undisturbed(env) ==> attempt == 0 && s == s0)
    {
      NobodyElse(s, env, 2 * attempt);
      var now := RunOthers(m, s, env, 2 * attempt);
      OthersReach(m, env, s0, ran, s, 2 * attempt, now);
      s, seen, ran := now, now, ran + Others(env, 2 * attempt);
      var attempted := Decide(m, s, tenant, additions);
      match attempted
      case Refuse => return s, Conflict, before, seen, ran;
      case Replay(current) => return s, Ok(current, false), before, seen, ran;
      case Swap(command) =>
        NobodyElse(s, env, 2 * attempt + 1);
        WritesSwaps(s, command);
        var observed, t, updated, more := CallOn(m, env, s0, ran, s, 2 * attempt + 1, command);
        s, ran := t, more;
        if updated != Changed {
          RaiseSwapped(observed, t, k, command, updated);
          return s, Ok(command.after, true), command.before, observed, ran;
        }
    }
    r := Conflict;
  }

  lemma WritesSwaps(s: Store, c: Command)
    requires Writes(s, c) && (c.Reconcile? || c.SwapScopes?)
    ensures Exec(s, c).1 == Swapped
  {
  }

  lemma RaiseSwapped(s: Store, s': Store, k: Key, c: Command, reply: Reply)
    requires (s', reply) == Exec(s, c) && reply != Changed && (c.Reconcile? || (c.SwapScopes? && !c.managed)) && KeyOf(c) == k
    ensures k in s.values && s.values[k] == c.before && k in s'.values && s'.values[k] == c.after
    ensures k in s'.markers <==> k in s.markers
  {
  }

  lemma ExecRaises(s: Store, c: Command, k: Key)
    requires Raises(c) && k in s.values
    ensures k in Exec(s, c).0.values
    ensures Contains(Exec(s, c).0.values[k].scopes, s.values[k].scopes)
  {
  }

  lemma {:induction false} RaisesKeep(s: Store, cs: seq<Command>, k: Key, scopes: seq<string>)
    requires OnlyRaises(cs) && Holds(s, k, scopes)
    ensures Holds(RunAll(s, cs), k, scopes)
    decreases |cs|
  {
    if cs != [] {
      ExecRaises(s, cs[0], k);
      RaisesKeep(Exec(s, cs[0]).0, cs[1..], k, scopes);
    }
  }

  /**
   Concurrent raises lose no scope. Two calls of `RaiseScopes` run over one schedule of raises, each on the part of it between
   its start and its end; both succeed. Then both of their additions, and whatever the ceiling held before, are there at the end.
   */
  lemma RaisesLoseNothing(s: Store, schedule: seq<Command>, k: Key, a: nat, e: nat, additions: seq<string>,
                          b: nat, f: nat, others: seq<string>)
    requires OnlyRaises(schedule) && a <= e <= |schedule| && b <= f <= |schedule| && k in s.values
    requires Succeeded(RunAll(s, schedule[..a]), schedule[a..e], k, additions)
    requires Succeeded(RunAll(s, schedule[..b]), schedule[b..f], k, others)
    ensures Holds(RunAll(s, schedule), k, additions + others + s.values[k].scopes)
  {
    KeptAtEnd(s, schedule, k, a, e, additions);
    KeptAtEnd(s, schedule, k, b, f, others);
    RaisesKeep(s, schedule, k, s.values[k].scopes);
  }

  lemma KeptAtEnd(s: Store, schedule: seq<Command>, k: Key, a: nat, e: nat, additions: seq<string>)
    requires OnlyRaises(schedule) && a <= e <= |schedule|
    requires Succeeded(RunAll(s, schedule[..a]), schedule[a..e], k, additions)
    ensures Holds(RunAll(s, schedule), k, additions)
  {
    assert schedule == schedule[..a] + schedule[a..e] + schedule[e..];
    RunAllJoined(s, schedule[..a], schedule[a..e]);
    RunAllJoined(s, schedule[..a] + schedule[a..e], schedule[e..]);
    RaisesKeep(RunAll(s, schedule[..a] + schedule[a..e]), schedule[e..], k, additions);
  }
}
