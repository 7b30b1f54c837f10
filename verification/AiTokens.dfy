/**
 AI gateway tokens: three kinds of principal are minted by the exchanges and re-authorized by the
 validator. The current state of users, permissions, ceilings, tenants and of the identity authority
 is a `World`; a token is its claims under a good signature.
 */
module AiTokens {
  import opened Prelude
  import opened Strings

  const AUDIENCE := "code-llm-service"
  const INVOKE := "code-llm:invoke"
  const MODELS := "code-llm:models:read"
  const USAGE := "code-llm:usage:read"
  const USAGE_PERMISSION := "code-admin:ai:read"
  const SCHEMA := "ai-identity/v1"
  const SERVICE_PREFIX := "codefoundry:service:"
  const ACCOUNT_PREFIX := "system:serviceaccount:"

  datatype Kind = UserKind | WorkloadKind | DelegatedKind

  /** What a projected service-account token pins. */
  datatype Pins = Pins(issuer: string, cluster: string, namespace: string, account: string, accountUid: string, podUid: string)

  datatype Workload = Workload(serviceUid: string, pins: Pins)

  datatype Identity = Identity(kind: Kind, subject: string, tenant: string, scopes: seq<string>, pins: Option<Pins>)

  datatype Principal = Principal(
    schema: string, tenant: string, tenantUid: string, epoch: string, subject: string, kind: Kind, workload: Option<Workload>)

  datatype Claims = Claims(
    issuer: string, audience: string, subject: string, tenant: string, scope: string, iat: int, exp: int, jti: string,
    kind: Kind, tenantUid: string, epoch: string, version: Option<int>, workload: Option<Workload>, actor: Option<Actor>)

  datatype Actor = Actor(subject: string, workload: Workload)

  datatype Account = Account(active: bool, mustChange: bool, tokenVersion: int)

  datatype World = World(
    issuer: string,
    ttl: int,
    slotFree: bool,
    users: map<string, Account>,
    permissions: (string, string) -> Option<set<string>>,  // user, tenant
    ceiling: string -> Option<seq<string>>,                // of the tenant's active managed AI client
    epoch: string -> Option<string>,                       // of an active tenant
    authority: Identity -> Option<Principal>,
    validUid: string -> bool
  )

  datatype Result<T> = Ok(value: T) | Denied

  // ----- Scopes -----

  predicate Known(s: string)
  {
    s == INVOKE || s == MODELS || s == USAGE
  }

  predicate NoRepeat(s: seq<string>)
  {
    forall i, j :: 0 <= i < j < |s| ==> s[i] != s[j]
  }

  function One(values: seq<string>, s: string): seq<string>
  {
    if s in values then [s] else []
  }

  /** `Scopes`: one to three different known scopes, in order. */
  function Scopes(values: seq<string>): Option<seq<string>>
  {
    if 1 <= |values| <= 3 && NoRepeat(values) && forall i :: 0 <= i < |values| ==> Known(values[i])
    then Some(One(values, INVOKE) + One(values, MODELS) + One(values, USAGE)) else None
  }

  predicate Canonical(s: seq<string>)
  {
    Scopes(s) == Some(s)
  }

  lemma ScopesCanonical(values: seq<string>)
    requires Scopes(values).Some?
    ensures Canonical(Scopes(values).value) && forall s :: s in Scopes(values).value <==> s in values
  {
    var out := Scopes(values).value;
    assert forall s :: s in out <==> s in values;
    assert |out| >= 1 by {
      assert values[0] in out;
    }
    assert One(out, INVOKE) == One(values, INVOKE) && One(out, MODELS) == One(values, MODELS) && One(out, USAGE) == One(values, USAGE);
  }

  // ----- The scope claim -----

  /** The claim of canonical scopes splits back into them. */
  lemma CanonicalSplits(s: seq<string>)
    requires Canonical(s)
    ensures Split(Join(s, ' '), ' ') == s
  {
    SplitJoin(s, ' ');
  }

  // ----- Effective scopes -----

  function PermissionFor(scope: string): string
  {
    if scope == USAGE then USAGE_PERMISSION else scope
  }

  predicate Granted(held: set<string>, ceiling: seq<string>, scope: string)
  {
    scope in ceiling && PermissionFor(scope) in held
  }

  function Keep(held: set<string>, ceiling: seq<string>, requested: seq<string>): seq<string>
  {
    if requested == [] then []
    else
      (if Granted(held, ceiling, requested[0]) then [requested[0]] else []) + Keep(held, ceiling, requested[1..])
  }

  lemma {:induction false} KeepMembers(held: set<string>, ceiling: seq<string>, requested: seq<string>)
    ensures forall s :: s in Keep(held, ceiling, requested) <==> s in requested && Granted(held, ceiling, s)
  {
    if requested != [] {
      KeepMembers(held, ceiling, requested[1..]);
      assert requested == [requested[0]] + requested[1..];
    }
  }

  /** `aiUserEffectiveScopes`. */
  function EffectiveScopes(w: World, user: string, tenant: string, requested: seq<string>): Result<seq<string>>
  {
    var held, ceiling := w.permissions(user, tenant), w.ceiling(tenant);
    if held.None? || ceiling.None? || Scopes(ceiling.value).None? then Denied
    else
      var out := Keep(held.value, ceiling.value, requested);
      if out == [] then Denied else Ok(out)
  }

  lemma {:induction false} KeepAll(held: set<string>, ceiling: seq<string>, s: seq<string>)
    requires forall i :: 0 <= i < |s| ==> Granted(held, ceiling, s[i])
    ensures Keep(held, ceiling, s) == s
  {
    if s != [] {
      KeepAll(held, ceiling, s[1..]);
      assert s == [s[0]] + s[1..];
    }
  }

  lemma {:induction false} KeepOrdered(held: set<string>, ceiling: seq<string>, s: seq<string>)
    requires NoRepeat(s)
    ensures NoRepeat(Keep(held, ceiling, s)) && |Keep(held, ceiling, s)| <= |s|
  {
    if s != [] {
      KeepOrdered(held, ceiling, s[1..]);
      KeepMembers(held, ceiling, s[1..]);
    }
  }

  /** Any selection from effective scopes is effective in the same world. */
  lemma EffectiveAgain(w: World, user: string, tenant: string, requested: seq<string>, some: seq<string>)
    requires EffectiveScopes(w, user, tenant, requested).Ok? && some != []
    requires forall i :: 0 <= i < |some| ==> some[i] in EffectiveScopes(w, user, tenant, requested).value
    ensures EffectiveScopes(w, user, tenant, some) == Ok(some)
  {
    KeepMembers(w.permissions(user, tenant).value, w.ceiling(tenant).value, requested);
    KeepAll(w.permissions(user, tenant).value, w.ceiling(tenant).value, some);
  }

  // ----- Authorize -----

  predicate Ready(w: World)
  {
    30 <= w.ttl <= 300 && w.issuer != ""
  }

  /** `authorize`: the authority's answer, checked against the identity and the tenant's current epoch. */
  function Authorize(w: World, id: Identity): Result<Principal>
  {
    var epoch, answer := w.epoch(id.tenant), w.authority(id);
    if !Ready(w) || !w.slotFree || epoch.None? || answer.None? then Denied
    else
      var p := answer.value;
      if p.schema != SCHEMA || p.tenant != id.tenant || p.tenantUid != id.tenant || p.epoch != epoch.value || p.kind != id.kind || p.subject == ""
      then Denied
      else if id.kind.UserKind? then
        if p.subject != id.subject || p.workload.Some? || id.pins.Some? then Denied else Ok(p)
      else if p.workload.None? || id.pins.None? || !w.validUid(p.workload.value.serviceUid) || p.workload.value.pins != id.pins.value then Denied
      else if id.kind.WorkloadKind? then
        if p.subject != SERVICE_PREFIX + p.workload.value.serviceUid then Denied else Ok(p)
      else if p.subject != id.subject then Denied else Ok(p)
  }

  function PrincipalClaims(w: World, p: Principal, scopes: seq<string>, now: int, ttl: int, jti: string): Claims
  {
    Claims(w.issuer, AUDIENCE, p.subject, p.tenant, Join(scopes, ' '), now, now + ttl, jti, p.kind, p.tenantUid, p.epoch, None, None, None)
  }

  // ----- Exchanges -----

  /** `ceiling` asks for whatever of these scopes is effective; otherwise exactly `scopes` are asked for. */
  datatype UserRequest = UserRequest(audience: string, tenant: string, scopes: seq<string>, ceiling: Option<seq<string>>, ttl: int)

  function UserTtl(w: World, r: UserRequest, sourceExp: int, now: int): int
  {
    Min(if r.ttl > 0 then Min(w.ttl, r.ttl) else w.ttl, sourceExp - now)
  }

  function UserScopes(w: World, r: UserRequest, user: string): Result<seq<string>>
  {
    var asked := Scopes(if r.ceiling.Some? then r.ceiling.value else r.scopes);
    if asked.None? || r.ttl < 0 || (r.ceiling.Some? && r.scopes != []) then Denied
    else
      var granted := EffectiveScopes(w, user, r.tenant, asked.value);
      if granted.Denied? || (r.ceiling.None? && granted.value != asked.value) then Denied else granted
  }

  /** `exchangeAIUser` for the user of a validated id token that expires at `sourceExp`. */
  function ExchangeUser(w: World, r: UserRequest, user: string, version: int, sourceExp: int, now: int, jti: string): Result<Claims>
  {
    var scopes := UserScopes(w, r, user);
    var ttl := UserTtl(w, r, sourceExp, now);
    if !Ready(w) || r.audience != AUDIENCE || scopes.Denied? || ttl < 1 then Denied
    else
      var p := Authorize(w, Identity(UserKind, user, r.tenant, scopes.value, None));
      if p.Denied? then Denied
      else Ok(PrincipalClaims(w, p.value, scopes.value, now, ttl, jti).(version := Some(version)))
  }

  datatype WorkloadRequest = WorkloadRequest(audience: string, tenant: string, scopes: seq<string>, userToken: Option<Claims>)

  function AccountSubject(pins: Pins): string
  {
    ACCOUNT_PREFIX + pins.namespace + ":" + pins.account
  }

  /** May this token stand for a user in a delegation, for these scopes? */
  predicate Delegable(w: World, user: Claims, tenant: string, scopes: seq<string>, now: int)
  {
    && Validate(w, user, now).Ok? && user.kind == UserKind && user.actor.None? && user.workload.None? && user.version.Some?
    && user.tenant == tenant && forall i :: 0 <= i < |scopes| ==> scopes[i] in Split(user.scope, ' ')
  }

  function WorkloadTtl(w: World, r: WorkloadRequest, projectedExp: int, now: int): int
  {
    var ttl := Min(w.ttl, projectedExp - now);
    if r.userToken.Some? then Min(ttl, r.userToken.value.exp - now) else ttl
  }

  /** Who the authority is asked about. */
  function WorkloadIdentity(r: WorkloadRequest, pins: Pins, scopes: seq<string>): Identity
  {
    if r.userToken.None? then Identity(WorkloadKind, AccountSubject(pins), r.tenant, scopes, Some(pins))
    else Identity(DelegatedKind, r.userToken.value.subject, r.tenant, scopes, Some(pins))
  }

  /** The claims for a principal the authority vouches for; a delegation stays in the tenant state of its user token. */
  function WorkloadClaims(w: World, r: WorkloadRequest, p: Principal, scopes: seq<string>, now: int, ttl: int, jti: string): Result<Claims>
    requires p.workload.Some?
  {
    var bare := PrincipalClaims(w, p, scopes, now, ttl, jti);
    if r.userToken.None? then Ok(bare.(workload := p.workload))
    else
      var user := r.userToken.value;
      if p.tenantUid != user.tenantUid || p.epoch != user.epoch then Denied
      else
        var workload := p.workload.value;
        Ok(bare.(version := user.version, actor := Some(Actor(SERVICE_PREFIX + workload.serviceUid, workload))))
  }

  /** `exchangeAIWorkload` for a verified projected token that pins `pins` and expires at `projectedExp`. */
  function ExchangeWorkload(w: World, r: WorkloadRequest, pins: Pins, projectedExp: int, now: int, jti: string): Result<Claims>
  {
    var asked := Scopes(r.scopes);
    if !Ready(w) || asked.None? || r.audience != AUDIENCE || projectedExp <= now || (r.userToken.None? && USAGE in asked.value) then Denied
    else if r.userToken.Some? && !Delegable(w, r.userToken.value, r.tenant, asked.value, now) then Denied
    else
      var p, ttl := Authorize(w, WorkloadIdentity(r, pins, asked.value)), WorkloadTtl(w, r, projectedExp, now);
      if ttl < 1 || p.Denied? then Denied else WorkloadClaims(w, r, p.value, asked.value, now, ttl, jti)
  }

  // ----- Validation -----

  /** Times, audience and scope claim of a token whose signature is good. */
  predicate WellFormed(w: World, c: Claims, now: int)
  {
    && Ready(w) && c.issuer == w.issuer && c.audience == AUDIENCE && c.jti != ""
    && Canonical(Split(c.scope, ' ')) && Join(Split(c.scope, ' '), ' ') == c.scope
    && 0 < c.iat <= now < c.exp && c.exp - c.iat <= 300
  }

  /** The account behind a user or delegated token is as the token says. */
  predicate CurrentUser(w: World, c: Claims)
  {
    && c.version.Some? && c.version.value >= 0 && c.workload.None? && (c.kind.UserKind? <==> c.actor.None?)
    && c.subject in w.users && w.users[c.subject] == Account(true, false, c.version.value)
    && EffectiveScopes(w, c.subject, c.tenant, Split(c.scope, ' ')) == Ok(Split(c.scope, ' '))
    && (c.actor.Some? ==> c.actor.value.subject == SERVICE_PREFIX + c.actor.value.workload.serviceUid)
  }

  predicate CurrentWorkload(c: Claims)
  {
    c.version.None? && c.actor.None? && c.workload.Some? && c.subject == SERVICE_PREFIX + c.workload.value.serviceUid
  }

  /** The identity a token is re-authorized as. */
  function IdentityOf(c: Claims): Identity
  {
    var scopes := Split(c.scope, ' ');
    if c.kind.WorkloadKind? then
      if c.workload.None? then Identity(c.kind, "", c.tenant, scopes, None)
      else Identity(c.kind, AccountSubject(c.workload.value.pins), c.tenant, scopes, Some(c.workload.value.pins))
    else Identity(c.kind, c.subject, c.tenant, scopes, if c.actor.None? then None else Some(c.actor.value.workload.pins))
  }

  /** `ValidateAIAccessToken`. */
  function Validate(w: World, c: Claims, now: int): Result<Claims>
  {
    if !WellFormed(w, c, now) then Denied
    else if (if c.kind.WorkloadKind? then !CurrentWorkload(c) else !CurrentUser(w, c)) then Denied
    else
      var p := Authorize(w, IdentityOf(c));
      if p.Denied? || p.value.subject != c.subject || p.value.tenantUid != c.tenantUid || p.value.epoch != c.epoch then Denied
      else if c.workload.Some? && p.value.workload != c.workload then Denied
      else if c.actor.Some? && (p.value.workload.None? || p.value.workload.value.serviceUid != c.actor.value.workload.serviceUid) then Denied
      else Ok(c)
  }

  // ----- Scope lists stay canonical -----

  lemma {:induction false} KeepJoined(held: set<string>, ceiling: seq<string>, a: seq<string>, b: seq<string>)
    ensures Keep(held, ceiling, a + b) == Keep(held, ceiling, a) + Keep(held, ceiling, b)
  {
    if a == [] {
      assert a + b == b;
    } else {
      KeepJoined(held, ceiling, a[1..], b);
      assert (a + b)[0] == a[0] && (a + b)[1..] == a[1..] + b;
    }
  }

  lemma KeepOne(held: set<string>, ceiling: seq<string>, s: seq<string>, x: string)
    ensures Keep(held, ceiling, One(s, x)) == One(Keep(held, ceiling, s), x)
  {
    KeepMembers(held, ceiling, s);
    assert [x][1..] == [];
  }

  lemma KeepCanonical(held: set<string>, ceiling: seq<string>, s: seq<string>)
    requires Canonical(s) && Keep(held, ceiling, s) != []
    ensures Canonical(Keep(held, ceiling, s))
  {
    var out := Keep(held, ceiling, s);
    KeepOrdered(held, ceiling, s);
    KeepMembers(held, ceiling, s);
    KeepJoined(held, ceiling, One(s, INVOKE) + One(s, MODELS), One(s, USAGE));
    KeepJoined(held, ceiling, One(s, INVOKE), One(s, MODELS));
    KeepOne(held, ceiling, s, INVOKE);
    KeepOne(held, ceiling, s, MODELS);
    KeepOne(held, ceiling, s, USAGE);
    forall i | 0 <= i < |out|
      ensures Known(out[i])
    {
      assert out[i] in out && out[i] in s;
    }
  }

  lemma UserScopesEffective(w: World, r: UserRequest, user: string)
    requires UserScopes(w, r, user).Ok?
    ensures
      var scopes := UserScopes(w, r, user).value;
      Canonical(scopes) && EffectiveScopes(w, user, r.tenant, scopes) == Ok(scopes)
  {
    var asked := Scopes(if r.ceiling.Some? then r.ceiling.value else r.scopes);
    var scopes := UserScopes(w, r, user).value;
    ScopesCanonical(if r.ceiling.Some? then r.ceiling.value else r.scopes);
    KeepCanonical(w.permissions(user, r.tenant).value, w.ceiling(r.tenant).value, asked.value);
    EffectiveAgain(w, user, r.tenant, asked.value, scopes);
  }

  /** Every one of the scopes is within the ceiling, and its permission held. */
  predicate AllGranted(w: World, user: string, tenant: string, scopes: seq<string>)
  {
    var held, ceiling := w.permissions(user, tenant), w.ceiling(tenant);
    && held.Some? && ceiling.Some? && Scopes(ceiling.value).Some?
    && forall i :: 0 <= i < |scopes| ==> Granted(held.value, ceiling.value, scopes[i])
  }

  lemma EffectiveIffGranted(w: World, user: string, tenant: string, scopes: seq<string>)
    requires scopes != []
    ensures EffectiveScopes(w, user, tenant, scopes) == Ok(scopes) <==> AllGranted(w, user, tenant, scopes)
  {
    var held, ceiling := w.permissions(user, tenant), w.ceiling(tenant);
    if held.Some? && ceiling.Some? {
      KeepMembers(held.value, ceiling.value, scopes);
      if AllGranted(w, user, tenant, scopes) {
        KeepAll(held.value, ceiling.value, scopes);
      }
    }
  }

  /** The validator of a later world is the one that minted, under the same name. */
  predicate SameIssuer(w: World, later: World)
  {
    Ready(later) && later.issuer == w.issuer
  }

  /** The times of freshly minted claims are well formed until they expire. */
  lemma MintedWellFormed(w: World, p: Principal, scopes: seq<string>, now: int, ttl: int, jti: string, later: World, t: int)
    requires Ready(w) && Canonical(scopes) && 0 < now <= t && 1 <= ttl <= w.ttl && jti != ""
    ensures
      var c := PrincipalClaims(w, p, scopes, now, ttl, jti);
      Split(c.scope, ' ') == scopes && (WellFormed(later, c, t) <==> SameIssuer(w, later) && t < c.exp)
  {
    CanonicalSplits(scopes);
  }

  lemma SameTimes(w: World, c: Claims, d: Claims, t: int)
    requires d == c.(version := d.version, workload := d.workload, actor := d.actor)
    ensures WellFormed(w, d, t) <==> WellFormed(w, c, t)
  {
  }

  // ----- When minted tokens are accepted -----

  /** The account is active, owes no password change and has this token version. */
  predicate CurrentAccount(w: World, user: string, version: int)
  {
    user in w.users && w.users[user] == Account(true, false, version)
  }

  /** The authority still vouches for the identity, in a tenant that is active under this epoch. */
  predicate Vouched(w: World, id: Identity, epoch: string)
  {
    Authorize(w, id).Ok? && w.epoch(id.tenant) == Some(epoch)
  }

  /** What the exchange puts into a user token. */
  lemma UserForm(w: World, r: UserRequest, user: string, version: nat, sourceExp: int, now: int, jti: string, later: World, t: int)
    requires ExchangeUser(w, r, user, version, sourceExp, now, jti).Ok? && 0 < now <= t && jti != ""
    ensures
      var c := ExchangeUser(w, r, user, version, sourceExp, now, jti).value;
      && c.kind == UserKind && c.workload.None? && c.actor.None? && c.version == Some(version)
      && c.subject == user && c.tenantUid == c.tenant == r.tenant && Split(c.scope, ' ') != [] && c.exp <= Min(now + w.ttl, sourceExp)
      && (WellFormed(later, c, t) <==> SameIssuer(w, later) && t < c.exp)
      && Split(c.scope, ' ') == UserScopes(w, r, user).value
  {
    var scopes, ttl := UserScopes(w, r, user).value, UserTtl(w, r, sourceExp, now);
    UserScopesEffective(w, r, user);
    var p := Authorize(w, Identity(UserKind, user, r.tenant, scopes, None)).value;
    MintedWellFormed(w, p, scopes, now, ttl, jti, later, t);
    var bare := PrincipalClaims(w, p, scopes, now, ttl, jti);
    SameTimes(later, bare, bare.(version := Some(version)), t);
  }

  lemma UserStands(w: World, r: UserRequest, user: string, version: nat, sourceExp: int, now: int, jti: string)
    requires ExchangeUser(w, r, user, version, sourceExp, now, jti).Ok? && 0 < now && jti != ""
    ensures
      var c := ExchangeUser(w, r, user, version, sourceExp, now, jti).value;
      && SameIssuer(w, w) && AllGranted(w, user, r.tenant, Split(c.scope, ' ')) && Vouched(w, IdentityOf(c), c.epoch)
  {
    UserForm(w, r, user, version, sourceExp, now, jti, w, now);
    UserScopesEffective(w, r, user);
    EffectiveIffGranted(w, user, r.tenant, UserScopes(w, r, user).value);
  }

  /** The validator's branch for user tokens. */
  lemma ValidatesUser(w: World, c: Claims, t: int)
    requires c.kind.UserKind? && c.workload.None? && c.version.Some? && c.version.value >= 0 && c.actor.None?
    requires c.tenantUid == c.tenant && Split(c.scope, ' ') != []
    ensures
      Validate(w, c, t) == Ok(c) <==>
        && WellFormed(w, c, t) && CurrentAccount(w, c.subject, c.version.value)
        && AllGranted(w, c.subject, c.tenant, Split(c.scope, ' ')) && Vouched(w, IdentityOf(c), c.epoch)
  {
    EffectiveIffGranted(w, c.subject, c.tenant, Split(c.scope, ' '));
  }

  /**
   A user token is accepted in a later world exactly if it has not expired, the account is active, owes no password change and
   has the token version the token was minted for, every scope of the token is still granted, and the authority still vouches
   for the user under the epoch of the token. If nothing has changed only expiry and the account decide.
   */
  lemma UserTokenAccepted(w: World, r: UserRequest, user: string, version: nat, sourceExp: int, now: int, jti: string,
                          later: World, t: int)
    requires ExchangeUser(w, r, user, version, sourceExp, now, jti).Ok? && 0 < now <= t && jti != ""
    ensures
      var c := ExchangeUser(w, r, user, version, sourceExp, now, jti).value;
      && (Validate(later, c, t) == Ok(c) <==>
            && SameIssuer(w, later) && t < c.exp && CurrentAccount(later, user, version)
            && AllGranted(later, user, r.tenant, Split(c.scope, ' '))
            && Vouched(later, Identity(UserKind, user, r.tenant, Split(c.scope, ' '), None), c.epoch))
      && (later == w ==> (Validate(w, c, t) == Ok(c) <==> t < c.exp && CurrentAccount(w, user, version)))
      && c.kind == UserKind && c.subject == user && c.tenant == r.tenant && c.exp <= Min(now + w.ttl, sourceExp)
  {
    var c := ExchangeUser(w, r, user, version, sourceExp, now, jti).value;
    UserForm(w, r, user, version, sourceExp, now, jti, later, t);
    UserStands(w, r, user, version, sourceExp, now, jti);
    ValidatesUser(later, c, t);
  }

  /** A user token carries only scopes that were asked for and are held within the ceiling, all of them unless a ceiling was asked for. */
  lemma UserTokenScopes(w: World, r: UserRequest, user: string, version: nat, sourceExp: int, now: int, jti: string)
    requires ExchangeUser(w, r, user, version, sourceExp, now, jti).Ok?
    ensures
      var c := ExchangeUser(w, r, user, version, sourceExp, now, jti).value;
      var asked := if r.ceiling.Some? then r.ceiling.value else r.scopes;
      && (r.ttl > 0 ==> c.exp <= now + r.ttl)
      && w.permissions(user, r.tenant).Some? && w.ceiling(r.tenant).Some?
      && (forall s :: s in Split(c.scope, ' ') ==> s in asked && Granted(w.permissions(user, r.tenant).value, w.ceiling(r.tenant).value, s))
      && (r.ceiling.None? ==> forall s :: s in r.scopes ==> s in Split(c.scope, ' '))
  {
    var asked := if r.ceiling.Some? then r.ceiling.value else r.scopes;
    var held, ceiling := w.permissions(user, r.tenant).value, w.ceiling(r.tenant).value;
    UserScopesEffective(w, r, user);
    ScopesCanonical(asked);
    KeepMembers(held, ceiling, Scopes(asked).value);
    CanonicalSplits(UserScopes(w, r, user).value);
  }

  /**
   A workload token is accepted in a later world exactly if it has not expired and the authority still vouches for the same
   workload under the epoch of the token; if nothing has changed, until it expires.
   */
  lemma WorkloadTokenAccepted(w: World, r: WorkloadRequest, pins: Pins, projectedExp: int, now: int, jti: string,
                              later: World, t: int)
    requires ExchangeWorkload(w, r, pins, projectedExp, now, jti).Ok? && r.userToken.None? && 0 < now <= t && jti != ""
    ensures
      var c := ExchangeWorkload(w, r, pins, projectedExp, now, jti).value;
      var id := Identity(WorkloadKind, AccountSubject(pins), r.tenant, Split(c.scope, ' '), Some(pins));
      && (Validate(later, c, t) == Ok(c) <==>
            && SameIssuer(w, later) && t < c.exp
            && Vouched(later, id, c.epoch) && Authorize(later, id).value.workload == c.workload)
      && (later == w ==> (Validate(w, c, t) == Ok(c) <==> t < c.exp)) && c.kind == WorkloadKind && c.exp <= Min(now + w.ttl, projectedExp)
      && c.workload.Some? && c.workload.value.pins == pins && c.tenant == r.tenant
      && (forall s :: s in Split(c.scope, ' ') <==> s in r.scopes) && USAGE !in r.scopes
  {
    var scopes, ttl := Scopes(r.scopes).value, WorkloadTtl(w, r, projectedExp, now);
    ScopesCanonical(r.scopes);
    var id := Identity(WorkloadKind, AccountSubject(pins), r.tenant, scopes, Some(pins));
    var p := Authorize(w, id).value;
    MintedWellFormed(w, p, scopes, now, ttl, jti, later, t);
    var bare := PrincipalClaims(w, p, scopes, now, ttl, jti);
    var c := bare.(workload := p.workload);
    SameTimes(later, bare, c, t);
    assert IdentityOf(c) == id;
  }

  lemma DelegableScopes(w: World, user: Claims, tenant: string, scopes: seq<string>, now: int)
    requires Delegable(w, user, tenant, scopes, now) && scopes != []
    ensures EffectiveScopes(w, user.subject, tenant, scopes) == Ok(scopes)
    ensures CurrentUser(w, user)
  {
    EffectiveAgain(w, user.subject, tenant, Split(user.scope, ' '), scopes);
  }

  /** What the exchange puts into a delegated token, and what held of its user and service. */
  lemma DelegatedForm(w: World, r: WorkloadRequest, pins: Pins, projectedExp: int, now: int, jti: string, later: World, t: int)
    requires ExchangeWorkload(w, r, pins, projectedExp, now, jti).Ok? && r.userToken.Some? && 0 < now <= t && jti != ""
    ensures
      var c := ExchangeWorkload(w, r, pins, projectedExp, now, jti).value;
      && c.kind == DelegatedKind && c.workload.None? && c.version.Some? && c.version.value >= 0 && c.actor.Some?
      && c.actor.value.subject == SERVICE_PREFIX + c.actor.value.workload.serviceUid
      && c.tenantUid == c.tenant == r.tenant && Split(c.scope, ' ') != []
      && IdentityOf(c) == Identity(DelegatedKind, c.subject, r.tenant, Split(c.scope, ' '), Some(pins))
      && (WellFormed(later, c, t) <==> SameIssuer(w, later) && t < c.exp)
  {
    var scopes, ttl, user := Scopes(r.scopes).value, WorkloadTtl(w, r, projectedExp, now), r.userToken.value;
    ScopesCanonical(r.scopes);
    DelegableScopes(w, user, r.tenant, scopes, now);
    var p := Authorize(w, Identity(DelegatedKind, user.subject, r.tenant, scopes, Some(pins))).value;
    MintedWellFormed(w, p, scopes, now, ttl, jti, later, t);
    var bare := PrincipalClaims(w, p, scopes, now, ttl, jti);
    var workload := p.workload.value;
    var c := bare.(version := user.version, actor := Some(Actor(SERVICE_PREFIX + workload.serviceUid, workload)));
    SameTimes(later, bare, c, t);
  }

  lemma DelegatedStands(w: World, r: WorkloadRequest, pins: Pins, projectedExp: int, now: int, jti: string)
    requires ExchangeWorkload(w, r, pins, projectedExp, now, jti).Ok? && r.userToken.Some? && 0 < now && jti != ""
    ensures
      var c := ExchangeWorkload(w, r, pins, projectedExp, now, jti).value;
      && SameIssuer(w, w) && c.version.Some? && c.actor.Some? && CurrentAccount(w, c.subject, c.version.value)
      && AllGranted(w, c.subject, r.tenant, Split(c.scope, ' '))
      && Vouched(w, IdentityOf(c), c.epoch)
      && Authorize(w, IdentityOf(c)).value.workload.value.serviceUid == c.actor.value.workload.serviceUid
  {
    var scopes, user := Scopes(r.scopes).value, r.userToken.value;
    DelegatedForm(w, r, pins, projectedExp, now, jti, w, now);
    ScopesCanonical(r.scopes);
    CanonicalSplits(scopes);
    DelegableScopes(w, user, r.tenant, scopes, now);
    EffectiveIffGranted(w, user.subject, r.tenant, scopes);
  }

  /**
   A delegated token is accepted in a later world exactly if it has not expired, the user's account is current, every scope is
   still granted to the user, and the authority still vouches for the same service under the epoch of the token; if nothing has
   changed, until it expires.
   */
  lemma DelegatedTokenAccepted(w: World, r: WorkloadRequest, pins: Pins, projectedExp: int, now: int, jti: string,
                               later: World, t: int)
    requires ExchangeWorkload(w, r, pins, projectedExp, now, jti).Ok? && r.userToken.Some? && 0 < now <= t && jti != ""
    ensures
      var c := ExchangeWorkload(w, r, pins, projectedExp, now, jti).value;
      var id := Identity(DelegatedKind, c.subject, r.tenant, Split(c.scope, ' '), Some(pins));
      && c.kind == DelegatedKind && c.version.Some? && c.actor.Some?
      && (Validate(later, c, t) == Ok(c) <==>
            && SameIssuer(w, later) && t < c.exp && CurrentAccount(later, c.subject, c.version.value)
            && AllGranted(later, c.subject, r.tenant, Split(c.scope, ' ')) && Vouched(later, id, c.epoch)
            && Authorize(later, id).value.workload.value.serviceUid == c.actor.value.workload.serviceUid)
      && (later == w ==> (Validate(w, c, t) == Ok(c) <==> t < c.exp))
  {
    var c := ExchangeWorkload(w, r, pins, projectedExp, now, jti).value;
    DelegatedForm(w, r, pins, projectedExp, now, jti, later, t);
    DelegatedStands(w, r, pins, projectedExp, now, jti);
    ValidatesDelegated(later, c, t);
  }

  /** The validator's branch for delegated tokens. */
  lemma ValidatesDelegated(w: World, c: Claims, t: int)
    requires c.kind.DelegatedKind? && c.workload.None? && c.version.Some? && c.version.value >= 0 && c.actor.Some?
    requires c.actor.value.subject == SERVICE_PREFIX + c.actor.value.workload.serviceUid && c.tenantUid == c.tenant && Split(c.scope, ' ') != []
    ensures
      Validate(w, c, t) == Ok(c) <==>
        && WellFormed(w, c, t) && CurrentAccount(w, c.subject, c.version.value)
        && AllGranted(w, c.subject, c.tenant, Split(c.scope, ' ')) && Vouched(w, IdentityOf(c), c.epoch)
        && Authorize(w, IdentityOf(c)).value.workload.value.serviceUid == c.actor.value.workload.serviceUid
  {
    EffectiveIffGranted(w, c.subject, c.tenant, Split(c.scope, ' '));
  }

  // ----- Delegation only attenuates -----

  /** A delegated token acts for the user of the user token, in its tenant, with some of its scopes, and outlives neither token. */
  lemma DelegationAttenuates(w: World, r: WorkloadRequest, pins: Pins, projectedExp: int, now: int, jti: string)
    requires ExchangeWorkload(w, r, pins, projectedExp, now, jti).Ok? && r.userToken.Some?
    ensures
      var c, user := ExchangeWorkload(w, r, pins, projectedExp, now, jti).value, r.userToken.value;
      && (forall s :: s in Split(c.scope, ' ') ==> s in Split(user.scope, ' '))
      && c.exp <= user.exp && c.exp <= projectedExp && c.exp <= now + w.ttl
      && c.subject == user.subject && c.tenant == user.tenant == r.tenant && c.tenantUid == user.tenantUid && c.epoch == user.epoch
      && c.version == user.version && c.actor.Some? && c.actor.value.workload.pins == pins
      && Validate(w, user, now).Ok?
  {
    var scopes := Scopes(r.scopes).value;
    ScopesCanonical(r.scopes);
    CanonicalSplits(scopes);
  }

  /**
   No token that the workload exchange minted is a user token, and only a user token can be delegated: a minted token never
   seeds a delegation, whatever has changed since.
   */
  lemma DelegatedNeverDelegates(w: World, r: WorkloadRequest, pins: Pins, projectedExp: int, now: int, jti: string,
                                later: World, again: WorkloadRequest, other: Pins, otherExp: int, at: int, otherJti: string)
    requires ExchangeWorkload(w, r, pins, projectedExp, now, jti).Ok?
    requires again.userToken.Some?
    requires again.userToken.value == ExchangeWorkload(w, r, pins, projectedExp, now, jti).value || again.userToken.value.kind != UserKind
    ensures ExchangeWorkload(w, r, pins, projectedExp, now, jti).value.kind != UserKind
    ensures ExchangeWorkload(later, again, other, otherExp, at, otherJti).Denied?
  {
  }

  // ----- Tokens that are issued -----

  function SomePins(): Pins
  {
    Pins("https://issuer", "cluster", "ns", "account", "uid", "pod")
  }

  function SomeWorkload(): Workload
  {
    Workload("service", SomePins())
  }

  /** An authority that vouches for whoever asks, and for one service. */
  function Vouching(): Identity -> Option<Principal>
  {
    (id: Identity) =>
      var subject := if id.kind.WorkloadKind? then SERVICE_PREFIX + "service" else id.subject;
      Some(Principal(SCHEMA, id.tenant, id.tenant, "epoch", subject, id.kind, if id.kind.UserKind? then None else Some(SomeWorkload())))
  }

  /** One active user who holds the invoke permission, within a ceiling of that scope. */
  function SomeWorld(): World
  {
    World("https://tikti", 300, true, map["u" := Account(true, false, 0)], (user: string, tenant: string) => Some({INVOKE}),
          (t: string) => Some([INVOKE]), (t: string) => Some("epoch"), Vouching(), (uid: string) => true)
  }

  function SomeUserRequest(): UserRequest
  {
    UserRequest(AUDIENCE, "acme", [INVOKE], None, 0)
  }

  lemma InvokeAlone()
    ensures Scopes([INVOKE]) == Some([INVOKE]) && INVOKE != USAGE
  {
    assert INVOKE[9] == 'i' && MODELS[9] == 'm' && USAGE[9] == 'u';
    var s := [INVOKE];
    assert s[0] == INVOKE && INVOKE in s && MODELS !in s && USAGE !in s;
    assert One(s, INVOKE) == s && One(s, MODELS) == [] && One(s, USAGE) == [];
    assert One(s, INVOKE) + One(s, MODELS) + One(s, USAGE) == s;
    assert NoRepeat(s) && Known(s[0]);
  }

  /** What the authority answers the service that stands for a user. */
  lemma DelegatedVouched(user: string)
    ensures
      var p := Authorize(SomeWorld(), Identity(DelegatedKind, user, "acme", [INVOKE], Some(SomePins())));
      user != "" ==> p.Ok? && p.value.tenantUid == "acme" && p.value.epoch == "epoch"
  {
  }

  lemma UserTokenHappens()
    ensures ExchangeUser(SomeWorld(), SomeUserRequest(), "u", 0, 1000, 100, "a").Ok?
  {
    var held, ceiling := {INVOKE}, [INVOKE];
    InvokeAlone();
    KeepAll(held, ceiling, [INVOKE]);
    assert UserScopes(SomeWorld(), SomeUserRequest(), "u") == Ok([INVOKE]);
  }

  lemma WorkloadTokenHappens()
    ensures ExchangeWorkload(SomeWorld(), WorkloadRequest(AUDIENCE, "acme", [INVOKE], None), SomePins(), 1000, 100, "b").Ok?
  {
    InvokeAlone();
  }

  /** All three exchanges issue tokens, the delegated one for the user token of the first. */
  lemma TokensHappen() returns (user: Claims)
    ensures ExchangeUser(SomeWorld(), SomeUserRequest(), "u", 0, 1000, 100, "a") == Ok(user)
    ensures ExchangeWorkload(SomeWorld(), WorkloadRequest(AUDIENCE, "acme", [INVOKE], None), SomePins(), 1000, 100, "b").Ok?
    ensures ExchangeWorkload(SomeWorld(), WorkloadRequest(AUDIENCE, "acme", [INVOKE], Some(user)), SomePins(), 1000, 100, "c").Ok?
  {
    var w := SomeWorld();
    UserTokenHappens();
    WorkloadTokenHappens();
    user := ExchangeUser(w, SomeUserRequest(), "u", 0, 1000, 100, "a").value;
    UserTokenAccepted(w, SomeUserRequest(), "u", 0, 1000, 100, "a", w, 100);
    UserTokenScopes(w, SomeUserRequest(), "u", 0, 1000, 100, "a");
    assert INVOKE in Split(user.scope, ' ') by {
      assert INVOKE in SomeUserRequest().scopes;
    }
    DelegatedHappens(user);
  }

  lemma DelegatedHappens(user: Claims)
    requires Delegable(SomeWorld(), user, "acme", [INVOKE], 100) && user.subject != "" && user.exp >= 101
    requires user.tenantUid == "acme" && user.epoch == "epoch"
    ensures ExchangeWorkload(SomeWorld(), WorkloadRequest(AUDIENCE, "acme", [INVOKE], Some(user)), SomePins(), 1000, 100, "c").Ok?
  {
    InvokeAlone();
    DelegatedVouched(user.subject);
  }
}
