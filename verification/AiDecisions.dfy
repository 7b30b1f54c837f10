/**
 What the AI token exchanges and the validator accept and refuse, for arbitrary requests and claims: each decision
 as one list of conditions on the request or the claims, the current state and the authority's answer.
 */
module AiDecisions {
  import opened Prelude
  import opened Strings
  import opened AiTokens

  // ----- Scope lists -----

  function Rank(s: string): nat
  {
    if s == INVOKE then 0 else if s == MODELS then 1 else 2
  }

  /** One to three known scopes in their order. */
  predicate OrderedScopes(s: seq<string>)
  {
    s != [] && (forall i :: 0 <= i < |s| ==> Known(s[i])) && forall i, j :: 0 <= i < j < |s| ==> Rank(s[i]) < Rank(s[j])
  }

  /** One to three different known scopes in any order. */
  predicate DistinctScopes(s: seq<string>)
  {
    1 <= |s| <= 3 && (forall i :: 0 <= i < |s| ==> Known(s[i])) && forall i, j :: 0 <= i < j < |s| ==> s[i] != s[j]
  }

  lemma ScopesDiffer()
    ensures INVOKE != MODELS && MODELS != USAGE && INVOKE != USAGE
  {
    assert INVOKE[9] == 'i' && MODELS[9] == 'm' && USAGE[9] == 'u';
  }

  lemma {:induction false} RankAtLeast(s: seq<string>, i: nat)
    requires OrderedScopes(s) && i < |s|
    ensures Rank(s[i]) >= i
  {
    if i > 0 {
      RankAtLeast(s, i - 1);
    }
  }

  lemma OrderedShort(s: seq<string>)
    requires OrderedScopes(s)
    ensures DistinctScopes(s)
  {
    ScopesDiffer();
    RankAtLeast(s, |s| - 1);
  }

  lemma Enumerated(s: seq<string>)
    requires OrderedScopes(s)
    ensures s in {[INVOKE], [MODELS], [USAGE], [INVOKE, MODELS], [INVOKE, USAGE], [MODELS, USAGE], [INVOKE, MODELS, USAGE]}
  {
    OrderedShort(s);
    if |s| == 1 {
      assert s == [s[0]];
    } else if |s| == 2 {
      assert s == [s[0], s[1]] && Rank(s[0]) < Rank(s[1]);
    } else {
      assert s == [s[0], s[1], s[2]] && Rank(s[0]) < Rank(s[1]) && Rank(s[1]) < Rank(s[2]);
    }
  }

  lemma OrderedUnique(a: seq<string>, b: seq<string>)
    requires OrderedScopes(a) && OrderedScopes(b) && forall s :: s in a <==> s in b
    ensures a == b
  {
    ScopesDiffer();
    Enumerated(a);
    Enumerated(b);
    assert (INVOKE in a <==> INVOKE in b) && (MODELS in a <==> MODELS in b) && (USAGE in a <==> USAGE in b);
  }

  lemma OrderedJoins(s: seq<string>)
    requires OrderedScopes(s)
    ensures One(s, INVOKE) + One(s, MODELS) + One(s, USAGE) == s
  {
    ScopesDiffer();
    var t := One(s, INVOKE) + One(s, MODELS) + One(s, USAGE);
    assert forall x :: x in t <==> x in s && Known(x);
    assert s[0] in s && s[0] in t;
    assert forall x :: x in s ==> Known(x);
    OrderedUnique(t, s);
  }

  lemma CanonicalIffOrdered(s: seq<string>)
    ensures Canonical(s) <==> OrderedScopes(s)
  {
    ScopesDiffer();
    if OrderedScopes(s) {
      OrderedShort(s);
      OrderedJoins(s);
    }
  }

  // ----- The authority -----

  /** The authority's answer fits the identity that was asked about, in a tenant active under its current epoch. */
  predicate Vouches(w: World, id: Identity, p: Principal)
  {
    && 30 <= w.ttl <= 300 && w.issuer != "" && w.slotFree && w.authority(id) == Some(p)
    && p.schema == "ai-identity/v1" && p.tenant == id.tenant && p.tenantUid == id.tenant && w.epoch(id.tenant) == Some(p.epoch)
    && p.kind == id.kind && p.subject != ""
    && (id.kind.UserKind? ==> p.subject == id.subject && p.workload.None? && id.pins.None?)
    && (!id.kind.UserKind? ==> p.workload.Some? && w.validUid(p.workload.value.serviceUid) && Some(p.workload.value.pins) == id.pins)
    && (id.kind.WorkloadKind? ==> p.subject == SERVICE_PREFIX + p.workload.value.serviceUid)
    && (id.kind.DelegatedKind? ==> p.subject == id.subject)
  }

  lemma AuthorizeExact(w: World, id: Identity, p: Principal)
    ensures Authorize(w, id) == Ok(p) <==> Vouches(w, id, p)
  {
  }

  // ----- The validator -----

  /** Issuer, audience, token id, scope claim and times. */
  predicate ClaimsInOrder(w: World, c: Claims, now: int)
  {
    && 30 <= w.ttl <= 300 && w.issuer != "" && c.issuer == w.issuer && c.audience == "code-llm-service" && c.jti != ""
    && OrderedScopes(Split(c.scope, ' ')) && 0 < c.iat <= now < c.exp <= c.iat + 300
  }

  /** The account behind the token, and every permission behind its scopes, still stand. */
  predicate AccountStands(w: World, c: Claims)
  {
    && c.version.Some? && c.version.value >= 0 && c.subject in w.users
    && w.users[c.subject].active && !w.users[c.subject].mustChange && w.users[c.subject].tokenVersion == c.version.value
    && AllGranted(w, c.subject, c.tenant, Split(c.scope, ' '))
  }

  ghost predicate AcceptedUser(w: World, c: Claims)
  {
    && c.kind.UserKind? && c.workload.None? && c.actor.None? && AccountStands(w, c)
    && exists p :: Vouches(w, Identity(UserKind, c.subject, c.tenant, Split(c.scope, ' '), None), p) && p.epoch == c.epoch
  }

  ghost predicate AcceptedDelegation(w: World, c: Claims)
  {
    && c.kind.DelegatedKind? && c.workload.None? && c.actor.Some? && AccountStands(w, c)
    && var a := c.actor.value;
       && a.subject == SERVICE_PREFIX + a.workload.serviceUid
       && exists p :: Vouches(w, Identity(DelegatedKind, c.subject, c.tenant, Split(c.scope, ' '), Some(a.workload.pins)), p) &&
                      p.epoch == c.epoch && p.workload.value.serviceUid == a.workload.serviceUid
  }

  ghost predicate AcceptedWorkload(w: World, c: Claims)
  {
    && c.kind.WorkloadKind? && c.version.None? && c.actor.None? && c.workload.Some?
    && var wl := c.workload.value;
       && c.subject == SERVICE_PREFIX + wl.serviceUid
       && exists p :: Vouches(w, Identity(WorkloadKind, ACCOUNT_PREFIX + wl.pins.namespace + ":" + wl.pins.account, c.tenant,
                                          Split(c.scope, ' '), Some(wl.pins)), p) &&
                      p.epoch == c.epoch && p.workload == Some(wl)
  }

  /** The validator accepts exactly these claims, whoever minted them. */
  ghost predicate Accepted(w: World, c: Claims, now: int)
  {
    ClaimsInOrder(w, c, now) && c.tenantUid == c.tenant && (AcceptedUser(w, c) || AcceptedDelegation(w, c) || AcceptedWorkload(w, c))
  }

  lemma InOrderExact(w: World, c: Claims, now: int)
    ensures WellFormed(w, c, now) <==> ClaimsInOrder(w, c, now)
  {
    CanonicalIffOrdered(Split(c.scope, ' '));
    JoinSplit(c.scope, ' ');
  }

  lemma CurrentUserExact(w: World, c: Claims)
    requires Split(c.scope, ' ') != []
    ensures CurrentUser(w, c) <==>
            && AccountStands(w, c) && c.workload.None? && (c.kind.UserKind? <==> c.actor.None?)
            && (c.actor.Some? ==> c.actor.value.subject == SERVICE_PREFIX + c.actor.value.workload.serviceUid)
  {
    EffectiveIffGranted(w, c.subject, c.tenant, Split(c.scope, ' '));
  }

  lemma SomeVouches(w: World, id: Identity)
    ensures Authorize(w, id).Ok? <==> exists p :: Vouches(w, id, p)
    ensures Authorize(w, id).Ok? ==> Vouches(w, id, Authorize(w, id).value)
  {
    if Authorize(w, id).Ok? {
      AuthorizeExact(w, id, Authorize(w, id).value);
    } else {
      forall p | Vouches(w, id, p)
        ensures false
      {
        AuthorizeExact(w, id, p);
      }
    }
  }

  predicate UserShape(c: Claims)
  {
    c.version.Some? && c.version.value >= 0 && c.workload.None? && c.actor.None? && c.tenantUid == c.tenant
  }

  lemma UserShapeNeeded(w: World, c: Claims, now: int)
    requires c.kind.UserKind? && Validate(w, c, now).Ok?
    ensures UserShape(c)
  {
  }

  lemma ValidateUserExact(w: World, c: Claims, now: int)
    requires WellFormed(w, c, now) && Split(c.scope, ' ') != [] && c.kind.UserKind?
    ensures Validate(w, c, now).Ok? <==> c.tenantUid == c.tenant && AcceptedUser(w, c)
  {
    if UserShape(c) {
      ValidatesUser(w, c, now);
      OkIsSame(w, c, now);
      UserVouched(w, c);
    } else if Validate(w, c, now).Ok? {
      UserShapeNeeded(w, c, now);
    }
  }

  lemma OkIsSame(w: World, c: Claims, now: int)
    ensures Validate(w, c, now).Ok? <==> Validate(w, c, now) == Ok(c)
  {
  }

  lemma UserVouched(w: World, c: Claims)
    requires c.kind.UserKind? && c.actor.None?
    ensures (exists p :: Vouches(w, Identity(UserKind, c.subject, c.tenant, Split(c.scope, ' '), None), p) && p.epoch == c.epoch) <==>
            Vouched(w, IdentityOf(c), c.epoch)
  {
    SomeVouches(w, IdentityOf(c));
  }

  lemma DelegationVouched(w: World, c: Claims)
    requires c.kind.DelegatedKind? && c.actor.Some?
    ensures
      var wl := c.actor.value.workload;
      (exists p :: Vouches(w, Identity(DelegatedKind, c.subject, c.tenant, Split(c.scope, ' '), Some(wl.pins)), p) &&
                   p.epoch == c.epoch && p.workload.value.serviceUid == wl.serviceUid) <==>
      Vouched(w, IdentityOf(c), c.epoch) && Authorize(w, IdentityOf(c)).value.workload.value.serviceUid == wl.serviceUid
  {
    SomeVouches(w, IdentityOf(c));
  }

  predicate DelegationShape(c: Claims)
  {
    && c.version.Some? && c.version.value >= 0 && c.workload.None? && c.actor.Some? && c.tenantUid == c.tenant
    && c.actor.value.subject == SERVICE_PREFIX + c.actor.value.workload.serviceUid
  }

  lemma DelegationShapeNeeded(w: World, c: Claims, now: int)
    requires c.kind.DelegatedKind? && Validate(w, c, now).Ok?
    ensures DelegationShape(c)
  {
  }

  lemma ValidateDelegationExact(w: World, c: Claims, now: int)
    requires WellFormed(w, c, now) && Split(c.scope, ' ') != [] && c.kind.DelegatedKind?
    ensures Validate(w, c, now).Ok? <==> c.tenantUid == c.tenant && AcceptedDelegation(w, c)
  {
    if DelegationShape(c) {
      ValidatesDelegated(w, c, now);
      OkIsSame(w, c, now);
      DelegationVouched(w, c);
    } else if Validate(w, c, now).Ok? {
      DelegationShapeNeeded(w, c, now);
    }
  }

  lemma WorkloadVouched(w: World, c: Claims)
    requires c.kind.WorkloadKind? && c.workload.Some?
    ensures
      var wl := c.workload.value;
      (exists p :: Vouches(w, Identity(WorkloadKind, ACCOUNT_PREFIX + wl.pins.namespace + ":" + wl.pins.account, c.tenant,
                                       Split(c.scope, ' '), Some(wl.pins)), p) && p.epoch == c.epoch && p.workload == Some(wl)) <==>
      && Authorize(w, IdentityOf(c)).Ok? && Authorize(w, IdentityOf(c)).value.epoch == c.epoch
      && Authorize(w, IdentityOf(c)).value.workload == c.workload
  {
    SomeVouches(w, IdentityOf(c));
  }

  lemma ValidateWorkloadExact(w: World, c: Claims, now: int)
    requires WellFormed(w, c, now) && Split(c.scope, ' ') != [] && c.kind.WorkloadKind?
    ensures Validate(w, c, now).Ok? <==> c.tenantUid == c.tenant && AcceptedWorkload(w, c)
  {
    if c.workload.Some? {
      SomeVouches(w, IdentityOf(c));
      WorkloadVouched(w, c);
    }
  }

  /** For arbitrary claims. */
  lemma ValidateExact(w: World, c: Claims, now: int)
    ensures Validate(w, c, now).Ok? <==> Accepted(w, c, now)
    ensures Validate(w, c, now).Ok? ==> Validate(w, c, now).value == c
  {
    if ClaimsInOrder(w, c, now) {
      InOrderExact(w, c, now);
      match c.kind
      case UserKind => ValidateUserExact(w, c, now);
      case DelegatedKind => ValidateDelegationExact(w, c, now);
      case WorkloadKind => ValidateWorkloadExact(w, c, now);
    } else {
      InOrderExact(w, c, now);
    }
  }

  // ----- The user exchange -----

  predicate UserRequestInOrder(w: World, r: UserRequest)
  {
    && r.audience == "code-llm-service" && r.ttl >= 0 && (r.ceiling.Some? ==> r.scopes == [])
    && DistinctScopes(Asked(r))
  }

  function Asked(r: UserRequest): seq<string>
  {
    if r.ceiling.Some? then r.ceiling.value else r.scopes
  }

  predicate CeilingKnown(w: World, user: string, tenant: string)
  {
    w.permissions(user, tenant).Some? && w.ceiling(tenant).Some? && DistinctScopes(w.ceiling(tenant).value)
  }

  predicate HoldsScope(w: World, user: string, tenant: string, scope: string)
    requires CeilingKnown(w, user, tenant)
  {
    scope in w.ceiling(tenant).value && (if scope == USAGE then "code-admin:ai:read" else scope) in w.permissions(user, tenant).value
  }

  /** The scopes a user token is minted for: what was asked for and is held, in order. */
  ghost predicate ScopesFor(w: World, r: UserRequest, user: string, scopes: seq<string>)
  {
    && CeilingKnown(w, user, r.tenant) && OrderedScopes(scopes)
    && (forall s :: s in scopes <==> s in Asked(r) && HoldsScope(w, user, r.tenant, s))
    && (r.ceiling.None? ==> forall s :: s in Asked(r) ==> s in scopes)
  }

  /** How long: at most the configured and the requested time, and not beyond the source token. */
  predicate LifetimeOf(w: World, r: UserRequest, left: int, ttl: int)
  {
    && 1 <= ttl <= w.ttl && ttl <= left && (r.ttl > 0 ==> ttl <= r.ttl)
    && (ttl == w.ttl || ttl == left || (r.ttl > 0 && ttl == r.ttl))
  }

  function UserClaims(w: World, r: UserRequest, user: string, version: int, now: int, jti: string, scopes: seq<string>, ttl: int, epoch: string): Claims
  {
    Claims(w.issuer, "code-llm-service", user, r.tenant, Join(scopes, ' '), now, now + ttl, jti, UserKind, r.tenant, epoch, Some(version), None, None)
  }

  ghost predicate UserMintedFor(w: World, r: UserRequest, user: string, left: int, scopes: seq<string>, ttl: int, p: Principal)
  {
    && UserRequestInOrder(w, r) && ScopesFor(w, r, user, scopes) && LifetimeOf(w, r, left, ttl)
    && Vouches(w, Identity(UserKind, user, r.tenant, scopes, None), p)
  }

  ghost predicate UserMinted(w: World, r: UserRequest, user: string, version: int, sourceExp: int, now: int, jti: string, c: Claims)
  {
    exists scopes, ttl, p ::
      UserMintedFor(w, r, user, sourceExp - now, scopes, ttl, p) && c == UserClaims(w, r, user, version, now, jti, scopes, ttl, p.epoch)
  }

  lemma ScopesIff(values: seq<string>)
    ensures Scopes(values).Some? <==> DistinctScopes(values)
  {
  }

  /** `UserScopes` finds the scopes that were asked for and are held, if there are any and, without a ceiling, all are held. */
  lemma UserScopesExact(w: World, r: UserRequest, user: string, scopes: seq<string>)
    requires r.ttl >= 0 && (r.ceiling.Some? ==> r.scopes == [])
    ensures UserScopes(w, r, user) == Ok(scopes) <==> DistinctScopes(Asked(r)) && ScopesFor(w, r, user, scopes)
  {
    var asked := Asked(r);
    ScopesIff(asked);
    if DistinctScopes(asked) {
      ScopesCanonical(asked);
      CanonicalIffOrdered(Scopes(asked).value);
      if w.ceiling(r.tenant).Some? {
        ScopesIff(w.ceiling(r.tenant).value);
      }
      if CeilingKnown(w, user, r.tenant) {
        KnownScopesExact(w, r, user, scopes);
      }
    }
  }

  lemma KnownScopesExact(w: World, r: UserRequest, user: string, scopes: seq<string>)
    requires r.ttl >= 0 && (r.ceiling.Some? ==> r.scopes == []) && DistinctScopes(Asked(r)) && CeilingKnown(w, user, r.tenant)
    ensures UserScopes(w, r, user) == Ok(scopes) <==> ScopesFor(w, r, user, scopes)
  {
    KeptMinted(w, r, user);
    KeptFits(w, r, user, scopes);
  }

  /** What is granted, in terms of what is kept. */
  lemma KeptMinted(w: World, r: UserRequest, user: string)
    requires r.ttl >= 0 && (r.ceiling.Some? ==> r.scopes == []) && DistinctScopes(Asked(r)) && CeilingKnown(w, user, r.tenant)
    ensures
      var kept := KeptOf(w, r, user);
      UserScopes(w, r, user) ==
      if kept != [] && (r.ceiling.None? ==> forall s :: s in Asked(r) ==> s in kept) then Ok(kept) else Denied
  {
    ScopesIff(Asked(r));
    ScopesIff(w.ceiling(r.tenant).value);
    if KeptOf(w, r, user) != [] && r.ceiling.None? {
      AllKept(w, r, user);
    }
  }

  lemma KeptFits(w: World, r: UserRequest, user: string, scopes: seq<string>)
    requires DistinctScopes(Asked(r)) && CeilingKnown(w, user, r.tenant)
    ensures
      var kept := KeptOf(w, r, user);
      ScopesFor(w, r, user, scopes) <==>
      scopes == kept && kept != [] && (r.ceiling.None? ==> forall s :: s in Asked(r) ==> s in kept)
  {
    var kept := KeptOf(w, r, user);
    KeptExact(w, r, user);
    if ScopesFor(w, r, user, scopes) {
      assert scopes[0] in kept;
      OrderedUnique(scopes, kept);
    }
  }

  function KeptOf(w: World, r: UserRequest, user: string): seq<string>
    requires DistinctScopes(Asked(r)) && CeilingKnown(w, user, r.tenant)
  {
    Keep(w.permissions(user, r.tenant).value, w.ceiling(r.tenant).value, Scopes(Asked(r)).value)
  }

  lemma KeptExact(w: World, r: UserRequest, user: string)
    requires DistinctScopes(Asked(r)) && CeilingKnown(w, user, r.tenant)
    ensures forall s :: s in KeptOf(w, r, user) <==> s in Asked(r) && HoldsScope(w, user, r.tenant, s)
    ensures KeptOf(w, r, user) != [] ==> OrderedScopes(KeptOf(w, r, user))
  {
    var held, ceiling := w.permissions(user, r.tenant).value, w.ceiling(r.tenant).value;
    ScopesCanonical(Asked(r));
    KeepMembers(held, ceiling, Scopes(Asked(r)).value);
    if KeptOf(w, r, user) != [] {
      KeepCanonical(held, ceiling, Scopes(Asked(r)).value);
      CanonicalIffOrdered(KeptOf(w, r, user));
    }
  }

  /** Everything asked for is kept exactly if everything is held. */
  lemma AllKept(w: World, r: UserRequest, user: string)
    requires DistinctScopes(Asked(r)) && CeilingKnown(w, user, r.tenant) && KeptOf(w, r, user) != []
    ensures KeptOf(w, r, user) == Scopes(Asked(r)).value <==> forall s :: s in Asked(r) ==> s in KeptOf(w, r, user)
  {
    KeptExact(w, r, user);
    ScopesCanonical(Asked(r));
    CanonicalIffOrdered(Scopes(Asked(r)).value);
    if forall s :: s in Asked(r) ==> s in KeptOf(w, r, user) {
      OrderedUnique(KeptOf(w, r, user), Scopes(Asked(r)).value);
    }
  }

  lemma UserTtlExact(w: World, r: UserRequest, sourceExp: int, now: int, ttl: int)
    requires 30 <= w.ttl && r.ttl >= 0
    ensures UserTtl(w, r, sourceExp, now) == ttl && ttl >= 1 <==> LifetimeOf(w, r, sourceExp - now, ttl)
  {
  }

  /** The user exchange mints exactly these claims, and nothing otherwise. */
  lemma UserExchangeExact(w: World, r: UserRequest, user: string, version: int, sourceExp: int, now: int, jti: string, c: Claims)
    ensures ExchangeUser(w, r, user, version, sourceExp, now, jti) == Ok(c) <==>
            UserMinted(w, r, user, version, sourceExp, now, jti, c)
  {
    if ExchangeUser(w, r, user, version, sourceExp, now, jti) == Ok(c) {
      UserExchangeSound(w, r, user, version, sourceExp, now, jti, c);
    }
    if UserMinted(w, r, user, version, sourceExp, now, jti, c) {
      UserExchangeComplete(w, r, user, version, sourceExp, now, jti, c);
    }
  }

  lemma UserReaches(w: World, r: UserRequest, user: string, version: int, sourceExp: int, now: int, jti: string, scopes: seq<string>)
    requires UserScopes(w, r, user) == Ok(scopes)
    ensures
      var p, ttl := Authorize(w, Identity(UserKind, user, r.tenant, scopes, None)), UserTtl(w, r, sourceExp, now);
      ExchangeUser(w, r, user, version, sourceExp, now, jti) ==
      if Ready(w) && r.audience == AUDIENCE && ttl >= 1 && p.Ok?
      then Ok(PrincipalClaims(w, p.value, scopes, now, ttl, jti).(version := Some(version))) else Denied
  {
  }

  lemma UserRequestNeeded(w: World, r: UserRequest, user: string, version: int, sourceExp: int, now: int, jti: string)
    requires ExchangeUser(w, r, user, version, sourceExp, now, jti).Ok?
    ensures UserScopes(w, r, user).Ok? && r.audience == AUDIENCE && r.ttl >= 0 && (r.ceiling.Some? ==> r.scopes == []) && Ready(w)
    ensures UserTtl(w, r, sourceExp, now) >= 1 && Authorize(w, Identity(UserKind, user, r.tenant, UserScopes(w, r, user).value, None)).Ok?
  {
  }

  lemma UserExchangeSound(w: World, r: UserRequest, user: string, version: int, sourceExp: int, now: int, jti: string, c: Claims)
    requires ExchangeUser(w, r, user, version, sourceExp, now, jti) == Ok(c)
    ensures UserMinted(w, r, user, version, sourceExp, now, jti, c)
  {
    UserRequestNeeded(w, r, user, version, sourceExp, now, jti);
    var scopes, ttl := UserScopes(w, r, user).value, UserTtl(w, r, sourceExp, now);
    var id := Identity(UserKind, user, r.tenant, scopes, None);
    var p := Authorize(w, id).value;
    UserReaches(w, r, user, version, sourceExp, now, jti, scopes);
    UserScopesExact(w, r, user, scopes);
    UserTtlExact(w, r, sourceExp, now, ttl);
    AuthorizeExact(w, id, p);
    assert UserMintedFor(w, r, user, sourceExp - now, scopes, ttl, p);
    assert c == UserClaims(w, r, user, version, now, jti, scopes, ttl, p.epoch);
  }

  lemma UserClaimsOf(w: World, r: UserRequest, user: string, version: int, now: int, jti: string, scopes: seq<string>, ttl: int, p: Principal)
    requires Vouches(w, Identity(UserKind, user, r.tenant, scopes, None), p)
    ensures Authorize(w, Identity(UserKind, user, r.tenant, scopes, None)) == Ok(p) && Ready(w)
    ensures PrincipalClaims(w, p, scopes, now, ttl, jti).(version := Some(version)) ==
            UserClaims(w, r, user, version, now, jti, scopes, ttl, p.epoch)
  {
    AuthorizeExact(w, Identity(UserKind, user, r.tenant, scopes, None), p);
  }

  lemma UserExchangeComplete(w: World, r: UserRequest, user: string, version: int, sourceExp: int, now: int, jti: string, c: Claims)
    requires UserMinted(w, r, user, version, sourceExp, now, jti, c)
    ensures ExchangeUser(w, r, user, version, sourceExp, now, jti) == Ok(c)
  {
    var scopes, ttl, p :|
      UserMintedFor(w, r, user, sourceExp - now, scopes, ttl, p) && c == UserClaims(w, r, user, version, now, jti, scopes, ttl, p.epoch);
    UserClaimsOf(w, r, user, version, now, jti, scopes, ttl, p);
    UserTtlExact(w, r, sourceExp, now, ttl);
    UserScopesExact(w, r, user, scopes);
    UserReaches(w, r, user, version, sourceExp, now, jti, scopes);
  }

  // ----- The workload exchange -----

  /** What both kinds of workload exchange ask of the request. */
  predicate WorkloadRequestInOrder(r: WorkloadRequest, projectedExp: int, now: int)
  {
    && r.audience == "code-llm-service" && DistinctScopes(r.scopes) && projectedExp > now
    && (r.userToken.None? ==> USAGE !in r.scopes)
  }

  /** The scopes asked for, in order. */
  ghost predicate InOrder(asked: seq<string>, scopes: seq<string>)
  {
    OrderedScopes(scopes) && forall s :: s in scopes <==> s in asked
  }

  ghost predicate WorkloadMinted(w: World, r: WorkloadRequest, pins: Pins, projectedExp: int, now: int, jti: string, c: Claims)
  {
    && r.userToken.None? && WorkloadRequestInOrder(r, projectedExp, now)
    && exists scopes, p ::
         && InOrder(r.scopes, scopes)
         && Vouches(w, Identity(WorkloadKind, ACCOUNT_PREFIX + pins.namespace + ":" + pins.account, r.tenant, scopes, Some(pins)), p)
         && c == Claims(w.issuer, "code-llm-service", p.subject, r.tenant, Join(scopes, ' '), now, now + Min(w.ttl, projectedExp - now), jti,
                        WorkloadKind, r.tenant, p.epoch, None, p.workload, None)
  }

  /** The user token must itself be accepted now, be a user's, of the same tenant, and carry every scope asked for. */
  ghost predicate MayDelegate(w: World, user: Claims, r: WorkloadRequest, now: int)
  {
    Accepted(w, user, now) && user.kind.UserKind? && user.tenant == r.tenant && forall s :: s in r.scopes ==> s in Split(user.scope, ' ')
  }

  function DelegatedClaims(w: World, r: WorkloadRequest, projectedExp: int, now: int, jti: string, scopes: seq<string>, epoch: string, wl: Workload): Claims
    requires r.userToken.Some?
  {
    var user := r.userToken.value;
    Claims(w.issuer, "code-llm-service", user.subject, r.tenant, Join(scopes, ' '), now,
           now + Min(Min(w.ttl, projectedExp - now), user.exp - now), jti, DelegatedKind, r.tenant, epoch, user.version, None,
           Some(Actor(SERVICE_PREFIX + wl.serviceUid, wl)))
  }

  ghost predicate DelegationMinted(w: World, r: WorkloadRequest, pins: Pins, projectedExp: int, now: int, jti: string, c: Claims)
  {
    && r.userToken.Some? && WorkloadRequestInOrder(r, projectedExp, now)
    && var user := r.userToken.value;
       && MayDelegate(w, user, r, now)
       && exists scopes, p ::
            && InOrder(r.scopes, scopes)
            && Vouches(w, Identity(DelegatedKind, user.subject, r.tenant, scopes, Some(pins)), p) && p.epoch == user.epoch
            && c == DelegatedClaims(w, r, projectedExp, now, jti, scopes, p.epoch, p.workload.value)
  }

  lemma ScopesInOrder(asked: seq<string>, scopes: seq<string>)
    requires DistinctScopes(asked)
    ensures Scopes(asked) == Some(scopes) <==> InOrder(asked, scopes)
  {
    ScopesIff(asked);
    ScopesCanonical(asked);
    CanonicalIffOrdered(Scopes(asked).value);
    if InOrder(asked, scopes) {
      OrderedUnique(scopes, Scopes(asked).value);
    }
  }

  lemma DelegableExact(w: World, user: Claims, r: WorkloadRequest, now: int)
    requires DistinctScopes(r.scopes)
    ensures Scopes(r.scopes).Some? && (Delegable(w, user, r.tenant, Scopes(r.scopes).value, now) <==> MayDelegate(w, user, r, now))
  {
    ScopesIff(r.scopes);
    ScopesCanonical(r.scopes);
    ValidateExact(w, user, now);
    var asked := Scopes(r.scopes).value;
    assert (forall i :: 0 <= i < |asked| ==> asked[i] in Split(user.scope, ' ')) <==> forall s :: s in asked ==> s in Split(user.scope, ' ');
  }

  /** Without a user token the workload exchange mints exactly these claims, and nothing otherwise. */
  lemma WorkloadExchangeExact(w: World, r: WorkloadRequest, pins: Pins, projectedExp: int, now: int, jti: string, c: Claims)
    requires r.userToken.None?
    ensures ExchangeWorkload(w, r, pins, projectedExp, now, jti) == Ok(c) <==> WorkloadMinted(w, r, pins, projectedExp, now, jti, c)
  {
    ScopesIff(r.scopes);
    if DistinctScopes(r.scopes) {
      ScopesCanonical(r.scopes);
      if ExchangeWorkload(w, r, pins, projectedExp, now, jti) == Ok(c) {
        var scopes := Scopes(r.scopes).value;
        var id := Identity(WorkloadKind, AccountSubject(pins), r.tenant, scopes, Some(pins));
        ScopesInOrder(r.scopes, scopes);
        AuthorizeExact(w, id, Authorize(w, id).value);
      }
      if WorkloadMinted(w, r, pins, projectedExp, now, jti, c) {
        WorkloadComplete(w, r, pins, projectedExp, now, jti, c);
      }
    }
  }

  lemma WorkloadComplete(w: World, r: WorkloadRequest, pins: Pins, projectedExp: int, now: int, jti: string, c: Claims)
    requires WorkloadMinted(w, r, pins, projectedExp, now, jti, c)
    ensures ExchangeWorkload(w, r, pins, projectedExp, now, jti) == Ok(c)
  {
    var scopes, p :|
      && InOrder(r.scopes, scopes)
      && Vouches(w, Identity(WorkloadKind, ACCOUNT_PREFIX + pins.namespace + ":" + pins.account, r.tenant, scopes, Some(pins)), p)
      && c == Claims(w.issuer, "code-llm-service", p.subject, r.tenant, Join(scopes, ' '), now, now + Min(w.ttl, projectedExp - now), jti,
                     WorkloadKind, r.tenant, p.epoch, None, p.workload, None);
    ScopesInOrder(r.scopes, scopes);
    AuthorizeExact(w, Identity(WorkloadKind, AccountSubject(pins), r.tenant, scopes, Some(pins)), p);
    assert USAGE in r.scopes <==> USAGE in scopes;
  }

  /** With a user token it mints exactly these. */
  lemma DelegationExact(w: World, r: WorkloadRequest, pins: Pins, projectedExp: int, now: int, jti: string, c: Claims)
    requires r.userToken.Some?
    ensures ExchangeWorkload(w, r, pins, projectedExp, now, jti) == Ok(c) <==> DelegationMinted(w, r, pins, projectedExp, now, jti, c)
  {
    ScopesIff(r.scopes);
    if DistinctScopes(r.scopes) {
      if ExchangeWorkload(w, r, pins, projectedExp, now, jti) == Ok(c) {
        DelegationSound(w, r, pins, projectedExp, now, jti, c);
      }
      if DelegationMinted(w, r, pins, projectedExp, now, jti, c) {
        DelegationComplete(w, r, pins, projectedExp, now, jti, c);
      }
    }
  }

  /** Past its checks the exchange mints what the authority's answer says. */
  lemma DelegationReaches(w: World, r: WorkloadRequest, pins: Pins, projectedExp: int, now: int, jti: string, scopes: seq<string>)
    requires r.userToken.Some? && Scopes(r.scopes) == Some(scopes)
    ensures
      var p, ttl := Authorize(w, WorkloadIdentity(r, pins, scopes)), WorkloadTtl(w, r, projectedExp, now);
      ExchangeWorkload(w, r, pins, projectedExp, now, jti) ==
      if Ready(w) && r.audience == AUDIENCE && projectedExp > now && Delegable(w, r.userToken.value, r.tenant, scopes, now) && ttl >= 1 && p.Ok?
      then WorkloadClaims(w, r, p.value, scopes, now, ttl, jti) else Denied
  {
  }

  lemma DelegationClaims(w: World, r: WorkloadRequest, p: Principal, scopes: seq<string>, projectedExp: int, now: int, jti: string)
    requires r.userToken.Some? && p.workload.Some? && p.tenantUid == p.tenant == r.tenant == r.userToken.value.tenantUid
    requires p.subject == r.userToken.value.subject && p.kind == DelegatedKind
    ensures WorkloadClaims(w, r, p, scopes, now, WorkloadTtl(w, r, projectedExp, now), jti) ==
            if p.epoch == r.userToken.value.epoch then Ok(DelegatedClaims(w, r, projectedExp, now, jti, scopes, p.epoch, p.workload.value))
            else Denied
  {
  }

  lemma DelegationSound(w: World, r: WorkloadRequest, pins: Pins, projectedExp: int, now: int, jti: string, c: Claims)
    requires r.userToken.Some? && DistinctScopes(r.scopes) && ExchangeWorkload(w, r, pins, projectedExp, now, jti) == Ok(c)
    ensures DelegationMinted(w, r, pins, projectedExp, now, jti, c)
  {
    DelegableExact(w, r.userToken.value, r, now);
    var scopes := Scopes(r.scopes).value;
    var id := WorkloadIdentity(r, pins, scopes);
    DelegationReaches(w, r, pins, projectedExp, now, jti, scopes);
    ScopesInOrder(r.scopes, scopes);
    AuthorizeExact(w, id, Authorize(w, id).value);
    DelegationClaims(w, r, Authorize(w, id).value, scopes, projectedExp, now, jti);
  }

  lemma DelegationComplete(w: World, r: WorkloadRequest, pins: Pins, projectedExp: int, now: int, jti: string, c: Claims)
    requires DelegationMinted(w, r, pins, projectedExp, now, jti, c)
    ensures ExchangeWorkload(w, r, pins, projectedExp, now, jti) == Ok(c)
  {
    var user := r.userToken.value;
    var scopes, p :|
      && InOrder(r.scopes, scopes)
      && Vouches(w, Identity(DelegatedKind, user.subject, r.tenant, scopes, Some(pins)), p) && p.epoch == user.epoch
      && c == DelegatedClaims(w, r, projectedExp, now, jti, scopes, p.epoch, p.workload.value);
    DelegableExact(w, user, r, now);
    ScopesInOrder(r.scopes, scopes);
    AuthorizeExact(w, WorkloadIdentity(r, pins, scopes), p);
    DelegationReaches(w, r, pins, projectedExp, now, jti, scopes);
    DelegationClaims(w, r, p, scopes, projectedExp, now, jti);
  }
}
