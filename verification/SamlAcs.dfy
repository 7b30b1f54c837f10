/**
 The assertion consumer service. Callbacks interleave step by step; a callback may stop anywhere.
 The response validation (signature, issuer, audience, times) is a verdict the step takes as given.
 Sections 4.1.4.3 and 4.1.4.5 of SAML V2.0 Profiles.
 */
module SamlAcs {
  import opened Prelude
  import opened SingleUse

  const SECOND := 1_000_000_000
  const SEEN_TTL := 3600 * SECOND

  datatype Login = Login(tenant: string, relay: string)

  datatype Assertion = Assertion(id: string, nameId: string, notOnOrAfter: int)

  datatype Config = Config(sessionTtl: int, postLogin: string, safe: string -> bool)

  /** How far a callback has come; the numbers are positions in the logs of the state. */
  datatype Stage = Consumed | Validated | Fresh | Intended(intent: nat) | Issued(issue: nat) | Accepted(issue: nat, accept: nat)

  /** `request` is the position of its login request in the log of requests, `passed` when the replay guard was passed. */
  datatype Callback = Callback(request: nat, assertion: Assertion, at: int, expiry: int, passed: int, stage: Stage)

  datatype Issue = Issue(request: nat, intent: nat, tenant: string, assertion: Assertion, at: int, expiry: int, passed: int)

  datatype Cookie = Cookie(issue: nat, accept: nat, maxAge: int, redirect: string)

  datatype State = State(
    now: int,
    requests: Ledger<Login>,
    callbacks: map<int, Callback>,
    seen: map<string, int>,   // live replay marks
    intents: seq<nat>,        // persisted intent records, by request
    issued: seq<Issue>,
    accepts: seq<nat>,        // persisted acceptance records, by request
    cookies: seq<Cookie>
  )

  // ----- Session lifetime and redirect -----

  /** `boundedSessionExpiry`. */
  function BoundedExpiry(ttl: int, notOnOrAfter: int, now: int): (expiry: int)
    ensures expiry >= now && (expiry > now ==> expiry <= notOnOrAfter)
    ensures expiry > now && ttl > 0 ==> expiry <= now + ttl * SECOND
    ensures expiry == now <==> notOnOrAfter <= now
    ensures expiry > now ==> expiry == notOnOrAfter || (ttl > 0 && expiry == now + ttl * SECOND)
  {
    if notOnOrAfter <= now then now
    else if ttl > 0 && now + ttl * SECOND < notOnOrAfter then now + ttl * SECOND
    else notOnOrAfter
  }

  /** The cookie's lifetime in whole seconds. */
  function MaxAge(expiry: int, now: int): int
    requires expiry >= now
  {
    (expiry - now) / SECOND
  }

  function Redirect(cfg: Config, relay: string): string
  {
    if relay == "" || !cfg.safe(relay) then cfg.postLogin else relay
  }

  // ----- Steps -----

  datatype Action =
    | Tick(now: int)
    | Begin(id: string, login: Login)
    | LoseRequest(id: string)
    | Consume(p: int, id: string)
    | Validate(p: int, relay: string, assertion: Assertion)
    | MarkSeen(p: int)
    | ForgetSeen(id: string)
    | PersistIntent(p: int)
    | IssueToken(p: int)
    | PersistAccept(p: int)
    | SetCookie(p: int)
    | Stop(p: int)

  predicate At(s: State, p: int, stage: Stage)
  {
    p in s.callbacks && s.callbacks[p].stage == stage
  }

  predicate Enabled(cfg: Config, s: State, a: Action)
  {
    match a
    case Tick(now) => s.now <= now
    case Begin(id, _) => id !in s.requests.live
    case LoseRequest(_) => true
    case Consume(p, id) => p !in s.callbacks && id in s.requests.live
    case Validate(p, relay, assertion) =>
      && At(s, p, Consumed) && s.callbacks[p].request < |s.requests.log| && relay == s.requests.log[s.callbacks[p].request].relay
      && MaxAge(BoundedExpiry(cfg.sessionTtl, assertion.notOnOrAfter, s.now), s.now) > 0
    case MarkSeen(p) => At(s, p, Validated) && s.callbacks[p].assertion.id !in s.seen
    case ForgetSeen(id) => id in s.seen && s.now >= s.seen[id] + SEEN_TTL
    case PersistIntent(p) => At(s, p, Fresh)
    case IssueToken(p) => p in s.callbacks && s.callbacks[p].stage.Intended? && s.callbacks[p].request < |s.requests.log|
    case PersistAccept(p) => p in s.callbacks && s.callbacks[p].stage.Issued?
    case SetCookie(p) =>
      && p in s.callbacks && s.callbacks[p].stage.Accepted? && s.callbacks[p].request < |s.requests.log|
      && s.callbacks[p].expiry >= s.callbacks[p].at
    case Stop(_) => true
  }

  function Put(s: State, p: int, c: Callback): State
  {
    s.(callbacks := s.callbacks[p := c])
  }

  function Next(cfg: Config, s: State, a: Action): State
    requires Enabled(cfg, s, a)
  {
    match a
    case Tick(now) => s.(now := now)
    case Begin(id, login) => s.(requests := Create(s.requests, id, login))
    case LoseRequest(id) => s.(requests := Expire(s.requests, id))
    case Consume(p, id) =>
      Put(s, p, Callback(s.requests.live[id].index, Assertion("", "", 0), 0, 0, 0, Consumed)).(
        requests := SingleUse.Consume(s.requests, id))
    case Validate(p, _, assertion) =>
      Put(s, p, Callback(s.callbacks[p].request, assertion, s.now, BoundedExpiry(cfg.sessionTtl, assertion.notOnOrAfter, s.now), 0, Validated))
    case MarkSeen(p) =>
      var c := s.callbacks[p];
      Put(s, p, c.(passed := s.now, stage := Fresh)).(seen := s.seen[c.assertion.id := s.now])
    case ForgetSeen(id) => s.(seen := s.seen - {id})
    case PersistIntent(p) =>
      var c := s.callbacks[p];
      Put(s, p, c.(stage := Intended(|s.intents|))).(intents := s.intents + [c.request])
    case IssueToken(p) =>
      var c := s.callbacks[p];
      Put(s, p, c.(stage := Issued(|s.issued|))).(
        issued := s.issued + [Issue(c.request, c.stage.intent, s.requests.log[c.request].tenant, c.assertion, c.at, c.expiry, c.passed)])
    case PersistAccept(p) =>
      var c := s.callbacks[p];
      Put(s, p, c.(stage := Accepted(c.stage.issue, |s.accepts|))).(accepts := s.accepts + [c.request])
    case SetCookie(p) =>
      var c := s.callbacks[p];
      s.(callbacks := s.callbacks - {p},
         cookies := s.cookies + [Cookie(c.stage.issue, c.stage.accept, MaxAge(c.expiry, c.at), Redirect(cfg, s.requests.log[c.request].relay))])
    case Stop(p) => s.(callbacks := s.callbacks - {p})
  }

  // ----- The invariant -----

  /** Callbacks hold different spent requests. */
  ghost predicate CallbacksSound(requests: Ledger<Login>, callbacks: map<int, Callback>)
  {
    && Sound(requests)
    && (forall p :: p in callbacks ==> callbacks[p].request in requests.spent)
    && (forall p, q :: p in callbacks && q in callbacks && p != q ==> callbacks[p].request != callbacks[q].request)
  }

  predicate HoldsIssue(stage: Stage)
  {
    stage.Issued? || stage.Accepted?
  }

  /** Every token comes from a request of its own; a callback that has not issued one finds none for its request. */
  ghost predicate IssuesSound(spent: seq<nat>, callbacks: map<int, Callback>, issued: seq<Issue>)
  {
    && (forall k :: 0 <= k < |issued| ==> issued[k].request in spent)
    && (forall k, l :: 0 <= k < l < |issued| ==> issued[k].request != issued[l].request)
    && (forall p, k :: p in callbacks && !HoldsIssue(callbacks[p].stage) && 0 <= k < |issued| ==> issued[k].request != callbacks[p].request)
    && (forall p :: p in callbacks && HoldsIssue(callbacks[p].stage) ==>
          && callbacks[p].stage.issue < |issued|
          && var i := issued[callbacks[p].stage.issue];
             i.request == callbacks[p].request && i.at == callbacks[p].at && i.expiry == callbacks[p].expiry)
  }

  /** Lifetime within the assertion's and the configured bound, at least a second. */
  predicate Bounded(cfg: Config, a: Assertion, at: int, expiry: int)
  {
    && at + SECOND <= expiry <= a.notOnOrAfter && (cfg.sessionTtl > 0 ==> expiry <= at + cfg.sessionTtl * SECOND)
  }

  ghost predicate TokensSound(cfg: Config, log: seq<Login>, callbacks: map<int, Callback>, intents: seq<nat>, issued: seq<Issue>)
  {
    && (forall k :: 0 <= k < |issued| ==>
          && issued[k].request < |log| && issued[k].tenant == log[issued[k].request].tenant
          && issued[k].intent < |intents| && intents[issued[k].intent] == issued[k].request
          && Bounded(cfg, issued[k].assertion, issued[k].at, issued[k].expiry))
    && (forall p :: p in callbacks && callbacks[p].stage != Consumed ==> Bounded(cfg, callbacks[p].assertion, callbacks[p].at, callbacks[p].expiry))
    && (forall p :: p in callbacks && callbacks[p].stage.Intended? ==>
          callbacks[p].stage.intent < |intents| && intents[callbacks[p].stage.intent] == callbacks[p].request)
  }

  /** What a cookie says about the token it exposes. */
  ghost predicate CookieSound(cfg: Config, log: seq<Login>, issued: seq<Issue>, accepts: seq<nat>, c: Cookie)
  {
    && c.issue < |issued|
    && var i := issued[c.issue];
       && i.request < |log| && c.accept < |accepts| && accepts[c.accept] == i.request
       && c.redirect == Redirect(cfg, log[i.request].relay)
       && 0 < c.maxAge && c.maxAge * SECOND <= i.expiry - i.at
  }

  ghost predicate CookiesSound(cfg: Config, log: seq<Login>, callbacks: map<int, Callback>, issued: seq<Issue>, accepts: seq<nat>, cookies: seq<Cookie>)
  {
    && (forall c :: 0 <= c < |cookies| ==> CookieSound(cfg, log, issued, accepts, cookies[c]))
    && (forall c, e :: 0 <= c < e < |cookies| ==> cookies[c].issue != cookies[e].issue)
    && (forall p, c :: p in callbacks && HoldsIssue(callbacks[p].stage) && 0 <= c < |cookies| ==> cookies[c].issue != callbacks[p].stage.issue)
    && (forall p :: p in callbacks && callbacks[p].stage.Accepted? ==>
          callbacks[p].stage.accept < |accepts| && accepts[callbacks[p].stage.accept] == callbacks[p].request)
  }

  /** A passage of the guard is covered by the live mark of its assertion, or an hour ago. */
  predicate Covered(now: int, seen: map<string, int>, id: string, at: int)
  {
    if id in seen then at <= seen[id] <= now else at + SEEN_TTL <= now
  }

  predicate Apart(a: int, b: int)
  {
    a + SEEN_TTL <= b || b + SEEN_TTL <= a
  }

  /** The callback has passed the guard and not issued a token yet. */
  predicate Waiting(c: Callback)
  {
    c.stage.Fresh? || c.stage.Intended?
  }

  predicate SameAssertion(a: Assertion, b: Assertion)
  {
    a.id == b.id
  }

  /** All passages of the guard, those of issued tokens and of callbacks on the way to one, are an hour apart per assertion. */
  ghost predicate PassagesSound(now: int, seen: map<string, int>, callbacks: map<int, Callback>, issued: seq<Issue>)
  {
    && (forall id :: id in seen ==> seen[id] <= now)
    && (forall k :: 0 <= k < |issued| ==> Covered(now, seen, issued[k].assertion.id, issued[k].passed))
    && (forall p :: p in callbacks && Waiting(callbacks[p]) ==> Covered(now, seen, callbacks[p].assertion.id, callbacks[p].passed))
    && (forall k, l :: 0 <= k < l < |issued| && SameAssertion(issued[k].assertion, issued[l].assertion) ==> Apart(issued[k].passed, issued[l].passed))
    && (forall p, q :: p in callbacks && q in callbacks && p != q && Waiting(callbacks[p]) && Waiting(callbacks[q]) ==>
          SameAssertion(callbacks[p].assertion, callbacks[q].assertion) ==> Apart(callbacks[p].passed, callbacks[q].passed))
    && (forall p, k :: p in callbacks && Waiting(callbacks[p]) && 0 <= k < |issued| ==>
          SameAssertion(callbacks[p].assertion, issued[k].assertion) ==> Apart(callbacks[p].passed, issued[k].passed))
  }

  ghost predicate Inv(cfg: Config, s: State)
  {
    && CallbacksSound(s.requests, s.callbacks)
    && IssuesSound(s.requests.spent, s.callbacks, s.issued)
    && TokensSound(cfg, s.requests.log, s.callbacks, s.intents, s.issued)
    && CookiesSound(cfg, s.requests.log, s.callbacks, s.issued, s.accepts, s.cookies)
    && PassagesSound(s.now, s.seen, s.callbacks, s.issued)
  }

  // ----- Callbacks and requests -----

  lemma CallbackConsumed(requests: Ledger<Login>, callbacks: map<int, Callback>, p: int, id: string, c: Callback)
    requires CallbacksSound(requests, callbacks) && p !in callbacks && id in requests.live && c.request == requests.live[id].index
    ensures CallbacksSound(SingleUse.Consume(requests, id), callbacks[p := c])
    ensures c.request !in requests.spent && c.request in SingleUse.Consume(requests, id).spent
    ensures forall i :: i in requests.spent ==> i in SingleUse.Consume(requests, id).spent
  {
    ConsumeSound(requests, id);
    var after := SingleUse.Consume(requests, id);
    assert after.spent == requests.spent + [c.request];
  }

  lemma CallbackMoved(requests: Ledger<Login>, callbacks: map<int, Callback>, p: int, c: Callback)
    requires CallbacksSound(requests, callbacks) && p in callbacks && c.request == callbacks[p].request
    ensures CallbacksSound(requests, callbacks[p := c]) && CallbacksSound(requests, callbacks - {p})
  {
  }

  // ----- Issued tokens -----

  lemma IssuesConsumed(spent: seq<nat>, more: seq<nat>, callbacks: map<int, Callback>, issued: seq<Issue>, p: int, c: Callback)
    requires IssuesSound(spent, callbacks, issued) && c.stage == Consumed && c.request !in spent
    requires forall i :: i in spent ==> i in more
    ensures IssuesSound(more, callbacks[p := c], issued)
  {
  }

  lemma IssuesMoved(spent: seq<nat>, callbacks: map<int, Callback>, issued: seq<Issue>, p: int, c: Callback)
    requires IssuesSound(spent, callbacks, issued) && p in callbacks && c.request == callbacks[p].request
    requires HoldsIssue(c.stage) == HoldsIssue(callbacks[p].stage)
    requires HoldsIssue(c.stage) ==> c.stage.issue == callbacks[p].stage.issue && c.at == callbacks[p].at && c.expiry == callbacks[p].expiry
    ensures IssuesSound(spent, callbacks[p := c], issued)
  {
  }

  lemma IssuesGone(spent: seq<nat>, callbacks: map<int, Callback>, issued: seq<Issue>, p: int)
    requires IssuesSound(spent, callbacks, issued)
    ensures IssuesSound(spent, callbacks - {p}, issued)
  {
  }

  lemma IssuesIssued(requests: Ledger<Login>, callbacks: map<int, Callback>, issued: seq<Issue>, p: int, i: Issue)
    requires CallbacksSound(requests, callbacks) && IssuesSound(requests.spent, callbacks, issued)
    requires p in callbacks && callbacks[p].stage.Intended?
    requires i.request == callbacks[p].request && i.at == callbacks[p].at && i.expiry == callbacks[p].expiry
    ensures IssuesSound(requests.spent, callbacks[p := callbacks[p].(stage := Issued(|issued|))], issued + [i])
  {
  }

  // ----- What tokens say -----

  lemma TokensMoved(cfg: Config, log: seq<Login>, callbacks: map<int, Callback>, intents: seq<nat>, issued: seq<Issue>, p: int, c: Callback)
    requires TokensSound(cfg, log, callbacks, intents, issued)
    requires c.stage != Consumed ==> Bounded(cfg, c.assertion, c.at, c.expiry)
    requires !c.stage.Intended?
    ensures TokensSound(cfg, log, callbacks[p := c], intents, issued)
  {
  }

  lemma TokensGone(cfg: Config, log: seq<Login>, callbacks: map<int, Callback>, intents: seq<nat>, issued: seq<Issue>, p: int)
    requires TokensSound(cfg, log, callbacks, intents, issued)
    ensures TokensSound(cfg, log, callbacks - {p}, intents, issued)
  {
  }

  lemma TokensIntended(cfg: Config, log: seq<Login>, callbacks: map<int, Callback>, intents: seq<nat>, issued: seq<Issue>, p: int)
    requires TokensSound(cfg, log, callbacks, intents, issued) && p in callbacks && callbacks[p].stage == Fresh
    ensures TokensSound(cfg, log, callbacks[p := callbacks[p].(stage := Intended(|intents|))], intents + [callbacks[p].request], issued)
  {
  }

  lemma TokensIssued(cfg: Config, log: seq<Login>, callbacks: map<int, Callback>, intents: seq<nat>, issued: seq<Issue>, p: int)
    requires TokensSound(cfg, log, callbacks, intents, issued) && p in callbacks && callbacks[p].stage.Intended? && callbacks[p].request < |log|
    ensures
      var c := callbacks[p];
      TokensSound(cfg, log, callbacks[p := c.(stage := Issued(|issued|))], intents,
                  issued + [Issue(c.request, c.stage.intent, log[c.request].tenant, c.assertion, c.at, c.expiry, c.passed)])
  {
  }

  lemma LogLonger(cfg: Config, s: State, login: Login)
    requires TokensSound(cfg, s.requests.log, s.callbacks, s.intents, s.issued)
    requires CookiesSound(cfg, s.requests.log, s.callbacks, s.issued, s.accepts, s.cookies)
    ensures TokensSound(cfg, s.requests.log + [login], s.callbacks, s.intents, s.issued)
    ensures CookiesSound(cfg, s.requests.log + [login], s.callbacks, s.issued, s.accepts, s.cookies)
  {
    var log := s.requests.log + [login];
    assert forall i :: 0 <= i < |s.requests.log| ==> log[i] == s.requests.log[i];
  }

  // ----- Cookies -----

  lemma CookiesMoved(cfg: Config, log: seq<Login>, callbacks: map<int, Callback>, issued: seq<Issue>, accepts: seq<nat>,
                     cookies: seq<Cookie>, p: int, c: Callback)
    requires CookiesSound(cfg, log, callbacks, issued, accepts, cookies) && !HoldsIssue(c.stage)
    ensures CookiesSound(cfg, log, callbacks[p := c], issued, accepts, cookies)
    ensures CookiesSound(cfg, log, callbacks - {p}, issued, accepts, cookies)
  {
  }

  lemma CookiesIssued(cfg: Config, log: seq<Login>, callbacks: map<int, Callback>, issued: seq<Issue>, accepts: seq<nat>,
                      cookies: seq<Cookie>, p: int, c: Callback, i: Issue)
    requires CookiesSound(cfg, log, callbacks, issued, accepts, cookies) && c.stage == Issued(|issued|)
    ensures CookiesSound(cfg, log, callbacks[p := c], issued + [i], accepts, cookies)
  {
    forall c | 0 <= c < |cookies|
      ensures CookieSound(cfg, log, issued + [i], accepts, cookies[c])
    {
      assert CookieSound(cfg, log, issued, accepts, cookies[c]);
    }
  }

  lemma CookiesAccepted(cfg: Config, log: seq<Login>, callbacks: map<int, Callback>, issued: seq<Issue>, accepts: seq<nat>,
                        cookies: seq<Cookie>, p: int)
    requires CookiesSound(cfg, log, callbacks, issued, accepts, cookies) && p in callbacks && callbacks[p].stage.Issued?
    ensures
      var c := callbacks[p];
      CookiesSound(cfg, log, callbacks[p := c.(stage := Accepted(c.stage.issue, |accepts|))], issued, accepts + [c.request], cookies)
  {
    var more := accepts + [callbacks[p].request];
    forall c | 0 <= c < |cookies|
      ensures CookieSound(cfg, log, issued, more, cookies[c])
    {
      assert CookieSound(cfg, log, issued, accepts, cookies[c]);
    }
  }

  lemma CookiesSet(cfg: Config, log: seq<Login>, callbacks: map<int, Callback>, issued: seq<Issue>, accepts: seq<nat>,
                   cookies: seq<Cookie>, p: int, cookie: Cookie, requests: Ledger<Login>)
    requires CookiesSound(cfg, log, callbacks, issued, accepts, cookies)
    requires CallbacksSound(requests, callbacks) && IssuesSound(requests.spent, callbacks, issued)
    requires p in callbacks && callbacks[p].stage.Accepted? && cookie.issue == callbacks[p].stage.issue
    requires CookieSound(cfg, log, issued, accepts, cookie)
    ensures CookiesSound(cfg, log, callbacks - {p}, issued, accepts, cookies + [cookie])
  {
    var more := cookies + [cookie];
    forall q | q in callbacks - {p} && HoldsIssue(callbacks[q].stage)
      ensures cookie.issue != callbacks[q].stage.issue
    {
      assert issued[callbacks[q].stage.issue].request == callbacks[q].request;
      assert issued[cookie.issue].request == callbacks[p].request;
    }
  }

  // ----- Passages of the replay guard -----

  lemma PassagesLater(now: int, seen: map<string, int>, callbacks: map<int, Callback>, issued: seq<Issue>, later: int)
    requires PassagesSound(now, seen, callbacks, issued) && now <= later
    ensures PassagesSound(later, seen, callbacks, issued)
  {
  }

  lemma PassagesForgotten(now: int, seen: map<string, int>, callbacks: map<int, Callback>, issued: seq<Issue>, id: string)
    requires PassagesSound(now, seen, callbacks, issued) && id in seen && now >= seen[id] + SEEN_TTL
    ensures PassagesSound(now, seen - {id}, callbacks, issued)
  {
  }

  /** A move that neither passes the guard nor issues. */
  lemma PassagesMoved(now: int, seen: map<string, int>, callbacks: map<int, Callback>, issued: seq<Issue>, p: int, c: Callback)
    requires PassagesSound(now, seen, callbacks, issued)
    requires Waiting(c) ==> p in callbacks && Waiting(callbacks[p]) && c.assertion == callbacks[p].assertion && c.passed == callbacks[p].passed
    ensures PassagesSound(now, seen, callbacks[p := c], issued) && PassagesSound(now, seen, callbacks - {p}, issued)
  {
  }

  lemma PassagesMarked(now: int, seen: map<string, int>, callbacks: map<int, Callback>, issued: seq<Issue>, p: int)
    requires PassagesSound(now, seen, callbacks, issued) && p in callbacks && callbacks[p].stage.Validated? && callbacks[p].assertion.id !in seen
    ensures
      var c := callbacks[p];
      PassagesSound(now, seen[c.assertion.id := now], callbacks[p := c.(passed := now, stage := Fresh)], issued)
  {
  }

  lemma PassagesIssued(now: int, seen: map<string, int>, callbacks: map<int, Callback>, issued: seq<Issue>, p: int, c: Callback, i: Issue)
    requires PassagesSound(now, seen, callbacks, issued) && p in callbacks && Waiting(callbacks[p]) && !Waiting(c)
    requires i.assertion == callbacks[p].assertion && i.passed == callbacks[p].passed
    ensures PassagesSound(now, seen, callbacks[p := c], issued + [i])
  {
  }

  // ----- Every step keeps the invariant -----

  lemma RequestStepKeeps(cfg: Config, s: State, a: Action)
    requires Inv(cfg, s) && Enabled(cfg, s, a) && (a.Tick? || a.Begin? || a.LoseRequest? || a.ForgetSeen?)
    ensures Inv(cfg, Next(cfg, s, a))
  {
    if a.Begin? {
      CreateSound(s.requests, a.id, a.login);
      LogLonger(cfg, s, a.login);
    } else if a.LoseRequest? {
      ExpireSound(s.requests, a.id);
    } else if a.Tick? {
      PassagesLater(s.now, s.seen, s.callbacks, s.issued, a.now);
    } else {
      PassagesForgotten(s.now, s.seen, s.callbacks, s.issued, a.id);
    }
  }

  lemma ConsumeKeeps(cfg: Config, s: State, p: int, id: string)
    requires Inv(cfg, s) && Enabled(cfg, s, Consume(p, id))
    ensures Inv(cfg, Next(cfg, s, Consume(p, id)))
  {
    var c := Callback(s.requests.live[id].index, Assertion("", "", 0), 0, 0, 0, Consumed);
    var after := SingleUse.Consume(s.requests, id);
    CallbackConsumed(s.requests, s.callbacks, p, id, c);
    IssuesConsumed(s.requests.spent, after.spent, s.callbacks, s.issued, p, c);
    TokensMoved(cfg, s.requests.log, s.callbacks, s.intents, s.issued, p, c);
    CookiesMoved(cfg, s.requests.log, s.callbacks, s.issued, s.accepts, s.cookies, p, c);
    PassagesMoved(s.now, s.seen, s.callbacks, s.issued, p, c);
  }

  /** A callback moves on before it holds a token. */
  lemma EarlyMove(cfg: Config, s: State, p: int, c: Callback)
    requires Inv(cfg, s) && p in s.callbacks && c.request == s.callbacks[p].request
    requires !HoldsIssue(c.stage) && !HoldsIssue(s.callbacks[p].stage)
    ensures CallbacksSound(s.requests, s.callbacks[p := c]) && IssuesSound(s.requests.spent, s.callbacks[p := c], s.issued)
    ensures CookiesSound(cfg, s.requests.log, s.callbacks[p := c], s.issued, s.accepts, s.cookies)
  {
    CallbackMoved(s.requests, s.callbacks, p, c);
    IssuesMoved(s.requests.spent, s.callbacks, s.issued, p, c);
    CookiesMoved(cfg, s.requests.log, s.callbacks, s.issued, s.accepts, s.cookies, p, c);
  }

  lemma ValidateKeeps(cfg: Config, s: State, p: int, relay: string, assertion: Assertion)
    requires Inv(cfg, s) && Enabled(cfg, s, Validate(p, relay, assertion))
    ensures Inv(cfg, Next(cfg, s, Validate(p, relay, assertion)))
  {
    var expiry := BoundedExpiry(cfg.sessionTtl, assertion.notOnOrAfter, s.now);
    var c := Callback(s.callbacks[p].request, assertion, s.now, expiry, 0, Validated);
    assert Bounded(cfg, assertion, s.now, expiry);
    EarlyMove(cfg, s, p, c);
    TokensMoved(cfg, s.requests.log, s.callbacks, s.intents, s.issued, p, c);
    PassagesMoved(s.now, s.seen, s.callbacks, s.issued, p, c);
  }

  lemma MarkKeeps(cfg: Config, s: State, p: int)
    requires Inv(cfg, s) && Enabled(cfg, s, MarkSeen(p))
    ensures Inv(cfg, Next(cfg, s, MarkSeen(p)))
  {
    var c := s.callbacks[p].(passed := s.now, stage := Fresh);
    EarlyMove(cfg, s, p, c);
    TokensMoved(cfg, s.requests.log, s.callbacks, s.intents, s.issued, p, c);
    PassagesMarked(s.now, s.seen, s.callbacks, s.issued, p);
  }

  lemma IntentKeeps(cfg: Config, s: State, p: int)
    requires Inv(cfg, s) && Enabled(cfg, s, PersistIntent(p))
    ensures Inv(cfg, Next(cfg, s, PersistIntent(p)))
  {
    EarlyMove(cfg, s, p, s.callbacks[p].(stage := Intended(|s.intents|)));
    TokensIntended(cfg, s.requests.log, s.callbacks, s.intents, s.issued, p);
    PassagesMoved(s.now, s.seen, s.callbacks, s.issued, p, s.callbacks[p].(stage := Intended(|s.intents|)));
  }

  lemma IssueKeeps(cfg: Config, s: State, p: int)
    requires Inv(cfg, s) && Enabled(cfg, s, IssueToken(p))
    ensures Inv(cfg, Next(cfg, s, IssueToken(p)))
  {
    var c := s.callbacks[p];
    var c' := c.(stage := Issued(|s.issued|));
    var i := Issue(c.request, c.stage.intent, s.requests.log[c.request].tenant, c.assertion, c.at, c.expiry, c.passed);
    CallbackMoved(s.requests, s.callbacks, p, c');
    IssuesIssued(s.requests, s.callbacks, s.issued, p, i);
    TokensIssued(cfg, s.requests.log, s.callbacks, s.intents, s.issued, p);
    CookiesIssued(cfg, s.requests.log, s.callbacks, s.issued, s.accepts, s.cookies, p, c', i);
    PassagesIssued(s.now, s.seen, s.callbacks, s.issued, p, c', i);
  }

  lemma AcceptKeeps(cfg: Config, s: State, p: int)
    requires Inv(cfg, s) && Enabled(cfg, s, PersistAccept(p))
    ensures Inv(cfg, Next(cfg, s, PersistAccept(p)))
  {
    var c := s.callbacks[p].(stage := Accepted(s.callbacks[p].stage.issue, |s.accepts|));
    CallbackMoved(s.requests, s.callbacks, p, c);
    IssuesMoved(s.requests.spent, s.callbacks, s.issued, p, c);
    TokensMoved(cfg, s.requests.log, s.callbacks, s.intents, s.issued, p, c);
    CookiesAccepted(cfg, s.requests.log, s.callbacks, s.issued, s.accepts, s.cookies, p);
    PassagesMoved(s.now, s.seen, s.callbacks, s.issued, p, c);
  }

  lemma WholeSeconds(expiry: int, at: int)
    requires at + SECOND <= expiry
    ensures 0 < MaxAge(expiry, at) && MaxAge(expiry, at) * SECOND <= expiry - at
  {
  }

  lemma CookieKeeps(cfg: Config, s: State, p: int)
    requires Inv(cfg, s) && Enabled(cfg, s, SetCookie(p))
    ensures Inv(cfg, Next(cfg, s, SetCookie(p)))
  {
    var c := s.callbacks[p];
    WholeSeconds(c.expiry, c.at);
    var cookie := Cookie(c.stage.issue, c.stage.accept, MaxAge(c.expiry, c.at), Redirect(cfg, s.requests.log[c.request].relay));
    assert CookieSound(cfg, s.requests.log, s.issued, s.accepts, cookie);
    CallbackMoved(s.requests, s.callbacks, p, c);
    IssuesGone(s.requests.spent, s.callbacks, s.issued, p);
    TokensGone(cfg, s.requests.log, s.callbacks, s.intents, s.issued, p);
    CookiesSet(cfg, s.requests.log, s.callbacks, s.issued, s.accepts, s.cookies, p, cookie, s.requests);
    PassagesMoved(s.now, s.seen, s.callbacks, s.issued, p, c);
  }

  lemma StopKeeps(cfg: Config, s: State, p: int)
    requires Inv(cfg, s)
    ensures Inv(cfg, s.(callbacks := s.callbacks - {p}))
  {
    if p in s.callbacks {
      CallbackMoved(s.requests, s.callbacks, p, s.callbacks[p]);
    } else {
      assert s.callbacks - {p} == s.callbacks;
    }
    IssuesGone(s.requests.spent, s.callbacks, s.issued, p);
    TokensGone(cfg, s.requests.log, s.callbacks, s.intents, s.issued, p);
    var none := Callback(0, Assertion("", "", 0), 0, 0, 0, Consumed);
    CookiesMoved(cfg, s.requests.log, s.callbacks, s.issued, s.accepts, s.cookies, p, none);
    PassagesMoved(s.now, s.seen, s.callbacks, s.issued, p, none);
  }

  lemma StepKeeps(cfg: Config, s: State, a: Action)
    requires Inv(cfg, s) && Enabled(cfg, s, a)
    ensures Inv(cfg, Next(cfg, s, a))
  {
    match a
    case Consume(p, id) => ConsumeKeeps(cfg, s, p, id);
    case Validate(p, relay, assertion) => ValidateKeeps(cfg, s, p, relay, assertion);
    case MarkSeen(p) => MarkKeeps(cfg, s, p);
    case PersistIntent(p) => IntentKeeps(cfg, s, p);
    case IssueToken(p) => IssueKeeps(cfg, s, p);
    case PersistAccept(p) => AcceptKeeps(cfg, s, p);
    case SetCookie(p) => CookieKeeps(cfg, s, p);
    case Stop(p) => StopKeeps(cfg, s, p);
    case _ => RequestStepKeeps(cfg, s, a);
  }

  // ----- Runs -----

  ghost predicate IsRun(cfg: Config, states: seq<State>, actions: seq<Action>)
  {
    && |states| == |actions| + 1
    && states[0] == State(states[0].now, Empty(), map[], map[], [], [], [], [])
    && forall i :: 0 <= i < |actions| ==> Enabled(cfg, states[i], actions[i]) && states[i + 1] == Next(cfg, states[i], actions[i])
  }

  lemma {:induction false} RunInv(cfg: Config, states: seq<State>, actions: seq<Action>, i: nat)
    requires IsRun(cfg, states, actions) && i < |states|
    ensures Inv(cfg, states[i])
  {
    if i > 0 {
      RunInv(cfg, states, actions, i - 1);
      StepKeeps(cfg, states[i - 1], actions[i - 1]);
    }
  }

  /** Across all interleaved callbacks a login request yields at most one token and at most one exposed session. */
  lemma OneSessionPerRequest(cfg: Config, states: seq<State>, actions: seq<Action>, i: nat)
    requires IsRun(cfg, states, actions) && i < |states|
    ensures
      var s := states[i];
      && (forall k, l :: 0 <= k < l < |s.issued| ==> s.issued[k].request != s.issued[l].request)
      && (forall c, e :: 0 <= c < e < |s.cookies| ==> s.cookies[c].issue != s.cookies[e].issue)
      && |s.cookies| <= |s.issued| <= |s.requests.log|
  {
    RunInv(cfg, states, actions, i);
    var s := states[i];
    IssueCounts(cfg, s);
  }

  lemma IssueCounts(cfg: Config, s: State)
    requires Inv(cfg, s)
    ensures |s.cookies| <= |s.issued| <= |s.requests.log|
  {
    var from := seq(|s.issued|, k requires 0 <= k < |s.issued| => s.issued[k].request);
    Pigeonhole(from, |s.requests.log|);
    var shown := seq(|s.cookies|, c requires 0 <= c < |s.cookies| => s.cookies[c].issue);
    assert forall c :: 0 <= c < |s.cookies| ==> CookieSound(cfg, s.requests.log, s.issued, s.accepts, s.cookies[c]);
    Pigeonhole(shown, |s.issued|);
  }

  /**
   Each exposed session: its tenant is its login request's, its redirect that request's RelayState or the
   configured default, its token was issued after an intent for that request was persisted, the cookie
   set after an acceptance for it was persisted, and it outlives neither the assertion nor the configured lifetime.
   */
  lemma SessionProvenance(cfg: Config, states: seq<State>, actions: seq<Action>, i: nat, c: nat)
    requires IsRun(cfg, states, actions) && i < |states| && c < |states[i].cookies|
    ensures
      var s := states[i];
      && s.cookies[c].issue < |s.issued|
      && var cookie, issue := s.cookies[c], s.issued[s.cookies[c].issue];
         && issue.request < |s.requests.log|
         && issue.tenant == s.requests.log[issue.request].tenant
         && cookie.redirect == Redirect(cfg, s.requests.log[issue.request].relay)
         && (cookie.redirect == cfg.postLogin || (cookie.redirect == s.requests.log[issue.request].relay && cfg.safe(cookie.redirect)))
         && issue.intent < |s.intents| && s.intents[issue.intent] == issue.request
         && cookie.accept < |s.accepts| && s.accepts[cookie.accept] == issue.request
         && 0 < cookie.maxAge && issue.at + cookie.maxAge * SECOND <= issue.expiry <= issue.assertion.notOnOrAfter
         && (cfg.sessionTtl > 0 ==> cookie.maxAge <= cfg.sessionTtl)
  {
    RunInv(cfg, states, actions, i);
    var s := states[i];
    assert CookieSound(cfg, s.requests.log, s.issued, s.accepts, s.cookies[c]);
    assert Bounded(cfg, s.issued[s.cookies[c].issue].assertion, s.issued[s.cookies[c].issue].at, s.issued[s.cookies[c].issue].expiry);
  }

  /** Two tokens of one assertion, in whichever callbacks, passed the replay guard at least an hour apart. */
  lemma ReplayGuard(cfg: Config, states: seq<State>, actions: seq<Action>, i: nat, k: nat, l: nat)
    requires IsRun(cfg, states, actions) && i < |states| && k < l < |states[i].issued|
    requires states[i].issued[k].assertion.id == states[i].issued[l].assertion.id
    ensures Apart(states[i].issued[k].passed, states[i].issued[l].passed)
  {
    RunInv(cfg, states, actions, i);
    assert SameAssertion(states[i].issued[k].assertion, states[i].issued[l].assertion);
  }

  lemma Extend(cfg: Config, states: seq<State>, actions: seq<Action>, a: Action, s: State)
    requires IsRun(cfg, states, actions) && Enabled(cfg, states[|actions|], a) && s == Next(cfg, states[|actions|], a)
    ensures IsRun(cfg, states + [s], actions + [a])
  {
    var more, acts := states + [s], actions + [a];
    forall i | 0 <= i < |acts|
      ensures Enabled(cfg, more[i], acts[i]) && more[i + 1] == Next(cfg, more[i], acts[i])
    {
      if i < |actions| {
        assert states[i + 1] == Next(cfg, states[i], actions[i]);
      }
    }
  }

  ghost predicate Reached(cfg: Config, s: State)
  {
    exists states, actions :: IsRun(cfg, states, actions) && states[|actions|] == s
  }

  lemma Reach(cfg: Config, s: State, a: Action, s': State)
    requires Reached(cfg, s) && Enabled(cfg, s, a) && s' == Next(cfg, s, a)
    ensures Reached(cfg, s')
  {
    var states, actions :| IsRun(cfg, states, actions) && states[|actions|] == s;
    Extend(cfg, states, actions, a, s');
    assert (states + [s'])[|actions + [a]|] == s';
  }

  lemma ReachStart(cfg: Config, now: int)
    ensures Reached(cfg, State(now, Empty(), map[], map[], [], [], [], []))
  {
    assert IsRun(cfg, [State(now, Empty(), map[], map[], [], [], [], [])], []);
  }

  /** The state of a lone callback of the only login request. */
  function Lone(now: int, login: Login, c: Callback): State
  {
    State(now, Ledger(map[], [login], [0]), map[1 := c], map[], [], [], [], [])
  }

  lemma CallbackHappens(cfg: Config, now: int, login: Login, assertion: Assertion)
    requires MaxAge(BoundedExpiry(cfg.sessionTtl, assertion.notOnOrAfter, now), now) > 0
    ensures Reached(cfg, Lone(now, login, Callback(0, assertion, now, BoundedExpiry(cfg.sessionTtl, assertion.notOnOrAfter, now), 0, Validated)))
  {
    var s0 := State(now, Empty(), map[], map[], [], [], [], []);
    var s1 := s0.(requests := Ledger(map["r" := Entry(login, 0)], [login], []));
    var s2 := Lone(now, login, Callback(0, Assertion("", "", 0), 0, 0, 0, Consumed));
    ReachStart(cfg, now);
    Reach(cfg, s0, Begin("r", login), s1);
    Reach(cfg, s1, Consume(1, "r"), s2);
    Reach(cfg, s2, Validate(1, login.relay, assertion),
          Lone(now, login, Callback(0, assertion, now, BoundedExpiry(cfg.sessionTtl, assertion.notOnOrAfter, now), 0, Validated)));
  }

  function Marked(now: int, login: Login, c: Callback): State
  {
    Lone(now, login, c).(seen := map[c.assertion.id := now])
  }

  /** The bound is met: a login carried through by one callback exposes one session. */
  lemma SessionHappens(cfg: Config, now: int, login: Login, assertion: Assertion) returns (s: State)
    requires MaxAge(BoundedExpiry(cfg.sessionTtl, assertion.notOnOrAfter, now), now) > 0
    ensures Reached(cfg, s) && |s.cookies| == 1
  {
    var expiry := BoundedExpiry(cfg.sessionTtl, assertion.notOnOrAfter, now);
    var first := Callback(0, assertion, now, expiry, 0, Validated);
    var c := first.(passed := now);
    CallbackHappens(cfg, now, login, assertion);
    var marked := Marked(now, login, c.(stage := Fresh));
    Reach(cfg, Lone(now, login, first), MarkSeen(1), marked);
    var intended := Marked(now, login, c.(stage := Intended(0))).(intents := [0]);
    Reach(cfg, marked, PersistIntent(1), intended);
    var issued := Marked(now, login, c.(stage := Issued(0))).(intents := [0], issued := [Issue(0, 0, login.tenant, assertion, now, expiry, now)]);
    Reach(cfg, intended, IssueToken(1), issued);
    s := SessionEnds(cfg, now, login, c, issued);
  }

  lemma SessionEnds(cfg: Config, now: int, login: Login, c: Callback, issued: State) returns (s: State)
    requires Reached(cfg, issued) && issued.callbacks == map[1 := c.(stage := Issued(0))] && issued.requests.log == [login] && c.request == 0
    requires c.expiry >= c.at && issued.accepts == [] && issued.cookies == []
    ensures Reached(cfg, s) && |s.cookies| == 1
  {
    var accepted := issued.(callbacks := map[1 := c.(stage := Accepted(0, 0))], accepts := [0]);
    Reach(cfg, issued, PersistAccept(1), accepted);
    s := accepted.(callbacks := map[], cookies := [Cookie(0, 0, MaxAge(c.expiry, c.at), Redirect(cfg, login.relay))]);
    Reach(cfg, accepted, SetCookie(1), s);
  }
}
