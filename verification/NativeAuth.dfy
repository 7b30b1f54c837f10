/**
 The native authorization-code flow as a protocol: authorize, consent and token handlers interleave
 command by command over two stores of single-use records. A handler may stop at any point (an audit
 that cannot be persisted, a lost connection, a crash). A record lives in the store until its TTL has
 run out; the TTL is computed before the command that stores the record is sent, and counts from the
 moment that command runs.
 Section 4.1 of RFC 6749 and section 4.6 of RFC 7636.
 */
module NativeAuth {
  import opened Prelude
  import opened SingleUse

  const REQUEST_TTL := 300
  const CODE_TTL := 60

  datatype Request = Request(client: string, fingerprint: string, redirect: string, state: string, challenge: string, expiresAt: int)

  datatype Grant = Grant(
    client: string,
    fingerprint: string,
    redirect: string,
    challenge: string,
    identity: Identity,
    expiresAt: int
  )

  /** What the browser session vouches for. */
  datatype Identity = Identity(subject: string, tenant: string, tokenVersion: nat, scopes: seq<string>, sessionExpiresAt: int)

  /** A registered client: its policy fingerprint and the redirects its policy accepts. */
  datatype Policy = Policy(fingerprint: string, accepts: string -> bool)

  /** The client registry and the S256 transformation. */
  datatype Config = Config(clients: map<string, Policy>, s256: string -> string)

  /** The parameters of a token request. */
  datatype Ask = Ask(client: string, redirect: string, verifier: string)

  datatype Consent =
    | Reading(id: string, request: Request, approve: bool, identity: Identity)
    | Checked(id: string, request: Request, approve: bool, identity: Identity)
    | Approved(approval: nat, request: Request, identity: Identity)
    | Minted(approval: nat, grant: Grant, at: int)

  datatype Redeem =
    | Presented(id: string, grant: Grant, ask: Ask)
    | Verified(id: string, grant: Grant, ask: Ask, at: int)
    | Redeemed(redemption: nat)

  /** `origins[j]` says which approval the `j`-th code came from, `redemptions[k]` how the `k`-th spent code was spent. */
  datatype Origin = Origin(approval: nat, times: Times)
  datatype Redemption = Redemption(ask: Ask, at: int, consumed: int)

  /** When a record's expiry was computed, when its TTL was, and when it was stored under that TTL. */
  datatype Times = Times(at: int, sent: int, stored: int)

  datatype State = State(
    now: int,
    requests: Ledger<Request>,
    arrivals: seq<Times>,           // by position in requests.log
    approvals: seq<nat>,            // approved consumptions, by position in requests.log
    approvers: seq<Identity>,       // who approved, by position in approvals
    consents: map<int, Consent>,
    codes: Ledger<Grant>,
    origins: seq<Origin>,
    redeems: map<int, Redeem>,
    redemptions: seq<Redemption>,
    tokens: seq<nat>                // issued tokens, by position in redemptions
  )

  // ----- Checks -----

  predicate Registered(cfg: Config, client: string, fingerprint: string, redirect: string)
  {
    client in cfg.clients && cfg.clients[client].fingerprint == fingerprint && cfg.clients[client].accepts(redirect)
  }

  /** What the token handler compares before it consumes a code. */
  predicate AskMatches(cfg: Config, ask: Ask, g: Grant)
  {
    && ask.client == g.client && ask.redirect == g.redirect && Registered(cfg, g.client, g.fingerprint, g.redirect)
    && cfg.s256(ask.verifier) == g.challenge
  }

  function GrantFor(r: Request, identity: Identity, now: int): Grant
  {
    Grant(r.client, r.fingerprint, r.redirect, r.challenge, identity, Min(now + CODE_TTL, identity.sessionExpiresAt))
  }

  /** The store keeps a record until its TTL, what remained of its life when it was sent, has run out. */
  function Deadline(expiresAt: int, t: Times): int
  {
    t.stored + (expiresAt - t.sent)
  }

  /** How long the record was on its way. */
  function Delay(t: Times): int
  {
    t.stored - t.sent
  }

  predicate Ordered(t: Times)
  {
    t.at <= t.sent <= t.stored
  }

  predicate RequestStored(s: State, id: string)
  {
    && id in s.requests.live
    && var e := s.requests.live[id]; e.index < |s.arrivals| && s.now < Deadline(e.value.expiresAt, s.arrivals[e.index])
  }

  predicate CodeStored(s: State, id: string)
  {
    && id in s.codes.live
    && var e := s.codes.live[id]; e.index < |s.origins| && s.now < Deadline(e.value.expiresAt, s.origins[e.index].times)
  }

  // ----- Steps -----

  datatype Action =
    | Tick(now: int)
    | Authorize(id: string, request: Request, at: int, sent: int)
    | LoseRequest(id: string)
    | LoseCode(id: string)
    | ReadRequest(p: int, id: string, approve: bool, identity: Identity)
    | CheckRequest(p: int)
    | ConsumeRequest(p: int)
    | MintCode(p: int)
    | StoreCode(p: int, id: string, sent: int)
    | AbandonConsent(p: int)
    | ReadCode(p: int, id: string, ask: Ask)
    | CheckCode(p: int)
    | ConsumeCode(p: int)
    | Issue(p: int)
    | AbandonRedeem(p: int)

  predicate Enabled(cfg: Config, s: State, a: Action)
  {
    match a
    case Tick(now) => s.now <= now
    case Authorize(id, r, at, sent) =>
      && id !in s.requests.live && Registered(cfg, r.client, r.fingerprint, r.redirect) && r.expiresAt == at + REQUEST_TTL
      && Ordered(Times(at, sent, s.now)) && sent < r.expiresAt
    case LoseRequest(_) => true
    case LoseCode(_) => true
    case ReadRequest(p, id, _, _) =>
      && p !in s.consents && RequestStored(s, id)
      && var r := s.requests.live[id].value; r.expiresAt > s.now && Registered(cfg, r.client, r.fingerprint, r.redirect)
    case CheckRequest(p) => p in s.consents && s.consents[p].Reading? && s.consents[p].request.expiresAt > s.now
    case ConsumeRequest(p) =>
      && p in s.consents && s.consents[p].Checked?
      && RequestStored(s, s.consents[p].id) && Consumable(s.requests, s.consents[p].id, s.consents[p].request)
    case MintCode(p) =>
      && p in s.consents && s.consents[p].Approved?
      && Min(s.now + CODE_TTL, s.consents[p].identity.sessionExpiresAt) > s.now
    case StoreCode(p, id, sent) =>
      && p in s.consents && s.consents[p].Minted? && id !in s.codes.live
      && Ordered(Times(s.consents[p].at, sent, s.now)) && sent < s.consents[p].grant.expiresAt
    case AbandonConsent(_) => true
    case ReadCode(p, id, ask) =>
      && p !in s.redeems && CodeStored(s, id)
      && var g := s.codes.live[id].value; g.expiresAt > s.now && g.identity.sessionExpiresAt > s.now && AskMatches(cfg, ask, g)
    case CheckCode(p) => p in s.redeems && s.redeems[p].Presented? && s.redeems[p].grant.expiresAt > s.now
    case ConsumeCode(p) =>
      && p in s.redeems && s.redeems[p].Verified?
      && CodeStored(s, s.redeems[p].id) && Consumable(s.codes, s.redeems[p].id, s.redeems[p].grant)
    case Issue(p) => p in s.redeems && s.redeems[p].Redeemed?
    case AbandonRedeem(_) => true
  }

  function Next(s: State, a: Action, cfg: Config): State
    requires Enabled(cfg, s, a)
  {
    match a
    case Tick(now) => s.(now := now)
    case Authorize(id, r, at, sent) =>
      s.(requests := Create(s.requests, id, r), arrivals := s.arrivals + [Times(at, sent, s.now)])
    case LoseRequest(id) => s.(requests := Expire(s.requests, id))
    case LoseCode(id) => s.(codes := Expire(s.codes, id))
    case ReadRequest(p, id, approve, identity) =>
      s.(consents := s.consents[p := Reading(id, s.requests.live[id].value, approve, identity)])
    case CheckRequest(p) =>
      var c := s.consents[p];
      s.(consents := s.consents[p := Checked(c.id, c.request, c.approve, c.identity)])
    case ConsumeRequest(p) =>
      var c := s.consents[p];
      if c.approve then
        s.(requests := Consume(s.requests, c.id),
           approvals := s.approvals + [s.requests.live[c.id].index],
           approvers := s.approvers + [c.identity],
           consents := s.consents[p := Approved(|s.approvals|, c.request, c.identity)])
      else s.(requests := Consume(s.requests, c.id), consents := s.consents - {p})
    case MintCode(p) =>
      var c := s.consents[p];
      s.(consents := s.consents[p := Minted(c.approval, GrantFor(c.request, c.identity, s.now), s.now)])
    case StoreCode(p, id, sent) =>
      var c := s.consents[p];
      s.(codes := Create(s.codes, id, c.grant),
         origins := s.origins + [Origin(c.approval, Times(c.at, sent, s.now))],
         consents := s.consents - {p})
    case AbandonConsent(p) => s.(consents := s.consents - {p})
    case ReadCode(p, id, ask) => s.(redeems := s.redeems[p := Presented(id, s.codes.live[id].value, ask)])
    case CheckCode(p) =>
      var r := s.redeems[p];
      s.(redeems := s.redeems[p := Verified(r.id, r.grant, r.ask, s.now)])
    case ConsumeCode(p) =>
      var r := s.redeems[p];
      s.(codes := Consume(s.codes, r.id),
         redemptions := s.redemptions + [Redemption(r.ask, r.at, s.now)],
         redeems := s.redeems[p := Redeemed(|s.redemptions|)])
    case Issue(p) => s.(tokens := s.tokens + [s.redeems[p].redemption], redeems := s.redeems - {p})
    case AbandonRedeem(p) => s.(redeems := s.redeems - {p})
  }

  // ----- The invariant -----

  /** Every approval is a different consumed request. */
  ghost predicate ApprovalsSound(requests: Ledger<Request>, approvals: seq<nat>)
  {
    && Sound(requests) && Distinct(approvals) && Below(approvals, |requests.log|)
    && forall i :: 0 <= i < |approvals| ==> approvals[i] in requests.spent
  }

  /** The grant carries the client, redirect and challenge of the request and lives at most a minute of the session. */
  predicate FromRequest(g: Grant, r: Request, at: int)
  {
    && g.client == r.client && g.fingerprint == r.fingerprint && g.redirect == r.redirect && g.challenge == r.challenge
    && g.expiresAt <= at + CODE_TTL && g.expiresAt <= g.identity.sessionExpiresAt
  }

  /** Every code comes from an approval of its own; a handler that holds an approval has not stored a code for it. */
  ghost predicate OriginsSound(log: seq<Request>, approvals: seq<nat>, consents: map<int, Consent>, codes: seq<Grant>, origins: seq<Origin>)
    requires Below(approvals, |log|)
  {
    && |origins| == |codes|
    && (forall j :: 0 <= j < |origins| ==> origins[j].approval < |approvals|)
    && (forall j :: 0 <= j < |origins| ==> FromRequest(codes[j], log[approvals[origins[j].approval]], origins[j].times.at))
    && (forall i, j :: 0 <= i < j < |origins| ==> origins[i].approval != origins[j].approval)
    && (forall p :: p in consents && HoldsApproval(consents[p]) ==>
          && consents[p].approval < |approvals|
          && (forall j :: 0 <= j < |origins| ==> origins[j].approval != consents[p].approval))
    && (forall p, q :: p in consents && q in consents && p != q && HoldsApproval(consents[p]) && HoldsApproval(consents[q]) ==>
          consents[p].approval != consents[q].approval)
    && (forall p :: p in consents && consents[p].Approved? ==> consents[p].request == log[approvals[consents[p].approval]])
    && (forall p :: p in consents && consents[p].Minted? ==>
          FromRequest(consents[p].grant, log[approvals[consents[p].approval]], consents[p].at))
  }

  /** Every code was sent while it was to live on, and every redemption found it before its deadline, after its last check. */
  ghost predicate TimesSound(now: int, codes: Ledger<Grant>, origins: seq<Origin>, redeems: map<int, Redeem>, redemptions: seq<Redemption>)
  {
    && |origins| == |codes.log| && |redemptions| == |codes.spent| && Below(codes.spent, |codes.log|)
    && (forall j :: 0 <= j < |origins| ==> Ordered(origins[j].times) && origins[j].times.sent < codes.log[j].expiresAt)
    && (forall p :: p in redeems && redeems[p].Verified? ==> redeems[p].at <= now)
    && (forall k :: 0 <= k < |redemptions| ==> InTime(redemptions[k], codes.log[codes.spent[k]], origins[codes.spent[k]]))
  }

  predicate InTime(r: Redemption, g: Grant, o: Origin)
  {
    r.at <= r.consumed < Deadline(g.expiresAt, o.times)
  }

  /** The grant of every code, stored or about to be, names who approved it. */
  ghost predicate IdentitiesSound(approvals: seq<nat>, approvers: seq<Identity>, consents: map<int, Consent>, codes: seq<Grant>, origins: seq<Origin>)
  {
    && |approvers| == |approvals| && |origins| == |codes|
    && (forall j :: 0 <= j < |origins| ==> origins[j].approval < |approvers| && codes[j].identity == approvers[origins[j].approval])
    && (forall p :: p in consents && consents[p].Approved? ==>
          consents[p].approval < |approvers| && consents[p].identity == approvers[consents[p].approval])
    && (forall p :: p in consents && consents[p].Minted? ==>
          consents[p].approval < |approvers| && consents[p].grant.identity == approvers[consents[p].approval])
  }

  predicate HoldsApproval(c: Consent)
  {
    c.Approved? || c.Minted?
  }

  /** The redemption matched its code and passed its last expiry check in time. */
  predicate Proper(cfg: Config, r: Redemption, g: Grant)
  {
    AskMatches(cfg, r.ask, g) && r.at < g.expiresAt
  }

  /** Every spent code was spent by a matching request, and a handler past its checks holds such a request. */
  ghost predicate RedemptionsSound(cfg: Config, codes: Ledger<Grant>, redeems: map<int, Redeem>, redemptions: seq<Redemption>)
  {
    && Sound(codes) && |redemptions| == |codes.spent|
    && (forall k :: 0 <= k < |redemptions| ==> Proper(cfg, redemptions[k], codes.log[codes.spent[k]]))
    && (forall p :: p in redeems && !redeems[p].Redeemed? ==> AskMatches(cfg, redeems[p].ask, redeems[p].grant))
    && (forall p :: p in redeems && redeems[p].Verified? ==> redeems[p].at < redeems[p].grant.expiresAt)
  }

  /** Every token comes from a redemption of its own. */
  ghost predicate TokensSound(redeems: map<int, Redeem>, n: nat, tokens: seq<nat>)
  {
    && Distinct(tokens) && Below(tokens, n)
    && (forall p :: p in redeems && redeems[p].Redeemed? ==> redeems[p].redemption < n && redeems[p].redemption !in tokens)
    && (forall p, q :: p in redeems && q in redeems && p != q && redeems[p].Redeemed? && redeems[q].Redeemed? ==>
          redeems[p].redemption != redeems[q].redemption)
  }

  ghost predicate Inv(cfg: Config, s: State)
  {
    && ApprovalsSound(s.requests, s.approvals)
    && OriginsSound(s.requests.log, s.approvals, s.consents, s.codes.log, s.origins)
    && RedemptionsSound(cfg, s.codes, s.redeems, s.redemptions)
    && TokensSound(s.redeems, |s.redemptions|, s.tokens)
    && TimesSound(s.now, s.codes, s.origins, s.redeems, s.redemptions)
    && IdentitiesSound(s.approvals, s.approvers, s.consents, s.codes.log, s.origins)
  }

  // ----- Requests and approvals -----

  lemma ApproveSound(requests: Ledger<Request>, approvals: seq<nat>, id: string)
    requires ApprovalsSound(requests, approvals) && id in requests.live
    ensures ApprovalsSound(Consume(requests, id), approvals)
    ensures ApprovalsSound(Consume(requests, id), approvals + [requests.live[id].index])
  {
    ConsumeSound(requests, id);
    var index, after := requests.live[id].index, Consume(requests, id);
    assert after.spent[|requests.spent|] == index;
    forall i | 0 <= i < |approvals|
      ensures approvals[i] in after.spent && approvals[i] != index
    {
      var k :| 0 <= k < |requests.spent| && requests.spent[k] == approvals[i];
      assert after.spent[k] == approvals[i];
    }
  }

  lemma AuthorizeSound(requests: Ledger<Request>, approvals: seq<nat>, id: string, r: Request)
    requires ApprovalsSound(requests, approvals) && id !in requests.live
    ensures ApprovalsSound(Create(requests, id, r), approvals)
  {
    CreateSound(requests, id, r);
  }

  // ----- Codes and their origins -----

  lemma OriginsLonger(log: seq<Request>, approvals: seq<nat>, consents: map<int, Consent>, codes: seq<Grant>, origins: seq<Origin>,
                      more: seq<Request>)
    requires Below(approvals, |log|) && OriginsSound(log, approvals, consents, codes, origins)
    ensures Below(approvals, |log + more|) && OriginsSound(log + more, approvals, consents, codes, origins)
  {
    forall i | 0 <= i < |approvals|
      ensures approvals[i] < |log + more| && (log + more)[approvals[i]] == log[approvals[i]]
    {
    }
  }

  lemma OriginsFewer(log: seq<Request>, approvals: seq<nat>, consents: map<int, Consent>, codes: seq<Grant>, origins: seq<Origin>, p: int)
    requires Below(approvals, |log|) && OriginsSound(log, approvals, consents, codes, origins)
    ensures OriginsSound(log, approvals, consents - {p}, codes, origins)
  {
  }

  lemma OriginsWaiting(log: seq<Request>, approvals: seq<nat>, consents: map<int, Consent>, codes: seq<Grant>, origins: seq<Origin>,
                       p: int, c: Consent)
    requires Below(approvals, |log|) && OriginsSound(log, approvals, consents, codes, origins) && !HoldsApproval(c)
    ensures OriginsSound(log, approvals, consents[p := c], codes, origins)
  {
  }

  lemma OriginsApproved(log: seq<Request>, approvals: seq<nat>, consents: map<int, Consent>, codes: seq<Grant>, origins: seq<Origin>,
                        p: int, index: nat, identity: Identity)
    requires Below(approvals, |log|) && OriginsSound(log, approvals, consents, codes, origins) && index < |log|
    ensures Below(approvals + [index], |log|)
    ensures OriginsSound(log, approvals + [index], consents[p := Approved(|approvals|, log[index], identity)], codes, origins)
  {
    var more := approvals + [index];
    assert forall i :: 0 <= i < |approvals| ==> more[i] == approvals[i];
  }

  lemma OriginsMinted(log: seq<Request>, approvals: seq<nat>, consents: map<int, Consent>, codes: seq<Grant>, origins: seq<Origin>,
                      p: int, now: int)
    requires Below(approvals, |log|) && OriginsSound(log, approvals, consents, codes, origins)
    requires p in consents && consents[p].Approved?
    ensures
      var c := consents[p];
      OriginsSound(log, approvals, consents[p := Minted(c.approval, GrantFor(c.request, c.identity, now), now)], codes, origins)
  {
  }

  lemma OriginsStored(log: seq<Request>, approvals: seq<nat>, consents: map<int, Consent>, codes: seq<Grant>, origins: seq<Origin>,
                      p: int, times: Times)
    requires Below(approvals, |log|) && OriginsSound(log, approvals, consents, codes, origins)
    requires p in consents && consents[p].Minted? && times.at == consents[p].at
    ensures
      var c := consents[p];
      OriginsSound(log, approvals, consents - {p}, codes + [c.grant], origins + [Origin(c.approval, times)])
  {
  }

  // ----- Who approved -----

  lemma IdentitiesMoved(approvals: seq<nat>, approvers: seq<Identity>, consents: map<int, Consent>, codes: seq<Grant>, origins: seq<Origin>,
                        p: int, c: Consent)
    requires IdentitiesSound(approvals, approvers, consents, codes, origins)
    requires HoldsApproval(c) ==> p in consents && consents[p].Approved? && c.approval == consents[p].approval
    requires c.Approved? ==> c.identity == consents[p].identity
    requires c.Minted? ==> c.grant.identity == consents[p].identity
    ensures IdentitiesSound(approvals, approvers, consents[p := c], codes, origins)
    ensures IdentitiesSound(approvals, approvers, consents - {p}, codes, origins)
  {
  }

  lemma IdentitiesApproved(approvals: seq<nat>, approvers: seq<Identity>, consents: map<int, Consent>, codes: seq<Grant>, origins: seq<Origin>,
                           p: int, index: nat, request: Request, identity: Identity)
    requires IdentitiesSound(approvals, approvers, consents, codes, origins)
    ensures IdentitiesSound(approvals + [index], approvers + [identity], consents[p := Approved(|approvals|, request, identity)], codes, origins)
  {
  }

  lemma IdentitiesStored(approvals: seq<nat>, approvers: seq<Identity>, consents: map<int, Consent>, codes: seq<Grant>, origins: seq<Origin>,
                         p: int, times: Times)
    requires IdentitiesSound(approvals, approvers, consents, codes, origins) && p in consents && consents[p].Minted?
    ensures
      var c := consents[p];
      IdentitiesSound(approvals, approvers, consents - {p}, codes + [c.grant], origins + [Origin(c.approval, times)])
  {
  }

  // ----- Redemptions and tokens -----

  lemma StoreCodeSound(cfg: Config, codes: Ledger<Grant>, redeems: map<int, Redeem>, redemptions: seq<Redemption>, id: string, g: Grant)
    requires RedemptionsSound(cfg, codes, redeems, redemptions) && id !in codes.live
    ensures RedemptionsSound(cfg, Create(codes, id, g), redeems, redemptions)
  {
    CreateSound(codes, id, g);
    forall k | 0 <= k < |redemptions|
      ensures Proper(cfg, redemptions[k], Create(codes, id, g).log[codes.spent[k]])
    {
      assert codes.spent[k] < |codes.log|;
    }
  }

  lemma LoseCodeSound(cfg: Config, codes: Ledger<Grant>, redeems: map<int, Redeem>, redemptions: seq<Redemption>, id: string)
    requires RedemptionsSound(cfg, codes, redeems, redemptions)
    ensures RedemptionsSound(cfg, Expire(codes, id), redeems, redemptions)
  {
    ExpireSound(codes, id);
  }

  lemma RedeemerSound(cfg: Config, codes: Ledger<Grant>, redeems: map<int, Redeem>, redemptions: seq<Redemption>, p: int, r: Redeem)
    requires RedemptionsSound(cfg, codes, redeems, redemptions)
    requires !r.Redeemed? ==> AskMatches(cfg, r.ask, r.grant)
    requires r.Verified? ==> r.at < r.grant.expiresAt
    ensures RedemptionsSound(cfg, codes, redeems[p := r], redemptions) && RedemptionsSound(cfg, codes, redeems - {p}, redemptions)
  {
  }

  lemma ConsumeCodeSound(cfg: Config, codes: Ledger<Grant>, redeems: map<int, Redeem>, redemptions: seq<Redemption>, p: int, now: int)
    requires RedemptionsSound(cfg, codes, redeems, redemptions)
    requires p in redeems && redeems[p].Verified? && Consumable(codes, redeems[p].id, redeems[p].grant)
    ensures
      RedemptionsSound(cfg, Consume(codes, redeems[p].id), redeems, redemptions + [Redemption(redeems[p].ask, redeems[p].at, now)])
  {
    var r := redeems[p];
    ConsumeSound(codes, r.id);
    var after, more := Consume(codes, r.id), redemptions + [Redemption(r.ask, r.at, now)];
    forall k | 0 <= k < |more|
      ensures Proper(cfg, more[k], after.log[after.spent[k]])
    {
      if k < |redemptions| {
        assert after.spent[k] == codes.spent[k];
      }
    }
  }

  lemma TokensWaiting(redeems: map<int, Redeem>, n: nat, tokens: seq<nat>, p: int, r: Redeem)
    requires TokensSound(redeems, n, tokens) && !r.Redeemed?
    ensures TokensSound(redeems[p := r], n, tokens) && TokensSound(redeems - {p}, n, tokens)
  {
  }

  lemma TokensRedeemed(redeems: map<int, Redeem>, n: nat, tokens: seq<nat>, p: int)
    requires TokensSound(redeems, n, tokens)
    ensures TokensSound(redeems[p := Redeemed(n)], n + 1, tokens)
  {
  }

  lemma TokensIssued(redeems: map<int, Redeem>, n: nat, tokens: seq<nat>, p: int)
    requires TokensSound(redeems, n, tokens) && p in redeems && redeems[p].Redeemed?
    ensures TokensSound(redeems - {p}, n, tokens + [redeems[p].redemption])
  {
  }

  // ----- Times -----

  lemma TimesPass(now: int, codes: Ledger<Grant>, origins: seq<Origin>, redeems: map<int, Redeem>, redemptions: seq<Redemption>, later: int)
    requires TimesSound(now, codes, origins, redeems, redemptions) && now <= later
    ensures TimesSound(later, codes, origins, redeems, redemptions)
  {
  }

  lemma TimesRedeemer(now: int, codes: Ledger<Grant>, origins: seq<Origin>, redeems: map<int, Redeem>, redemptions: seq<Redemption>,
                      p: int, r: Redeem)
    requires TimesSound(now, codes, origins, redeems, redemptions) && (r.Verified? ==> r.at <= now)
    ensures TimesSound(now, codes, origins, redeems[p := r], redemptions) && TimesSound(now, codes, origins, redeems - {p}, redemptions)
  {
  }

  lemma TimesStored(now: int, codes: Ledger<Grant>, origins: seq<Origin>, redeems: map<int, Redeem>, redemptions: seq<Redemption>,
                    id: string, g: Grant, o: Origin)
    requires TimesSound(now, codes, origins, redeems, redemptions) && Ordered(o.times) && o.times.sent < g.expiresAt
    ensures TimesSound(now, Create(codes, id, g), origins + [o], redeems, redemptions)
  {
    var log, more := codes.log + [g], origins + [o];
    forall k | 0 <= k < |redemptions|
      ensures InTime(redemptions[k], log[codes.spent[k]], more[codes.spent[k]])
    {
      assert codes.spent[k] < |codes.log|;
      assert InTime(redemptions[k], codes.log[codes.spent[k]], origins[codes.spent[k]]);
    }
  }

  lemma TimesConsumed(s: State, p: int)
    requires Sound(s.codes) && TimesSound(s.now, s.codes, s.origins, s.redeems, s.redemptions)
    requires p in s.redeems && s.redeems[p].Verified? && CodeStored(s, s.redeems[p].id)
    ensures
      var r := s.redeems[p];
      TimesSound(s.now, Consume(s.codes, r.id), s.origins, s.redeems, s.redemptions + [Redemption(r.ask, r.at, s.now)])
  {
    var r := s.redeems[p];
    var after, more := Consume(s.codes, r.id), s.redemptions + [Redemption(r.ask, r.at, s.now)];
    forall k | 0 <= k < |more|
      ensures after.spent[k] < |s.codes.log| && InTime(more[k], s.codes.log[after.spent[k]], s.origins[after.spent[k]])
    {
      if k < |s.redemptions| {
        assert after.spent[k] == s.codes.spent[k];
        assert InTime(s.redemptions[k], s.codes.log[s.codes.spent[k]], s.origins[s.codes.spent[k]]);
      }
    }
  }

  // ----- Every step keeps the invariant -----

  lemma RequestStepKeeps(cfg: Config, s: State, a: Action)
    requires Inv(cfg, s) && Enabled(cfg, s, a) && (a.Authorize? || a.LoseRequest? || a.Tick?)
    ensures Inv(cfg, Next(s, a, cfg))
  {
    if a.Authorize? {
      AuthorizeSound(s.requests, s.approvals, a.id, a.request);
      OriginsLonger(s.requests.log, s.approvals, s.consents, s.codes.log, s.origins, [a.request]);
    } else if a.LoseRequest? {
      ExpireSound(s.requests, a.id);
    } else {
      TimesPass(s.now, s.codes, s.origins, s.redeems, s.redemptions, a.now);
    }
  }

  lemma ConsentStepKeeps(cfg: Config, s: State, a: Action)
    requires Inv(cfg, s) && Enabled(cfg, s, a) && (a.ReadRequest? || a.CheckRequest? || a.MintCode? || a.AbandonConsent?)
    ensures Inv(cfg, Next(s, a, cfg))
  {
    if a.AbandonConsent? {
      IdentitiesMoved(s.approvals, s.approvers, s.consents, s.codes.log, s.origins, a.p, Reading("", Request("", "", "", "", "", 0), false, Identity("", "", 0, [], 0)));
    } else {
      IdentitiesMoved(s.approvals, s.approvers, s.consents, s.codes.log, s.origins, a.p, Next(s, a, cfg).consents[a.p]);
    }
    if a.MintCode? {
      OriginsMinted(s.requests.log, s.approvals, s.consents, s.codes.log, s.origins, a.p, s.now);
    } else if a.AbandonConsent? {
      OriginsFewer(s.requests.log, s.approvals, s.consents, s.codes.log, s.origins, a.p);
    } else {
      OriginsWaiting(s.requests.log, s.approvals, s.consents, s.codes.log, s.origins, a.p, Next(s, a, cfg).consents[a.p]);
    }
  }

  lemma ConsumeRequestKeeps(cfg: Config, s: State, p: int)
    requires Inv(cfg, s) && Enabled(cfg, s, ConsumeRequest(p))
    ensures Inv(cfg, Next(s, ConsumeRequest(p), cfg))
  {
    var c := s.consents[p];
    var index := s.requests.live[c.id].index;
    ApproveSound(s.requests, s.approvals, c.id);
    OriginsApproved(s.requests.log, s.approvals, s.consents, s.codes.log, s.origins, p, index, c.identity);
    OriginsFewer(s.requests.log, s.approvals, s.consents, s.codes.log, s.origins, p);
    IdentitiesApproved(s.approvals, s.approvers, s.consents, s.codes.log, s.origins, p, index, c.request, c.identity);
    IdentitiesMoved(s.approvals, s.approvers, s.consents, s.codes.log, s.origins, p, c);
  }

  lemma StoreCodeKeeps(cfg: Config, s: State, p: int, id: string, sent: int)
    requires Inv(cfg, s) && Enabled(cfg, s, StoreCode(p, id, sent))
    ensures Inv(cfg, Next(s, StoreCode(p, id, sent), cfg))
  {
    var c := s.consents[p];
    var times := Times(c.at, sent, s.now);
    OriginsStored(s.requests.log, s.approvals, s.consents, s.codes.log, s.origins, p, times);
    TimesStored(s.now, s.codes, s.origins, s.redeems, s.redemptions, id, c.grant, Origin(c.approval, times));
    IdentitiesStored(s.approvals, s.approvers, s.consents, s.codes.log, s.origins, p, times);
    StoreCodeSound(cfg, s.codes, s.redeems, s.redemptions, id, s.consents[p].grant);
  }

  lemma RedeemStepKeeps(cfg: Config, s: State, a: Action)
    requires Inv(cfg, s) && Enabled(cfg, s, a) && (a.LoseCode? || a.ReadCode? || a.CheckCode? || a.AbandonRedeem?)
    ensures Inv(cfg, Next(s, a, cfg))
  {
    if a.LoseCode? {
      LoseCodeSound(cfg, s.codes, s.redeems, s.redemptions, a.id);
    } else if a.AbandonRedeem? {
      if a.p in s.redeems {
        RedeemerSound(cfg, s.codes, s.redeems, s.redemptions, a.p, Redeemed(0));
        TimesRedeemer(s.now, s.codes, s.origins, s.redeems, s.redemptions, a.p, Redeemed(0));
        assert TokensSound(s.redeems - {a.p}, |s.redemptions|, s.tokens);
      } else {
        assert s.redeems - {a.p} == s.redeems;
      }
    } else {
      var r := Next(s, a, cfg).redeems[a.p];
      RedeemerSound(cfg, s.codes, s.redeems, s.redemptions, a.p, r);
      TokensWaiting(s.redeems, |s.redemptions|, s.tokens, a.p, r);
      TimesRedeemer(s.now, s.codes, s.origins, s.redeems, s.redemptions, a.p, r);
    }
  }

  lemma SpendKeeps(cfg: Config, s: State, a: Action)
    requires Inv(cfg, s) && Enabled(cfg, s, a) && (a.ConsumeCode? || a.Issue?)
    ensures Inv(cfg, Next(s, a, cfg))
  {
    if a.ConsumeCode? {
      var r := s.redeems[a.p];
      var after, more := Consume(s.codes, r.id), s.redemptions + [Redemption(r.ask, r.at, s.now)];
      ConsumeCodeSound(cfg, s.codes, s.redeems, s.redemptions, a.p, s.now);
      RedeemerSound(cfg, after, s.redeems, more, a.p, Redeemed(|s.redemptions|));
      TokensRedeemed(s.redeems, |s.redemptions|, s.tokens, a.p);
      TimesConsumed(s, a.p);
      TimesRedeemer(s.now, after, s.origins, s.redeems, more, a.p, Redeemed(|s.redemptions|));
    } else {
      RedeemerSound(cfg, s.codes, s.redeems, s.redemptions, a.p, s.redeems[a.p]);
      TokensIssued(s.redeems, |s.redemptions|, s.tokens, a.p);
      TimesRedeemer(s.now, s.codes, s.origins, s.redeems, s.redemptions, a.p, s.redeems[a.p]);
    }
  }

  lemma StepKeeps(cfg: Config, s: State, a: Action)
    requires Inv(cfg, s) && Enabled(cfg, s, a)
    ensures Inv(cfg, Next(s, a, cfg))
  {
    if a.ConsumeRequest? {
      ConsumeRequestKeeps(cfg, s, a.p);
    } else if a.StoreCode? {
      StoreCodeKeeps(cfg, s, a.p, a.id, a.sent);
    } else if a.ConsumeCode? || a.Issue? {
      SpendKeeps(cfg, s, a);
    } else if a.Authorize? || a.LoseRequest? || a.Tick? {
      RequestStepKeeps(cfg, s, a);
    } else if a.ReadRequest? || a.CheckRequest? || a.MintCode? || a.AbandonConsent? {
      ConsentStepKeeps(cfg, s, a);
    } else {
      RedeemStepKeeps(cfg, s, a);
    }
  }

  // ----- Runs -----

  function Start(now: int): State
  {
    State(now, Empty(), [], [], [], map[], Empty(), [], map[], [], [])
  }

  ghost predicate IsRun(cfg: Config, states: seq<State>, actions: seq<Action>)
  {
    && |states| == |actions| + 1 && states[0] == Start(states[0].now)
    && forall i :: 0 <= i < |actions| ==> Enabled(cfg, states[i], actions[i]) && states[i + 1] == Next(states[i], actions[i], cfg)
  }

  lemma {:induction false} RunInv(cfg: Config, states: seq<State>, actions: seq<Action>, i: nat)
    requires IsRun(cfg, states, actions) && i < |states|
    ensures Inv(cfg, states[i])
  {
    if i > 0 {
      RunInv(cfg, states, actions, i - 1);
      StepKeeps(cfg, states[i - 1], actions[i - 1]);
    }
  }

  lemma OriginCount(s: State, cfg: Config)
    requires Inv(cfg, s)
    ensures |s.codes.log| <= |s.approvals|
  {
    var from := seq(|s.origins|, j requires 0 <= j < |s.origins| => s.origins[j].approval);
    Pigeonhole(from, |s.approvals|);
  }

  /** Over all interleavings: tokens issued <= codes spent <= codes created <= approved requests consumed <= requests authorized. */
  lemma TokensBounded(cfg: Config, states: seq<State>, actions: seq<Action>, i: nat)
    requires IsRun(cfg, states, actions) && i < |states|
    ensures
      var s := states[i];
      && |s.tokens| <= |s.codes.spent| <= |s.codes.log| <= |s.approvals| <= |s.requests.spent|
      && |s.requests.spent| <= |s.requests.log|
  {
    RunInv(cfg, states, actions, i);
    var s := states[i];
    Pigeonhole(s.tokens, |s.redemptions|);
    Pigeonhole(s.codes.spent, |s.codes.log|);
    OriginCount(s, cfg);
    Pigeonhole(s.requests.spent, |s.requests.log|);
    ApprovalCount(s.requests, s.approvals);
  }

  lemma ApprovalCount(requests: Ledger<Request>, approvals: seq<nat>)
    requires ApprovalsSound(requests, approvals)
    ensures |approvals| <= |requests.spent|
  {
    var at := seq(|approvals|, i requires 0 <= i < |approvals| => Position(requests.spent, approvals[i]));
    Pigeonhole(at, |requests.spent|);
  }

  ghost function Position(s: seq<nat>, x: nat): (k: nat)
    ensures x in s ==> k < |s| && s[k] == x
  {
    if x in s then var k :| 0 <= k < |s| && s[k] == x; k else 0
  }

  /**
   Each issued token goes back to one spent code, one approval and one authorized request of its own;
   its grant has the request's client, redirect and challenge and names who approved, the token request
   matched them with a verifier of that challenge. The code expires at most a minute after it was minted and not after the
   session; the last check came before that, and the code was consumed before that by no more than the
   time its record was on its way to the store.
   */
  lemma TokenProvenance(cfg: Config, states: seq<State>, actions: seq<Action>, i: nat, t: nat)
    requires IsRun(cfg, states, actions) && i < |states| && t < |states[i].tokens|
    ensures
      var s := states[i];
      && s.tokens[t] < |s.redemptions| == |s.codes.spent|
      && var code := s.codes.spent[s.tokens[t]];
         && code < |s.codes.log| == |s.origins|
         && s.origins[code].approval < |s.approvals|
         && var from := s.approvals[s.origins[code].approval];
            && from < |s.requests.log| && |s.approvers| == |s.approvals| && s.codes.log[code].identity == s.approvers[s.origins[code].approval]
            && var g, r, ask := s.codes.log[code], s.requests.log[from], s.redemptions[s.tokens[t]].ask;
               && g.client == r.client == ask.client && g.redirect == r.redirect == ask.redirect
               && g.challenge == r.challenge == cfg.s256(ask.verifier)
               && var done, times := s.redemptions[s.tokens[t]], s.origins[code].times;
                  && Ordered(times) && times.sent < g.expiresAt <= Min(times.at + CODE_TTL, g.identity.sessionExpiresAt)
                  && done.at <= done.consumed && done.at < g.expiresAt && done.consumed < g.expiresAt + Delay(times)
  {
    RunInv(cfg, states, actions, i);
    var s := states[i];
    var code := s.codes.spent[s.tokens[t]];
    assert Proper(cfg, s.redemptions[s.tokens[t]], s.codes.log[code]);
    assert FromRequest(s.codes.log[code], s.requests.log[s.approvals[s.origins[code].approval]], s.origins[code].times.at);
    assert InTime(s.redemptions[s.tokens[t]], s.codes.log[code], s.origins[code]);
  }

  /** No two tokens share a code, no two codes an approval, no two approvals a request. */
  lemma ProvenanceInjective(cfg: Config, states: seq<State>, actions: seq<Action>, i: nat, t: nat, u: nat)
    requires IsRun(cfg, states, actions) && i < |states| && t < u < |states[i].tokens|
    ensures
      var s := states[i];
      && s.tokens[t] < |s.codes.spent| && s.tokens[u] < |s.codes.spent|
      && var a, b := s.codes.spent[s.tokens[t]], s.codes.spent[s.tokens[u]];
         && a != b && a < |s.origins| && b < |s.origins|
         && s.origins[a].approval < |s.approvals| && s.origins[b].approval < |s.approvals|
         && s.approvals[s.origins[a].approval] != s.approvals[s.origins[b].approval]
  {
    RunInv(cfg, states, actions, i);
    var s := states[i];
    assert s.tokens[t] != s.tokens[u];
    var a, b := s.codes.spent[s.tokens[t]], s.codes.spent[s.tokens[u]];
    assert a != b;
    assert s.origins[a].approval != s.origins[b].approval;
  }

  // ----- A token that is issued -----

  lemma Extend(cfg: Config, states: seq<State>, actions: seq<Action>, a: Action, s: State)
    requires IsRun(cfg, states, actions) && Enabled(cfg, states[|actions|], a) && s == Next(states[|actions|], a, cfg)
    ensures IsRun(cfg, states + [s], actions + [a])
  {
    var more, acts := states + [s], actions + [a];
    forall i | 0 <= i < |acts|
      ensures Enabled(cfg, more[i], acts[i]) && more[i + 1] == Next(more[i], acts[i], cfg)
    {
      if i < |actions| {
        assert states[i + 1] == Next(states[i], actions[i], cfg);
      }
    }
  }

  ghost predicate Reached(cfg: Config, s: State)
  {
    exists states, actions :: IsRun(cfg, states, actions) && states[|actions|] == s
  }

  lemma Reach(cfg: Config, s: State, a: Action, s': State)
    requires Reached(cfg, s) && Enabled(cfg, s, a) && s' == Next(s, a, cfg)
    ensures Reached(cfg, s')
  {
    var states, actions :| IsRun(cfg, states, actions) && states[|actions|] == s;
    Extend(cfg, states, actions, a, s');
    assert (states + [s'])[|actions + [a]|] == s';
  }

  lemma ReachStart(cfg: Config, now: int)
    ensures Reached(cfg, Start(now))
  {
    assert IsRun(cfg, [Start(now)], []);
  }

  function OneConsent(now: int, r: Request, c: Consent): State
  {
    Start(now).(requests := Ledger(map["r" := Entry(r, 0)], [r], []), arrivals := [Times(now, now, now)], consents := map[1 := c])
  }

  /** The state in which one consent, given at `now`, has been approved; a code for it may be minted. */
  function OneApproval(now: int, r: Request, identity: Identity, consents: map<int, Consent>): State
  {
    Start(now).(requests := Ledger(map[], [r], [0]), arrivals := [Times(now, now, now)], approvals := [0], approvers := [identity], consents := consents)
  }

  /** The state in which its code has been stored as "k", some time after it was sent. */
  function OneCode(now: int, r: Request, g: Grant, delay: nat): State
  {
    OneApproval(now, r, g.identity, map[]).(now := now + delay,
                                codes := Ledger(map["k" := Entry(g, 0)], [g], []),
                                origins := [Origin(0, Times(now, now, now + delay))])
  }

  lemma ConsentChecked(cfg: Config, now: int, r: Request, identity: Identity)
    requires Registered(cfg, r.client, r.fingerprint, r.redirect) && r.expiresAt == now + REQUEST_TTL
    ensures Reached(cfg, OneConsent(now, r, Checked("r", r, true, identity)))
  {
    var s := OneConsent(now, r, Checked("r", r, true, identity)).(consents := map[]);
    ReachStart(cfg, now);
    Reach(cfg, Start(now), Authorize("r", r, now, now), s);
    Reach(cfg, s, ReadRequest(1, "r", true, identity), OneConsent(now, r, Reading("r", r, true, identity)));
    Reach(cfg, OneConsent(now, r, Reading("r", r, true, identity)), CheckRequest(1), OneConsent(now, r, Checked("r", r, true, identity)));
  }

  lemma ConsentMinted(cfg: Config, now: int, r: Request, identity: Identity)
    requires Registered(cfg, r.client, r.fingerprint, r.redirect) && r.expiresAt == now + REQUEST_TTL && identity.sessionExpiresAt > now
    ensures Reached(cfg, OneApproval(now, r, identity, map[1 := Minted(0, GrantFor(r, identity, now), now)]))
  {
    ConsentChecked(cfg, now, r, identity);
    var s := OneApproval(now, r, identity, map[1 := Approved(0, r, identity)]);
    Reach(cfg, OneConsent(now, r, Checked("r", r, true, identity)), ConsumeRequest(1), s);
    Reach(cfg, s, MintCode(1), OneApproval(now, r, identity, map[1 := Minted(0, GrantFor(r, identity, now), now)]));
  }

  lemma ConsentHappens(cfg: Config, now: int, r: Request, identity: Identity, delay: nat)
    requires Registered(cfg, r.client, r.fingerprint, r.redirect) && r.expiresAt == now + REQUEST_TTL && identity.sessionExpiresAt > now
    ensures Reached(cfg, OneCode(now, r, GrantFor(r, identity, now), delay))
  {
    var g := GrantFor(r, identity, now);
    ConsentMinted(cfg, now, r, identity);
    var minted := OneApproval(now, r, identity, map[1 := Minted(0, g, now)]);
    Reach(cfg, minted, Tick(now + delay), minted.(now := now + delay));
    Reach(cfg, minted.(now := now + delay), StoreCode(1, "k", now), OneCode(now, r, g, delay));
  }

  /**
   The bounds are met: an authorization carried through by one consent and one matching token request
   issues one token, and its code is consumed at the last moment before its expiry plus the time its
   record was on its way. So a code is always consumed before it expires exactly when records take no
   time to arrive.
   */
  lemma TokenHappens(cfg: Config, now: int, r: Request, identity: Identity, verifier: string, delay: nat) returns (s: State)
    requires Registered(cfg, r.client, r.fingerprint, r.redirect) && r.expiresAt == now + REQUEST_TTL
    requires now + delay < Min(now + CODE_TTL, identity.sessionExpiresAt) && cfg.s256(verifier) == r.challenge
    ensures Reached(cfg, s) && s.tokens == [0] && |s.redemptions| == |s.codes.log| == |s.origins| == 1
    ensures Delay(s.origins[0].times) == delay && s.redemptions[0].consumed == s.codes.log[0].expiresAt + delay - 1
  {
    var g, ask := GrantFor(r, identity, now), Ask(r.client, r.redirect, verifier);
    ConsentHappens(cfg, now, r, identity, delay);
    var code := OneCode(now, r, g, delay);
    var last := code.(now := g.expiresAt - 1);
    Reach(cfg, code, Tick(last.now), last);
    var presented := last.(redeems := map[2 := Presented("k", g, ask)]);
    Reach(cfg, last, ReadCode(2, "k", ask), presented);
    var verified := last.(redeems := map[2 := Verified("k", g, ask, last.now)]);
    Reach(cfg, presented, CheckCode(2), verified);
    Reach(cfg, verified, Tick(last.now + delay), verified.(now := last.now + delay));
    s := TokenEnds(cfg, verified.(now := last.now + delay), 2);
  }

  lemma TokenEnds(cfg: Config, verified: State, p: int) returns (s: State)
    requires Reached(cfg, verified) && Enabled(cfg, verified, ConsumeCode(p)) && verified.tokens == [] && verified.redemptions == []
    ensures Reached(cfg, s) && s.tokens == [0] && |s.redemptions| == 1 && s.redemptions[0].consumed == verified.now
    ensures s.codes.log == verified.codes.log && s.origins == verified.origins
  {
    var redeemed := Next(verified, ConsumeCode(p), cfg);
    Reach(cfg, verified, ConsumeCode(p), redeemed);
    s := Next(redeemed, Issue(p), cfg);
    Reach(cfg, redeemed, Issue(p), s);
  }
}
