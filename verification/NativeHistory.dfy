/**
 What happened in a run of the native flow: which actions, by which handler, an approval or a spent code goes back to.
 The logs the steps keep are read here against the actions themselves.
 */
module NativeHistory {
  import opened Prelude
  import opened SingleUse
  import opened NativeAuth

  lemma Lengths(cfg: Config, states: seq<State>, actions: seq<Action>, i: nat)
    requires IsRun(cfg, states, actions) && i < |states|
    ensures |states[i].approvers| == |states[i].approvals| && |states[i].redemptions| == |states[i].codes.spent|
  {
    RunInv(cfg, states, actions, i);
  }

  lemma LastStep(cfg: Config, states: seq<State>, actions: seq<Action>, i: nat)
    requires IsRun(cfg, states, actions) && 0 < i < |states|
    ensures Enabled(cfg, states[i - 1], actions[i - 1]) && states[i] == Next(states[i - 1], actions[i - 1], cfg)
  {
    assert states[i - 1 + 1] == Next(states[i - 1], actions[i - 1], cfg);
  }

  // ----- Consents -----

  /** The consent handler `p` is at work in every state after the `m`-th action up to the `i`-th state. */
  ghost predicate AtWork(states: seq<State>, m: nat, i: nat, p: int)
  {
    forall x :: m < x <= i < |states| ==> p in states[x].consents
  }

  /** A consent holds what its handler read and what its browser decided; only an approval goes further. */
  predicate Carries(s: State, a: Action, c: Consent)
  {
    && a.ReadRequest? && a.id in s.requests.live
    && match c
       case Reading(id, request, approve, identity) =>
         id == a.id && request == s.requests.live[a.id].value && approve == a.approve && identity == a.identity
       case Checked(id, request, approve, identity) =>
         id == a.id && request == s.requests.live[a.id].value && approve == a.approve && identity == a.identity
       case Approved(_, request, identity) => a.approve && request == s.requests.live[a.id].value && identity == a.identity
       case Minted(_, grant, _) => a.approve && grant.identity == a.identity
  }

  lemma ConsentMoves(cfg: Config, s: State, a: Action, p: int, m: State, begin: Action)
    requires Enabled(cfg, s, a) && p in Next(s, a, cfg).consents && !(a.ReadRequest? && a.p == p)
    ensures p in s.consents
    ensures Carries(m, begin, s.consents[p]) ==> Carries(m, begin, Next(s, a, cfg).consents[p])
  {
  }

  /** The action that began a consent, and what it has carried since. */
  lemma {:induction false} ConsentBegan(cfg: Config, states: seq<State>, actions: seq<Action>, i: nat, p: int) returns (m: nat)
    requires IsRun(cfg, states, actions) && i < |states| && p in states[i].consents
    ensures m < i && actions[m].ReadRequest? && actions[m].p == p && AtWork(states, m, i, p)
    ensures Carries(states[m], actions[m], states[i].consents[p])
  {
    assert i > 0;
    var a := actions[i - 1];
    assert Enabled(cfg, states[i - 1], a) && states[i - 1 + 1] == Next(states[i - 1], a, cfg);
    if a.ReadRequest? && a.p == p {
      m := i - 1;
    } else {
      ConsentMoves(cfg, states[i - 1], a, p, states[i - 1], a);
      m := ConsentBegan(cfg, states, actions, i - 1, p);
      ConsentMoves(cfg, states[i - 1], a, p, states[m], actions[m]);
    }
  }

  lemma CheckMoves(cfg: Config, s: State, a: Action, p: int)
    requires Enabled(cfg, s, a) && p in Next(s, a, cfg).consents && Next(s, a, cfg).consents[p].Checked?
    ensures a == CheckRequest(p) || (p in s.consents && s.consents[p] == Next(s, a, cfg).consents[p])
    ensures a == CheckRequest(p) ==> s.now < Next(s, a, cfg).consents[p].request.expiresAt
  {
  }

  /** The last expiry check of a consent. */
  lemma {:induction false} ConsentWasChecked(cfg: Config, states: seq<State>, actions: seq<Action>, i: nat, p: int) returns (c: nat)
    requires IsRun(cfg, states, actions) && i < |states| && p in states[i].consents && states[i].consents[p].Checked?
    ensures c < i && actions[c] == CheckRequest(p) && AtWork(states, c, i, p)
    ensures states[c].now < states[i].consents[p].request.expiresAt
  {
    assert i > 0;
    assert Enabled(cfg, states[i - 1], actions[i - 1]) && states[i - 1 + 1] == Next(states[i - 1], actions[i - 1], cfg);
    CheckMoves(cfg, states[i - 1], actions[i - 1], p);
    if actions[i - 1] == CheckRequest(p) {
      c := i - 1;
    } else {
      c := ConsentWasChecked(cfg, states, actions, i - 1, p);
    }
  }

  lemma BegunOnce(cfg: Config, states: seq<State>, actions: seq<Action>, m: nat, n: nat, i: nat, p: int)
    requires IsRun(cfg, states, actions) && m < i < |states| && n < i && AtWork(states, m, i, p) && AtWork(states, n, i, p)
    requires actions[m].ReadRequest? && actions[m].p == p && actions[n].ReadRequest? && actions[n].p == p
    ensures m == n
  {
    assert Enabled(cfg, states[m], actions[m]) && Enabled(cfg, states[n], actions[n]);
    assert p !in states[m].consents && p !in states[n].consents;
  }

  lemma ApprovalsGrow(cfg: Config, s: State, a: Action, k: nat)
    requires Enabled(cfg, s, a) && |s.approvers| == |s.approvals| && k < |Next(s, a, cfg).approvals|
    ensures k < |Next(s, a, cfg).approvers|
    ensures var s' := Next(s, a, cfg); k < |s.approvals| ==> s'.approvals[k] == s.approvals[k] && s'.approvers[k] == s.approvers[k]
    ensures k >= |s.approvals| ==>
              && a.ConsumeRequest? && a.p in s.consents && s.consents[a.p].Checked? && s.consents[a.p].id in s.requests.live
              && Next(s, a, cfg).approvals[k] == s.requests.live[s.consents[a.p].id].index
              && Next(s, a, cfg).approvers[k] == s.consents[a.p].identity
              && a.p in Next(s, a, cfg).consents && Next(s, a, cfg).consents[a.p].Approved?
  {
  }

  /** An approval as it happened: read at `m`, checked at `c`, its request consumed at `j`, all by one handler. */
  ghost predicate Happened(states: seq<State>, actions: seq<Action>, m: nat, c: nat, j: nat, index: nat, identity: Identity)
    requires |states| == |actions| + 1 && m < |actions| && c < |actions| && j < |actions|
  {
    && m < j && c < j && actions[j].ConsumeRequest?
    && var p := actions[j].p;
       && actions[m].ReadRequest? && actions[m].p == p && actions[m].approve && actions[m].identity == identity
       && AtWork(states, m, j, p) && AtWork(states, c, j, p) && actions[c] == CheckRequest(p)
       && var id := actions[m].id;
          && id in states[j].requests.live && states[j].requests.live[id].index == index
          && id in states[m].requests.live && states[m].requests.live[id].value == states[j].requests.live[id].value
          && InTimeToApprove(states[m], states[c], states[j], states[j].requests.live[id].value, index)
  }

  predicate InTimeToApprove(read: State, checked: State, done: State, r: Request, index: nat)
  {
    && read.now < r.expiresAt && checked.now < r.expiresAt
    && index < |done.arrivals| && done.now < Deadline(r.expiresAt, done.arrivals[index])
  }

  lemma ConsumeHappens(cfg: Config, states: seq<State>, actions: seq<Action>, j: nat) returns (m: nat, c: nat)
    requires IsRun(cfg, states, actions) && j < |actions| && actions[j].ConsumeRequest?
    requires actions[j].p in states[j + 1].consents && states[j + 1].consents[actions[j].p].Approved?
    ensures m < j && c < j
    ensures actions[j].p in states[j].consents && states[j].consents[actions[j].p].Checked?
    ensures
      var held := states[j].consents[actions[j].p];
      held.id in states[j].requests.live && Happened(states, actions, m, c, j, states[j].requests.live[held.id].index, held.identity)
  {
    var p := actions[j].p;
    assert Enabled(cfg, states[j], actions[j]) && states[j + 1] == Next(states[j], actions[j], cfg);
    m := ConsentBegan(cfg, states, actions, j, p);
    c := ConsentWasChecked(cfg, states, actions, j, p);
    assert Enabled(cfg, states[m], actions[m]);
  }

  /**
   Every approval was given: the handler that consumed its request had been begun by a browser session of that identity, whose
   decision was to approve; it had read the same request, and the request had not expired at its last check.
   */
  lemma {:induction false} ApprovalHappened(cfg: Config, states: seq<State>, actions: seq<Action>, i: nat, k: nat)
    returns (m: nat, c: nat, j: nat)
    requires IsRun(cfg, states, actions) && i < |states| && k < |states[i].approvals|
    ensures |states[i].approvers| == |states[i].approvals|
    ensures m < j && c < j < i && Happened(states, actions, m, c, j, states[i].approvals[k], states[i].approvers[k])
  {
    Lengths(cfg, states, actions, i);
    assert i > 0;
    Lengths(cfg, states, actions, i - 1);
    LastStep(cfg, states, actions, i);
    ApprovalsGrow(cfg, states[i - 1], actions[i - 1], k);
    if k < |states[i - 1].approvals| {
      m, c, j := ApprovalHappened(cfg, states, actions, i - 1, k);
    } else {
      j := i - 1;
      m, c := ConsumeHappens(cfg, states, actions, j);
    }
  }

  /**
   A consent whose browser denied is never approved and holds no grant. When it consumes its request, the request is spent and
   gone, and no approval, no code and no other consent changes.
   */
  lemma DenialSpends(cfg: Config, states: seq<State>, actions: seq<Action>, m: nat, j: nat, p: int)
    requires IsRun(cfg, states, actions) && m < j < |states| && actions[m].ReadRequest? && actions[m].p == p && !actions[m].approve
    requires AtWork(states, m, j, p)
    ensures !HoldsApproval(states[j].consents[p])
    ensures j < |actions| && actions[j] == ConsumeRequest(p) ==>
              var s, s', id := states[j], states[j + 1], actions[m].id;
              && id in s.requests.live && id !in s'.requests.live && s'.requests.spent == s.requests.spent + [s.requests.live[id].index]
              && s'.approvals == s.approvals && s'.approvers == s.approvers && s'.codes == s.codes && s'.origins == s.origins
              && s'.consents == s.consents - {p} && s'.redeems == s.redeems && s'.tokens == s.tokens
  {
    var n := ConsentBegan(cfg, states, actions, j, p);
    BegunOnce(cfg, states, actions, m, n, j, p);
    if j < |actions| && actions[j] == ConsumeRequest(p) {
      assert Enabled(cfg, states[j], actions[j]) && states[j + 1] == Next(states[j], actions[j], cfg);
    }
  }

  // ----- Requests -----

  predicate Arrived(cfg: Config, s: State, a: Action, r: Request, t: Times)
  {
    && a.Authorize? && r == a.request && t == Times(a.at, a.sent, s.now) && Ordered(t)
    && Registered(cfg, r.client, r.fingerprint, r.redirect) && r.expiresAt == t.at + REQUEST_TTL
  }

  lemma RequestsGrow(cfg: Config, s: State, a: Action, k: nat)
    requires Enabled(cfg, s, a) && |s.arrivals| == |s.requests.log| && k < |Next(s, a, cfg).requests.log|
    ensures var s' := Next(s, a, cfg);
            && |s'.arrivals| == |s'.requests.log|
            && (k < |s.requests.log| ==> s'.requests.log[k] == s.requests.log[k] && s'.arrivals[k] == s.arrivals[k])
            && (k >= |s.requests.log| ==> Arrived(cfg, s, a, s'.requests.log[k], s'.arrivals[k]))
  {
  }

  lemma {:induction false} ArrivalsCounted(cfg: Config, states: seq<State>, actions: seq<Action>, i: nat)
    requires IsRun(cfg, states, actions) && i < |states|
    ensures |states[i].arrivals| == |states[i].requests.log|
  {
    if i > 0 {
      LastStep(cfg, states, actions, i);
      ArrivalsCounted(cfg, states, actions, i - 1);
    }
  }

  /** Every request was authorized for a registered client and redirect, to live five minutes. */
  lemma {:induction false} RequestHappened(cfg: Config, states: seq<State>, actions: seq<Action>, i: nat, k: nat) returns (j: nat)
    requires IsRun(cfg, states, actions) && i < |states| && k < |states[i].requests.log|
    ensures |states[i].arrivals| == |states[i].requests.log|
    ensures j < i && Arrived(cfg, states[j], actions[j], states[i].requests.log[k], states[i].arrivals[k])
  {
    ArrivalsCounted(cfg, states, actions, i);
    assert i > 0;
    ArrivalsCounted(cfg, states, actions, i - 1);
    LastStep(cfg, states, actions, i);
    RequestsGrow(cfg, states[i - 1], actions[i - 1], k);
    if k < |states[i - 1].requests.log| {
      j := RequestHappened(cfg, states, actions, i - 1, k);
    } else {
      j := i - 1;
    }
  }

  // ----- Redemptions -----

  /** The token handler `p` is at work in every state after the `m`-th action up to the `i`-th state. */
  ghost predicate Redeeming(states: seq<State>, m: nat, i: nat, p: int)
  {
    forall x :: m < x <= i < |states| ==> p in states[x].redeems
  }

  /** A handler that has not consumed its code holds what it read and was asked. */
  predicate Presents(s: State, a: Action, r: Redeem)
  {
    && a.ReadCode? && a.id in s.codes.live
    && match r
       case Presented(id, grant, ask) => id == a.id && grant == s.codes.live[a.id].value && ask == a.ask
       case Verified(id, grant, ask, _) => id == a.id && grant == s.codes.live[a.id].value && ask == a.ask
       case Redeemed(_) => true
  }

  lemma RedeemMoves(cfg: Config, s: State, a: Action, p: int, m: State, begin: Action)
    requires Enabled(cfg, s, a) && p in Next(s, a, cfg).redeems && !(a.ReadCode? && a.p == p)
    ensures p in s.redeems
    ensures Presents(m, begin, s.redeems[p]) ==> Presents(m, begin, Next(s, a, cfg).redeems[p])
  {
  }

  lemma {:induction false} RedeemBegan(cfg: Config, states: seq<State>, actions: seq<Action>, i: nat, p: int) returns (m: nat)
    requires IsRun(cfg, states, actions) && i < |states| && p in states[i].redeems
    ensures m < i && actions[m].ReadCode? && actions[m].p == p && Redeeming(states, m, i, p)
    ensures Presents(states[m], actions[m], states[i].redeems[p])
  {
    assert i > 0;
    var a := actions[i - 1];
    assert Enabled(cfg, states[i - 1], a) && states[i - 1 + 1] == Next(states[i - 1], a, cfg);
    if a.ReadCode? && a.p == p {
      m := i - 1;
    } else {
      RedeemMoves(cfg, states[i - 1], a, p, states[i - 1], a);
      m := RedeemBegan(cfg, states, actions, i - 1, p);
      RedeemMoves(cfg, states[i - 1], a, p, states[m], actions[m]);
    }
  }

  lemma RedemptionsGrow(cfg: Config, s: State, a: Action, k: nat)
    requires Enabled(cfg, s, a) && |s.redemptions| == |s.codes.spent| && k < |Next(s, a, cfg).redemptions|
    ensures var s' := Next(s, a, cfg); k < |s.redemptions| ==>
              k < |s'.codes.spent| && s'.redemptions[k] == s.redemptions[k] && s'.codes.spent[k] == s.codes.spent[k]
    ensures k >= |s.redemptions| ==>
              && a.ConsumeCode? && a.p in s.redeems && s.redeems[a.p].Verified? && k == |s.redemptions| && s.redeems[a.p].id in s.codes.live
              && Next(s, a, cfg).redemptions[k] == Redemption(s.redeems[a.p].ask, s.redeems[a.p].at, s.now)
              && k < |Next(s, a, cfg).codes.spent| && Next(s, a, cfg).codes.spent[k] == s.codes.live[s.redeems[a.p].id].index
  {
  }

  /** A redemption as it happened: the code read at `m` and consumed at `j` by one handler. */
  ghost predicate Spent(states: seq<State>, actions: seq<Action>, m: nat, j: nat, r: Redemption, index: nat)
    requires |states| == |actions| + 1 && m < |actions| && j < |actions|
  {
    && m < j && actions[j].ConsumeCode? && actions[m].ReadCode? && actions[m].p == actions[j].p
    && Redeeming(states, m, j, actions[j].p) && actions[m].ask == r.ask && states[j].now == r.consumed
    && var id := actions[m].id;
       && id in states[j].codes.live && states[j].codes.live[id].index == index && id !in states[j + 1].codes.live
  }

  lemma SpendHappens(cfg: Config, states: seq<State>, actions: seq<Action>, j: nat) returns (m: nat)
    requires IsRun(cfg, states, actions) && j < |actions| && actions[j].ConsumeCode?
    ensures m < j && actions[j].p in states[j].redeems && states[j].redeems[actions[j].p].Verified?
    ensures
      var held := states[j].redeems[actions[j].p];
      held.id in states[j].codes.live &&
      Spent(states, actions, m, j, Redemption(held.ask, held.at, states[j].now), states[j].codes.live[held.id].index)
  {
    assert Enabled(cfg, states[j], actions[j]) && states[j + 1] == Next(states[j], actions[j], cfg);
    m := RedeemBegan(cfg, states, actions, j, actions[j].p);
  }

  /** Every spent code was read, under the same id and with what the token request asked, by the handler that consumed it. */
  lemma {:induction false} RedemptionHappened(cfg: Config, states: seq<State>, actions: seq<Action>, i: nat, k: nat)
    returns (m: nat, j: nat)
    requires IsRun(cfg, states, actions) && i < |states| && k < |states[i].redemptions|
    ensures |states[i].codes.spent| == |states[i].redemptions|
    ensures m < j < i && Spent(states, actions, m, j, states[i].redemptions[k], states[i].codes.spent[k])
  {
    Lengths(cfg, states, actions, i);
    assert i > 0;
    Lengths(cfg, states, actions, i - 1);
    LastStep(cfg, states, actions, i);
    RedemptionsGrow(cfg, states[i - 1], actions[i - 1], k);
    if k < |states[i - 1].redemptions| {
      m, j := RedemptionHappened(cfg, states, actions, i - 1, k);
    } else {
      j := i - 1;
      m := SpendHappens(cfg, states, actions, j);
    }
  }
}
