/** Which actions of which callback an issued session token goes back to. */
module SamlHistory {
  import opened Prelude
  import opened SingleUse
  import opened SamlAcs

  /** When a callback consumed its request, validated, passed the guard, persisted the intent, issued and persisted the acceptance. */
  datatype History = History(consume: nat, validate: nat, mark: nat, intend: nat, issue: nat, accept: nat)

  ghost predicate AtWork(states: seq<State>, m: nat, i: nat, p: int)
  {
    forall x :: m < x <= i < |states| ==> p in states[x].callbacks
  }

  predicate ConsumedAt(s: State, a: Action, p: int, c: Callback)
  {
    a.Consume? && a.p == p && a.id in s.requests.live && s.requests.live[a.id].index == c.request
  }

  /** The callback presented the RelayState of its login request; its session is bounded as of then. */
  predicate ValidatedAt(cfg: Config, s: State, a: Action, p: int, c: Callback)
  {
    && a.Validate? && a == Validate(p, a.relay, c.assertion) && s.now == c.at
    && c.request < |s.requests.log| && a.relay == s.requests.log[c.request].relay
    && c.expiry == BoundedExpiry(cfg.sessionTtl, c.assertion.notOnOrAfter, s.now) && MaxAge(c.expiry, s.now) > 0
  }

  predicate MarkedAt(s: State, a: Action, p: int, c: Callback)
  {
    a == MarkSeen(p) && s.now == c.passed && c.assertion.id !in s.seen
  }

  /** The token the callback holds is the one it issued then. */
  predicate IssuedIn(s: State, a: Action, p: int, c: Callback)
  {
    a == IssueToken(p) && HoldsIssue(c.stage) && c.stage.issue == |s.issued|
  }

  predicate PastGuard(stage: Stage)
  {
    !stage.Consumed? && !stage.Validated?
  }

  /** The actions behind what a callback holds in the `i`-th state. */
  ghost predicate Tells(cfg: Config, states: seq<State>, actions: seq<Action>, h: History, i: nat, p: int, c: Callback)
    requires |states| == |actions| + 1 && i < |states|
  {
    && h.consume < i && AtWork(states, h.consume, i, p) && ConsumedAt(states[h.consume], actions[h.consume], p, c)
    && (!c.stage.Consumed? ==> h.consume < h.validate < i && actions[h.validate].Validate? && ValidatedAt(cfg, states[h.validate], actions[h.validate], p, c))
    && (PastGuard(c.stage) ==> h.validate < h.mark < i && MarkedAt(states[h.mark], actions[h.mark], p, c))
    && (PastGuard(c.stage) && !c.stage.Fresh? ==> h.mark < h.intend < i && actions[h.intend] == PersistIntent(p))
    && (HoldsIssue(c.stage) ==> h.intend < h.issue < i && IssuedIn(states[h.issue], actions[h.issue], p, c))
    && (c.stage.Accepted? ==> h.issue < h.accept < i && actions[h.accept] == PersistAccept(p))
  }

  lemma LastStep(cfg: Config, states: seq<State>, actions: seq<Action>, i: nat)
    requires IsRun(cfg, states, actions) && 0 < i < |states|
    ensures Enabled(cfg, states[i - 1], actions[i - 1]) && states[i] == Next(cfg, states[i - 1], actions[i - 1])
  {
    assert states[i - 1 + 1] == Next(cfg, states[i - 1], actions[i - 1]);
  }

  /** Only its own steps change a callback, each from the stage before. */
  predicate Moved(cfg: Config, s: State, a: Action, p: int, c: Callback, c': Callback)
  {
    || c' == c
    || (a.Validate? && c.stage.Consumed? && c'.stage.Validated? && c'.request == c.request && ValidatedAt(cfg, s, a, p, c'))
    || (c.stage.Validated? && c' == c.(passed := c'.passed, stage := Fresh) && MarkedAt(s, a, p, c'))
    || (a == PersistIntent(p) && c.stage.Fresh? && c'.stage.Intended? && c' == c.(stage := c'.stage))
    || (c.stage.Intended? && c'.stage.Issued? && c' == c.(stage := c'.stage) && IssuedIn(s, a, p, c'))
    || (a == PersistAccept(p) && c.stage.Issued? && c'.stage.Accepted? && c' == c.(stage := c'.stage) && c'.stage.issue == c.stage.issue)
  }

  lemma CallbackMoves(cfg: Config, s: State, a: Action, p: int)
    requires Enabled(cfg, s, a) && p in Next(cfg, s, a).callbacks
    ensures
      var c' := Next(cfg, s, a).callbacks[p];
      if a.Consume? && a.p == p then ConsumedAt(s, a, p, c') && c'.stage.Consumed?
      else p in s.callbacks && Moved(cfg, s, a, p, s.callbacks[p], c')
  {
  }

  lemma {:induction false} CallbackHistory(cfg: Config, states: seq<State>, actions: seq<Action>, i: nat, p: int) returns (h: History)
    requires IsRun(cfg, states, actions) && i < |states| && p in states[i].callbacks
    ensures Tells(cfg, states, actions, h, i, p, states[i].callbacks[p])
  {
    assert i > 0;
    var a := actions[i - 1];
    LastStep(cfg, states, actions, i);
    CallbackMoves(cfg, states[i - 1], a, p);
    if a.Consume? && a.p == p {
      h := History(i - 1, 0, 0, 0, 0, 0);
    } else {
      h := CallbackHistory(cfg, states, actions, i - 1, p);
      h := Extended(cfg, states, actions, h, i, p, states[i - 1].callbacks[p], states[i].callbacks[p]);
    }
  }

  /** One more action of the run. */
  lemma Extended(cfg: Config, states: seq<State>, actions: seq<Action>, before: History, i: nat, p: int, c: Callback, c': Callback)
    returns (h: History)
    requires |states| == |actions| + 1 && 0 < i < |states| && p in states[i].callbacks
    requires Tells(cfg, states, actions, before, i - 1, p, c) && Moved(cfg, states[i - 1], actions[i - 1], p, c, c')
    ensures Tells(cfg, states, actions, h, i, p, c')
  {
    h := if c' == c then before
         else if c'.stage.Validated? then before.(validate := i - 1)
         else if c'.stage.Fresh? then before.(mark := i - 1)
         else if c'.stage.Intended? then before.(intend := i - 1)
         else if c'.stage.Issued? then before.(issue := i - 1)
         else before.(accept := i - 1);
  }

  lemma IssuesGrow(cfg: Config, s: State, a: Action, k: nat)
    requires Enabled(cfg, s, a) && k < |Next(cfg, s, a).issued|
    ensures k < |s.issued| ==> Next(cfg, s, a).issued[k] == s.issued[k]
    ensures k >= |s.issued| ==> a.IssueToken? && a.p in s.callbacks && IssuedAt(s, a, Next(cfg, s, a).issued[k])
  {
  }

  /** The token is for the tenant of the login request its callback consumed, and the assertion it validated. */
  predicate IssuedAt(s: State, a: Action, issue: Issue)
    requires a.IssueToken? && a.p in s.callbacks
  {
    var c := s.callbacks[a.p];
    && c.stage.Intended? && c.request < |s.requests.log|
    && issue == Issue(c.request, c.stage.intent, s.requests.log[c.request].tenant, c.assertion, c.at, c.expiry, c.passed)
  }

  /**
   Every token was issued by one callback that, in this order, consumed its login request, validated a response with that
   request's RelayState, passed the replay guard with the assertion when it bore no mark, and persisted the intent.
   */
  lemma {:induction false} IssueHappened(cfg: Config, states: seq<State>, actions: seq<Action>, i: nat, k: nat)
    returns (h: History, t: nat)
    requires IsRun(cfg, states, actions) && i < |states| && k < |states[i].issued|
    ensures t < i && actions[t].IssueToken? && actions[t].p in states[t].callbacks
    ensures IssuedAt(states[t], actions[t], states[i].issued[k])
    ensures Tells(cfg, states, actions, h, t, actions[t].p, states[t].callbacks[actions[t].p])
  {
    assert i > 0;
    LastStep(cfg, states, actions, i);
    IssuesGrow(cfg, states[i - 1], actions[i - 1], k);
    if k < |states[i - 1].issued| {
      h, t := IssueHappened(cfg, states, actions, i - 1, k);
    } else {
      t := i - 1;
      h := CallbackHistory(cfg, states, actions, t, actions[t].p);
    }
  }

  lemma CookiesGrow(cfg: Config, s: State, a: Action, c: nat)
    requires Enabled(cfg, s, a) && c < |Next(cfg, s, a).cookies|
    ensures c < |s.cookies| ==> Next(cfg, s, a).cookies[c] == s.cookies[c]
    ensures c >= |s.cookies| ==> a.SetCookie? && a.p in s.callbacks && ExposedAt(cfg, s, a, Next(cfg, s, a).cookies[c])
  {
  }

  /** The cookie exposes the token its callback holds, for the lifetime and redirect that follow from its login. */
  predicate ExposedAt(cfg: Config, s: State, a: Action, cookie: Cookie)
    requires a.SetCookie? && a.p in s.callbacks
  {
    var c := s.callbacks[a.p];
    && c.stage.Accepted? && c.request < |s.requests.log| && c.expiry >= c.at
    && cookie == Cookie(c.stage.issue, c.stage.accept, MaxAge(c.expiry, c.at), Redirect(cfg, s.requests.log[c.request].relay))
  }

  /** Every session was exposed by the callback that issued its token, after that callback had persisted its acceptance. */
  lemma {:induction false} SessionHappened(cfg: Config, states: seq<State>, actions: seq<Action>, i: nat, c: nat)
    returns (h: History, t: nat)
    requires IsRun(cfg, states, actions) && i < |states| && c < |states[i].cookies|
    ensures t < i && actions[t].SetCookie? && actions[t].p in states[t].callbacks
    ensures ExposedAt(cfg, states[t], actions[t], states[i].cookies[c])
    ensures Tells(cfg, states, actions, h, t, actions[t].p, states[t].callbacks[actions[t].p])
  {
    assert i > 0;
    LastStep(cfg, states, actions, i);
    CookiesGrow(cfg, states[i - 1], actions[i - 1], c);
    if c < |states[i - 1].cookies| {
      h, t := SessionHappened(cfg, states, actions, i - 1, c);
    } else {
      t := i - 1;
      h := CallbackHistory(cfg, states, actions, t, actions[t].p);
    }
  }
}
