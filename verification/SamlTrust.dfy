/**
 SAML trust records: administrators put and delete them, background refreshes replace their metadata by
 compare-and-swap on the whole record. A Put draws a new generation before it writes.
 */
module SamlTrust {
  import opened Prelude

  datatype Record = Record(tenant: string, generation: string, metadata: string, url: string, attributes: Option<map<string, string>>)

  /** Parsed metadata; an attribute map in it replaces the stored one. */
  datatype Fetched = Fetched(metadata: string, attributes: Option<map<string, string>>)

  /** A refresh in flight: the record it listed, and how many administrator writes that tenant had seen. */
  datatype Refresh = Refresh(existing: Record, epoch: nat)

  /** `epochs` counts administrator writes per tenant, `births` says which write brought a generation, `latest` what the last write left. */
  datatype State = State(
    store: map<string, Record>,
    puts: map<int, Record>,
    refreshes: map<int, Refresh>,
    drawn: set<string>,
    epochs: map<string, nat>,
    births: map<string, (string, nat)>,
    latest: map<string, string>
  )

  datatype Action =
    | BeginPut(p: int, record: Record)
    | CommitPut(p: int)
    | Delete(tenant: string)
    | BeginRefresh(p: int, tenant: string)
    | Swap(p: int, fetched: Fetched)
    | Stop(p: int)

  function Epoch(s: State, tenant: string): nat
  {
    if tenant in s.epochs then s.epochs[tenant] else 0
  }

  function Replacement(existing: Record, f: Fetched): Record
  {
    existing.(metadata := f.metadata, attributes := if f.attributes.None? then existing.attributes else f.attributes)
  }

  predicate Enabled(s: State, a: Action)
  {
    match a
    case BeginPut(p, record) => p !in s.puts && record.generation !in s.drawn
    case CommitPut(p) => p in s.puts
    case Delete(_) => true
    case BeginRefresh(p, tenant) => p !in s.refreshes && tenant in s.store && s.store[tenant].url != ""
    case Swap(p, _) => p in s.refreshes
    case Stop(_) => true
  }

  /** The compare-and-swap script found the record the refresh had read. */
  predicate Swaps(s: State, p: int)
    requires p in s.refreshes
  {
    var existing := s.refreshes[p].existing;
    existing.tenant in s.store && s.store[existing.tenant] == existing
  }

  function Next(s: State, a: Action): State
    requires Enabled(s, a)
  {
    match a
    case BeginPut(p, record) => s.(puts := s.puts[p := record], drawn := s.drawn + {record.generation})
    case CommitPut(p) =>
      var r := s.puts[p];
      var epoch := Epoch(s, r.tenant) + 1;
      s.(store := s.store[r.tenant := r], puts := s.puts - {p}, epochs := s.epochs[r.tenant := epoch],
         births := s.births[r.generation := (r.tenant, epoch)], latest := s.latest[r.tenant := r.generation])
    case Delete(tenant) =>
      s.(store := s.store - {tenant}, epochs := s.epochs[tenant := Epoch(s, tenant) + 1], latest := s.latest - {tenant})
    case BeginRefresh(p, tenant) => s.(refreshes := s.refreshes[p := Refresh(s.store[tenant], Epoch(s, tenant))])
    case Swap(p, fetched) =>
      var existing := s.refreshes[p].existing;
      if Swaps(s, p) then
        s.(store := s.store[existing.tenant := Replacement(existing, fetched)], refreshes := s.refreshes - {p})
      else s.(refreshes := s.refreshes - {p})
    case Stop(p) => s.(puts := s.puts - {p}, refreshes := s.refreshes - {p})
  }

  // ----- The invariant -----

  /** What is stored is what the last administrator write left, up to metadata. */
  ghost predicate Latest(store: map<string, Record>, latest: map<string, string>)
  {
    && store.Keys == latest.Keys
    && forall t :: t in store ==> store[t].tenant == t && store[t].generation == latest[t]
  }

  /** A generation is drawn once and born in one write; pending ones are not born yet. */
  ghost predicate Generations(puts: map<int, Record>, drawn: set<string>, births: map<string, (string, nat)>)
  {
    && (forall p :: p in puts ==> puts[p].generation in drawn && puts[p].generation !in births)
    && (forall p, q :: p in puts && q in puts && p != q ==> puts[p].generation != puts[q].generation)
    && (forall g :: g in births ==> g in drawn)
  }

  /** The generation of a stored record, or of a record a refresh holds, was born in the write that was last at the time. */
  ghost predicate Born(s: State)
  {
    && (forall t :: t in s.store ==> s.store[t].generation in s.births && s.births[s.store[t].generation] == (t, Epoch(s, t)))
    && (forall p :: p in s.refreshes ==>
          var r := s.refreshes[p];
          r.existing.generation in s.births && s.births[r.existing.generation] == (r.existing.tenant, r.epoch))
  }

  ghost predicate Inv(s: State)
  {
    Latest(s.store, s.latest) && Generations(s.puts, s.drawn, s.births) && Born(s)
  }

  lemma CommitGenerations(puts: map<int, Record>, drawn: set<string>, births: map<string, (string, nat)>, p: int, birth: (string, nat))
    requires Generations(puts, drawn, births) && p in puts
    ensures Generations(puts - {p}, drawn, births[puts[p].generation := birth])
  {
  }

  lemma CommitBorn(s: State, p: int)
    requires Inv(s) && p in s.puts
    ensures Born(Next(s, CommitPut(p)))
  {
    var s', r := Next(s, CommitPut(p)), s.puts[p];
    forall t | t in s'.store && t != r.tenant
      ensures s'.store[t].generation in s'.births && s'.births[s'.store[t].generation] == (t, Epoch(s', t))
    {
      assert t in s.store && s'.store[t] == s.store[t] && Epoch(s', t) == Epoch(s, t);
    }
  }

  lemma CommitKeeps(s: State, p: int)
    requires Inv(s) && p in s.puts
    ensures Inv(Next(s, CommitPut(p)))
  {
    var r := s.puts[p];
    CommitGenerations(s.puts, s.drawn, s.births, p, (r.tenant, Epoch(s, r.tenant) + 1));
    CommitBorn(s, p);
    assert Latest(s.store[r.tenant := r], s.latest[r.tenant := r.generation]);
  }

  lemma DeleteKeeps(s: State, tenant: string)
    requires Inv(s)
    ensures Inv(Next(s, Delete(tenant)))
  {
  }

  lemma SwapKeeps(s: State, p: int, fetched: Fetched)
    requires Inv(s) && p in s.refreshes
    ensures Inv(Next(s, Swap(p, fetched)))
  {
  }

  lemma StepKeeps(s: State, a: Action)
    requires Inv(s) && Enabled(s, a)
    ensures Inv(Next(s, a))
  {
    if a.CommitPut? {
      CommitKeeps(s, a.p);
    } else if a.Delete? {
      DeleteKeeps(s, a.tenant);
    } else if a.Swap? {
      SwapKeeps(s, a.p, a.fetched);
    }
  }

  ghost predicate IsRun(states: seq<State>, actions: seq<Action>)
  {
    && |states| == |actions| + 1 && states[0] == State(map[], map[], map[], {}, map[], map[], map[])
    && forall i :: 0 <= i < |actions| ==> Enabled(states[i], actions[i]) && states[i + 1] == Next(states[i], actions[i])
  }

  /** In every run, what is stored carries the generation of the latest administrator Put and is absent after a Delete. */
  lemma {:induction false} GenerationIsLatest(states: seq<State>, actions: seq<Action>, i: nat)
    requires IsRun(states, actions) && i < |states|
    ensures Inv(states[i])
  {
    if i > 0 {
      GenerationIsLatest(states, actions, i - 1);
      StepKeeps(states[i - 1], actions[i - 1]);
    }
  }

  /**
   A refresh that swaps has seen no administrator write to its tenant since it read the record, not even a
   delete followed by a Put of the same metadata; it stores the metadata it fetched, and its attribute map if it has
   one, keeps generation, tenant and URL, and never creates a record.
   */
  lemma SwapCrossesNoWrite(states: seq<State>, actions: seq<Action>, i: nat)
    requires IsRun(states, actions) && i < |actions| && actions[i].Swap? && actions[i].p in states[i].refreshes
    ensures
      var s, s', r := states[i], states[i + 1], states[i].refreshes[actions[i].p];
      var t := r.existing.tenant;
      && s'.store.Keys == s.store.Keys
      && (Swaps(s, actions[i].p) ==>
            && r.epoch == Epoch(s, t) && s.store[t] == r.existing && t in s.latest
            && s'.store[t].generation == s.latest[t] && s'.store[t].url == s.store[t].url
            && s'.store[t].metadata == actions[i].fetched.metadata
            && s'.store[t].attributes == (if actions[i].fetched.attributes.Some? then actions[i].fetched.attributes else s.store[t].attributes))
      && (!Swaps(s, actions[i].p) ==> s'.store == s.store)
      && (forall u :: u in s.store && u != t ==> s'.store[u] == s.store[u])
  {
    GenerationIsLatest(states, actions, i);
    assert Enabled(states[i], actions[i]);
    var s, r := states[i], states[i].refreshes[actions[i].p];
    if Swaps(s, actions[i].p) {
      assert s.births[r.existing.generation] == (r.existing.tenant, Epoch(s, r.existing.tenant));
    }
  }

  // ----- The same, told by the actions -----

  /** The action is an administrator write to the tenant. */
  predicate AdminWrites(s: State, a: Action, tenant: string)
  {
    (a.CommitPut? && a.p in s.puts && s.puts[a.p].tenant == tenant) || a == Delete(tenant)
  }

  /** What administrator writes leave: the record put, or none. */
  lemma AdminEffect(s: State, a: Action)
    requires Enabled(s, a)
    ensures a.CommitPut? ==> Next(s, a).store == s.store[s.puts[a.p].tenant := s.puts[a.p]]
    ensures a.Delete? ==> Next(s, a).store == s.store - {a.tenant}
    ensures !a.CommitPut? && !a.Delete? && !a.Swap? ==> Next(s, a).store == s.store
    ensures a.BeginPut? ==> a.p in Next(s, a).puts && Next(s, a).puts[a.p] == a.record
  {
  }

  lemma EpochGrows(s: State, a: Action, tenant: string)
    requires Enabled(s, a)
    ensures Epoch(Next(s, a), tenant) == Epoch(s, tenant) + if AdminWrites(s, a, tenant) then 1 else 0
  {
  }

  /** The count of administrator writes is that of the actions. */
  lemma {:induction false} EpochsCount(states: seq<State>, actions: seq<Action>, m: nat, i: nat, tenant: string)
    requires IsRun(states, actions) && m <= i < |states|
    ensures Epoch(states[m], tenant) <= Epoch(states[i], tenant)
    ensures Epoch(states[m], tenant) == Epoch(states[i], tenant) ==> forall x :: m <= x < i ==> !AdminWrites(states[x], actions[x], tenant)
    decreases i
  {
    if m < i {
      EpochsCount(states, actions, m, i - 1, tenant);
      assert Enabled(states[i - 1], actions[i - 1]) && states[i - 1 + 1] == Next(states[i - 1], actions[i - 1]);
      EpochGrows(states[i - 1], actions[i - 1], tenant);
    }
  }

  /** When a refresh read its record. */
  lemma {:induction false} RefreshBegan(states: seq<State>, actions: seq<Action>, i: nat, p: int) returns (m: nat)
    requires IsRun(states, actions) && i < |states| && p in states[i].refreshes
    ensures m < i && actions[m].BeginRefresh? && actions[m].p == p && actions[m].tenant in states[m].store
    ensures states[i].refreshes[p] == Refresh(states[m].store[actions[m].tenant], Epoch(states[m], actions[m].tenant))
  {
    assert i > 0;
    assert Enabled(states[i - 1], actions[i - 1]) && states[i - 1 + 1] == Next(states[i - 1], actions[i - 1]);
    if actions[i - 1].BeginRefresh? && actions[i - 1].p == p {
      m := i - 1;
    } else {
      m := RefreshBegan(states, actions, i - 1, p);
    }
  }

  /** Between the read of a refresh and its swap there is no administrator write to the tenant in the run. */
  lemma NoWriteBetween(states: seq<State>, actions: seq<Action>, i: nat) returns (m: nat)
    requires IsRun(states, actions) && i < |actions| && actions[i].Swap? && actions[i].p in states[i].refreshes && Swaps(states[i], actions[i].p)
    ensures m < i && actions[m].BeginRefresh? && actions[m].p == actions[i].p
    ensures forall x :: m <= x <= i ==> !AdminWrites(states[x], actions[x], actions[m].tenant)
    ensures
      var t := actions[m].tenant;
      && t in states[m].store && t in states[i].store && states[i].store[t] == states[m].store[t]
      && t in states[i + 1].store && states[i + 1].store[t] == Replacement(states[m].store[t], actions[i].fetched)
  {
    m := RefreshBegan(states, actions, i, actions[i].p);
    SwapCrossesNoWrite(states, actions, i);
    GenerationIsLatest(states, actions, m);
    assert states[i + 1] == Next(states[i], actions[i]);
    EpochsCount(states, actions, m, i, actions[m].tenant);
  }
}
