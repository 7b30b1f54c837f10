/**
 Single-use records: written once under an unused id, removed by an atomic compare-and-delete (or
 get-and-delete), lost at any time to expiry. The log of everything ever created and the indexes of
 everything consumed are history, kept beside the live records.
 */
module SingleUse {
  import opened Prelude

  datatype Entry<V> = Entry(value: V, index: nat)

  datatype Ledger<V> = Ledger(live: map<string, Entry<V>>, log: seq<V>, spent: seq<nat>)

  ghost predicate Distinct(s: seq<nat>)
  {
    forall i, j :: 0 <= i < j < |s| ==> s[i] != s[j]
  }

  ghost predicate Below(s: seq<nat>, n: nat)
  {
    forall i :: 0 <= i < |s| ==> s[i] < n
  }

  /** Live entries name distinct unspent creations, and no creation is spent twice. */
  ghost predicate Sound<V>(l: Ledger<V>)
  {
    && (forall id :: id in l.live ==> l.live[id].index < |l.log| && l.log[l.live[id].index] == l.live[id].value)
    && (forall id, other :: id in l.live && other in l.live && id != other ==> l.live[id].index != l.live[other].index)
    && (forall id, i :: id in l.live && 0 <= i < |l.spent| ==> l.spent[i] != l.live[id].index)
    && Distinct(l.spent) && Below(l.spent, |l.log|)
  }

  function Empty<V>(): Ledger<V>
  {
    Ledger(map[], [], [])
  }

  /** SETNX of a new record. */
  function Create<V>(l: Ledger<V>, id: string, v: V): Ledger<V>
  {
    l.(live := l.live[id := Entry(v, |l.log|)], log := l.log + [v])
  }

  function Expire<V>(l: Ledger<V>, id: string): Ledger<V>
  {
    l.(live := l.live - {id})
  }

  /** The compare-and-delete script finds exactly the value its caller read. */
  predicate Consumable<V(==)>(l: Ledger<V>, id: string, v: V)
  {
    id in l.live && l.live[id].value == v
  }

  function Consume<V>(l: Ledger<V>, id: string): Ledger<V>
    requires id in l.live
  {
    l.(live := l.live - {id}, spent := l.spent + [l.live[id].index])
  }

  lemma CreateSound<V>(l: Ledger<V>, id: string, v: V)
    requires Sound(l) && id !in l.live
    ensures Sound(Create(l, id, v))
  {
  }

  lemma ExpireSound<V>(l: Ledger<V>, id: string)
    requires Sound(l)
    ensures Sound(Expire(l, id))
  {
  }

  lemma ConsumeSound<V>(l: Ledger<V>, id: string)
    requires Sound(l) && id in l.live
    ensures Sound(Consume(l, id))
  {
  }

  /** Distinct numbers below `n` are at most `n`. */
  lemma {:induction false} Pigeonhole(s: seq<nat>, n: nat)
    requires Distinct(s) && Below(s, n)
    ensures |s| <= n
    decreases n
  {
    if s != [] {
      assert s[0] < n;
      if n - 1 in s {
        var i :| 0 <= i < |s| && s[i] == n - 1;
        var rest := s[..i] + s[i + 1..];
        Pigeonhole(rest, n - 1);
      } else {
        Pigeonhole(s, n - 1);
      }
    }
  }
}
