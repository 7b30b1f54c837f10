/** The projection of tenant memberships into access assignments: a merge of both generations, then an apply loop. */
module Backfill {
  import opened Prelude
  import opened DirectoryState
  import opened DirectoryTransactions
  import opened DirectoryAtomic
  import opened DirectoryInvariant
  import opened DirectoryErasure
  import opened DirectoryAccess

  const MAXIMUM_BACKFILL_ITEMS := 100_000

  datatype Candidate = Candidate(roles: seq<string>, v2: bool)

  type Pair = (string, string)

  // ----- What the scan returns -----

  const LEGACY_PREFIX := "memberships:"
  const V2_PREFIX := "memberships:v2:"

  /**
   One visited key and its hash as HSCAN returned it: canonical roles by user, `None` where a field does not
   decode. SCAN may return a key twice, and the hash may have changed in between.
   */
  datatype Scan = Scan(key: string, fields: map<string, Option<seq<string>>>)

  predicate IsV2(s: Scan)
  {
    V2_PREFIX <= s.key
  }

  /** Keys of other shapes are skipped. */
  predicate IsMembershipKey(s: Scan)
  {
    LEGACY_PREFIX <= s.key
  }

  function TenantOf(s: Scan): string
  {
    if IsV2(s) then s.key[|V2_PREFIX|..] else if IsMembershipKey(s) then s.key[|LEGACY_PREFIX|..] else ""
  }

  /** The keys in the order `scanKeysBounded` sorts them. */
  ghost predicate SortedScans(scans: seq<Scan>)
  {
    forall i, j :: 0 <= i < j < |scans| ==> AtMost(scans[i].key, scans[j].key)
  }

  /** Keys of the retired tenant are skipped without reading their hash. */
  predicate Counted(s: Scan)
  {
    IsMembershipKey(s) && CanonicalTenant(TenantOf(s)) && TenantOf(s) != RETIRED_TENANT
  }

  predicate Unreadable(s: Scan)
  {
    || (IsMembershipKey(s) && !CanonicalTenant(TenantOf(s)))
    || (Counted(s) && (|s.fields| > MAXIMUM_ASSIGNMENTS || exists u :: u in s.fields && s.fields[u].None?))
  }

  // ----- The merge -----

  /** A legacy value does not replace a v2 one. */
  predicate Shadowed(values: map<Pair, Candidate>, p: Pair, v2: bool)
  {
    p in values && values[p].v2 && !v2
  }

  /** The pair already has different roles from the same generation. */
  predicate Clashes(values: map<Pair, Candidate>, p: Pair, roles: seq<string>, v2: bool)
  {
    p in values && values[p].v2 == v2 && values[p].roles != roles
  }

  /** The hash replaces or adds the candidate of the pair. */
  predicate Replaces(values: map<Pair, Candidate>, s: Scan, users: set<string>, p: Pair)
  {
    p.0 == TenantOf(s) && p.1 in users && p.1 in s.fields && s.fields[p.1].Some? && !Shadowed(values, p, IsV2(s))
  }

  function PairsFor(s: Scan, users: set<string>): set<Pair>
  {
    set u | u in users :: (TenantOf(s), u)
  }

  /** The candidates after the given users of one hash. */
  function Adopted(values: map<Pair, Candidate>, s: Scan, users: set<string>): map<Pair, Candidate>
  {
    map p | p in values.Keys + PairsFor(s, users) && (p in values || Replaces(values, s, users, p)) ::
      if Replaces(values, s, users, p) then Candidate(s.fields[p.1].value, IsV2(s)) else values[p]
  }

  predicate ClashesIn(values: map<Pair, Candidate>, s: Scan)
  {
    exists u :: u in s.fields && s.fields[u].Some? && Clashes(values, (TenantOf(s), u), s.fields[u].value, IsV2(s))
  }

  /** One key of the merge. */
  function Take(values: map<Pair, Candidate>, s: Scan): Read<map<Pair, Candidate>>
  {
    if Unreadable(s) then Failed(Corrupt)
    else if !Counted(s) then Ok(values)
    else if ClashesIn(values, s) || |Adopted(values, s, s.fields.Keys)| > MAXIMUM_BACKFILL_ITEMS then Failed(Corrupt)
    else Ok(Adopted(values, s, s.fields.Keys))
  }

  function MergeScans(scans: seq<Scan>): Read<map<Pair, Candidate>>
  {
    if scans == [] then Ok(map[])
    else
      var most := MergeScans(scans[..|scans| - 1]);
      if most.Failed? then most else Take(most.value, scans[|scans| - 1])
  }

  lemma AdoptedAt(values: map<Pair, Candidate>, s: Scan, users: set<string>, p: Pair)
    ensures
      var after := Adopted(values, s, users);
      if Replaces(values, s, users, p)
      then p in after && after[p] == Candidate(s.fields[p.1].value, IsV2(s))
      else (p in after <==> p in values) && (p in values ==> after[p] == values[p])
  {
    assert p == (p.0, p.1);
  }

  /** A user's turn: what earlier users of the hash did does not bear on it. */
  lemma AdoptOne(values: map<Pair, Candidate>, s: Scan, done: set<string>, u: string)
    requires u in s.fields && s.fields[u].Some? && u !in done
    ensures
      var p := (TenantOf(s), u);
      && (Shadowed(Adopted(values, s, done), p, IsV2(s)) <==> Shadowed(values, p, IsV2(s)))
      && (Clashes(Adopted(values, s, done), p, s.fields[u].value, IsV2(s)) <==> Clashes(values, p, s.fields[u].value, IsV2(s)))
  {
    AdoptedAt(values, s, done, (TenantOf(s), u));
  }

  lemma AdoptMore(values: map<Pair, Candidate>, s: Scan, done: set<string>, u: string)
    requires u in s.fields && s.fields[u].Some? && u !in done
    ensures
      var p := (TenantOf(s), u);
      Adopted(values, s, done + {u}) ==
      if Shadowed(values, p, IsV2(s)) then Adopted(values, s, done) else Adopted(values, s, done)[p := Candidate(s.fields[u].value, IsV2(s))]
  {
    var p := (TenantOf(s), u);
    var before, after := Adopted(values, s, done), Adopted(values, s, done + {u});
    forall q
      ensures q in after <==> q in before || (q == p && !Shadowed(values, p, IsV2(s)))
      ensures q in after && (q != p || Shadowed(values, p, IsV2(s))) ==> q in before && after[q] == before[q]
    {
      AdoptedAt(values, s, done, q);
      AdoptedAt(values, s, done + {u}, q);
    }
    AdoptedAt(values, s, done + {u}, p);
  }

  lemma AdoptedGrows(values: map<Pair, Candidate>, s: Scan, some: set<string>, all: set<string>)
    requires some <= all
    ensures |Adopted(values, s, some)| <= |Adopted(values, s, all)|
  {
    SubsetSize(Adopted(values, s, some).Keys, Adopted(values, s, all).Keys);
    assert |Adopted(values, s, some).Keys| == |Adopted(values, s, some)| && |Adopted(values, s, all).Keys| == |Adopted(values, s, all)|;
  }

  lemma NothingAdopted(values: map<Pair, Candidate>, s: Scan)
    ensures Adopted(values, s, {}) == values
  {
    forall p
      ensures p in Adopted(values, s, {}) <==> p in values
    {
      AdoptedAt(values, s, {}, p);
    }
  }

  /** The users visited decode and do not clash. */
  ghost predicate Clean(values: map<Pair, Candidate>, s: Scan, done: set<string>)
  {
    forall u :: u in done && u in s.fields ==> s.fields[u].Some? && !Clashes(values, (TenantOf(s), u), s.fields[u].value, IsV2(s))
  }

  /** Where the inner loop stands after the users in `done`. */
  ghost predicate TakenSoFar(values: map<Pair, Candidate>, s: Scan, done: set<string>, current: map<Pair, Candidate>)
  {
    current == Adopted(values, s, done) && |current| <= MAXIMUM_BACKFILL_ITEMS && Clean(values, s, done)
  }

  lemma StartTaking(values: map<Pair, Candidate>, s: Scan)
    requires |values| <= MAXIMUM_BACKFILL_ITEMS
    ensures TakenSoFar(values, s, {}, values)
  {
    NothingAdopted(values, s);
  }

  /** One turn of the inner loop. */
  method TakeField(ghost values: map<Pair, Candidate>, s: Scan, current: map<Pair, Candidate>, ghost done: set<string>, u: string)
    returns (r: Read<map<Pair, Candidate>>)
    requires Counted(s) && u in s.fields && u !in done && done <= s.fields.Keys && TakenSoFar(values, s, done, current)
    ensures r.Ok? ==> TakenSoFar(values, s, done + {u}, r.value)
    ensures r.Failed? ==> r == Take(values, s)
  {
    if s.fields[u].None? { return Failed(Corrupt); }
    var v2, p, candidate := IsV2(s), (TenantOf(s), u), Candidate(s.fields[u].value, IsV2(s));
    AdoptOne(values, s, done, u);
    AdoptMore(values, s, done, u);
    if p in current && current[p].v2 && !v2 {
      CleanMore(values, s, done, u);
      return Ok(current);
    }
    if p in current && current[p].v2 == v2 && current[p].roles != candidate.roles { return Failed(Corrupt); }
    CleanMore(values, s, done, u);
    var next := current[p := candidate];
    if |next| > MAXIMUM_BACKFILL_ITEMS {
      AdoptedGrows(values, s, done + {u}, s.fields.Keys);
      return Failed(Corrupt);
    }
    r := Ok(next);
  }

  /** The inner loop, over the fields of one hash in the order a Go map happens to yield them. */
  method TakeFields(values: map<Pair, Candidate>, s: Scan) returns (r: Read<map<Pair, Candidate>>)
    requires Counted(s) && |s.fields| <= MAXIMUM_ASSIGNMENTS && |values| <= MAXIMUM_BACKFILL_ITEMS
    ensures r == Take(values, s)
  {
    r := Ok(values);
    StartTaking(values, s);
    var todo := s.fields.Keys;
    while todo != {} && r.Ok?
      invariant todo <= s.fields.Keys
      invariant r.Ok? ==> TakenSoFar(values, s, s.fields.Keys - todo, r.value)
      invariant r.Failed? ==> r == Take(values, s)
      decreases todo
    {
      var u :| u in todo;
      r := TakeField(values, s, r.value, s.fields.Keys - todo, u);
      VisitedOne(s.fields.Keys, todo, u);
      todo := todo - {u};
    }
    if r.Ok? {
      assert s.fields.Keys - todo == s.fields.Keys;
      CleanTakes(values, s);
    }
  }

  lemma VisitedOne(all: set<string>, todo: set<string>, u: string)
    requires todo <= all && u in todo
    ensures all - todo + {u} == all - (todo - {u})
  {
  }

  lemma CleanTakes(values: map<Pair, Candidate>, s: Scan)
    requires Counted(s) && |s.fields| <= MAXIMUM_ASSIGNMENTS && Clean(values, s, s.fields.Keys)
    requires |Adopted(values, s, s.fields.Keys)| <= MAXIMUM_BACKFILL_ITEMS
    ensures Take(values, s) == Ok(Adopted(values, s, s.fields.Keys))
  {
  }

  lemma CleanMore(values: map<Pair, Candidate>, s: Scan, done: set<string>, u: string)
    requires Clean(values, s, done) && u in s.fields && s.fields[u].Some?
    requires !Clashes(values, (TenantOf(s), u), s.fields[u].value, IsV2(s))
    ensures Clean(values, s, done + {u})
  {
  }

  /** The merge loop over the sorted keys. */
  method Merge(scans: seq<Scan>) returns (r: Read<map<Pair, Candidate>>)
    ensures r == MergeScans(scans)
  {
    var values: map<Pair, Candidate> := map[];
    for n := 0 to |scans|
      invariant MergeScans(scans[..n]) == Ok(values) && |values| <= MAXIMUM_BACKFILL_ITEMS
    {
      var s := scans[n];
      assert scans[..n + 1][..n] == scans[..n];
      var one;
      if !IsMembershipKey(s) {
        one := Ok(values);
      } else if !CanonicalTenant(TenantOf(s)) {
        one := Failed(Corrupt);
      } else if TenantOf(s) == RETIRED_TENANT {
        one := Ok(values);
      } else if |s.fields| > MAXIMUM_ASSIGNMENTS {
        one := Failed(Corrupt);
      } else {
        one := TakeFields(values, s);
      }
      if one.Failed? {
        FailedStays(scans, n + 1);
        return one;
      }
      values := one.value;
    }
    assert scans[..|scans|] == scans;
    r := Ok(values);
  }

  lemma {:induction false} FailedStays(scans: seq<Scan>, n: nat)
    requires n <= |scans| && MergeScans(scans[..n]).Failed?
    ensures MergeScans(scans) == MergeScans(scans[..n])
    decreases |scans| - n
  {
    if n == |scans| {
      assert scans[..n] == scans;
    } else {
      assert scans[..n + 1][..n] == scans[..n];
      FailedStays(scans, n + 1);
    }
  }

  // ----- What the merge means -----

  function ScanSet(scans: seq<Scan>): set<Scan>
  {
    set s | s in scans
  }

  /** A value the scan saw for a pair. */
  ghost predicate Saw(scans: set<Scan>, p: Pair, roles: seq<string>, v2: bool)
  {
    exists s :: s in scans && Offers(s, p, roles, v2)
  }

  predicate Offers(s: Scan, p: Pair, roles: seq<string>, v2: bool)
  {
    Counted(s) && TenantOf(s) == p.0 && IsV2(s) == v2 && p.1 in s.fields && s.fields[p.1] == Some(roles)
  }

  /** A v2 value for every pair that has one, otherwise its legacy value. */
  ghost predicate IsMerge(scans: set<Scan>, values: map<Pair, Candidate>)
  {
    && (forall p :: p in values ==> Saw(scans, p, values[p].roles, values[p].v2))
    && (forall p, roles :: Saw(scans, p, roles, true) ==> p in values && values[p] == Candidate(roles, true))
    && (forall p, roles :: Saw(scans, p, roles, false) ==> p in values && (values[p].v2 || values[p].roles == roles))
  }

  /** One set of scanned hashes has one merge. */
  lemma MergeUnique(scans: set<Scan>, a: map<Pair, Candidate>, b: map<Pair, Candidate>)
    requires IsMerge(scans, a) && IsMerge(scans, b)
    ensures a == b
  {
    forall p
      ensures p in a ==> p in b && b[p] == a[p]
      ensures p in b ==> p in a
    {
      if p in a {
        assert Saw(scans, p, a[p].roles, a[p].v2);
        assert p in b && Saw(scans, p, b[p].roles, b[p].v2);
      }
      if p in b {
        assert Saw(scans, p, b[p].roles, b[p].v2);
      }
    }
  }

  lemma SawMore(scans: set<Scan>, s: Scan, p: Pair, roles: seq<string>, v2: bool)
    ensures Saw(scans + {s}, p, roles, v2) <==> Saw(scans, p, roles, v2) || Offers(s, p, roles, v2)
  {
    if Saw(scans, p, roles, v2) {
      var q :| q in scans && Offers(q, p, roles, v2);
      assert q in scans + {s};
    }
    if Offers(s, p, roles, v2) {
      assert s in scans + {s};
    }
  }

  lemma NoClashAt(values: map<Pair, Candidate>, s: Scan, p: Pair, roles: seq<string>)
    requires Offers(s, p, roles, IsV2(s)) && !ClashesIn(values, s)
    ensures !Clashes(values, p, roles, IsV2(s))
  {
    assert p == (TenantOf(s), p.1);
  }

  lemma TakeMerges(scans: set<Scan>, s: Scan, values: map<Pair, Candidate>)
    requires IsMerge(scans, values) && Counted(s) && !ClashesIn(values, s)
    ensures IsMerge(scans + {s}, Adopted(values, s, s.fields.Keys))
  {
    var after := Adopted(values, s, s.fields.Keys);
    forall p | p in after
      ensures Saw(scans + {s}, p, after[p].roles, after[p].v2)
    {
      AdoptedAt(values, s, s.fields.Keys, p);
      SawMore(scans, s, p, after[p].roles, after[p].v2);
    }
    forall p, roles, v2 | Saw(scans + {s}, p, roles, v2)
      ensures p in after && (if v2 then after[p] == Candidate(roles, true) else after[p].v2 || after[p].roles == roles)
    {
      SawMore(scans, s, p, roles, v2);
      AdoptedAt(values, s, s.fields.Keys, p);
      if Offers(s, p, roles, v2) {
        NoClashAt(values, s, p, roles);
      } else if p.0 == TenantOf(s) && p.1 in s.fields && s.fields[p.1].Some? {
        NoClashAt(values, s, p, s.fields[p.1].value);
      }
    }
  }

  lemma SkipMerges(scans: set<Scan>, s: Scan, values: map<Pair, Candidate>)
    requires IsMerge(scans, values) && !Counted(s)
    ensures IsMerge(scans + {s}, values)
  {
    forall p, roles, v2
      ensures Saw(scans + {s}, p, roles, v2) <==> Saw(scans, p, roles, v2)
    {
      SawMore(scans, s, p, roles, v2);
    }
  }

  lemma LastScan(scans: seq<Scan>, n: nat)
    requires n < |scans|
    ensures ScanSet(scans[..n + 1]) == ScanSet(scans[..n]) + {scans[n]} && scans[..n + 1][..n] == scans[..n]
  {
    assert scans[..n + 1] == scans[..n] + [scans[n]];
  }

  lemma TakeMeans(scans: set<Scan>, s: Scan, values: map<Pair, Candidate>)
    requires IsMerge(scans, values) && |values| <= MAXIMUM_BACKFILL_ITEMS && Take(values, s).Ok?
    ensures IsMerge(scans + {s}, Take(values, s).value) && !Unreadable(s) && |Take(values, s).value| <= MAXIMUM_BACKFILL_ITEMS
  {
    if Counted(s) {
      TakeMerges(scans, s, values);
    } else {
      SkipMerges(scans, s, values);
    }
  }

  lemma MergeStep(scans: seq<Scan>, n: nat)
    requires n < |scans| && MergeScans(scans[..n + 1]).Ok?
    ensures MergeScans(scans[..n]).Ok? && MergeScans(scans[..n + 1]) == Take(MergeScans(scans[..n]).value, scans[n])
  {
    LastScan(scans, n);
  }

  /** A merge that succeeds covers every readable value and prefers v2. */
  lemma {:induction false} MergeIsMerge(scans: seq<Scan>, n: nat)
    requires n <= |scans| && MergeScans(scans[..n]).Ok?
    ensures IsMerge(ScanSet(scans[..n]), MergeScans(scans[..n]).value)
    ensures forall i :: 0 <= i < n ==> !Unreadable(scans[i])
    ensures |MergeScans(scans[..n]).value| <= MAXIMUM_BACKFILL_ITEMS
  {
    if n > 0 {
      LastScan(scans, n - 1);
      MergeStep(scans, n - 1);
      MergeIsMerge(scans, n - 1);
      TakeMeans(ScanSet(scans[..n - 1]), scans[n - 1], MergeScans(scans[..n - 1]).value);
    }
  }

  // ----- When it fails -----

  function PairsOf(scans: set<Scan>): set<Pair>
  {
    set s, u | s in scans && Counted(s) && u in s.fields :: (TenantOf(s), u)
  }

  /** The tenant's legacy key sorts before its v2 key. */
  predicate LegacyFirst(tenant: string)
  {
    Less(LEGACY_PREFIX + tenant, V2_PREFIX + tenant)
  }

  /** Two different values of one generation for one pair, seen when no v2 value decides. */
  ghost predicate Disagrees(scans: set<Scan>, p: Pair, a: seq<string>, b: seq<string>, v2: bool)
  {
    && Saw(scans, p, a, v2) && Saw(scans, p, b, v2) && a != b
    && (v2 || LegacyFirst(p.0) || forall roles :: !Saw(scans, p, roles, true))
  }

  /** A condition on the scanned hashes alone. */
  ghost predicate Unmergeable(scans: set<Scan>)
  {
    || (exists s :: s in scans && Unreadable(s))
    || |PairsOf(scans)| > MAXIMUM_BACKFILL_ITEMS
    || (exists p, a, b, v2 :: Disagrees(scans, p, a, b, v2))
  }

  lemma CountedKey(s: Scan)
    requires Counted(s)
    ensures s.key == (if IsV2(s) then V2_PREFIX else LEGACY_PREFIX) + TenantOf(s)
  {
  }

  /** Every value of a pair that the merge has seen is its candidate, or is hidden by a v2 one. */
  lemma MergeKeys(scans: set<Scan>, values: map<Pair, Candidate>)
    requires IsMerge(scans, values) && forall s :: s in scans ==> !Unreadable(s)
    ensures values.Keys == PairsOf(scans)
  {
    forall p
      ensures p in values <==> p in PairsOf(scans)
    {
      if p in values {
        var s :| s in scans && Offers(s, p, values[p].roles, values[p].v2);
        assert p == (TenantOf(s), p.1);
      }
      if p in PairsOf(scans) {
        var s, u :| s in scans && Counted(s) && u in s.fields && p == (TenantOf(s), u);
        assert s.fields[u].Some?;
        assert Offers(s, p, s.fields[u].value, IsV2(s));
        assert Saw(scans, p, s.fields[u].value, IsV2(s));
      }
    }
  }

  lemma MergeSize(scans: set<Scan>, values: map<Pair, Candidate>)
    requires IsMerge(scans, values) && forall s :: s in scans ==> !Unreadable(s)
    ensures |values| == |PairsOf(scans)|
  {
    MergeKeys(scans, values);
    assert |values| == |values.Keys|;
  }

  /** Where a value was seen. */
  lemma SeenAt(scans: seq<Scan>, p: Pair, roles: seq<string>, v2: bool) returns (i: nat)
    requires Saw(ScanSet(scans), p, roles, v2)
    ensures i < |scans| && Offers(scans[i], p, roles, v2)
  {
    var s :| s in ScanSet(scans) && Offers(s, p, roles, v2);
    i :| 0 <= i < |scans| && scans[i] == s;
  }

  lemma PrefixSaw(scans: seq<Scan>, n: nat, i: nat, p: Pair, roles: seq<string>, v2: bool)
    requires i < n <= |scans| && Offers(scans[i], p, roles, v2)
    ensures Saw(ScanSet(scans[..n]), p, roles, v2)
  {
    assert scans[..n][i] == scans[i];
  }

  lemma PrefixOk(scans: seq<Scan>, n: nat)
    requires n <= |scans| && MergeScans(scans).Ok?
    ensures MergeScans(scans[..n]).Ok?
  {
    if MergeScans(scans[..n]).Failed? {
      FailedStays(scans, n);
    }
  }

  lemma ClashAt(values: map<Pair, Candidate>, s: Scan, p: Pair, roles: seq<string>, v2: bool)
    requires Offers(s, p, roles, v2) && Clashes(values, p, roles, v2)
    ensures Take(values, s).Failed?
  {
    assert p == (TenantOf(s), p.1);
    assert ClashesIn(values, s);
  }

  /** Of two different values of one generation the later one clashes, unless a v2 value came before it. */
  lemma LaterClashes(scans: seq<Scan>, i: nat, j: nat, p: Pair, a: seq<string>, b: seq<string>, v2: bool)
    requires SortedScans(scans) && i < j < |scans| && Offers(scans[i], p, a, v2) && Offers(scans[j], p, b, v2) && a != b
    requires v2 || LegacyFirst(p.0) || forall roles :: !Saw(ScanSet(scans), p, roles, true)
    requires MergeScans(scans[..j]).Ok?
    ensures Take(MergeScans(scans[..j]).value, scans[j]).Failed?
  {
    MergeIsMerge(scans, j);
    var values := MergeScans(scans[..j]).value;
    PrefixSaw(scans, j, i, p, a, v2);
    if !v2 && values[p].v2 {
      var k := SeenAt(scans[..j], p, values[p].roles, true);
      V2SeenBefore(scans, k, j, p, values[p].roles, b);
    }
    ClashAt(values, scans[j], p, b, v2);
  }

  lemma NeverDisagrees(scans: seq<Scan>, p: Pair, a: seq<string>, b: seq<string>, v2: bool)
    requires SortedScans(scans) && MergeScans(scans).Ok?
    ensures !Disagrees(ScanSet(scans), p, a, b, v2)
  {
    if Disagrees(ScanSet(scans), p, a, b, v2) {
      var i := SeenAt(scans, p, a, v2);
      var j := SeenAt(scans, p, b, v2);
      var later := if i < j then j else i;
      PrefixOk(scans, later);
      PrefixOk(scans, later + 1);
      MergeStep(scans, later);
      if i < j {
        LaterClashes(scans, i, j, p, a, b, v2);
      } else {
        LaterClashes(scans, j, i, p, b, a, v2);
      }
    }
  }

  lemma V2SeenBefore(scans: seq<Scan>, k: nat, j: nat, p: Pair, v2Roles: seq<string>, legacy: seq<string>)
    requires SortedScans(scans) && k < j < |scans| && Offers(scans[k], p, v2Roles, true) && Offers(scans[j], p, legacy, false)
    ensures !LegacyFirst(p.0) && Saw(ScanSet(scans), p, v2Roles, true)
  {
    CountedKey(scans[k]);
    CountedKey(scans[j]);
    LessTotal(scans[k].key, scans[j].key);
    LessIrreflexive(scans[k].key);
    assert scans[k] in ScanSet(scans);
  }

  lemma OkIsMergeable(scans: seq<Scan>)
    requires SortedScans(scans) && MergeScans(scans).Ok?
    ensures !Unmergeable(ScanSet(scans))
  {
    assert scans[..|scans|] == scans;
    MergeIsMerge(scans, |scans|);
    MergeSize(ScanSet(scans), MergeScans(scans).value);
    forall p, a, b, v2
      ensures !Disagrees(ScanSet(scans), p, a, b, v2)
    {
      NeverDisagrees(scans, p, a, b, v2);
    }
  }

  /** A clash at one key is a disagreement of the whole scan. */
  lemma ClashDisagrees(scans: seq<Scan>, n: nat, values: map<Pair, Candidate>)
    requires SortedScans(scans) && n < |scans| && IsMerge(ScanSet(scans[..n]), values) && Counted(scans[n]) && ClashesIn(values, scans[n])
    ensures exists p, a, b, v2 :: Disagrees(ScanSet(scans), p, a, b, v2)
  {
    var s := scans[n];
    var u :| u in s.fields && s.fields[u].Some? && Clashes(values, (TenantOf(s), u), s.fields[u].value, IsV2(s));
    var p, v2 := (TenantOf(s), u), IsV2(s);
    var a, b := values[p].roles, s.fields[u].value;
    var i := SeenAt(scans[..n], p, a, v2);
    assert scans[i] in ScanSet(scans) && s in ScanSet(scans);
    if !v2 && exists roles :: Saw(ScanSet(scans), p, roles, true) {
      var roles :| Saw(ScanSet(scans), p, roles, true);
      var k := SeenAt(scans, p, roles, true);
      if k < n {
        PrefixSaw(scans, n, k, p, roles, true);
      } else {
        LegacySeenFirst(scans, n, k, p, b, roles);
      }
    }
    assert Disagrees(ScanSet(scans), p, a, b, v2);
  }

  lemma LegacySeenFirst(scans: seq<Scan>, n: nat, k: nat, p: Pair, legacy: seq<string>, v2Roles: seq<string>)
    requires SortedScans(scans) && n <= k < |scans| && Offers(scans[n], p, legacy, false) && Offers(scans[k], p, v2Roles, true)
    ensures LegacyFirst(p.0)
  {
    CountedKey(scans[n]);
    CountedKey(scans[k]);
  }

  lemma FewerPairs(some: set<Scan>, all: set<Scan>)
    requires some <= all
    ensures |PairsOf(some)| <= |PairsOf(all)|
  {
    SubsetSize(PairsOf(some), PairsOf(all));
  }

  lemma TooManyPairs(scans: seq<Scan>, n: nat, values: map<Pair, Candidate>)
    requires n < |scans| && IsMerge(ScanSet(scans[..n]), values) && (forall i :: 0 <= i <= n ==> !Unreadable(scans[i]))
    requires Counted(scans[n]) && !ClashesIn(values, scans[n])
    requires |Adopted(values, scans[n], scans[n].fields.Keys)| > MAXIMUM_BACKFILL_ITEMS
    ensures |PairsOf(ScanSet(scans))| > MAXIMUM_BACKFILL_ITEMS
  {
    var s := scans[n];
    LastScan(scans, n);
    TakeMerges(ScanSet(scans[..n]), s, values);
    MergeSize(ScanSet(scans[..n + 1]), Adopted(values, s, s.fields.Keys));
    assert ScanSet(scans[..n + 1]) <= ScanSet(scans);
    FewerPairs(ScanSet(scans[..n + 1]), ScanSet(scans));
  }

  lemma FailsAt(scans: seq<Scan>, n: nat)
    requires SortedScans(scans) && n < |scans| && MergeScans(scans[..n]).Ok? && MergeScans(scans[..n + 1]).Failed?
    ensures Unmergeable(ScanSet(scans))
  {
    var s := scans[n];
    LastScan(scans, n);
    MergeIsMerge(scans, n);
    var values := MergeScans(scans[..n]).value;
    assert s in ScanSet(scans);
    if !Unreadable(s) {
      if ClashesIn(values, s) {
        ClashDisagrees(scans, n, values);
      } else {
        TooManyPairs(scans, n, values);
      }
    }
  }

  lemma {:induction false} FirstFailure(scans: seq<Scan>, n: nat) returns (k: nat)
    requires n <= |scans| && MergeScans(scans[..n]).Failed?
    ensures k < n && MergeScans(scans[..k]).Ok? && MergeScans(scans[..k + 1]).Failed?
  {
    LastScan(scans, n - 1);
    if MergeScans(scans[..n - 1]).Ok? {
      k := n - 1;
    } else {
      k := FirstFailure(scans, n - 1);
    }
  }

  /**
   Over keys in sorted order the merge fails if and only if a key or hash is unreadable, there are too many
   pairs, two v2 values of a pair differ, or two legacy values differ whose key sorts before the pair's v2
   key or that no v2 value hides.
   */
  lemma MergeFails(scans: seq<Scan>)
    requires SortedScans(scans)
    ensures MergeScans(scans).Failed? <==> Unmergeable(ScanSet(scans))
  {
    if MergeScans(scans).Ok? {
      OkIsMergeable(scans);
    } else {
      assert scans[..|scans|] == scans;
      var k := FirstFailure(scans, |scans|);
      FailsAt(scans, k);
    }
  }

  /** The outcome depends only on the hashes scanned: neither the order SCAN found them in nor repetitions matter. */
  lemma MergeIgnoresOrder(scans: seq<Scan>, again: seq<Scan>)
    requires SortedScans(scans) && SortedScans(again) && ScanSet(scans) == ScanSet(again)
    ensures MergeScans(scans).Ok? <==> MergeScans(again).Ok?
    ensures MergeScans(scans).Ok? ==> MergeScans(scans) == MergeScans(again)
  {
    MergeFails(scans);
    MergeFails(again);
    if MergeScans(scans).Ok? {
      assert scans[..|scans|] == scans && again[..|again|] == again;
      MergeIsMerge(scans, |scans|);
      MergeIsMerge(again, |again|);
      MergeUnique(ScanSet(scans), MergeScans(scans).value, MergeScans(again).value);
    }
  }

  // ----- The apply loop -----

  datatype Progress = Progress(d: Directory, failure: Option<Error>)

  /** One pair: an existing assignment is authoritative, a foreign SAML user is skipped, a missing user stops the run. */
  function ApplyOne(d: Directory, p: Pair, roles: seq<string>): Progress
  {
    var principal := UserPrincipal(p.1);
    if (p.0, principal) in d.assignments then Progress(d, None)
    else
      match ReadUser(d, p.1)
      case Failed(e) => Progress(d, Some(e))
      case Ok(u) =>
        if ForeignSaml(u, p.0) then Progress(d, None)
        else if p.1 !in d.users then Progress(d, Some(NotFound))
        else Progress(WithAssignment(d, p.0, principal, Assignment(roles, 1)), None)
  }

  /** The run over a list of pairs, up to the first failure. */
  function ApplyAll(d: Directory, pairs: seq<Pair>, values: map<Pair, Candidate>): Progress
    requires forall p :: p in pairs ==> p in values
    decreases |pairs|
  {
    if pairs == [] then Progress(d, None)
    else
      var one := ApplyOne(d, pairs[0], values[pairs[0]].roles);
      if one.failure.Some? then one else ApplyAll(one.d, pairs[1..], values)
  }

  method ApplyLoop(d0: Directory, pairs: seq<Pair>, values: map<Pair, Candidate>) returns (r: Progress)
    requires forall p :: p in pairs ==> p in values
    ensures r == ApplyAll(d0, pairs, values)
  {
    var d := d0;
    for n := 0 to |pairs|
      invariant ApplyAll(d, pairs[n..], values) == ApplyAll(d0, pairs, values)
    {
      var one := ApplyOne(d, pairs[n], values[pairs[n]].roles);
      assert pairs[n..][0] == pairs[n] && pairs[n..][1..] == pairs[n + 1..];
      if one.failure.Some? { return one; }
      d := one.d;
    }
    r := Progress(d, None);
  }

  /** Assignments only grow. */
  predicate Extends(d: Directory, d': Directory)
  {
    SameUsers(d, d') && SameGroups(d, d') && Grown(d.assignments, d'.assignments)
  }

  predicate Grown(a: map<(string, Principal), Assignment>, b: map<(string, Principal), Assignment>)
  {
    forall k :: k in a ==> k in b && b[k] == a[k]
  }

  lemma ExtendsTransitive(a: Directory, b: Directory, c: Directory)
    requires Extends(a, b) && Extends(b, c)
    ensures Extends(a, c)
  {
  }

  lemma OneExtends(d: Directory, p: Pair, roles: seq<string>)
    ensures Extends(d, ApplyOne(d, p, roles).d)
  {
    var one := ApplyOne(d, p, roles);
    if one.d != d {
      assert one.d == WithAssignment(d, p.0, UserPrincipal(p.1), Assignment(roles, 1));
      assert one.d.assignments == d.assignments[(p.0, UserPrincipal(p.1)) := Assignment(roles, 1)];
    }
  }

  /** The backfill never alters an existing assignment. */
  lemma {:induction false} AllExtends(d: Directory, pairs: seq<Pair>, values: map<Pair, Candidate>)
    requires forall p :: p in pairs ==> p in values
    ensures Extends(d, ApplyAll(d, pairs, values).d)
    decreases |pairs|
  {
    if pairs != [] {
      var one := ApplyOne(d, pairs[0], values[pairs[0]].roles);
      OneExtends(d, pairs[0], values[pairs[0]].roles);
      if one.failure.None? {
        AllExtends(one.d, pairs[1..], values);
        ExtendsTransitive(d, one.d, ApplyAll(one.d, pairs[1..], values).d);
      }
    }
  }

  /** What a finished run has done for a pair. */
  predicate Settled(d: Directory, p: Pair)
  {
    || (p.0, UserPrincipal(p.1)) in d.assignments
    || (ReadUser(d, p.1).Ok? && ForeignSaml(ReadUser(d, p.1).value, p.0))
  }

  lemma SettledStays(d: Directory, d': Directory, p: Pair)
    requires Extends(d, d') && Settled(d, p)
    ensures Settled(d', p)
  {
  }

  lemma SettledIsNoop(d: Directory, p: Pair, roles: seq<string>)
    ensures ApplyOne(d, p, roles) == Progress(d, None) <==> Settled(d, p)
    ensures ApplyOne(d, p, roles).failure.None? ==> Settled(ApplyOne(d, p, roles).d, p)
  {
    var one := ApplyOne(d, p, roles);
    if one.failure.None? && !Settled(d, p) {
      assert (p.0, UserPrincipal(p.1)) in one.d.assignments;
    }
  }

  /** Settled pairs at the front of a run change nothing. */
  lemma {:induction false} SettledPrefix(d: Directory, done: seq<Pair>, rest: seq<Pair>, values: map<Pair, Candidate>)
    requires forall p :: p in done + rest ==> p in values
    requires forall p :: p in done ==> Settled(d, p)
    ensures forall p :: p in rest ==> p in values
    ensures ApplyAll(d, done + rest, values) == ApplyAll(d, rest, values)
    decreases |done|
  {
    assert forall p :: p in rest ==> p in done + rest;
    if done == [] {
      assert done + rest == rest;
    } else {
      assert (done + rest)[0] == done[0] && (done + rest)[1..] == done[1..] + rest;
      assert forall p :: p in done[1..] + rest ==> p in done + rest;
      SettledIsNoop(d, done[0], values[done[0]].roles);
      SettledPrefix(d, done[1..], rest, values);
    }
  }

  /** After a run that did not fail, every pair is settled. */
  lemma {:induction false} RunSettles(d: Directory, pairs: seq<Pair>, values: map<Pair, Candidate>)
    requires (forall p :: p in pairs ==> p in values) && ApplyAll(d, pairs, values).failure.None?
    ensures forall p :: p in pairs ==> Settled(ApplyAll(d, pairs, values).d, p)
    decreases |pairs|
  {
    if pairs != [] {
      var one := ApplyOne(d, pairs[0], values[pairs[0]].roles);
      RunSettles(one.d, pairs[1..], values);
      SettledIsNoop(d, pairs[0], values[pairs[0]].roles);
      AllExtends(one.d, pairs[1..], values);
      SettledStays(one.d, ApplyAll(one.d, pairs[1..], values).d, pairs[0]);
      assert forall p :: p in pairs ==> p == pairs[0] || p in pairs[1..];
    }
  }

  lemma {:induction false} RunSplits(d: Directory, done: seq<Pair>, rest: seq<Pair>, values: map<Pair, Candidate>)
    requires forall p :: p in done + rest ==> p in values
    requires (forall p :: p in done ==> p in values) && (forall p :: p in rest ==> p in values)
    requires ApplyAll(d, done, values).failure.None?
    ensures ApplyAll(d, done + rest, values) == ApplyAll(ApplyAll(d, done, values).d, rest, values)
    decreases |done|
  {
    if done == [] {
      assert done + rest == rest;
    } else {
      assert (done + rest)[0] == done[0] && (done + rest)[1..] == done[1..] + rest;
      assert forall p :: p in done[1..] + rest ==> p in done + rest;
      RunSplits(ApplyOne(d, done[0], values[done[0]].roles).d, done[1..], rest, values);
    }
  }

  lemma CompletedPartResumes(d: Directory, pairs: seq<Pair>, values: map<Pair, Candidate>, n: nat)
    requires (forall p :: p in pairs ==> p in values) && n <= |pairs|
    requires forall p :: p in pairs[..n] ==> p in values
    requires ApplyAll(d, pairs[..n], values).failure.None?
    ensures ApplyAll(ApplyAll(d, pairs[..n], values).d, pairs, values) == ApplyAll(d, pairs, values)
  {
    var done, rest := pairs[..n], pairs[n..];
    assert pairs == done + rest;
    var partial := ApplyAll(d, done, values).d;
    assert forall p :: p in rest ==> p in pairs;
    RunSplits(d, done, rest, values);
    RunSettles(d, done, values);
    SettledPrefix(partial, done, rest, values);
  }

  /** A run that fails leaves what it had done before the pair that failed. */
  lemma {:induction false} FailureStops(d: Directory, pairs: seq<Pair>, values: map<Pair, Candidate>) returns (k: nat)
    requires (forall p :: p in pairs ==> p in values) && ApplyAll(d, pairs, values).failure.Some?
    ensures k < |pairs| && (forall p :: p in pairs[..k] ==> p in values)
    ensures ApplyAll(d, pairs[..k], values) == Progress(ApplyAll(d, pairs, values).d, None)
    decreases |pairs|
  {
    var one := ApplyOne(d, pairs[0], values[pairs[0]].roles);
    if one.failure.Some? {
      k := 0;
    } else {
      var rest := FailureStops(one.d, pairs[1..], values);
      k := rest + 1;
      assert pairs[..k][1..] == pairs[1..][..rest];
      assert forall p :: p in pairs[..k] ==> p in pairs;
    }
  }

  /** A run that crashes after any number of pairs, or is stopped by an error before, followed by a full run, ends like one full run. */
  lemma CrashResumable(d: Directory, pairs: seq<Pair>, values: map<Pair, Candidate>, n: nat)
    requires (forall p :: p in pairs ==> p in values) && n <= |pairs|
    requires forall p :: p in pairs[..n] ==> p in values
    ensures ApplyAll(ApplyAll(d, pairs[..n], values).d, pairs, values) == ApplyAll(d, pairs, values)
  {
    if ApplyAll(d, pairs[..n], values).failure.None? {
      CompletedPartResumes(d, pairs, values, n);
    } else {
      var k := FailureStops(d, pairs[..n], values);
      assert pairs[..n][..k] == pairs[..k];
      CompletedPartResumes(d, pairs, values, k);
    }
  }

  /** A run repeated, after it finished or failed, writes nothing and has the same outcome. */
  lemma RepeatWritesNothing(d: Directory, pairs: seq<Pair>, values: map<Pair, Candidate>)
    requires forall p :: p in pairs ==> p in values
    ensures ApplyAll(ApplyAll(d, pairs, values).d, pairs, values) == ApplyAll(d, pairs, values)
  {
    assert pairs[..|pairs|] == pairs;
    CrashResumable(d, pairs, values, |pairs|);
  }

  // ----- What a run leaves -----

  /** The pair is projected: not assigned yet, of a stored directory user whom the tenant is not foreign to. */
  predicate Projected(d: Directory, p: Pair)
  {
    && (p.0, UserPrincipal(p.1)) !in d.assignments && ReadUser(d, p.1).Ok? && !ForeignSaml(ReadUser(d, p.1).value, p.0) && p.1 in d.users
  }

  /** The pair stops a run: not assigned, and its user cannot be read, or only as a federated one at home. */
  predicate Stops(d: Directory, p: Pair)
  {
    && (p.0, UserPrincipal(p.1)) !in d.assignments
    && (ReadUser(d, p.1).Failed? || (!ForeignSaml(ReadUser(d, p.1).value, p.0) && p.1 !in d.users))
  }

  function KeyOfPair(p: Pair): (string, Principal)
  {
    (p.0, UserPrincipal(p.1))
  }

  /** Nothing but assignments and their reverse sets changes; each projected pair holds its roles under version 1. */
  ghost predicate ProjectedBy(d: Directory, pairs: seq<Pair>, values: map<Pair, Candidate>, d': Directory)
    requires forall p :: p in pairs ==> p in values
  {
    && d' == d.(assignments := d'.assignments, tenants := d'.tenants)
    && (forall p :: p in pairs && Projected(d, p) ==> KeyOfPair(p) in d'.assignments && d'.assignments[KeyOfPair(p)] == Assignment(values[p].roles, 1))
    && (forall k :: k in d'.assignments ==> (k in d.assignments && d'.assignments[k] == d.assignments[k]) || NewKey(d, pairs, k))
    && (forall k :: k in d.assignments ==> k in d'.assignments)
    && (forall x :: x in d'.tenants <==> x in d.tenants || (NewKey(d, pairs, (x.1, x.0)) && (x.1, x.0) in d'.assignments))
  }

  predicate NewKey(d: Directory, pairs: seq<Pair>, k: (string, Principal))
  {
    k.1.UserPrincipal? && (k.0, k.1.id) in pairs && Projected(d, (k.0, k.1.id))
  }

  lemma SameReads(d: Directory, d': Directory, p: Pair)
    requires d' == d.(assignments := d'.assignments, tenants := d'.tenants)
    ensures ReadUser(d', p.1) == ReadUser(d, p.1)
  {
  }

  lemma OneProjects(d: Directory, p: Pair, roles: seq<string>)
    ensures
      var one := ApplyOne(d, p, roles);
      && one.d == (if Projected(d, p) then WithAssignment(d, p.0, UserPrincipal(p.1), Assignment(roles, 1)) else d)
      && (one.failure.Some? <==> Stops(d, p))
  {
  }

  /** A pair projected first leaves the others as they were. */
  lemma ProjectedFirst(d: Directory, p: Pair, roles: seq<string>, q: Pair)
    requires Projected(d, p)
    ensures
      var d' := WithAssignment(d, p.0, UserPrincipal(p.1), Assignment(roles, 1));
      && (Projected(d', q) <==> Projected(d, q) && q != p) && (Stops(d', q) <==> Stops(d, q))
  {
    SameReads(d, WithAssignment(d, p.0, UserPrincipal(p.1), Assignment(roles, 1)), q);
    assert q == (q.0, q.1) && p == (p.0, p.1);
  }

  lemma ProjectionContinues(d: Directory, pairs: seq<Pair>, values: map<Pair, Candidate>, d': Directory)
    requires pairs != [] && (forall p :: p in pairs ==> p in values) && Projected(d, pairs[0])
    requires ProjectedBy(WithAssignment(d, pairs[0].0, UserPrincipal(pairs[0].1), Assignment(values[pairs[0]].roles, 1)), pairs[1..], values, d')
    ensures ProjectedBy(d, pairs, values, d')
  {
    var p, one := pairs[0], WithAssignment(d, pairs[0].0, UserPrincipal(pairs[0].1), Assignment(values[pairs[0]].roles, 1));
    assert p == (p.0, p.1);
    forall q
      ensures Projected(one, q) <==> Projected(d, q) && q != p
      ensures q in pairs <==> q == p || q in pairs[1..]
    {
      ProjectedFirst(d, p, values[p].roles, q);
    }
    assert KeyOfPair(p) in one.assignments && one.assignments[KeyOfPair(p)] == Assignment(values[p].roles, 1);
  }

  lemma SkippedContinues(d: Directory, pairs: seq<Pair>, values: map<Pair, Candidate>, d': Directory)
    requires pairs != [] && (forall p :: p in pairs ==> p in values) && !Projected(d, pairs[0])
    requires ProjectedBy(d, pairs[1..], values, d')
    ensures ProjectedBy(d, pairs, values, d')
  {
    forall q
      ensures q in pairs <==> q == pairs[0] || q in pairs[1..]
    {
    }
  }

  /**
   A run finishes exactly if no pair stops it, and then leaves precisely the projection: every pair that was not assigned, of a stored
   user whom the tenant is not foreign to, holds its merged roles, and nothing else has changed.
   */
  lemma {:induction false} RunProjects(d: Directory, pairs: seq<Pair>, values: map<Pair, Candidate>)
    requires forall p :: p in pairs ==> p in values
    ensures ApplyAll(d, pairs, values).failure.None? <==> forall p :: p in pairs ==> !Stops(d, p)
    ensures ApplyAll(d, pairs, values).failure.None? ==> ProjectedBy(d, pairs, values, ApplyAll(d, pairs, values).d)
    decreases |pairs|
  {
    if pairs != [] {
      var p := pairs[0];
      var one := ApplyOne(d, p, values[p].roles);
      OneProjects(d, p, values[p].roles);
      assert forall q :: q in pairs <==> q == p || q in pairs[1..];
      if one.failure.None? {
        RunProjects(one.d, pairs[1..], values);
        if Projected(d, p) {
          forall q
            ensures Stops(one.d, q) <==> Stops(d, q)
          {
            ProjectedFirst(d, p, values[p].roles, q);
          }
          if ApplyAll(d, pairs, values).failure.None? {
            ProjectionContinues(d, pairs, values, ApplyAll(d, pairs, values).d);
          }
        } else if ApplyAll(d, pairs, values).failure.None? {
          SkippedContinues(d, pairs, values, ApplyAll(d, pairs, values).d);
        }
      }
    }
  }

  /** The projection keeps the directory invariant, run finished or not. */
  lemma {:induction false} BackfillKeepsDirectory(d: Directory, pairs: seq<Pair>, values: map<Pair, Candidate>)
    requires DirectoryInv(d) && forall p :: p in pairs ==> p in values && ActiveTenant(p.0) && CanonicalRoles(values[p].roles)
    ensures DirectoryInv(ApplyAll(d, pairs, values).d)
    decreases |pairs|
  {
    if pairs != [] {
      var p := pairs[0];
      var one := ApplyOne(d, p, values[p].roles);
      if one.d != d {
        AssignmentKeeps(d, p.0, UserPrincipal(p.1), Assignment(values[p].roles, 1));
      }
      if one.failure.None? {
        BackfillKeepsDirectory(one.d, pairs[1..], values);
      }
    }
  }
}
