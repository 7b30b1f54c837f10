/** Canonical audience scopes against the compiled manifest, which is a parameter here. */
module ScopePolicy {
  import opened Prelude

  const RESERVED := "code-admin:"
  const MAXIMUM_SCOPES := 500

  datatype Entry = Entry(tenantBound: bool, assignable: bool)

  type Manifest = map<string, Entry>

  predicate Blank(c: char)
  {
    c in {' ', '\t', '\n', '\r'}
  }

  function TrimLeft(s: string): string
  {
    if s != [] && Blank(s[0]) then TrimLeft(s[1..]) else s
  }

  function TrimRight(s: string): string
  {
    if s != [] && Blank(s[|s| - 1]) then TrimRight(s[..|s| - 1]) else s
  }

  function Trim(s: string): string
  {
    TrimRight(TrimLeft(s))
  }

  predicate PermissionChar(c: char)
  {
    'a' <= c <= 'z' || 'A' <= c <= 'Z' || '0' <= c <= '9' || c in {'.', '_', ':', '/', '*', '-'}
  }

  predicate ValidPermission(s: string)
  {
    1 <= |s| <= 128 && forall i :: 0 <= i < |s| ==> PermissionChar(s[i])
  }

  /** A reserved scope must be in the manifest, and one that is bound to tenants must be assignable. */
  predicate AllowedScope(m: Manifest, s: string)
  {
    && ValidPermission(s)
    && (RESERVED <= s ==> s in m && (m[s].tenantBound ==> m[s].assignable))
  }

  /** What is stored: between 1 and 500 allowed scopes, strictly increasing. */
  predicate ValidScopes(m: Manifest, scopes: seq<string>)
  {
    1 <= |scopes| <= MAXIMUM_SCOPES && Increasing(scopes) && forall i :: 0 <= i < |scopes| ==> AllowedScope(m, scopes[i])
  }

  ghost function Trimmed(values: seq<string>): set<string>
  {
    set i | 0 <= i < |values| :: Trim(values[i])
  }

  lemma TrimPermission(s: string)
    requires ValidPermission(s)
    ensures Trim(s) == s
  {
  }

  /**
   `CanonicalAudienceScopes`. It accepts exactly the lists of 1 to 500 values whose trimmed forms are all
   allowed, and returns the sorted duplicate-free set of those.
   */
  method CanonicalAudienceScopes(m: Manifest, values: seq<string>) returns (result: Option<seq<string>>)
    ensures result.Some? <==> 1 <= |values| <= MAXIMUM_SCOPES && forall s :: s in Trimmed(values) ==> AllowedScope(m, s)
    ensures result.Some? ==> ValidScopes(m, result.value) && Elements(result.value) == Trimmed(values)
  {
    if |values| < 1 || |values| > MAXIMUM_SCOPES { return None; }
    var seen: set<string> := {};
    for n := 0 to |values|
      invariant seen == set i | 0 <= i < n :: Trim(values[i])
      invariant forall s :: s in seen ==> AllowedScope(m, s)
      invariant |seen| <= n && (n > 0 ==> seen != {})
    {
      var value := Trim(values[n]);
      if !AllowedScope(m, value) {
        assert value in Trimmed(values);
        return None;
      }
      seen := seen + {value};
    }
    var sorted := SortedKeys(seen);
    forall i | 0 <= i < |sorted|
      ensures AllowedScope(m, sorted[i])
    {
      assert sorted[i] in Elements(sorted);
    }
    assert sorted != [] by {
      assert Trim(values[0]) in Elements(sorted);
    }
    result := Some(sorted);
  }

  /** `ValidCanonicalAudienceScopes`: canonicalization returns its argument exactly on valid scopes. */
  lemma CanonicalIsFixed(m: Manifest, values: seq<string>, result: seq<string>)
    requires 1 <= |values| <= MAXIMUM_SCOPES && ValidScopes(m, result) && Elements(result) == Trimmed(values)
    ensures result == values <==> ValidScopes(m, values)
  {
    if ValidScopes(m, values) {
      forall i | 0 <= i < |values|
        ensures Trim(values[i]) == values[i]
      {
        TrimPermission(values[i]);
      }
      assert Elements(values) == Trimmed(values) by {
        forall s
          ensures s in Elements(values) <==> s in Trimmed(values)
        {
          if s in Elements(values) {
            var i :| 0 <= i < |values| && values[i] == s;
            assert Trim(values[i]) in Trimmed(values);
          }
          if s in Trimmed(values) {
            var i :| 0 <= i < |values| && Trim(values[i]) == s;
          }
        }
      }
      IncreasingUnique(result, values);
    }
  }

  /** The union of two valid ceilings, when it is accepted, is the sorted union of both. */
  lemma TrimmedUnion(m: Manifest, a: seq<string>, b: seq<string>)
    requires (forall i :: 0 <= i < |a| ==> AllowedScope(m, a[i])) && (forall i :: 0 <= i < |b| ==> AllowedScope(m, b[i]))
    ensures Trimmed(a + b) == Elements(a) + Elements(b)
  {
    forall s
      ensures s in Trimmed(a + b) <==> s in Elements(a) + Elements(b)
    {
      if s in Trimmed(a + b) {
        var i :| 0 <= i < |a + b| && Trim((a + b)[i]) == s;
        TrimPermission((a + b)[i]);
      }
      if s in Elements(a) {
        var i :| 0 <= i < |a| && a[i] == s;
        TrimPermission(s);
        assert (a + b)[i] == s && Trim((a + b)[i]) in Trimmed(a + b);
      }
      if s in Elements(b) {
        var i :| 0 <= i < |b| && b[i] == s;
        TrimPermission(s);
        assert (a + b)[|a| + i] == s && Trim((a + b)[|a| + i]) in Trimmed(a + b);
      }
    }
  }
}
