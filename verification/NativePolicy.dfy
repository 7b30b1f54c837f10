/**
 Policies of registered native clients. `Normalize` gives a policy one canonical form, whatever order its
 roles and scopes were listed in; the registry derives from it who trusts whose SAML users.
 */
module NativePolicy {
  import opened Prelude
  import opened DirectoryState
  import opened DirectoryTransactions
  import opened ClientAttributes

  const MAXIMUM_CLIENTS := 128

  datatype Role = Role(name: string, scopes: seq<string>)

  datatype Client = Client(
    id: string,
    tenant: string,
    identityTenant: string,
    audience: string,
    ttl: int,
    name: string,
    path: string,
    base: Role,
    additional: seq<Role>,
    required: seq<string>
  )

  // ----- Validity -----

  predicate Identifier(s: string)
  {
    1 <= |s| <= 63 && s[0] != '-' && s[|s| - 1] != '-' && forall i :: 0 <= i < |s| ==> LabelChar(s[i])
  }

  predicate ScopeChar(c: char)
  {
    'a' <= c <= 'z' || 'A' <= c <= 'Z' || '0' <= c <= '9' || c in {'.', '_', ':', '/', '-'}
  }

  predicate ScopeName(s: string)
  {
    1 <= |s| <= 128 && forall i :: 0 <= i < |s| ==> ScopeChar(s[i])
  }

  predicate Unrepeated(s: seq<string>)
  {
    forall i, j :: 0 <= i < j < |s| ==> s[i] != s[j]
  }

  predicate ValidScopeList(s: seq<string>)
  {
    1 <= |s| <= 128 && Unrepeated(s) && forall i :: 0 <= i < |s| ==> ScopeName(s[i])
  }

  function Roles(c: Client): seq<Role>
  {
    [c.base] + c.additional
  }

  predicate ValidRole(r: Role)
  {
    RoleName(r.name) && ValidScopeList(r.scopes)
  }

  function AllScopes(rs: seq<Role>): set<string>
  {
    set r, s | r in rs && s in r.scopes :: s
  }

  function Ceiling(c: Client): set<string>
  {
    AllScopes(Roles(c))
  }

  predicate UniqueRoles(rs: seq<Role>)
  {
    forall i, j :: 0 <= i < j < |rs| ==> rs[i].name != rs[j].name
  }

  predicate ValidClient(c: Client)
  {
    && Identifier(c.id) && Identifier(c.tenant) && Identifier(c.identityTenant) && Identifier(c.audience)
    && 60 <= c.ttl <= 3600 && ValidName(c.name) && ValidPath(c.path) && |c.additional| <= 31 && ValidScopeList(c.required)
    && (forall i :: 0 <= i < |Roles(c)| ==> ValidRole(Roles(c)[i])) && UniqueRoles(Roles(c))
    && |Ceiling(c)| <= 500 && (forall i :: 0 <= i < |c.required| ==> c.required[i] in Ceiling(c))
  }

  // ----- One canonical form -----

  predicate NormalRole(r: Role)
  {
    Increasing(r.scopes)
  }

  predicate Normal(c: Client)
  {
    && NormalRole(c.base) && (forall i :: 0 <= i < |c.additional| ==> NormalRole(c.additional[i]))
    && (forall i, j :: 0 <= i < j < |c.additional| ==> Less(c.additional[i].name, c.additional[j].name))
    && Increasing(c.required)
  }

  /** Same role, scopes in any order. */
  predicate SameRole(a: Role, b: Role)
  {
    Shape(a) == Shape(b)
  }

  function Shape(r: Role): (string, set<string>)
  {
    (r.name, Elements(r.scopes))
  }

  function Shapes(rs: seq<Role>): set<(string, set<string>)>
  {
    set r | r in rs :: Shape(r)
  }

  predicate Within(rs: seq<Role>, others: seq<Role>)
  {
    Shapes(rs) <= Shapes(others)
  }

  /** The role of the other list with the same name and scopes. */
  lemma Find(rs: seq<Role>, others: seq<Role>, i: nat) returns (j: nat)
    requires Within(rs, others) && i < |rs|
    ensures j < |others| && SameRole(rs[i], others[j])
  {
    assert rs[i] in rs && Shape(rs[i]) in Shapes(rs);
    var r :| r in others && Shape(r) == Shape(rs[i]);
    j :| 0 <= j < |others| && others[j] == r;
  }

  lemma FoundWithin(rs: seq<Role>, others: seq<Role>)
    requires forall i :: 0 <= i < |rs| ==> Shape(rs[i]) in Shapes(others)
    ensures Within(rs, others)
  {
    forall s | s in Shapes(rs)
      ensures s in Shapes(others)
    {
      var r :| r in rs && Shape(r) == s;
      var i :| 0 <= i < |rs| && rs[i] == r;
    }
  }

  /** Same policy, roles and scopes in any order. */
  ghost predicate SamePolicy(a: Client, b: Client)
  {
    && a.id == b.id && a.tenant == b.tenant && a.identityTenant == b.identityTenant
    && a.audience == b.audience && a.ttl == b.ttl && a.name == b.name && a.path == b.path
    && SameRole(a.base, b.base) && Within(a.additional, b.additional) && Within(b.additional, a.additional)
    && Elements(a.required) == Elements(b.required)
  }

  lemma NormalRoleUnique(a: Role, b: Role)
    requires NormalRole(a) && NormalRole(b) && SameRole(a, b)
    ensures a == b
  {
    IncreasingUnique(a.scopes, b.scopes);
  }

  ghost predicate SortedRoles(rs: seq<Role>)
  {
    && (forall i :: 0 <= i < |rs| ==> NormalRole(rs[i]))
    && (forall i, j :: 0 <= i < j < |rs| ==> Less(rs[i].name, rs[j].name))
  }

  function Names(rs: seq<Role>): seq<string>
  {
    seq(|rs|, i requires 0 <= i < |rs| => rs[i].name)
  }

  lemma WithinNames(rs: seq<Role>, others: seq<Role>)
    requires Within(rs, others)
    ensures Elements(Names(rs)) <= Elements(Names(others))
  {
    forall n | n in Elements(Names(rs))
      ensures n in Elements(Names(others))
    {
      var i :| 0 <= i < |Names(rs)| && Names(rs)[i] == n;
      var j := Find(rs, others, i);
      assert Names(others)[j] == n;
    }
  }

  lemma SortedNames(rs: seq<Role>)
    requires SortedRoles(rs)
    ensures Increasing(Names(rs))
  {
  }

  lemma SameNameSamePlace(rs: seq<Role>, i: nat, j: nat)
    requires SortedRoles(rs) && i < |rs| && j < |rs| && rs[i].name == rs[j].name
    ensures i == j
  {
    LessIrreflexive(rs[i].name);
  }

  lemma SortedRolesUnique(a: seq<Role>, b: seq<Role>)
    requires SortedRoles(a) && SortedRoles(b) && Within(a, b) && Within(b, a)
    ensures a == b
  {
    WithinNames(a, b);
    WithinNames(b, a);
    SortedNames(a);
    SortedNames(b);
    IncreasingUnique(Names(a), Names(b));
    assert |Names(a)| == |a| && |Names(b)| == |b|;
    forall i | 0 <= i < |a|
      ensures a[i] == b[i]
    {
      SamePlace(a, b, i);
    }
  }

  lemma SamePlace(a: seq<Role>, b: seq<Role>, i: nat)
    requires SortedRoles(a) && SortedRoles(b) && Within(a, b) && Names(a) == Names(b) && i < |a| == |b|
    ensures a[i] == b[i]
  {
    var j := Find(a, b, i);
    assert Names(a)[i] == Names(b)[i];
    SameNameSamePlace(b, i, j);
    NormalRoleUnique(a[i], b[i]);
  }

  /** Two normal forms of one policy are equal, so a fingerprint of the normal form does not depend on listing order. */
  lemma NormalUnique(a: Client, b: Client)
    requires Normal(a) && Normal(b) && SamePolicy(a, b)
    ensures a == b
  {
    NormalRoleUnique(a.base, b.base);
    SortedRolesUnique(a.additional, b.additional);
    IncreasingUnique(a.required, b.required);
  }

  method ValidScopes(values: seq<string>) returns (ok: bool)
    ensures ok <==> ValidScopeList(values)
  {
    if |values| == 0 || |values| > 128 { return false; }
    var seen: set<string> := {};
    for n := 0 to |values|
      invariant seen == Elements(values[..n]) && ValidSoFar(values, n)
    {
      TakeOne(values, n);
      if !ScopeName(values[n]) || values[n] in seen {
        RepeatedAt(values, n);
        return false;
      }
      seen := seen + {values[n]};
    }
    return true;
  }

  ghost predicate ValidSoFar(values: seq<string>, n: nat)
    requires n <= |values|
  {
    (forall i, j :: 0 <= i < j < n ==> values[i] != values[j]) && forall i :: 0 <= i < n ==> ScopeName(values[i])
  }

  lemma TakeOne(values: seq<string>, n: nat)
    requires n < |values|
    ensures Elements(values[..n + 1]) == Elements(values[..n]) + {values[n]}
    ensures values[n] in Elements(values[..n]) <==> exists i :: 0 <= i < n && values[i] == values[n]
  {
    assert values[..n + 1] == values[..n] + [values[n]];
  }

  lemma RepeatedAt(values: seq<string>, n: nat)
    requires n < |values| && (!ScopeName(values[n]) || exists i :: 0 <= i < n && values[i] == values[n])
    ensures !ValidScopeList(values)
  {
  }

  /** A detached copy with its scopes sorted. */
  method NormalizeRole(r: Role) returns (n: Role)
    ensures NormalRole(n) && SameRole(n, r)
  {
    var scopes := SortedKeys(Elements(r.scopes));
    n := Role(r.name, scopes);
  }

  ghost predicate RolesSoFar(rs: seq<Role>, n: nat)
    requires n <= |rs|
  {
    (forall i :: 0 <= i < n ==> ValidRole(rs[i])) && forall i, j :: 0 <= i < j < n ==> rs[i].name != rs[j].name
  }

  ghost predicate RoleByRole(roles: seq<Role>, rs: seq<Role>)
  {
    |roles| == |rs| && forall i :: 0 <= i < |rs| ==> NormalRole(roles[i]) && SameRole(roles[i], rs[i])
  }

  lemma RoleByRoleMore(roles: seq<Role>, rs: seq<Role>, role: Role, r: Role)
    requires RoleByRole(roles, rs) && NormalRole(role) && SameRole(role, r)
    ensures RoleByRole(roles + [role], rs + [r])
  {
  }

  lemma AllScopesMore(rs: seq<Role>, r: Role)
    ensures AllScopes(rs + [r]) == AllScopes(rs) + Elements(r.scopes)
    ensures Elements(Names(rs + [r])) == Elements(Names(rs)) + {r.name}
  {
    forall s
      ensures s in AllScopes(rs + [r]) <==> s in AllScopes(rs) || s in r.scopes
    {
      if s in AllScopes(rs) {
        var x :| x in rs && s in x.scopes;
        assert x in rs + [r];
      }
      if s in r.scopes {
        assert r in rs + [r];
      }
    }
    assert Names(rs + [r]) == Names(rs) + [r.name];
  }

  lemma NameSeen(rs: seq<Role>, n: nat)
    requires n < |rs| && rs[n].name in Elements(Names(rs[..n]))
    ensures !UniqueRoles(rs)
  {
    var i :| 0 <= i < n && Names(rs[..n])[i] == rs[n].name;
    assert rs[i].name == rs[n].name;
  }

  lemma NameUnseen(rs: seq<Role>, n: nat)
    requires n < |rs| && RolesSoFar(rs, n) && ValidRole(rs[n]) && rs[n].name !in Elements(Names(rs[..n]))
    ensures RolesSoFar(rs, n + 1)
  {
    forall i | 0 <= i < n
      ensures rs[i].name != rs[n].name
    {
      assert Names(rs[..n])[i] == rs[i].name;
    }
  }

  /** The role loop: names seen so far, sorted copies of the roles, and the ceiling of all their scopes. */
  method NormalizeRoles(rs: seq<Role>) returns (ok: bool, roles: seq<Role>, ceiling: set<string>)
    ensures ok <==> (forall i :: 0 <= i < |rs| ==> ValidRole(rs[i])) && UniqueRoles(rs)
    ensures ok ==> RoleByRole(roles, rs) && ceiling == AllScopes(rs)
  {
    roles, ceiling := [], {};
    var seen: set<string> := {};
    for n := 0 to |rs|
      invariant RolesSoFar(rs, n) && seen == Elements(Names(rs[..n]))
      invariant RoleByRole(roles, rs[..n]) && ceiling == AllScopes(rs[..n])
    {
      var role := rs[n];
      var valid := ValidScopes(role.scopes);
      if !RoleName(role.name) || !valid { return false, [], {}; }
      if role.name in seen {
        NameSeen(rs, n);
        return false, [], {};
      }
      NameUnseen(rs, n);
      assert rs[..n + 1] == rs[..n] + [role];
      AllScopesMore(rs[..n], role);
      var copy := NormalizeRole(role);
      RoleByRoleMore(roles, rs[..n], copy, role);
      seen := seen + {role.name};
      roles := roles + [copy];
      ceiling := ceiling + Elements(role.scopes);
    }
    assert rs[..|rs|] == rs;
    ok := true;
  }

  /** The sort of the additional roles by name. */
  method SortRoles(rs: seq<Role>) returns (out: seq<Role>)
    requires UniqueRoles(rs) && forall i :: 0 <= i < |rs| ==> NormalRole(rs[i])
    ensures SortedRoles(out) && Within(out, rs) && Within(rs, out)
  {
    var names := SortedKeys(Elements(Names(rs)));
    out := [];
    for n := 0 to |names|
      invariant |out| == n && SortedRoles(out)
      invariant forall k :: 0 <= k < n ==> out[k].name == names[k] && Shape(out[k]) in Shapes(rs)
    {
      assert names[n] in Elements(Names(rs));
      var i :| 0 <= i < |rs| && rs[i].name == names[n];
      assert Shape(rs[i]) in Shapes(rs);
      out := out + [rs[i]];
    }
    FoundWithin(out, rs);
    forall i | 0 <= i < |rs|
      ensures Shape(rs[i]) in Shapes(out)
    {
      assert Names(rs)[i] in Elements(Names(rs)) && Names(rs)[i] in Elements(names);
      var k :| 0 <= k < |names| && names[k] == rs[i].name;
      var j := Find(out, rs, k);
      assert i == j;
      assert out[k] in out;
    }
    FoundWithin(rs, out);
  }

  /** The loop over the required scopes. */
  method Covered(required: seq<string>, ceiling: set<string>) returns (ok: bool)
    ensures ok <==> forall i :: 0 <= i < |required| ==> required[i] in ceiling
  {
    for n := 0 to |required|
      invariant forall i :: 0 <= i < n ==> required[i] in ceiling
    {
      if required[n] !in ceiling { return false; }
    }
    return true;
  }

  lemma RoleByRoleTail(roles: seq<Role>, rs: seq<Role>)
    requires RoleByRole(roles, rs) && rs != [] && UniqueRoles(rs)
    ensures UniqueRoles(roles[1..]) && (forall i :: 0 <= i < |roles[1..]| ==> NormalRole(roles[1..][i]))
    ensures Within(roles[1..], rs[1..]) && Within(rs[1..], roles[1..])
  {
    var tail, was := roles[1..], rs[1..];
    forall i | 0 <= i < |tail|
      ensures NormalRole(tail[i]) && Shape(tail[i]) in Shapes(was) && Shape(was[i]) in Shapes(tail) && tail[i].name == was[i].name
    {
      assert SameRole(roles[i + 1], rs[i + 1]);
      assert tail[i] in tail && was[i] in was;
    }
    FoundWithin(tail, was);
    FoundWithin(was, tail);
  }

  lemma WithinTransitive(a: seq<Role>, b: seq<Role>, c: seq<Role>)
    requires Within(a, b) && Within(b, c)
    ensures Within(a, c)
  {
  }

  /** `Normalize`: accepts exactly the valid policies and returns their normal form. */
  method Normalize(c: Client) returns (r: Option<Client>)
    ensures r.Some? <==> ValidClient(c)
    ensures r.Some? ==> Normal(r.value) && SamePolicy(r.value, c)
  {
    var scopesValid := ValidScopes(c.required);
    var pathValid := CheckPath(c.path);
    var nameValid := CheckDisplayName(c.name);
    if !Identifier(c.id) || !Identifier(c.tenant) || !Identifier(c.identityTenant) || !Identifier(c.audience) ||
       !pathValid || !nameValid || c.ttl < 60 || c.ttl > 3600 || |c.additional| > 31 || !scopesValid
    { return None; }
    var ok, roles, ceiling := NormalizeRoles(Roles(c));
    if !ok || |ceiling| > 500 { return None; }
    var covered := Covered(c.required, ceiling);
    if !covered { return None; }
    RoleByRoleTail(roles, Roles(c));
    assert Roles(c)[1..] == c.additional;
    var additional := SortRoles(roles[1..]);
    WithinTransitive(additional, roles[1..], c.additional);
    WithinTransitive(c.additional, roles[1..], additional);
    var required := SortedKeys(Elements(c.required));
    r := Some(c.(base := roles[0], additional := additional, required := required));
  }

  // ----- Scopes of the roles a user holds -----

  datatype Access = Granted(scopes: seq<string>) | AccessDenied

  function HeldScopes(c: Client, held: set<string>): set<string>
  {
    set r, s | r in Roles(c) && r.name in held && s in r.scopes :: s
  }

  /** `ScopesForRoles` of a normalized client: exactly the union of the held roles' scopes, if the base role and the required scopes are there. */
  method ScopesForRoles(c: Client, held: set<string>) returns (r: Access)
    ensures r.Granted? <==> c.base.name in held && forall i :: 0 <= i < |c.required| ==> c.required[i] in HeldScopes(c, held)
    ensures r.Granted? ==> Increasing(r.scopes) && Elements(r.scopes) == HeldScopes(c, held)
  {
    if c.base.name !in held { return AccessDenied; }
    var all := Roles(c);
    var union: set<string> := {};
    for n := 0 to |all|
      invariant union == set r, s | r in all[..n] && r.name in held && s in r.scopes :: s
    {
      assert all[..n + 1] == all[..n] + [all[n]];
      if all[n].name in held {
        union := union + Elements(all[n].scopes);
      }
    }
    assert all[..|all|] == all;
    var covered := Covered(c.required, union);
    if !covered { return AccessDenied; }
    var sorted := SortedKeys(union);
    r := Granted(sorted);
  }

  /** More roles never take a scope away, and no roles give more than the ceiling. */
  lemma ScopesMonotone(c: Client, few: set<string>, many: set<string>)
    requires few <= many
    ensures HeldScopes(c, few) <= HeldScopes(c, many) <= Ceiling(c)
  {
  }

  /** A policy's normal form grants what the policy grants. */
  lemma SamePolicySameScopes(a: Client, b: Client, held: set<string>)
    requires SamePolicy(a, b)
    ensures HeldScopes(a, held) == HeldScopes(b, held)
  {
    HeldWithin(a, b, held);
    HeldWithin(b, a, held);
  }

  lemma HeldWithin(a: Client, b: Client, held: set<string>)
    requires SameRole(a.base, b.base) && Within(a.additional, b.additional)
    ensures HeldScopes(a, held) <= HeldScopes(b, held)
  {
    forall s | s in HeldScopes(a, held)
      ensures s in HeldScopes(b, held)
    {
      var r :| r in Roles(a) && r.name in held && s in r.scopes;
      var other := Counterpart(a, b, r);
      assert s in Elements(r.scopes) && s in Elements(other.scopes);
    }
  }

  lemma Counterpart(a: Client, b: Client, r: Role) returns (other: Role)
    requires SameRole(a.base, b.base) && Within(a.additional, b.additional) && r in Roles(a)
    ensures other in Roles(b) && SameRole(r, other)
  {
    var i :| 0 <= i < |Roles(a)| && Roles(a)[i] == r;
    if i == 0 {
      other := b.base;
      assert Roles(b)[0] == other;
    } else {
      assert r == a.additional[i - 1];
      var j := Find(a.additional, b.additional, i - 1);
      other := b.additional[j];
      assert Roles(b)[j + 1] == other;
    }
  }

  // ----- The registry -----

  datatype Registry = Registry(clients: map<string, Client>, trust: ForeignTrust, scopes: map<(string, string), seq<string>>)

  /** Some of the roles let SAML users of one tenant act in another. */
  predicate Trusts(c: Client, roles: seq<Role>, source: string, target: string, role: string)
  {
    c.identityTenant == source && c.tenant == target && source != target && Named(roles, role)
  }

  predicate Named(roles: seq<Role>, role: string)
  {
    exists i :: 0 <= i < |roles| && roles[i].name == role
  }

  /** No role of the client has other scopes than the registry already knows for its tenant. */
  predicate Compatible(reg: Registry, c: Client, roles: seq<Role>)
  {
    forall i :: 0 <= i < |roles| && (c.tenant, roles[i].name) in reg.scopes ==> reg.scopes[(c.tenant, roles[i].name)] == roles[i].scopes
  }

  /** Trust entries are never empty. */
  predicate TrustFilled(trust: ForeignTrust)
  {
    forall k :: k in trust ==> trust[k] != {}
  }

  function AddTrust(trust: ForeignTrust, source: string, target: string, role: string): ForeignTrust
  {
    var had := if (source, target) in trust then trust[(source, target)] else {};
    trust[(source, target) := had + {role}]
  }

  ghost predicate TrustAdded(trust: ForeignTrust, c: Client, after: ForeignTrust)
  {
    && TrustFilled(after)
    && forall s, t, role :: AllowsForeignRole(after, s, t, role) <==> AllowsForeignRole(trust, s, t, role) || Trusts(c, Roles(c), s, t, role)
  }

  ghost predicate ScopesAdded(scopes: map<(string, string), seq<string>>, c: Client, after: map<(string, string), seq<string>>)
  {
    && (forall k :: k in scopes ==> k in after && after[k] == scopes[k])
    && (forall i :: 0 <= i < |Roles(c)| ==> (c.tenant, Roles(c)[i].name) in after && after[(c.tenant, Roles(c)[i].name)] == Roles(c)[i].scopes)
    && (forall k :: k in after ==> k in scopes || (k.0 == c.tenant && Named(Roles(c), k.1)))
  }

  /** One client's roles; `None` when a role clashes with what is known. */
  method AddRoles(reg: Registry, c: Client) returns (r: Option<Registry>)
    requires UniqueRoles(Roles(c)) && TrustFilled(reg.trust)
    ensures r.Some? <==> Compatible(reg, c, Roles(c))
    ensures r.Some? ==> r.value.clients == reg.clients && TrustAdded(reg.trust, c, r.value.trust) && ScopesAdded(reg.scopes, c, r.value.scopes)
  {
    var roles := Roles(c);
    var trust, scopes := reg.trust, reg.scopes;
    for n := 0 to |roles|
      invariant TrustFilled(trust)
      invariant forall s, t, role :: AllowsForeignRole(trust, s, t, role) <==>
                                     AllowsForeignRole(reg.trust, s, t, role) || Trusts(c, roles[..n], s, t, role)
      invariant forall k :: k in reg.scopes ==> k in scopes && scopes[k] == reg.scopes[k]
      invariant forall i :: 0 <= i < n ==> (c.tenant, roles[i].name) in scopes && scopes[(c.tenant, roles[i].name)] == roles[i].scopes
      invariant forall k :: k in scopes ==> k in reg.scopes || (k.0 == c.tenant && Named(roles[..n], k.1))
      invariant forall i :: n <= i < |roles| && (c.tenant, roles[i].name) in scopes ==> (c.tenant, roles[i].name) in reg.scopes
    {
      var k := (c.tenant, roles[n].name);
      if k in scopes && scopes[k] != roles[n].scopes { return None; }
      scopes := scopes[k := roles[n].scopes];
      TrustsMore(c, roles, n);
      forall name
        ensures Named(roles[..n + 1], name) <==> Named(roles[..n], name) || roles[n].name == name
      {
        NamedMore(roles, n, name);
      }
      if c.identityTenant != c.tenant {
        AddTrustAllows(trust, c.identityTenant, c.tenant, roles[n].name);
        trust := AddTrust(trust, c.identityTenant, c.tenant, roles[n].name);
      }
    }
    assert roles[..|roles|] == roles;
    r := Some(Registry(reg.clients, trust, scopes));
  }

  lemma TrustsMore(c: Client, roles: seq<Role>, n: nat)
    requires n < |roles|
    ensures forall s, t, role :: Trusts(c, roles[..n + 1], s, t, role) <==>
              Trusts(c, roles[..n], s, t, role) ||
              (c.identityTenant == s && c.tenant == t && s != t && roles[n].name == role)
  {
    forall role
      ensures Named(roles[..n + 1], role) <==> Named(roles[..n], role) || roles[n].name == role
    {
      NamedMore(roles, n, role);
    }
  }

  lemma NamedMore(roles: seq<Role>, n: nat, role: string)
    requires n < |roles|
    ensures Named(roles[..n + 1], role) <==> Named(roles[..n], role) || roles[n].name == role
  {
    var few, more := roles[..n], roles[..n + 1];
    assert more[n] == roles[n];
    if Named(few, role) {
      var i :| 0 <= i < |few| && few[i].name == role;
      assert more[i].name == role;
    }
    if Named(more, role) {
      var i :| 0 <= i < |more| && more[i].name == role;
      assert i == n || few[i].name == role;
    }
  }

  lemma AddTrustAllows(trust: ForeignTrust, source: string, target: string, name: string)
    requires TrustFilled(trust)
    ensures TrustFilled(AddTrust(trust, source, target, name))
    ensures forall s, t, role :: AllowsForeignRole(AddTrust(trust, source, target, name), s, t, role) <==>
              AllowsForeignRole(trust, s, t, role) || (s == source && t == target && role == name)
  {
  }

  predicate ClashAt(cs: seq<Client>, i: nat, j: nat, r: Role, q: Role)
  {
    && i < |cs| && j < |cs| && r in Roles(cs[i]) && q in Roles(cs[j]) && cs[i].tenant == cs[j].tenant
    && r.name == q.name && Elements(r.scopes) != Elements(q.scopes)
  }

  /** Two clients of one tenant give one role different scopes. */
  ghost predicate Clash(cs: seq<Client>)
  {
    exists i, j, r, q :: ClashAt(cs, i, j, r, q)
  }

  ghost predicate Trusted(cs: seq<Client>, source: string, target: string, role: string)
  {
    exists i :: 0 <= i < |cs| && Trusts(cs[i], Roles(cs[i]), source, target, role)
  }

  lemma TrustedMore(cs: seq<Client>, n: nat, source: string, target: string, role: string)
    requires n < |cs|
    ensures Trusted(cs[..n + 1], source, target, role) <==>
              Trusted(cs[..n], source, target, role) || Trusts(cs[n], Roles(cs[n]), source, target, role)
  {
    var few, more := cs[..n], cs[..n + 1];
    assert more[n] == cs[n];
    if Trusted(few, source, target, role) {
      var i :| 0 <= i < |few| && Trusts(few[i], Roles(few[i]), source, target, role);
      assert more[i] == few[i];
    }
    if Trusted(more, source, target, role) {
      var i :| 0 <= i < |more| && Trusts(more[i], Roles(more[i]), source, target, role);
      assert i == n || few[i] == more[i];
    }
  }

  lemma SamePolicyTrusts(a: Client, b: Client, source: string, target: string, role: string)
    requires SamePolicy(a, b)
    ensures Trusts(a, Roles(a), source, target, role) <==> Trusts(b, Roles(b), source, target, role)
  {
    if Trusts(a, Roles(a), source, target, role) {
      NamedCounterpart(a, b, role);
    }
    if Trusts(b, Roles(b), source, target, role) {
      NamedCounterpart(b, a, role);
    }
  }

  lemma NamedCounterpart(a: Client, b: Client, role: string)
    requires SameRole(a.base, b.base) && Within(a.additional, b.additional) && Named(Roles(a), role)
    ensures Named(Roles(b), role)
  {
    var i :| 0 <= i < |Roles(a)| && Roles(a)[i].name == role;
    var other := Counterpart(a, b, Roles(a)[i]);
    var j :| 0 <= j < |Roles(b)| && Roles(b)[j] == other;
  }

  lemma NormalUniqueRoles(a: Client, c: Client)
    requires Normal(a) && SamePolicy(a, c) && UniqueRoles(Roles(c))
    ensures UniqueRoles(Roles(a))
  {
    forall i, j | 0 <= i < j < |Roles(a)|
      ensures Roles(a)[i].name != Roles(a)[j].name
    {
      if i == 0 {
        BaseIsOther(a, c, j - 1);
      } else {
        OthersDiffer(a.additional, i - 1, j - 1);
      }
    }
  }

  lemma OthersDiffer(rs: seq<Role>, i: nat, j: nat)
    requires i < j < |rs| && (forall k, l :: 0 <= k < l < |rs| ==> Less(rs[k].name, rs[l].name))
    ensures rs[i].name != rs[j].name
  {
    LessIrreflexive(rs[i].name);
  }

  lemma BaseIsOther(a: Client, c: Client, j: nat)
    requires SameRole(a.base, c.base) && Within(a.additional, c.additional) && UniqueRoles(Roles(c)) && j < |a.additional|
    ensures a.base.name != a.additional[j].name
  {
    var k := Find(a.additional, c.additional, j);
    assert Roles(c)[k + 1] == c.additional[k] && Roles(c)[0] == c.base;
  }

  // ----- The registry of a list of clients -----

  ghost predicate UniqueIds(cs: seq<Client>)
  {
    forall i, j :: 0 <= i < j < |cs| ==> cs[i].id != cs[j].id
  }

  ghost predicate ClientsOf(clients: map<string, Client>, cs: seq<Client>)
  {
    && UniqueIds(cs)
    && (forall i :: 0 <= i < |cs| ==> cs[i].id in clients && Normal(clients[cs[i].id]) && SamePolicy(clients[cs[i].id], cs[i]))
    && (forall id :: id in clients ==> exists i :: 0 <= i < |cs| && cs[i].id == id)
  }

  ghost predicate TrustOf(trust: ForeignTrust, cs: seq<Client>)
  {
    TrustFilled(trust) && forall s, t, role :: AllowsForeignRole(trust, s, t, role) <==> Trusted(cs, s, t, role)
  }

  /** What the registry knows about roles comes from the clients. */
  ghost predicate ScopesOf(scopes: map<(string, string), seq<string>>, cs: seq<Client>)
  {
    RolesKnown(scopes, cs) && KeysFrom(scopes, cs)
  }

  ghost predicate RolesKnown(scopes: map<(string, string), seq<string>>, cs: seq<Client>)
  {
    forall i, r :: 0 <= i < |cs| && r in Roles(cs[i]) ==>
      (cs[i].tenant, r.name) in scopes && Elements(scopes[(cs[i].tenant, r.name)]) == Elements(r.scopes)
  }

  ghost predicate KeysFrom(scopes: map<(string, string), seq<string>>, cs: seq<Client>)
  {
    forall k :: k in scopes ==> Increasing(scopes[k]) && Mentioned(cs, k)
  }

  ghost predicate Mentioned(cs: seq<Client>, k: (string, string))
  {
    exists i :: 0 <= i < |cs| && cs[i].tenant == k.0 && Named(Roles(cs[i]), k.1)
  }

  lemma ClientsMore(clients: map<string, Client>, cs: seq<Client>, input: Client, client: Client)
    requires ClientsOf(clients, cs) && Normal(client) && SamePolicy(client, input) && input.id !in clients
    ensures ClientsOf(clients[client.id := client], cs + [input])
  {
    var more, after := cs + [input], clients[client.id := client];
    assert forall i :: 0 <= i < |cs| ==> more[i] == cs[i] && cs[i].id != input.id;
    forall id | id in after
      ensures exists i :: 0 <= i < |more| && more[i].id == id
    {
      if id == input.id {
        assert more[|cs|].id == id;
      } else {
        var i :| 0 <= i < |cs| && cs[i].id == id;
        assert more[i].id == id;
      }
    }
  }

  lemma TrustMore(trust: ForeignTrust, cs: seq<Client>, input: Client, client: Client, after: ForeignTrust)
    requires TrustOf(trust, cs) && SamePolicy(client, input) && TrustAdded(trust, client, after)
    ensures TrustOf(after, cs + [input])
  {
    var more := cs + [input];
    assert more[..|cs|] == cs && more[..|cs| + 1] == more;
    forall s, t, role
      ensures AllowsForeignRole(after, s, t, role) <==> Trusted(more, s, t, role)
    {
      SamePolicyTrusts(client, input, s, t, role);
      TrustedMore(more, |cs|, s, t, role);
    }
  }

  lemma MentionedMore(cs: seq<Client>, input: Client, k: (string, string))
    requires Mentioned(cs, k) || (k.0 == input.tenant && Named(Roles(input), k.1))
    ensures Mentioned(cs + [input], k)
  {
    var more := cs + [input];
    if Mentioned(cs, k) {
      var i :| 0 <= i < |cs| && cs[i].tenant == k.0 && Named(Roles(cs[i]), k.1);
      assert more[i] == cs[i];
    } else {
      assert more[|cs|] == input;
    }
  }

  lemma NewScopes(input: Client, client: Client, scopes: map<(string, string), seq<string>>, after: map<(string, string), seq<string>>, r: Role)
    requires SamePolicy(client, input) && ScopesAdded(scopes, client, after) && r in Roles(input)
    ensures (input.tenant, r.name) in after && Elements(after[(input.tenant, r.name)]) == Elements(r.scopes)
  {
    var other := Counterpart(input, client, r);
    var j :| 0 <= j < |Roles(client)| && Roles(client)[j] == other;
  }

  lemma NewKey(input: Client, client: Client, scopes: map<(string, string), seq<string>>, after: map<(string, string), seq<string>>, k: (string, string))
    requires Normal(client) && SamePolicy(client, input) && ScopesAdded(scopes, client, after) && k in after && k !in scopes
    ensures k.0 == input.tenant && Named(Roles(input), k.1) && Increasing(after[k])
  {
    NamedCounterpart(client, input, k.1);
    var j :| 0 <= j < |Roles(client)| && Roles(client)[j].name == k.1;
    assert NormalRole(Roles(client)[j]);
  }

  lemma RolesKnownMore(scopes: map<(string, string), seq<string>>, cs: seq<Client>, input: Client, client: Client,
                       after: map<(string, string), seq<string>>)
    requires RolesKnown(scopes, cs) && SamePolicy(client, input) && ScopesAdded(scopes, client, after)
    ensures RolesKnown(after, cs + [input])
  {
    var more := cs + [input];
    forall i, r | 0 <= i < |more| && r in Roles(more[i])
      ensures (more[i].tenant, r.name) in after && Elements(after[(more[i].tenant, r.name)]) == Elements(r.scopes)
    {
      if i < |cs| {
        assert more[i] == cs[i];
      } else {
        NewScopes(input, client, scopes, after, r);
      }
    }
  }

  lemma KeysFromMore(scopes: map<(string, string), seq<string>>, cs: seq<Client>, input: Client, client: Client,
                     after: map<(string, string), seq<string>>)
    requires KeysFrom(scopes, cs) && Normal(client) && SamePolicy(client, input) && ScopesAdded(scopes, client, after)
    ensures KeysFrom(after, cs + [input])
  {
    forall k | k in after
      ensures Increasing(after[k]) && Mentioned(cs + [input], k)
    {
      if k !in scopes {
        NewKey(input, client, scopes, after, k);
      }
      MentionedMore(cs, input, k);
    }
  }

  lemma ScopesMore(scopes: map<(string, string), seq<string>>, cs: seq<Client>, input: Client, client: Client,
                   after: map<(string, string), seq<string>>)
    requires ScopesOf(scopes, cs) && Normal(client) && SamePolicy(client, input) && ScopesAdded(scopes, client, after)
    ensures ScopesOf(after, cs + [input])
  {
    RolesKnownMore(scopes, cs, input, client, after);
    KeysFromMore(scopes, cs, input, client, after);
  }

  /** The client and role behind a known key. */
  lemma OwnerOf(scopes: map<(string, string), seq<string>>, cs: seq<Client>, tenant: string, name: string) returns (i: nat, r: Role)
    requires ScopesOf(scopes, cs) && (tenant, name) in scopes
    ensures i < |cs| && cs[i].tenant == tenant && r in Roles(cs[i]) && r.name == name
    ensures Elements(scopes[(tenant, name)]) == Elements(r.scopes) && Increasing(scopes[(tenant, name)])
  {
    i :| 0 <= i < |cs| && cs[i].tenant == tenant && Named(Roles(cs[i]), name);
    var j :| 0 <= j < |Roles(cs[i])| && Roles(cs[i])[j].name == name;
    r := Roles(cs[i])[j];
  }

  lemma OneIncompatible(reg: Registry, c: Client) returns (role: Role)
    requires Normal(c) && !Compatible(reg, c, Roles(c))
    ensures role in Roles(c) && NormalRole(role) && (c.tenant, role.name) in reg.scopes && reg.scopes[(c.tenant, role.name)] != role.scopes
  {
    var n :| 0 <= n < |Roles(c)| && (c.tenant, Roles(c)[n].name) in reg.scopes &&
             reg.scopes[(c.tenant, Roles(c)[n].name)] != Roles(c)[n].scopes;
    role := Roles(c)[n];
  }

  lemma ClashFrom(cs: seq<Client>, n: nat, client: Client, role: Role, known: seq<string>, i: nat, r: Role)
    requires n < |cs| && i < |cs| && SamePolicy(client, cs[n]) && role in Roles(client) && NormalRole(role)
    requires cs[i].tenant == client.tenant && r in Roles(cs[i]) && r.name == role.name
    requires Increasing(known) && Elements(known) == Elements(r.scopes) && known != role.scopes
    ensures Clash(cs)
  {
    var q := Counterpart(client, cs[n], role);
    if Elements(known) == Elements(role.scopes) {
      IncreasingUnique(known, role.scopes);
    }
    ClashOf(cs, i, n, r, q);
  }

  lemma ClashOf(cs: seq<Client>, i: nat, j: nat, r: Role, q: Role)
    requires ClashAt(cs, i, j, r, q)
    ensures Clash(cs)
  {
  }

  ghost predicate AllValid(cs: seq<Client>)
  {
    forall i :: 0 <= i < |cs| ==> ValidClient(cs[i])
  }

  /** Why a list of clients is refused. */
  ghost predicate Refused(cs: seq<Client>)
  {
    |cs| > MAXIMUM_CLIENTS || !AllValid(cs) || !UniqueIds(cs) || Clash(cs)
  }

  lemma DuplicateId(clients: map<string, Client>, cs: seq<Client>, n: nat)
    requires n < |cs| && ClientsOf(clients, cs[..n]) && cs[n].id in clients
    ensures !UniqueIds(cs)
  {
    var i :| 0 <= i < |cs[..n]| && cs[..n][i].id == cs[n].id;
    assert cs[i].id == cs[n].id;
  }

  ghost predicate RegistryOf(reg: Registry, cs: seq<Client>)
  {
    ClientsOf(reg.clients, cs) && TrustOf(reg.trust, cs) && ScopesOf(reg.scopes, cs)
  }

  /** What one turn of the registry's loop does with a client it accepts. */
  ghost predicate Extended(reg: Registry, client: Client, after: Registry)
  {
    && after.clients == reg.clients[client.id := client]
    && TrustAdded(reg.trust, client, after.trust) && ScopesAdded(reg.scopes, client, after.scopes)
  }

  lemma RegistryMore(reg: Registry, cs: seq<Client>, input: Client, client: Client, after: Registry, more: seq<Client>)
    requires RegistryOf(reg, cs) && Normal(client) && SamePolicy(client, input) && input.id !in reg.clients
    requires Extended(reg, client, after) && more == cs + [input]
    ensures RegistryOf(after, more)
  {
    ClientsMore(reg.clients, cs, input, client);
    TrustMore(reg.trust, cs, input, client, after.trust);
    ScopesMore(reg.scopes, cs, input, client, after.scopes);
  }

  lemma NoClash(scopes: map<(string, string), seq<string>>, cs: seq<Client>)
    requires ScopesOf(scopes, cs)
    ensures !Clash(cs)
  {
    forall i, j, r, q
      ensures !ClashAt(cs, i, j, r, q)
    {
    }
  }

  lemma Accepted(reg: Registry, cs: seq<Client>)
    requires RegistryOf(reg, cs) && |cs| <= MAXIMUM_CLIENTS && AllValid(cs)
    ensures !Refused(cs)
  {
    NoClash(reg.scopes, cs);
  }

  /** What one turn of the registry's loop does. */
  ghost predicate Outcome(reg: Registry, input: Client, client: Client, r: Option<Registry>)
  {
    && (ValidClient(input) ==> Normal(client) && SamePolicy(client, input))
    && (r.Some? <==> ValidClient(input) && client.id !in reg.clients && Compatible(reg, client, Roles(client)))
    && (r.Some? ==> Extended(reg, client, r.value))
  }

  /** One turn of the registry's loop. */
  method AddClient(reg: Registry, input: Client) returns (r: Option<Registry>, client: Client)
    requires TrustFilled(reg.trust)
    ensures Outcome(reg, input, client, r)
  {
    var normalized := Normalize(input);
    if normalized.None? { return None, input; }
    client := normalized.value;
    if client.id in reg.clients { return None, client; }
    NormalUniqueRoles(client, input);
    var added := AddRoles(reg, client);
    if added.None? { return None, client; }
    r := Some(Registry(reg.clients[client.id := client], added.value.trust, added.value.scopes));
  }

  lemma TurnRefused(reg: Registry, cs: seq<Client>, n: nat, client: Client)
    requires n < |cs| && RegistryOf(reg, cs[..n]) && Normal(client) && SamePolicy(client, cs[n])
    requires client.id in reg.clients || !Compatible(reg, client, Roles(client))
    ensures !UniqueIds(cs) || Clash(cs)
  {
    if client.id in reg.clients {
      DuplicateId(reg.clients, cs, n);
    } else {
      TurnClash(reg, cs, n, client);
    }
  }

  /** A role the registry knows with other scopes is a clash between two of the clients. */
  lemma TurnClash(reg: Registry, cs: seq<Client>, n: nat, client: Client)
    requires n < |cs| && ScopesOf(reg.scopes, cs[..n]) && Normal(client) && SamePolicy(client, cs[n])
    requires !Compatible(reg, client, Roles(client))
    ensures Clash(cs)
  {
    var role := OneIncompatible(reg, client);
    var i, r := OwnerOf(reg.scopes, cs[..n], client.tenant, role.name);
    assert cs[..n][i] == cs[i];
    ClashFrom(cs, n, client, role, reg.scopes[(client.tenant, role.name)], i, r);
  }

  lemma RefusedFor(cs: seq<Client>, n: nat)
    requires n < |cs| && (!ValidClient(cs[n]) || !UniqueIds(cs) || Clash(cs))
    ensures Refused(cs)
  {
  }

  /** The clients so far are valid and the registry is theirs. */
  ghost predicate Built(reg: Registry, cs: seq<Client>)
  {
    AllValid(cs) && RegistryOf(reg, cs)
  }

  lemma BuiltMore(reg: Registry, cs: seq<Client>, input: Client, client: Client, after: Registry, more: seq<Client>)
    requires Built(reg, cs) && ValidClient(input) && Normal(client) && SamePolicy(client, input)
    requires input.id !in reg.clients && Extended(reg, client, after) && more == cs + [input]
    ensures Built(after, more)
  {
    RegistryMore(reg, cs, input, client, after, more);
  }

  lemma NotBuilt(reg: Registry, cs: seq<Client>, n: nat, client: Client)
    requires n < |cs| && RegistryOf(reg, cs[..n])
    requires ValidClient(cs[n]) ==> Normal(client) && SamePolicy(client, cs[n])
    requires !ValidClient(cs[n]) || client.id in reg.clients || !Compatible(reg, client, Roles(client))
    ensures Refused(cs)
  {
    if ValidClient(cs[n]) {
      TurnRefused(reg, cs, n, client);
    }
    RefusedFor(cs, n);
  }

  lemma TurnBuilds(reg: Registry, cs: seq<Client>, n: nat, client: Client, r: Option<Registry>)
    requires n < |cs| && Built(reg, cs[..n]) && Outcome(reg, cs[n], client, r) && r.Some?
    ensures Built(r.value, cs[..n + 1])
  {
    OneMore(cs, n);
    BuiltMore(reg, cs[..n], cs[n], client, r.value, cs[..n + 1]);
  }

  lemma OneMore(cs: seq<Client>, n: nat)
    requires n < |cs|
    ensures cs[..n + 1] == cs[..n] + [cs[n]]
  {
  }

  method Turn(reg: Registry, inputs: seq<Client>, n: nat) returns (r: Option<Registry>)
    requires n < |inputs| && Built(reg, inputs[..n])
    ensures r.Some? ==> Built(r.value, inputs[..n + 1])
    ensures r.None? ==> Refused(inputs)
  {
    var client;
    r, client := AddClient(reg, inputs[n]);
    if r.Some? {
      TurnBuilds(reg, inputs, n, client, r);
    } else {
      NotBuilt(reg, inputs, n, client);
    }
  }

  lemma EmptyRegistry()
    ensures Built(Registry(map[], map[], map[]), [])
  {
  }

  /**
   `NewRegistry` refuses exactly the lists that are too long, hold an invalid policy, repeat an id or give one
   role of a tenant two meanings. The trust it derives holds exactly the roles of clients that authenticate
   in one tenant and act in another.
   */
  method NewRegistry(inputs: seq<Client>) returns (r: Option<Registry>)
    ensures r.None? <==> Refused(inputs)
    ensures r.Some? ==> RegistryOf(r.value, inputs)
  {
    if |inputs| > MAXIMUM_CLIENTS { return None; }
    r := Some(Registry(map[], map[], map[]));
    EmptyRegistry();
    var n := 0;
    while n < |inputs| && r.Some?
      invariant 0 <= n <= |inputs|
      invariant r.Some? ==> Built(r.value, inputs[..n])
      invariant r.None? ==> Refused(inputs)
      decreases |inputs| - n
    {
      r := Turn(r.value, inputs, n);
      n := n + 1;
    }
    if r.Some? {
      assert inputs[..n] == inputs;
      Accepted(r.value, inputs);
    }
  }
}
