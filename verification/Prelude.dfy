/** Shared value types and the byte order Go's `sort.Strings` and Redis' lexicographic ranges use. */
module Prelude {

  datatype Option<+T> = None | Some(value: T)

  /** Lexicographic order of strings, shorter prefixes first. */
  predicate Less(a: string, b: string)
  {
    if b == [] then false
    else if a == [] then true
    else if a[0] != b[0] then a[0] < b[0]
    else Less(a[1..], b[1..])
  }

  predicate AtMost(a: string, b: string)
  {
    a == b || Less(a, b)
  }

  /** `Less` is a strict total order. */
  lemma {:induction false} LessTotal(a: string, b: string)
    ensures Less(a, b) || Less(b, a) || a == b
    ensures !(Less(a, b) && Less(b, a))
    decreases |a|
  {
    if a != [] && b != [] && a[0] == b[0] {
      LessTotal(a[1..], b[1..]);
      assert a == [a[0]] + a[1..] && b == [b[0]] + b[1..];
    }
  }

  lemma {:induction false} LessIrreflexive(a: string)
    ensures !Less(a, a)
  {
    if a != [] {
      LessIrreflexive(a[1..]);
    }
  }

  lemma {:induction false} LessTransitive(a: string, b: string, c: string)
    requires Less(a, b) && Less(b, c)
    ensures Less(a, c)
  {
    if a != [] && a[0] == b[0] && b[0] == c[0] {
      LessTransitive(a[1..], b[1..], c[1..]);
    }
  }

  /** Strictly increasing: sorted and free of duplicates. */
  predicate Increasing(s: seq<string>)
  {
    forall i, j :: 0 <= i < j < |s| ==> Less(s[i], s[j])
  }

  function Elements(s: seq<string>): set<string>
  {
    set x | x in s
  }

  /** One set has one strictly increasing enumeration. */
  lemma {:induction false} IncreasingUnique(a: seq<string>, b: seq<string>)
    requires Increasing(a) && Increasing(b)
    requires Elements(a) == Elements(b)
    ensures a == b
  {
    assert |b| == 0 || b[0] in Elements(a);
    assert |a| == 0 || a[0] in Elements(b);
    if a != [] && b != [] {
      assert a[0] in Elements(b) && b[0] in Elements(a);
      var i :| 0 <= i < |b| && b[i] == a[0];
      var j :| 0 <= j < |a| && a[j] == b[0];
      LessTotal(a[0], b[0]);
      LessIrreflexive(a[0]);
      assert a[0] == b[0];
      assert Elements(a[1..]) == Elements(b[1..]) by {
        forall x
          ensures x in Elements(a[1..]) <==> x in Elements(b[1..])
        {
          LessTotal(a[0], x);
          LessIrreflexive(a[0]);
          if x in Elements(a[1..]) {
            assert Less(a[0], x) && x in Elements(a);
          }
          if x in Elements(b[1..]) {
            assert Less(b[0], x) && x in Elements(b);
          }
          assert x in Elements(a) <==> x == a[0] || x in Elements(a[1..]);
          assert x in Elements(b) <==> x == b[0] || x in Elements(b[1..]);
        }
      }
      IncreasingUnique(a[1..], b[1..]);
    }
  }

  method Minimum(s: set<string>) returns (m: string)
    requires s != {}
    ensures m in s && forall x :: x in s ==> AtMost(m, x)
  {
    m :| m in s;
    var todo := s - {m};
    while todo != {}
      invariant m in s && todo <= s
      invariant forall x :: x in s - todo ==> AtMost(m, x)
    {
      var y :| y in todo;
      ghost var seen := s - todo;
      todo := todo - {y};
      assert s - todo == seen + {y};
      LessTotal(m, y);
      if Less(y, m) {
        forall x | x in seen
          ensures AtMost(y, x)
        {
          assert AtMost(m, x);
          if m != x {
            LessTransitive(y, m, x);
          }
        }
        m := y;
      }
    }
  }

  /** `sort.Strings` of the keys of a Go map. */
  method SortedKeys(s: set<string>) returns (r: seq<string>)
    ensures Increasing(r) && Elements(r) == s && |r| == |s|
  {
    r := [];
    var todo := s;
    while todo != {}
      invariant todo <= s && Increasing(r) && Elements(r) == s - todo && |r| + |todo| == |s|
      invariant forall i, x :: 0 <= i < |r| && x in todo ==> Less(r[i], x)
    {
      var m := Minimum(todo);
      LessIrreflexive(m);
      assert Elements(r + [m]) == Elements(r) + {m};
      r := r + [m];
      todo := todo - {m};
    }
  }

  function Min(a: int, b: int): int
  {
    if a <= b then a else b
  }

  lemma SubsetSize<T>(a: set<T>, b: set<T>)
    requires a <= b
    ensures |a| <= |b|
  {
    assert b == a + (b - a);
  }
}
