/** Cutting, splitting and joining strings at a separator. */
module Strings {
  import opened Prelude

  /** `strings.Cut`: what stands before and after the first `c`. */
  function Cut(s: string, c: char): Option<(string, string)>
  {
    if s == [] then None
    else if s[0] == c then Some(([], s[1..]))
    else
      var rest := Cut(s[1..], c);
      if rest.None? then None else Some(([s[0]] + rest.value.0, rest.value.1))
  }

  lemma {:induction false} CutJoined(a: string, c: char, b: string)
    requires c !in a
    ensures Cut(a + [c] + b, c) == Some((a, b))
  {
    var s := a + [c] + b;
    if a == [] {
      assert s[1..] == b;
    } else {
      CutJoined(a[1..], c, b);
      assert s[1..] == a[1..] + [c] + b;
      assert a == [a[0]] + a[1..];
    }
  }

  lemma {:induction false} CutSplits(s: string, c: char)
    requires Cut(s, c).Some?
    ensures var (a, b) := Cut(s, c).value; c !in a && s == a + [c] + b
  {
    if s[0] != c {
      CutSplits(s[1..], c);
    }
  }

  lemma {:induction false} NoCut(s: string, c: char)
    requires c !in s
    ensures Cut(s, c).None?
  {
    if s != [] {
      NoCut(s[1..], c);
    }
  }

  /** `strings.Split` at one character. */
  function Split(s: string, c: char): seq<string>
    decreases |s|
  {
    var cut := Cut(s, c);
    if cut.None? then [s]
    else
      CutSplits(s, c);
      [cut.value.0] + Split(cut.value.1, c)
  }

  function Join(s: seq<string>, c: char): string
  {
    if |s| == 0 then "" else if |s| == 1 then s[0] else s[0] + [c] + Join(s[1..], c)
  }

  lemma {:induction false} SplitJoin(s: seq<string>, c: char)
    requires s != [] && forall i :: 0 <= i < |s| ==> c !in s[i]
    ensures Split(Join(s, c), c) == s
    decreases |s|
  {
    if |s| == 1 {
      NoCut(s[0], c);
    } else {
      CutJoined(s[0], c, Join(s[1..], c));
      SplitJoin(s[1..], c);
      assert s == [s[0]] + s[1..];
    }
  }

  lemma {:induction false} JoinSplit(s: string, c: char)
    ensures Split(s, c) != [] && Join(Split(s, c), c) == s
    ensures forall i :: 0 <= i < |Split(s, c)| ==> c !in Split(s, c)[i]
    decreases |s|
  {
    var cut := Cut(s, c);
    if cut.None? {
      UncutFree(s, c);
    } else {
      CutSplits(s, c);
      JoinSplit(cut.value.1, c);
      assert Split(s, c)[1..] == Split(cut.value.1, c);
    }
  }

  lemma {:induction false} UncutFree(s: string, c: char)
    requires Cut(s, c).None?
    ensures c !in s
  {
    if s != [] {
      UncutFree(s[1..], c);
      assert s == [s[0]] + s[1..];
    }
  }
}
