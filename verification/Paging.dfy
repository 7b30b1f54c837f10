/**
 Keyset paging of directory lists. A page is cut from the sorted entries after the cursor; the cursor
 is the last entry of the page before. Entries may come and go between two fetches.
 */
module Paging {
  import opened Prelude

  /** The entries still to come after a cursor; the empty cursor is the start of the list. */
  predicate After(cursor: string, e: string)
  {
    cursor == "" || Less(cursor, e)
  }

  ghost function Remaining(entries: set<string>, cursor: string): set<string>
  {
    set e | e in entries && After(cursor, e)
  }

  /** `page` holds the smallest remaining entries, at most `limit`; `more` says whether any are left. */
  ghost predicate IsPage(entries: set<string>, cursor: string, limit: nat, page: seq<string>, more: bool)
  {
    && Increasing(page) && Elements(page) <= Remaining(entries, cursor)
    && (forall e, x :: e in Remaining(entries, cursor) && e !in page && x in page ==> Less(x, e))
    && (if more then |page| == limit && Elements(page) != Remaining(entries, cursor)
        else |page| <= limit && Elements(page) == Remaining(entries, cursor))
  }

  /** `sort.SearchStrings`: the first position whose element is not below `x`. */
  method SearchStrings(a: seq<string>, x: string) returns (i: nat)
    requires Increasing(a)
    ensures i <= |a|
    ensures forall k :: 0 <= k < i ==> Less(a[k], x)
    ensures forall k :: i <= k < |a| ==> AtMost(x, a[k])
  {
    var lo, hi := 0, |a|;
    while lo < hi
      invariant 0 <= lo <= hi <= |a|
      invariant forall k :: 0 <= k < lo ==> Less(a[k], x)
      invariant forall k :: hi <= k < |a| ==> AtMost(x, a[k])
    {
      var mid := (lo + hi) / 2;
      LessTotal(a[mid], x);
      if Less(a[mid], x) {
        forall k | lo <= k < mid
          ensures Less(a[k], x)
        {
          LessTransitive(a[k], a[mid], x);
        }
        lo := mid + 1;
      } else {
        forall k | mid < k < hi
          ensures AtMost(x, a[k])
        {
          if x != a[mid] {
            LessTransitive(x, a[mid], a[k]);
          }
        }
        hi := mid;
      }
    }
    i := lo;
  }

  /** One page of `ListAccessAssignments` or `ListTenantDirectoryUsers`. */
  method FetchPage(entries: set<string>, cursor: string, limit: nat) returns (page: seq<string>, more: bool)
    requires limit >= 1 && "" !in entries
    ensures IsPage(entries, cursor, limit, page, more)
  {
    var sorted := SortedKeys(entries);
    var start := SearchStrings(sorted, cursor);
    SkipCursor(sorted, cursor, start);
    if cursor != "" && start < |sorted| && sorted[start] == cursor {
      start := start + 1;
    }
    StartIsRemaining(entries, sorted, cursor, start);
    var end := if start + limit < |sorted| then start + limit else |sorted|;
    page, more := sorted[start..end], end < |sorted|;
    SliceIsPage(entries, sorted, cursor, start, end);
  }

  /** Only the element at the position found can equal the cursor. */
  lemma SkipCursor(sorted: seq<string>, cursor: string, start: nat)
    requires Increasing(sorted) && forall k :: start <= k < |sorted| ==> AtMost(cursor, sorted[k])
    ensures forall k :: start < k < |sorted| ==> Less(cursor, sorted[k])
  {
    forall k | start < k < |sorted|
      ensures Less(cursor, sorted[k])
    {
      if cursor != sorted[start] {
        LessTransitive(cursor, sorted[start], sorted[k]);
      }
    }
  }

  lemma StartIsRemaining(entries: set<string>, sorted: seq<string>, cursor: string, start: nat)
    requires Increasing(sorted) && Elements(sorted) == entries && start <= |sorted| && "" !in entries
    requires forall k :: 0 <= k < start ==> AtMost(sorted[k], cursor)
    requires forall k :: start <= k < |sorted| ==> Less(cursor, sorted[k])
    ensures Elements(sorted[start..]) == Remaining(entries, cursor)
  {
    forall k | 0 <= k < |sorted|
      ensures After(cursor, sorted[k]) <==> k >= start
    {
      assert sorted[k] in Elements(sorted);
      LessTotal(sorted[k], cursor);
      LessIrreflexive(cursor);
    }
    forall e
      ensures e in Elements(sorted[start..]) <==> e in Remaining(entries, cursor)
    {
      if e in Elements(sorted[start..]) {
        var k :| 0 <= k < |sorted[start..]| && sorted[start..][k] == e;
        assert e == sorted[start + k] && e in Elements(sorted);
      }
      if e in Remaining(entries, cursor) {
        assert e in Elements(sorted);
        var k :| 0 <= k < |sorted| && sorted[k] == e;
        assert sorted[start..][k - start] == e;
      }
    }
  }

  lemma SliceIsPage(entries: set<string>, sorted: seq<string>, cursor: string, start: nat, end: nat)
    requires Increasing(sorted) && start <= end <= |sorted| && Elements(sorted[start..]) == Remaining(entries, cursor)
    ensures IsPage(entries, cursor, end - start, sorted[start..end], end < |sorted|)
  {
    var page, rest := sorted[start..end], sorted[start..];
    assert forall k :: 0 <= k < |page| ==> page[k] == rest[k];
    assert forall k :: 0 <= k < |rest| ==> rest[k] == sorted[start + k];
    forall e | e in Elements(rest)
      ensures e in page || forall x :: x in page ==> Less(x, e)
      ensures end == |sorted| ==> e in page
    {
      var k :| 0 <= k < |rest| && rest[k] == e;
      if k < |page| {
        assert page[k] == e;
      }
    }
    if end < |sorted| {
      var e := rest[end - start];
      assert e == sorted[end] && e in Elements(rest);
      if e in page {
        var k :| 0 <= k < |page| && page[k] == e;
        assert Less(sorted[start + k], sorted[end]);
        LessIrreflexive(e);
      }
    }
  }

  // ----- A whole traversal -----

  /** One fetch: the entries at that moment and the page they gave. */
  datatype Fetch = Fetch(entries: set<string>, page: seq<string>, more: bool)

  function Cursor(fs: seq<Fetch>, k: nat): string
    requires k <= |fs|
  {
    if k == 0 || fs[k - 1].page == [] then "" else fs[k - 1].page[|fs[k - 1].page| - 1]
  }

  /** Fetch after fetch, each from the cursor the one before returned, over entries that change in between. */
  ghost predicate Traversal(fs: seq<Fetch>, limit: nat)
  {
    && limit >= 1
    && (forall k :: 0 <= k < |fs| ==> "" !in fs[k].entries && IsPage(fs[k].entries, Cursor(fs, k), limit, fs[k].page, fs[k].more))
    && (forall k :: 0 <= k < |fs| - 1 ==> fs[k].more)
  }

  function Output(fs: seq<Fetch>): seq<string>
  {
    if fs == [] then [] else Output(fs[..|fs| - 1]) + fs[|fs| - 1].page
  }

  lemma TraversalPrefix(fs: seq<Fetch>, limit: nat)
    requires Traversal(fs, limit) && fs != []
    ensures Traversal(fs[..|fs| - 1], limit)
  {
    var most := fs[..|fs| - 1];
    forall k | 0 <= k < |most|
      ensures IsPage(most[k].entries, Cursor(most, k), limit, most[k].page, most[k].more)
    {
      assert most[k] == fs[k] && Cursor(most, k) == Cursor(fs, k);
    }
  }

  lemma LastOfPage(fs: seq<Fetch>, limit: nat)
    requires Traversal(fs, limit) && fs != [] && fs[|fs| - 1].more
    ensures var page := fs[|fs| - 1].page; page != [] && Cursor(fs, |fs|) == page[|page| - 1] && Cursor(fs, |fs|) != ""
  {
    var f := fs[|fs| - 1];
    assert IsPage(f.entries, Cursor(fs, |fs| - 1), limit, f.page, f.more);
    assert f.page[|f.page| - 1] in Elements(f.page);
  }

  lemma JoinIncreasing(a: seq<string>, b: seq<string>, between: string)
    requires Increasing(a) && Increasing(b)
    requires forall x :: x in a ==> AtMost(x, between)
    requires forall y :: y in b ==> Less(between, y)
    ensures Increasing(a + b)
  {
    forall x, y | x in a && y in b
      ensures Less(x, y)
    {
      if x != between {
        LessTransitive(x, between, y);
      }
    }
  }

  /** The output so far is increasing and ends at the cursor: nothing is returned twice. */
  lemma {:induction false} OutputIncreasing(fs: seq<Fetch>, limit: nat)
    requires Traversal(fs, limit)
    ensures Increasing(Output(fs))
    ensures fs != [] && fs[|fs| - 1].more ==> forall x :: x in Output(fs) ==> AtMost(x, Cursor(fs, |fs|))
  {
    if fs != [] {
      var most, f := fs[..|fs| - 1], fs[|fs| - 1];
      TraversalPrefix(fs, limit);
      OutputIncreasing(most, limit);
      var cursor := Cursor(fs, |most|);
      LastPage(fs, limit);
      if most != [] {
        MostMore(fs, limit);
        JoinIncreasing(Output(most), f.page, cursor);
      } else {
        assert Output(fs) == f.page;
      }
      if f.more {
        LastOfPage(fs, limit);
        LastIsLargest(Output(fs), f.page[|f.page| - 1]);
      }
    }
  }

  lemma LastPage(fs: seq<Fetch>, limit: nat)
    requires Traversal(fs, limit) && fs != []
    ensures var f := fs[|fs| - 1]; Increasing(f.page) && forall y :: y in f.page ==> After(Cursor(fs, |fs| - 1), y)
  {
    var f := fs[|fs| - 1];
    assert IsPage(f.entries, Cursor(fs, |fs| - 1), limit, f.page, f.more);
    assert forall y :: y in f.page ==> y in Elements(f.page);
  }

  lemma MostMore(fs: seq<Fetch>, limit: nat)
    requires Traversal(fs, limit) && |fs| > 1
    ensures
      var most := fs[..|fs| - 1];
      most[|most| - 1].more && Cursor(most, |most|) == Cursor(fs, |most|) && Cursor(fs, |most|) != ""
  {
    var most := fs[..|fs| - 1];
    TraversalPrefix(fs, limit);
    assert most[|most| - 1] == fs[|fs| - 2] && fs[|fs| - 2].more;
    LastOfPage(most, limit);
  }

  lemma LastIsLargest(s: seq<string>, last: string)
    requires Increasing(s) && s != [] && s[|s| - 1] == last
    ensures forall x :: x in s ==> AtMost(x, last)
  {
  }

  /** An entry present at every fetch is returned, or is still to come after the cursor. */
  lemma {:induction false} PresentReturned(fs: seq<Fetch>, limit: nat, e: string)
    requires Traversal(fs, limit) && fs != []
    requires forall k :: 0 <= k < |fs| ==> e in fs[k].entries
    ensures e in Output(fs) || (fs[|fs| - 1].more && After(Cursor(fs, |fs|), e))
  {
    var most, f := fs[..|fs| - 1], fs[|fs| - 1];
    TraversalPrefix(fs, limit);
    assert IsPage(f.entries, Cursor(fs, |most|), limit, f.page, f.more);
    if most != [] {
      PresentReturned(most, limit, e);
      assert Cursor(most, |most|) == Cursor(fs, |most|);
    }
    if e !in Output(fs) {
      assert e !in Output(most) && e !in f.page;
      assert e in Remaining(f.entries, Cursor(fs, |most|));
      assert e !in Elements(f.page);
      LastOfPage(fs, limit);
    }
  }

  /** Every returned entry was present when its page was fetched. */
  lemma {:induction false} ReturnedWasPresent(fs: seq<Fetch>, limit: nat, e: string)
    requires Traversal(fs, limit) && e in Output(fs)
    ensures exists k :: 0 <= k < |fs| && e in fs[k].entries && e in fs[k].page
  {
    var most, f := fs[..|fs| - 1], fs[|fs| - 1];
    if e in f.page {
      assert IsPage(f.entries, Cursor(fs, |most|), limit, f.page, f.more);
      assert e in Elements(f.page) && e in fs[|most|].page;
    } else {
      TraversalPrefix(fs, limit);
      ReturnedWasPresent(most, limit, e);
      var k :| 0 <= k < |most| && e in most[k].entries && e in most[k].page;
      assert fs[k] == most[k];
    }
  }

  ghost function Count(s: seq<string>, e: string): nat
  {
    multiset(s)[e]
  }

  lemma IncreasingCount(s: seq<string>, e: string)
    requires Increasing(s)
    ensures Count(s, e) == if e in s then 1 else 0
  {
    if e in s {
      var i :| 0 <= i < |s| && s[i] == e;
      LessIrreflexive(e);
      assert s == s[..i] + [e] + s[i + 1..];
      assert e !in s[..i] && e !in s[i + 1..];
      assert multiset(s) == multiset(s[..i]) + multiset([e]) + multiset(s[i + 1..]);
    }
  }

  /**
   A finished traversal over changing entries returns no entry twice, every entry that was present
   throughout exactly once, and nothing that was never present.
   */
  lemma TraversalStable(fs: seq<Fetch>, limit: nat, e: string)
    requires Traversal(fs, limit) && fs != [] && !fs[|fs| - 1].more
    ensures Count(Output(fs), e) <= 1
    ensures (forall k :: 0 <= k < |fs| ==> e in fs[k].entries) ==> Count(Output(fs), e) == 1
    ensures (forall k :: 0 <= k < |fs| ==> e !in fs[k].entries) ==> Count(Output(fs), e) == 0
  {
    OutputIncreasing(fs, limit);
    IncreasingCount(Output(fs), e);
    if forall k :: 0 <= k < |fs| ==> e in fs[k].entries {
      PresentReturned(fs, limit, e);
    }
    if e in Output(fs) {
      ReturnedWasPresent(fs, limit, e);
    }
  }

  // ----- Termination -----

  lemma ElementsSize(s: seq<string>)
    requires Increasing(s)
    ensures |Elements(s)| == |s|
    decreases |s|
  {
    if s != [] {
      var most, last := s[..|s| - 1], s[|s| - 1];
      ElementsSize(most);
      LessIrreflexive(last);
      assert Elements(s) == Elements(most) + {last};
      assert last !in Elements(most);
    }
  }

  lemma PageShrinks(entries: set<string>, cursor: string, limit: nat, page: seq<string>)
    requires limit >= 1 && "" !in entries && IsPage(entries, cursor, limit, page, true)
    ensures |Remaining(entries, page[limit - 1])| == |Remaining(entries, cursor)| - limit
  {
    var last := page[limit - 1];
    assert last in Elements(page);
    forall e
      ensures e in Remaining(entries, last) <==> e in Remaining(entries, cursor) - Elements(page)
    {
      if e in Remaining(entries, last) {
        if cursor != "" {
          LessTransitive(cursor, last, e);
        }
        if e in page {
          var k :| 0 <= k < |page| && page[k] == e;
          LessTotal(last, e);
          LessIrreflexive(e);
        }
      }
      if e in Remaining(entries, cursor) - Elements(page) {
        assert e !in page && last in page;
      }
    }
    assert Remaining(entries, last) == Remaining(entries, cursor) - Elements(page);
    ElementsSize(page);
  }

  ghost function Left(fs: seq<Fetch>, all: set<string>, k: nat): nat
    requires k <= |fs|
  {
    |Remaining(all, Cursor(fs, k))|
  }

  lemma {:induction false} LeftChain(fs: seq<Fetch>, all: set<string>, limit: nat, from: nat, n: nat)
    requires from + n <= |fs|
    requires forall k :: from <= k < from + n ==> Left(fs, all, k + 1) == Left(fs, all, k) - limit
    ensures Left(fs, all, from + n) + n * limit == Left(fs, all, from)
    decreases n
  {
    if n > 0 {
      LeftChain(fs, all, limit, from, n - 1);
      assert Left(fs, all, from + n - 1 + 1) == Left(fs, all, from + n - 1) - limit;
      assert n * limit == (n - 1) * limit + limit;
    }
  }

  /** Once the entries stop changing, every fetch but the last consumes a full page: the traversal ends within |entries| / limit + 1 fetches. */
  lemma TraversalEnds(fs: seq<Fetch>, limit: nat, from: nat, n: nat)
    requires Traversal(fs, limit) && from + n < |fs|
    requires forall k :: from <= k < |fs| ==> fs[k].entries == fs[from].entries
    ensures n * limit <= |fs[from].entries|
  {
    var all := fs[from].entries;
    forall k | from <= k < from + n
      ensures Left(fs, all, k + 1) == Left(fs, all, k) - limit
    {
      OneFetch(fs, limit, k, all);
    }
    LeftChain(fs, all, limit, from, n);
    assert Remaining(all, Cursor(fs, from)) <= all;
    SubsetSize(Remaining(all, Cursor(fs, from)), all);
  }

  lemma OneFetch(fs: seq<Fetch>, limit: nat, k: nat, all: set<string>)
    requires Traversal(fs, limit) && k + 1 < |fs| && fs[k].entries == all
    ensures |Remaining(all, Cursor(fs, k + 1))| == |Remaining(all, Cursor(fs, k))| - limit
  {
    assert fs[k].more && IsPage(fs[k].entries, Cursor(fs, k), limit, fs[k].page, fs[k].more);
    PageShrinks(all, Cursor(fs, k), limit, fs[k].page);
  }
}
