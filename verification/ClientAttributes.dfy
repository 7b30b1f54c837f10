/** Redirect paths and display names of registered clients: what `path.Clean` leaves of a rooted path, and which paths it leaves alone. */
module ClientAttributes {
  import opened Prelude
  import opened Strings

  predicate Plain(segment: string)
  {
    segment != "" && segment != "." && segment != ".."
  }

  /** Empty and "." segments are dropped, ".." takes the segment before it along, at the root nothing. */
  function Resolve(segments: seq<string>): seq<string>
  {
    if segments == [] then []
    else
      var most, last := Resolve(segments[..|segments| - 1]), segments[|segments| - 1];
      if last == "" || last == "." then most
      else if last == ".." then if most == [] then [] else most[..|most| - 1]
      else most + [last]
  }

  /** `path.Clean` of a rooted path. */
  function Clean(path: string): string
  {
    "/" + Join(Resolve(Split(path, '/')), '/')
  }

  lemma {:induction false} ResolveIsPlain(segments: seq<string>)
    ensures forall s :: s in Resolve(segments) ==> Plain(s) && s in segments
  {
    if segments != [] {
      ResolveIsPlain(segments[..|segments| - 1]);
    }
  }

  lemma {:induction false} ResolveKeepsPlain(segments: seq<string>)
    requires forall i :: 0 <= i < |segments| ==> Plain(segments[i])
    ensures Resolve([""] + segments) == segments
  {
    var all := [""] + segments;
    if segments == [] {
      assert all[..|all| - 1] == [];
    } else {
      var most, last := segments[..|segments| - 1], segments[|segments| - 1];
      ResolveKeepsPlain(most);
      assert all[..|all| - 1] == [""] + most;
      assert segments == most + [last];
    }
  }

  lemma RootedSplit(path: string)
    requires path != "" && path[0] == '/'
    ensures Split(path, '/') == [""] + Split(path[1..], '/')
  {
    assert Cut(path, '/') == Some(([], path[1..]));
  }

  /** The segments of a rooted path, the root's none. */
  function Segments(path: string): seq<string>
    requires path != ""
  {
    if path == "/" then [] else Split(path[1..], '/')
  }

  lemma PlainIsClean(path: string)
    requires path != "" && path[0] == '/' && forall i :: 0 <= i < |Segments(path)| ==> Plain(Segments(path)[i])
    ensures Clean(path) == path
  {
    RootedSplit(path);
    JoinSplit(path[1..], '/');
    if path == "/" {
      assert Split("", '/') == [""];
      assert Split(path, '/') == [""] + [""];
      RootResolves();
    } else {
      ResolveKeepsPlain(Segments(path));
    }
  }

  lemma RootResolves()
    ensures Resolve([""] + [""]) == []
  {
    var all := [""] + [""];
    assert all[..1] == [""];
    assert [""][..0] == [];
  }

  /** A rooted path is its own clean form if and only if none of its segments is empty, "." or "..". */
  lemma CleanIffPlain(path: string)
    requires path != "" && path[0] == '/'
    ensures Clean(path) == path <==> forall i :: 0 <= i < |Segments(path)| ==> Plain(Segments(path)[i])
  {
    if Clean(path) == path && path != "/" {
      var out := Resolve(Split(path, '/'));
      ResolveIsPlain(Split(path, '/'));
      JoinSplit(path, '/');
      assert path[1..] == Join(out, '/');
      assert out != [];
      forall i | 0 <= i < |out|
        ensures '/' !in out[i]
      {
        assert out[i] in Split(path, '/');
      }
      SplitJoin(out, '/');
    }
    if forall i :: 0 <= i < |Segments(path)| ==> Plain(Segments(path)[i]) {
      PlainIsClean(path);
    }
  }

  // ----- Which paths may be registered -----

  predicate PathChar(c: char)
  {
    '!' <= c <= '~' && c !in {'\\', '?', '#', '%'}
  }

  predicate ValidPath(path: string)
  {
    && 1 <= |path| <= 256 && path[0] == '/' && !("//" <= path) && (forall i :: 0 <= i < |path| ==> PathChar(path[i]))
    && Clean(path) == path
  }

  /** `strings.ContainsAny`. */
  predicate ContainsAny(s: string, chars: set<char>)
  {
    exists i :: 0 <= i < |s| && s[i] in chars
  }

  /** `validPath`: accepts exactly the printable rooted paths without query, fragment or escape, of plain segments. */
  method CheckPath(path: string) returns (ok: bool)
    ensures ok <==> ValidPath(path)
    ensures ok ==> forall i :: 0 <= i < |Segments(path)| ==> Plain(Segments(path)[i])
  {
    if path == "" || |path| > 256 || !("/" <= path) || "//" <= path || ContainsAny(path, {'\\', '?', '#', '%'}) || Clean(path) != path {
      return false;
    }
    for n := 0 to |path|
      invariant forall i :: 0 <= i < n ==> PathChar(path[i])
    {
      if path[n] < '!' || path[n] > '~' { return false; }
    }
    CleanIffPlain(path);
    return true;
  }

  // ----- Display names -----

  /** `unicode.IsControl`. */
  predicate Control(c: char)
  {
    c as int < 0x20 || 0x7f <= c as int < 0xa0
  }

  /** `unicode.IsSpace`. */
  predicate Space(c: char)
  {
    var n := c as int;
    || 9 <= n <= 13 || n == 0x20 || n == 0x85 || n == 0xa0 || n == 0x1680 || 0x2000 <= n <= 0x200a
    || n == 0x2028 || n == 0x2029 || n == 0x202f || n == 0x205f || n == 0x3000
  }

  /** The bytes of a string in UTF-8. */
  function Size8(s: string): nat
  {
    if s == [] then 0
    else
      var n := s[0] as int;
      (if n < 0x80 then 1 else if n < 0x800 then 2 else if n < 0x10000 then 3 else 4) + Size8(s[1..])
  }

  function TrimLeft(s: string): string
  {
    if s != [] && Space(s[0]) then TrimLeft(s[1..]) else s
  }

  function TrimRight(s: string): string
  {
    if s != [] && Space(s[|s| - 1]) then TrimRight(s[..|s| - 1]) else s
  }

  function TrimSpace(s: string): string
  {
    TrimRight(TrimLeft(s))
  }

  lemma {:induction false} TrimsShorter(s: string)
    ensures |TrimLeft(s)| <= |s| && |TrimRight(s)| <= |s|
    decreases |s|
  {
    if s != [] {
      TrimsShorter(s[1..]);
      TrimsShorter(s[..|s| - 1]);
    }
  }

  lemma TrimSpaceIsSame(s: string)
    requires s != ""
    ensures TrimSpace(s) == s <==> !Space(s[0]) && !Space(s[|s| - 1])
  {
    TrimsShorter(TrimLeft(s));
    TrimsShorter(s[1..]);
    TrimsShorter(s[..|s| - 1]);
  }

  predicate ValidName(s: string)
  {
    && 1 <= Size8(s) <= 100 && s != "" && !Space(s[0]) && !Space(s[|s| - 1])
    && forall i :: 0 <= i < |s| ==> !Control(s[i])
  }

  /** The checks on a display name. */
  method CheckDisplayName(s: string) returns (ok: bool)
    ensures ok <==> ValidName(s)
  {
    if Size8(s) < 1 || Size8(s) > 100 { return false; }
    TrimSpaceIsSame(s);
    if TrimSpace(s) != s { return false; }
    for n := 0 to |s|
      invariant forall i :: 0 <= i < n ==> !Control(s[i])
    {
      if Control(s[n]) { return false; }
    }
    return true;
  }
}
