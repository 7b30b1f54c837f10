/**
 The exact membership list: pages of one sorted snapshot of a tenant's member ids, tied together by
 signed tokens that carry the digest of the snapshot: a hash of the ids, each ended by a zero byte. The
 hash is a parameter and may collide; the records behind the ids are not modelled.
 */
module MembershipPages {
  import opened Prelude
  import opened DirectoryState
  import opened Strings
  import opened PageToken
  import opened Paging

  const TENANT_MAXIMUM := 10_000

  /** The token codec and the hash of a reader. */
  datatype Keys = Keys(
    encode: Token -> Option<string>,
    decode: (string, string, int) -> Option<Token>,
    hash: string -> string
  )

  const DOMAIN := "tikti-membership-fields-v1\0"

  /** What is hashed: every id, ended by a zero byte. */
  function Serialized(ids: seq<string>): string
  {
    if ids == [] then "" else ids[0] + "\0" + Serialized(ids[1..])
  }

  function Digest(keys: Keys, ids: seq<string>): string
  {
    keys.hash(DOMAIN + Serialized(ids))
  }

  /** Two lists whose different serializations have one hash. */
  predicate Collide(keys: Keys, a: seq<string>, b: seq<string>)
  {
    Serialized(a) != Serialized(b) && Digest(keys, a) == Digest(keys, b)
  }

  /** What the reader relies on: valid tokens encode and decode back for their own tenant and page size, digests are hexadecimal. */
  ghost predicate ValidKeys(keys: Keys)
  {
    && (forall t :: ValidToken(t) ==> keys.encode(t).Some? && keys.encode(t).value != "")
    && (forall t :: ValidToken(t) && keys.encode(t).Some? ==> keys.decode(keys.encode(t).value, t.tenant, t.pageSize) == Some(t))
    && (forall text :: HexDigest(keys.hash(text)))
  }

  function SignedKeys(mac: seq<Byte> -> seq<Byte>, hash: string -> string): Keys
  {
    Keys((t: Token) => Encode(mac, t), (encoded: string, tenant: string, size: int) => Decode(mac, encoded, tenant, size), hash)
  }

  /** The signed codec is such a codec. */
  lemma SignedKeysValid(mac: seq<Byte> -> seq<Byte>, hash: string -> string)
    requires IsMac(mac) && forall text :: HexDigest(hash(text))
    ensures ValidKeys(SignedKeys(mac, hash))
  {
    var keys := SignedKeys(mac, hash);
    forall t | ValidToken(t)
      ensures keys.encode(t).Some? && keys.encode(t).value != "" && keys.decode(keys.encode(t).value, t.tenant, t.pageSize) == Some(t)
    {
      EncodeFits(mac, t);
      DecodeEncode(mac, t, t.tenant, t.pageSize);
      EncodeNotEmpty(mac, t);
    }
  }

  function ZeroBytes(): seq<Byte>
  {
    seq(MAC_SIZE, _ => 0)
  }

  function ZeroDigest(): string
  {
    seq(DIGEST_SIZE, _ => '0')
  }

  /** There are keys the reader can rely on. */
  lemma SomeKeysValid()
    ensures ValidKeys(SignedKeys(_ => ZeroBytes(), _ => ZeroDigest()))
  {
    SignedKeysValid(_ => ZeroBytes(), _ => ZeroDigest());
  }

  /** Different snapshots serialize differently, so only the hash can confuse them. */
  lemma {:induction false} SerializedInjective(a: seq<string>, b: seq<string>)
    requires (forall i :: 0 <= i < |a| ==> UserIdentity(a[i])) && (forall i :: 0 <= i < |b| ==> UserIdentity(b[i]))
    requires Serialized(a) == Serialized(b)
    ensures a == b
  {
    if a != [] && b != [] {
      ZeroFree(a[0]);
      ZeroFree(b[0]);
      CutJoined(a[0], '\0', Serialized(a[1..]));
      CutJoined(b[0], '\0', Serialized(b[1..]));
      assert Serialized(a) == a[0] + ['\0'] + Serialized(a[1..]);
      assert Serialized(b) == b[0] + ['\0'] + Serialized(b[1..]);
      SerializedInjective(a[1..], b[1..]);
      assert a == [a[0]] + a[1..] && b == [b[0]] + b[1..];
    } else {
      assert |a| > 0 ==> |Serialized(a)| > 0;
      assert |b| > 0 ==> |Serialized(b)| > 0;
    }
  }

  lemma ZeroFree(id: string)
    requires UserIdentity(id)
    ensures '\0' !in id
  {
  }

  lemma EncodeNotEmpty(mac: seq<Byte> -> seq<Byte>, t: Token)
    requires Encode(mac, t).Some?
    ensures Encode(mac, t).value != ""
  {
  }

  datatype Listing = Page(ids: seq<string>, next: string) | Stale | InvalidArgument | InvalidTenant | Broken

  /** Where a page starts: at the front, or after the id the token names. */
  ghost predicate StartsAt(keys: Keys, tenant: string, size: int, sorted: seq<string>, encoded: string, start: nat)
  {
    if encoded == "" then start == 0
    else
      var t := keys.decode(encoded, tenant, size);
      t.Some? && t.value.digest == Digest(keys, sorted) && 0 < start < |sorted| && sorted[start - 1] == t.value.after
  }

  /** A page of at most `size` ids and the token of the page after it, if there is one. */
  ghost predicate PageFrom(keys: Keys, tenant: string, size: int, sorted: seq<string>, start: nat, ids: seq<string>, next: string)
  {
    && start + |ids| <= |sorted| && ids == sorted[start..start + |ids|] && |ids| <= size
    && (if start + |ids| == |sorted| then next == ""
        else |ids| == size && size >= 1 && keys.encode(Token(tenant, Digest(keys, sorted), sorted[start + size - 1], size)) == Some(next))
  }

  /** `ListExact` over the member ids as the snapshot script returns them. */
  method ListExact(keys: Keys, fields: set<string>, tenant: string, encoded: string, size: int)
    returns (r: Listing, sorted: seq<string>)
    requires ValidKeys(keys)
    ensures Increasing(sorted) && Elements(sorted) == fields
    ensures r.Page? ==> Snapshot(sorted) && |sorted| <= TENANT_MAXIMUM && 1 <= size <= PAGE_MAXIMUM
    ensures r.Broken? <==>
              && ActiveTenant(tenant) && 1 <= size <= PAGE_MAXIMUM && (encoded == "" || keys.decode(encoded, tenant, size).Some?)
              && (|fields| > TENANT_MAXIMUM || exists u :: u in fields && !UserIdentity(u))
    ensures r.Page? ==> PageOf(keys, tenant, size, Call(sorted, r.ids, r.next), encoded)
    ensures r.Stale? ==>
              encoded != "" && keys.decode(encoded, tenant, size).Some? &&
              keys.decode(encoded, tenant, size).value.digest != Digest(keys, sorted)
    ensures r.InvalidTenant? <==> !ActiveTenant(tenant)
    ensures ActiveTenant(tenant) && 1 <= size <= PAGE_MAXIMUM && |fields| <= TENANT_MAXIMUM && (forall u :: u in fields ==> UserIdentity(u)) ==>
              && (encoded == "" ==> r.Page?)
              && (encoded != "" && keys.decode(encoded, tenant, size).Some? ==>
                    var t := keys.decode(encoded, tenant, size).value;
                    && (r.Stale? <==> t.digest != Digest(keys, sorted))
                    && (!r.Stale? ==> (r.Page? <==> exists i :: 0 <= i < |sorted| - 1 && sorted[i] == t.after)))
  {
    sorted := SortedKeys(fields);
    if !ActiveTenant(tenant) { return InvalidTenant, sorted; }
    if size < 1 || size > PAGE_MAXIMUM { return InvalidArgument, sorted; }
    var token := if encoded == "" then None else keys.decode(encoded, tenant, size);
    if encoded != "" && token.None? { return InvalidArgument, sorted; }
    if |sorted| > TENANT_MAXIMUM || exists i :: 0 <= i < |sorted| && !UserIdentity(sorted[i]) {
      SomeBadField(fields, sorted);
      return Broken, sorted;
    }
    var start := 0;
    if token.Some? {
      if token.value.digest != Digest(keys, sorted) { return Stale, sorted; }
      start := SearchStrings(sorted, token.value.after);
      if start >= |sorted| || sorted[start] != token.value.after {
        NotFoundBySearch(sorted, token.value.after, start);
        return InvalidArgument, sorted;
      }
      start := start + 1;
      if start == |sorted| {
        LastOnly(sorted, token.value.after);
        return InvalidArgument, sorted;
      }
    }
    var end := if start + size > |sorted| then |sorted| else start + size;
    var next := "";
    if end < |sorted| {
      var t := Token(tenant, Digest(keys, sorted), sorted[end - 1], size);
      assert ValidToken(t);
      next := keys.encode(t).value;
    }
    r := Page(sorted[start..end], next);
    assert StartsAt(keys, tenant, size, sorted, encoded, start) && PageFrom(keys, tenant, size, sorted, start, r.ids, r.next);
  }

  lemma SomeBadField(fields: set<string>, sorted: seq<string>)
    requires Elements(sorted) == fields && |sorted| == |fields|
    requires |sorted| > TENANT_MAXIMUM || exists i :: 0 <= i < |sorted| && !UserIdentity(sorted[i])
    ensures |fields| > TENANT_MAXIMUM || exists u :: u in fields && !UserIdentity(u)
  {
    if |sorted| <= TENANT_MAXIMUM {
      var i :| 0 <= i < |sorted| && !UserIdentity(sorted[i]);
      assert sorted[i] in Elements(sorted);
    }
  }

  lemma NotFoundBySearch(sorted: seq<string>, x: string, start: nat)
    requires Increasing(sorted) && start <= |sorted| && (start == |sorted| || sorted[start] != x)
    requires forall k :: 0 <= k < start ==> Less(sorted[k], x)
    requires forall k :: start <= k < |sorted| ==> AtMost(x, sorted[k])
    ensures x !in sorted
  {
    LessIrreflexive(x);
    forall k | 0 <= k < |sorted|
      ensures sorted[k] != x
    {
      if start < k {
        LessTotal(sorted[start], x);
      }
    }
  }

  lemma LastOnly(sorted: seq<string>, x: string)
    requires Increasing(sorted) && sorted != [] && sorted[|sorted| - 1] == x
    ensures forall i :: 0 <= i < |sorted| - 1 ==> sorted[i] != x
  {
    LessIrreflexive(x);
  }

  // ----- A chain of pages -----

  /** One successful call: the snapshot it saw and what it returned. */
  datatype Call = Call(sorted: seq<string>, ids: seq<string>, next: string)

  function TokenBefore(calls: seq<Call>, k: nat): string
    requires k <= |calls|
  {
    if k == 0 then "" else calls[k - 1].next
  }

  ghost predicate Snapshot(s: seq<string>)
  {
    Increasing(s) && forall i :: 0 <= i < |s| ==> UserIdentity(s[i])
  }

  /** Calls that follow one another by token, over snapshots that may differ. */
  ghost predicate Chain(keys: Keys, tenant: string, size: int, calls: seq<Call>)
  {
    && (forall k :: 0 <= k < |calls| ==> Snapshot(calls[k].sorted))
    && (forall k :: 0 <= k < |calls| ==> PageOf(keys, tenant, size, calls[k], TokenBefore(calls, k)))
    && (forall k :: 0 <= k < |calls| - 1 ==> calls[k].next != "")
  }

  ghost predicate PageOf(keys: Keys, tenant: string, size: int, call: Call, encoded: string)
  {
    exists start :: StartsAt(keys, tenant, size, call.sorted, encoded, start) && PageFrom(keys, tenant, size, call.sorted, start, call.ids, call.next)
  }

  /** Everything the first `n` calls returned. */
  function Ids(calls: seq<Call>, n: nat): seq<string>
    requires n <= |calls|
  {
    if n == 0 then [] else Ids(calls, n - 1) + calls[n - 1].ids
  }

  lemma SamePosition(sorted: seq<string>, i: nat, j: nat)
    requires Increasing(sorted) && i < |sorted| && j < |sorted| && sorted[i] == sorted[j]
    ensures i == j
  {
    LessIrreflexive(sorted[i]);
  }

  /** A page fetched with the token of a page of snapshot `s` saw the same snapshot, unless the hash collides, and starts where that page ended. */
  lemma NextPage(keys: Keys, tenant: string, size: int, s: seq<string>, start: nat, ids: seq<string>, next: string, call: Call)
    requires ValidKeys(keys) && ActiveTenant(tenant) && 1 <= size <= PAGE_MAXIMUM
    requires Snapshot(s)
    requires PageFrom(keys, tenant, size, s, start, ids, next) && next != "" && PageOf(keys, tenant, size, call, next)
    requires Snapshot(call.sorted) && !Collide(keys, s, call.sorted)
    ensures call.sorted == s && PageFrom(keys, tenant, size, s, start + |ids|, call.ids, call.next)
  {
    var t := Token(tenant, Digest(keys, s), s[start + size - 1], size);
    assert ValidToken(t);
    var from: nat :| StartsAt(keys, tenant, size, call.sorted, next, from) && PageFrom(keys, tenant, size, call.sorted, from, call.ids, call.next);
    SerializedInjective(call.sorted, s);
    SamePosition(s, from - 1, start + size - 1);
  }

  /** The pages returned so far, `ids`, are the front of snapshot `s`, and `last` is the page that ends them. */
  ghost predicate Front(keys: Keys, tenant: string, size: int, s: seq<string>, ids: seq<string>, last: Call)
  {
    && last.sorted == s && ids <= s && |last.ids| <= |ids|
    && PageFrom(keys, tenant, size, s, |ids| - |last.ids|, last.ids, last.next)
  }

  lemma FirstPage(keys: Keys, tenant: string, size: int, call: Call)
    requires PageOf(keys, tenant, size, call, "")
    ensures Front(keys, tenant, size, call.sorted, call.ids, call)
  {
  }

  lemma LongerFront(keys: Keys, tenant: string, size: int, s: seq<string>, ids: seq<string>, before: Call, last: Call)
    requires ValidKeys(keys) && ActiveTenant(tenant) && 1 <= size <= PAGE_MAXIMUM
    requires Snapshot(s)
    requires Front(keys, tenant, size, s, ids, before) && before.next != "" && PageOf(keys, tenant, size, last, before.next)
    requires Snapshot(last.sorted) && !Collide(keys, s, last.sorted)
    ensures Front(keys, tenant, size, s, ids + last.ids, last)
  {
    NextPage(keys, tenant, size, s, |ids| - |before.ids|, before.ids, before.next, last);
    assert |ids| - |before.ids| + |before.ids| == |ids|;
    FrontGrows(keys, tenant, size, s, ids, last);
  }

  lemma FrontGrows(keys: Keys, tenant: string, size: int, s: seq<string>, ids: seq<string>, last: Call)
    requires last.sorted == s && ids <= s && PageFrom(keys, tenant, size, s, |ids|, last.ids, last.next)
    ensures Front(keys, tenant, size, s, ids + last.ids, last)
  {
    PrefixGrows(s, ids, last.ids);
    assert |ids + last.ids| - |last.ids| == |ids|;
  }

  lemma PrefixGrows(s: seq<string>, ids: seq<string>, more: seq<string>)
    requires ids <= s && |ids| + |more| <= |s| && more == s[|ids|..|ids| + |more|]
    ensures ids + more <= s
  {
    assert s[..|ids|] + s[|ids|..|ids| + |more|] == s[..|ids| + |more|];
  }

  /** The hash takes the first snapshot for a later one. */
  ghost predicate CollidesWithin(keys: Keys, calls: seq<Call>, n: nat)
    requires 0 < n <= |calls|
  {
    exists k :: 0 < k < n && Collide(keys, calls[0].sorted, calls[k].sorted)
  }

  lemma {:induction false} ChainFront(keys: Keys, tenant: string, size: int, calls: seq<Call>, n: nat)
    requires ValidKeys(keys) && ActiveTenant(tenant) && 1 <= size <= PAGE_MAXIMUM
    requires Chain(keys, tenant, size, calls) && 0 < n <= |calls| && !CollidesWithin(keys, calls, n)
    ensures Front(keys, tenant, size, calls[0].sorted, Ids(calls, n), calls[n - 1])
  {
    var last := calls[n - 1];
    assert PageOf(keys, tenant, size, last, TokenBefore(calls, n - 1));
    if n == 1 {
      assert Ids(calls, 1) == last.ids;
      FirstPage(keys, tenant, size, last);
    } else {
      ChainFront(keys, tenant, size, calls, n - 1);
      assert Snapshot(calls[0].sorted) && Snapshot(last.sorted);
      LongerFront(keys, tenant, size, calls[0].sorted, Ids(calls, n - 1), calls[n - 2], last);
    }
  }

  /**
   A chain of successful calls enumerates one snapshot: every call saw the ids the first one saw, and
   what they returned together is that snapshot from its front, the whole of it if and only if the last
   page has no token. So each id is returned exactly once. Otherwise the hash of the first snapshot
   collides with that of one of the others.
   */
  lemma ChainEnumerates(keys: Keys, tenant: string, size: int, calls: seq<Call>, n: nat)
    requires ValidKeys(keys) && ActiveTenant(tenant) && 1 <= size <= PAGE_MAXIMUM
    requires Chain(keys, tenant, size, calls) && 0 < n <= |calls|
    ensures CollidesWithin(keys, calls, n) ||
            (&& calls[n - 1].sorted == calls[0].sorted
             && Ids(calls, n) <= calls[0].sorted && Increasing(Ids(calls, n))
             && (calls[n - 1].next == "" <==> Ids(calls, n) == calls[0].sorted))
  {
    if !CollidesWithin(keys, calls, n) {
      ChainFront(keys, tenant, size, calls, n);
      assert Snapshot(calls[0].sorted);
      EndOfChain(keys, tenant, size, calls[0].sorted, Ids(calls, n), calls[n - 1]);
    }
  }

  lemma EndOfChain(keys: Keys, tenant: string, size: int, s: seq<string>, ids: seq<string>, last: Call)
    requires ValidKeys(keys) && ActiveTenant(tenant) && 1 <= size <= PAGE_MAXIMUM && Snapshot(s)
    requires Front(keys, tenant, size, s, ids, last)
    ensures last.next == "" <==> ids == s
    ensures Increasing(ids)
  {
    if |ids| < |s| {
      assert ValidToken(Token(tenant, Digest(keys, s), s[|ids| - |last.ids| + size - 1], size));
    }
  }

  /** A token is stale if and only if the id set has changed since the page it came with, unless the hash takes the one set for the other. */
  lemma StaleIffChanged(keys: Keys, tenant: string, size: int, s: seq<string>, start: nat, ids: seq<string>, next: string, now: seq<string>)
    requires ValidKeys(keys) && ActiveTenant(tenant) && 1 <= size <= PAGE_MAXIMUM && Snapshot(s) && Snapshot(now)
    requires PageFrom(keys, tenant, size, s, start, ids, next) && next != ""
    ensures keys.decode(next, tenant, size).Some?
    ensures keys.decode(next, tenant, size).value.digest != Digest(keys, now) <==> Elements(now) != Elements(s) && !Collide(keys, s, now)
  {
    var t := Token(tenant, Digest(keys, s), s[start + size - 1], size);
    assert ValidToken(t);
    if Elements(now) == Elements(s) {
      IncreasingUnique(now, s);
    } else if Serialized(s) == Serialized(now) {
      SerializedInjective(s, now);
    }
  }
}
