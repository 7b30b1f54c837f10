/**
 The signed page token of the exact membership list: canonical JSON and an HMAC, both in raw URL-safe
 base64 (section 5 of RFC 4648), joined by a dot. The HMAC is a parameter.
 */
module PageToken {
  import opened Prelude
  import opened DirectoryState
  import opened Strings

  const PAGE_MAXIMUM := 200
  const TOKEN_MAXIMUM := 512
  const DIGEST_SIZE := 64
  const MAC_SIZE := 32

  type Byte = x: int | 0 <= x < 256

  datatype Token = Token(tenant: string, digest: string, after: string, pageSize: int)

  // ----- Base64: bytes and sextets -----

  type Sextet = x: int | 0 <= x < 64

  // Three bytes and the four sextets that carry them.
  function S0(a: Byte): Sextet { a / 4 }
  function S1(a: Byte, b: Byte): Sextet { a % 4 * 16 + b / 16 }
  function S2(b: Byte, c: Byte): Sextet { b % 16 * 4 + c / 64 }
  function S3(c: Byte): Sextet { c % 64 }
  function B0(v: Sextet, w: Sextet): Byte { v * 4 + w / 16 }
  function B1(w: Sextet, x: Sextet): Byte { w % 16 * 16 + x / 4 }
  function B2(x: Sextet, y: Sextet): Byte { x % 4 * 64 + y }

  lemma BytesOfSextets(a: Byte, b: Byte, c: Byte)
    ensures B0(S0(a), S1(a, b)) == a
    ensures B1(S1(a, b), S2(b, c)) == b
    ensures B2(S2(b, c), S3(c)) == c
  {
  }

  lemma SextetsOfBytes(v: Sextet, w: Sextet, x: Sextet, y: Sextet)
    ensures S0(B0(v, w)) == v
    ensures S1(B0(v, w), B1(w, x)) == w
    ensures S2(B1(w, x), B2(x, y)) == x
    ensures S3(B2(x, y)) == y
  {
  }

  lemma ShortFirst(a: Byte)
    ensures S1(a, 0) % 16 == 0 && B0(S0(a), S1(a, 0)) == a
  {
    var q, r := a / 4, a % 4;
    assert a == q * 4 + r && S1(a, 0) == r * 16;
    assert (r * 16) / 16 == r;
  }

  lemma ShortSecond(a: Byte, b: Byte)
    ensures S2(b, 0) % 4 == 0 && B1(S1(a, b), S2(b, 0)) == b
  {
    var q, r, h := b / 16, b % 16, a % 4;
    assert b == q * 16 + r && S2(b, 0) == r * 4 && S1(a, b) == h * 16 + q;
    assert (h * 16 + q) % 16 == q && (r * 4) / 4 == r;
  }

  lemma ShortSextets(v: Sextet, w: Sextet, x: Sextet)
    ensures w % 16 == 0 ==> S1(B0(v, w), 0) == w
    ensures x % 4 == 0 ==> S2(B1(w, x), 0) == x
  {
  }

  function ToSextets(b: seq<Byte>): seq<Sextet>
  {
    if |b| == 0 then []
    else if |b| == 1 then [S0(b[0]), S1(b[0], 0)]
    else if |b| == 2 then [S0(b[0]), S1(b[0], b[1]), S2(b[1], 0)]
    else [S0(b[0]), S1(b[0], b[1]), S2(b[1], b[2]), S3(b[2])] + ToSextets(b[3..])
  }

  /** Strict: a single sextet is left over, or unused bits are set, is an error. */
  function FromSextets(v: seq<Sextet>): Option<seq<Byte>>
  {
    if |v| == 0 then Some([])
    else if |v| == 1 then None
    else if |v| == 2 then if v[1] % 16 != 0 then None else Some([B0(v[0], v[1])])
    else if |v| == 3 then if v[2] % 4 != 0 then None else Some([B0(v[0], v[1]), B1(v[1], v[2])])
    else
      var rest := FromSextets(v[4..]);
      if rest.None? then None else Some([B0(v[0], v[1]), B1(v[1], v[2]), B2(v[2], v[3])] + rest.value)
  }

  lemma TwoBytes(a: Byte, b: Byte)
    ensures FromSextets([S0(a), S1(a, b), S2(b, 0)]) == Some([a, b])
  {
    BytesOfSextets(a, b, 0);
    ShortSecond(a, b);
  }

  lemma OneByte(a: Byte)
    ensures FromSextets([S0(a), S1(a, 0)]) == Some([a])
  {
    ShortFirst(a);
  }

  lemma {:induction false} FromToSextets(b: seq<Byte>)
    ensures FromSextets(ToSextets(b)) == Some(b)
    decreases |b|
  {
    if |b| == 1 {
      OneByte(b[0]);
      assert b == [b[0]];
    } else if |b| == 2 {
      TwoBytes(b[0], b[1]);
      assert b == [b[0], b[1]];
    } else if |b| >= 3 {
      BytesOfSextets(b[0], b[1], b[2]);
      FromToSextets(b[3..]);
      assert ToSextets(b)[4..] == ToSextets(b[3..]);
      assert b == [b[0], b[1], b[2]] + b[3..];
    }
  }

  lemma {:induction false} ToFromSextets(v: seq<Sextet>)
    requires FromSextets(v).Some?
    ensures ToSextets(FromSextets(v).value) == v
    decreases |v|
  {
    if |v| == 2 {
      SextetsOfBytes(v[0], v[1], 0, 0);
      ShortSextets(v[0], v[1], 0);
    } else if |v| == 3 {
      SextetsOfBytes(v[0], v[1], v[2], 0);
      ShortSextets(v[0], v[1], v[2]);
    } else if |v| >= 4 {
      SextetsOfBytes(v[0], v[1], v[2], v[3]);
      ToFromSextets(v[4..]);
      assert FromSextets(v).value[3..] == FromSextets(v[4..]).value;
      assert v == [v[0], v[1], v[2], v[3]] + v[4..];
    }
  }

  // ----- Base64: sextets and characters -----

  function Char64(n: Sextet): char
  {
    if n < 26 then (n + 65) as char
    else if n < 52 then (n + 71) as char
    else if n < 62 then (n - 4) as char
    else if n == 62 then '-' else '_'
  }

  predicate Letter(c: char)
  {
    'A' <= c <= 'Z' || 'a' <= c <= 'z' || '0' <= c <= '9' || c == '-' || c == '_'
  }

  function Value64(c: char): Sextet
    requires Letter(c)
  {
    if 'A' <= c <= 'Z' then c as int - 65
    else if 'a' <= c <= 'z' then c as int - 71
    else if '0' <= c <= '9' then c as int + 4
    else if c == '-' then 62 else 63
  }

  lemma Value64OfChar64(n: Sextet)
    ensures Letter(Char64(n)) && Value64(Char64(n)) == n
  {
  }

  lemma Char64OfValue64(c: char)
    requires Letter(c)
    ensures Char64(Value64(c)) == c
  {
  }

  function Letters(v: seq<Sextet>): string
  {
    seq(|v|, i requires 0 <= i < |v| => Char64(v[i]))
  }

  function Values(s: string): seq<Sextet>
    requires forall i :: 0 <= i < |s| ==> Letter(s[i])
  {
    seq(|s|, i requires 0 <= i < |s| => Value64(s[i]))
  }

  lemma ValuesOfLetters(v: seq<Sextet>)
    ensures (forall i :: 0 <= i < |v| ==> Letter(Letters(v)[i])) && Values(Letters(v)) == v && '.' !in Letters(v)
  {
    forall i | 0 <= i < |v|
      ensures Letter(Letters(v)[i]) && Value64(Letters(v)[i]) == v[i]
    {
      Value64OfChar64(v[i]);
    }
  }

  lemma LettersOfValues(s: string)
    requires forall i :: 0 <= i < |s| ==> Letter(s[i])
    ensures Letters(Values(s)) == s
  {
    forall i | 0 <= i < |s|
      ensures Letters(Values(s))[i] == s[i]
    {
      Char64OfValue64(s[i]);
    }
  }

  function Encode64(b: seq<Byte>): string
  {
    Letters(ToSextets(b))
  }

  predicate Newline(c: char)
  {
    c == '\r' || c == '\n'
  }

  /** The decoder skips line breaks, strict or not. */
  function WithoutNewlines(s: string): string
  {
    if s == [] then [] else (if Newline(s[0]) then [] else [s[0]]) + WithoutNewlines(s[1..])
  }

  lemma {:induction false} WithoutNewlinesIsSame(s: string)
    ensures |WithoutNewlines(s)| <= |s|
    ensures WithoutNewlines(s) == s <==> '\r' !in s && '\n' !in s
  {
    if s != [] {
      WithoutNewlinesIsSame(s[1..]);
      assert s == [s[0]] + s[1..];
    }
  }

  /** Strict: unused bits must be zero. */
  function Decode64(s: string): Option<seq<Byte>>
  {
    var t := WithoutNewlines(s);
    if forall i :: 0 <= i < |t| ==> Letter(t[i]) then FromSextets(Values(t)) else None
  }

  lemma Decode64Encode64(b: seq<Byte>)
    ensures Decode64(Encode64(b)) == Some(b)
    ensures '.' !in Encode64(b)
  {
    ValuesOfLetters(ToSextets(b));
    FromToSextets(b);
    assert forall i :: 0 <= i < |Encode64(b)| ==> Letter(Encode64(b)[i]);
    WithoutNewlinesIsSame(Encode64(b));
  }

  /**
   Strict decoding accepts what encoding produces, with line breaks anywhere in it. So encoding what was decoded gives the
   text back exactly when it has no line break; of every other text the re-encoding check finds that it is not canonical.
   */
  lemma Encode64Decode64(s: string)
    requires Decode64(s).Some?
    ensures Encode64(Decode64(s).value) == WithoutNewlines(s)
    ensures Encode64(Decode64(s).value) == s <==> '\r' !in s && '\n' !in s
  {
    ToFromSextets(Values(WithoutNewlines(s)));
    LettersOfValues(WithoutNewlines(s));
    WithoutNewlinesIsSame(s);
  }

  function Size64(n: nat): nat
  {
    n / 3 * 4 + (if n % 3 == 0 then 0 else n % 3 + 1)
  }

  lemma {:induction false} SextetsSize(b: seq<Byte>)
    ensures |ToSextets(b)| == Size64(|b|)
    decreases |b|
  {
    if |b| >= 3 {
      SextetsSize(b[3..]);
    }
  }

  lemma Encode64Size(b: seq<Byte>)
    ensures |Encode64(b)| == Size64(|b|)
  {
    SextetsSize(b);
  }

  lemma Size64Monotone(n: nat, m: nat)
    requires n <= m
    ensures Size64(n) <= Size64(m)
  {
  }

  // ----- Canonical JSON -----

  function Digits(n: nat): string
  {
    (if n < 10 then [] else Digits(n / 10)) + [(48 + n % 10) as char]
  }

  predicate Digit(c: char)
  {
    '0' <= c <= '9'
  }

  function Number(s: string): nat
    requires forall i :: 0 <= i < |s| ==> Digit(s[i])
  {
    if s == [] then 0
    else
      assert Digit(s[|s| - 1]);
      Number(s[..|s| - 1]) * 10 + (s[|s| - 1] as int - 48)
  }

  lemma {:induction false} NumberOfDigits(n: nat)
    ensures forall i :: 0 <= i < |Digits(n)| ==> Digit(Digits(n)[i])
    ensures Number(Digits(n)) == n
    ensures n < 10 ==> |Digits(n)| == 1
    ensures n < 100 ==> |Digits(n)| <= 2
    ensures n < 1000 ==> |Digits(n)| <= 3
  {
    if n >= 10 {
      NumberOfDigits(n / 10);
      assert Digits(n)[..|Digits(n)| - 1] == Digits(n / 10);
    } else {
      assert Digits(n)[..0] == [];
      assert Digits(n)[|Digits(n)| - 1] as int - 48 == n;
    }
  }

  const OPENING := "{\"v\":1,\"tenant\":\""
  const DIGEST := ",\"digest\":\""
  const AFTER := ",\"after\":\""
  const PAGE_SIZE := ",\"pageSize\":"

  function Field(opening: string, text: string, rest: string): string
  {
    opening + text + "\"" + rest
  }

  function Json(t: Token): string
    requires t.pageSize >= 0
  {
    Field(OPENING, t.tenant, Field(DIGEST, t.digest, Field(AFTER, t.after, PAGE_SIZE + Digits(t.pageSize) + "}")))
  }

  predicate UserChar(c: char)
  {
    'a' <= c <= 'z' || 'A' <= c <= 'Z' || '0' <= c <= '9' || c in {'.', '_', ':', '-'}
  }

  predicate UserIdentity(s: string)
  {
    1 <= |s| <= 128 && forall i :: 0 <= i < |s| ==> UserChar(s[i])
  }

  predicate HexDigest(s: string)
  {
    |s| == DIGEST_SIZE && forall i :: 0 <= i < |s| ==> '0' <= s[i] <= '9' || 'a' <= s[i] <= 'f'
  }

  predicate ValidToken(t: Token)
  {
    ActiveTenant(t.tenant) && HexDigest(t.digest) && UserIdentity(t.after) && 1 <= t.pageSize <= PAGE_MAXIMUM
  }

  /** Drop an expected prefix. */
  function Expect(prefix: string, s: string): Option<string>
  {
    if prefix <= s then Some(s[|prefix|..]) else None
  }

  /** One string member: its opening, its text up to the closing quote, and the rest. */
  function Member(opening: string, s: string): Option<(string, string)>
  {
    var rest := Expect(opening, s);
    if rest.None? then None else Cut(rest.value, '"')
  }

  lemma MemberJoined(opening: string, text: string, rest: string)
    requires '"' !in text
    ensures Member(opening, Field(opening, text, rest)) == Some((text, rest))
  {
    var s := Field(opening, text, rest);
    assert s[|opening|..] == text + ['"'] + rest;
    CutJoined(text, '"', rest);
  }

  function ParseSize(s: string): Option<int>
  {
    var rest := Expect(PAGE_SIZE, s);
    if rest.None? || rest.value == [] || rest.value[|rest.value| - 1] != '}' then None
    else
      var digits := rest.value[..|rest.value| - 1];
      if digits != [] && forall i :: 0 <= i < |digits| ==> Digit(digits[i]) then Some(Number(digits)) else None
  }

  function Parse(s: string): Option<Token>
  {
    var tenant := Member(OPENING, s);
    if tenant.None? then None
    else
      var digest := Member(DIGEST, tenant.value.1);
      if digest.None? then None
      else
        var after := Member(AFTER, digest.value.1);
        if after.None? then None
        else
          var size := ParseSize(after.value.1);
          if size.None? then None else Some(Token(tenant.value.0, digest.value.0, after.value.0, size.value))
  }

  predicate QuoteFree(t: Token)
  {
    '"' !in t.tenant && '"' !in t.digest && '"' !in t.after && t.pageSize >= 0
  }

  lemma SizeParses(n: nat)
    ensures ParseSize(PAGE_SIZE + Digits(n) + "}") == Some(n)
  {
    var s := PAGE_SIZE + Digits(n) + "}";
    assert s[|PAGE_SIZE|..] == Digits(n) + "}";
    assert (Digits(n) + "}")[..|Digits(n)|] == Digits(n);
    NumberOfDigits(n);
  }

  lemma JsonParses(t: Token)
    requires QuoteFree(t)
    ensures Parse(Json(t)) == Some(t)
  {
    var size := PAGE_SIZE + Digits(t.pageSize) + "}";
    MemberJoined(OPENING, t.tenant, Field(DIGEST, t.digest, Field(AFTER, t.after, size)));
    MemberJoined(DIGEST, t.digest, Field(AFTER, t.after, size));
    MemberJoined(AFTER, t.after, size);
    SizeParses(t.pageSize);
  }

  lemma ValidIsQuoteFree(t: Token)
    requires ValidToken(t)
    ensures QuoteFree(t)
  {
    assert forall i :: 0 <= i < |t.tenant| ==> LabelChar(t.tenant[i]);
  }

  lemma JsonSize(t: Token)
    requires ValidToken(t)
    ensures |Json(t)| <= 312
  {
    NumberOfDigits(t.pageSize);
    assert |OPENING| == 17 && |DIGEST| == 11 && |AFTER| == 10 && |PAGE_SIZE| == 12;
  }

  // ----- The signed token -----

  function Bytes(s: string): seq<Byte>
    requires forall i :: 0 <= i < |s| ==> s[i] as int < 256
  {
    seq(|s|, i requires 0 <= i < |s| => s[i] as int)
  }

  function Text(b: seq<Byte>): string
  {
    seq(|b|, i requires 0 <= i < |b| => b[i] as char)
  }

  predicate Ascii(s: string)
  {
    forall i :: 0 <= i < |s| ==> s[i] as int < 256
  }

  lemma {:induction false} DigitsAscii(n: nat)
    ensures Ascii(Digits(n))
  {
    NumberOfDigits(n);
    assert forall i :: 0 <= i < |Digits(n)| ==> Digit(Digits(n)[i]);
  }

  lemma FieldAscii(opening: string, text: string, rest: string)
    requires Ascii(opening) && Ascii(text) && Ascii(rest)
    ensures Ascii(Field(opening, text, rest))
  {
  }

  lemma ValidAscii(t: Token)
    requires ValidToken(t)
    ensures Ascii(t.tenant) && Ascii(t.digest) && Ascii(t.after)
  {
    assert forall i :: 0 <= i < |t.tenant| ==> LabelChar(t.tenant[i]);
  }

  lemma JsonAscii(t: Token)
    requires ValidToken(t)
    ensures Ascii(Json(t))
  {
    var size := PAGE_SIZE + Digits(t.pageSize) + "}";
    DigitsAscii(t.pageSize);
    ValidAscii(t);
    assert Ascii(size);
    FieldAscii(AFTER, t.after, size);
    FieldAscii(DIGEST, t.digest, Field(AFTER, t.after, size));
    FieldAscii(OPENING, t.tenant, Field(DIGEST, t.digest, Field(AFTER, t.after, size)));
  }

  lemma TextOfBytes(s: string)
    requires Ascii(s)
    ensures Text(Bytes(s)) == s
  {
  }

  lemma BytesOfText(b: seq<Byte>)
    ensures Ascii(Text(b)) && Bytes(Text(b)) == b
  {
  }

  /** `encode`; `None` is the invalid-argument error. */
  function Encode(mac: seq<Byte> -> seq<Byte>, t: Token): Option<string>
  {
    if !ValidToken(t) then None
    else
      JsonAscii(t);
      var payload := Bytes(Json(t));
      var result := Encode64(payload) + "." + Encode64(mac(payload));
      if |result| > TOKEN_MAXIMUM then None else Some(result)
  }

  /** `decode` of a token that is not empty. */
  function Decode(mac: seq<Byte> -> seq<Byte>, encoded: string, tenant: string, pageSize: int): Option<Token>
  {
    var parts := Cut(encoded, '.');
    if |encoded| > TOKEN_MAXIMUM || parts.None? || parts.value.0 == "" || parts.value.1 == "" || '.' in parts.value.1 then None
    else
      var payload, signature := Decode64(parts.value.0), Decode64(parts.value.1);
      if payload.None? || Encode64(payload.value) != parts.value.0 then None
      else if signature.None? || |signature.value| != MAC_SIZE || Encode64(signature.value) != parts.value.1 then None
      else if signature.value != mac(payload.value) then None
      else
        var token := Parse(Text(payload.value));
        if token.None? || !ValidToken(token.value) then None
        else if Json(token.value) != Text(payload.value) || token.value.tenant != tenant || token.value.pageSize != pageSize then None
        else token
  }

  ghost predicate IsMac(mac: seq<Byte> -> seq<Byte>)
  {
    forall payload :: |mac(payload)| == MAC_SIZE
  }

  /** Every valid token encodes, within 460 characters of the 512 allowed. */
  lemma EncodeFits(mac: seq<Byte> -> seq<Byte>, t: Token)
    requires IsMac(mac) && ValidToken(t)
    ensures Encode(mac, t).Some? && |Encode(mac, t).value| <= 460
  {
    JsonAscii(t);
    JsonSize(t);
    var payload := Bytes(Json(t));
    Encode64Size(payload);
    Encode64Size(mac(payload));
    Size64Monotone(|payload|, 312);
  }

  /** A token decodes to itself, for its own tenant and page size and for no other. */
  lemma DecodeEncode(mac: seq<Byte> -> seq<Byte>, t: Token, tenant: string, pageSize: int)
    requires IsMac(mac) && ValidToken(t)
    ensures Encode(mac, t).Some?
    ensures Decode(mac, Encode(mac, t).value, tenant, pageSize) ==
            if tenant == t.tenant && pageSize == t.pageSize then Some(t) else None
  {
    EncodeFits(mac, t);
    JsonAscii(t);
    var payload := Bytes(Json(t));
    var signature := mac(payload);
    Decode64Encode64(payload);
    Decode64Encode64(signature);
    CutJoined(Encode64(payload), '.', Encode64(signature));
    assert Encode(mac, t).value == Encode64(payload) + ['.'] + Encode64(signature);
    Encode64Size(payload);
    Encode64Size(signature);
    TextOfBytes(Json(t));
    ValidIsQuoteFree(t);
    JsonParses(t);
  }

  /** Whatever decodes is exactly the encoding of the token it decodes to. */
  lemma EncodeDecode(mac: seq<Byte> -> seq<Byte>, encoded: string, tenant: string, pageSize: int)
    requires Decode(mac, encoded, tenant, pageSize).Some?
    ensures
      var t := Decode(mac, encoded, tenant, pageSize).value;
      ValidToken(t) && t.tenant == tenant && t.pageSize == pageSize && Encode(mac, t) == Some(encoded)
  {
    var t := Decode(mac, encoded, tenant, pageSize).value;
    var (first, second) := Cut(encoded, '.').value;
    CutSplits(encoded, '.');
    JsonAscii(t);
    BytesOfText(Decode64(first).value);
    assert Bytes(Json(t)) == Decode64(first).value;
  }
}
