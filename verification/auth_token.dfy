/** The access-token check of the ESI client (`auth_tok_valid` and the
    `Authorization` header of `esi_get` in crates/esi/src/lib.rs).

    A token is accepted when it has the three dot-separated parts of a JSON
    Web Token and its middle part, padded with '=' to a multiple of four
    bytes and decoded, carries an `exp` claim later than now. Base64 and
    JSON decoding and the clock are oracles passed in by the caller. */
module AuthToken {
  import opened Wrappers
  import opened Numbers

  type Byte = x: int | 0 <= x < 256

  /** Number of occurrences of `c` in `s`. */
  function Count(s: string, c: char): nat
    decreases |s|
  {
    if |s| == 0 then 0 else (if s[0] == c then 1 else 0) + Count(s[1..], c)
  }

  /** Puts `sep` between consecutive parts. */
  function Join(parts: seq<string>, sep: char): string
    requires |parts| > 0
    decreases |parts|
  {
    if |parts| == 1 then parts[0] else parts[0] + [sep] + Join(parts[1..], sep)
  }

  /** `str::split(sep)`: the maximal pieces between separators, empty pieces
      included, so one more piece than there are separators. */
  function Split(s: string, sep: char): (parts: seq<string>)
    ensures |parts| == Count(s, sep) + 1
    ensures forall i | 0 <= i < |parts| :: sep !in parts[i]
    ensures Join(parts, sep) == s
    decreases |s|
  {
    if |s| == 0 then [""]
    else
      var rest := Split(s[1..], sep);
      if s[0] == sep then
        var parts := [""] + rest;
        assert parts[1..] == rest;
        parts
      else
        var parts := [[s[0]] + rest[0]] + rest[1..];
        assert parts[1..] == rest[1..];
        assert |rest| > 1 ==> Join(rest, sep) == rest[0] + [sep] + Join(rest[1..], sep);
        parts
  }

  /** Splitting text that starts with a separator-free piece keeps that piece
      at the head of the first part. */
  lemma {:induction false} SplitAfterPiece(a: string, t: string, sep: char)
    requires sep !in a
    ensures Split(a + t, sep) == [a + Split(t, sep)[0]] + Split(t, sep)[1..]
    decreases |a|
  {
    if |a| > 0 {
      assert (a + t)[1..] == a[1..] + t;
      SplitAfterPiece(a[1..], t, sep);
      assert [a[0]] + (a[1..] + Split(t, sep)[0]) == a + Split(t, sep)[0];
    } else {
      var parts := Split(t, sep);
      assert a + t == t && a + parts[0] == parts[0];
      assert parts == [parts[0]] + parts[1..];
    }
  }

  /** Joining separator-free parts and splitting again gives the parts back. */
  lemma {:induction false} SplitJoin(parts: seq<string>, sep: char)
    requires |parts| > 0
    requires forall i | 0 <= i < |parts| :: sep !in parts[i]
    ensures Split(Join(parts, sep), sep) == parts
    decreases |parts|
  {
    if |parts| == 1 {
      SplitAfterPiece(parts[0], "", sep);
      assert parts[0] + "" == parts[0];
    } else {
      var u := Join(parts[1..], sep);
      SplitJoin(parts[1..], sep);
      assert ([sep] + u)[1..] == u;
      assert Split([sep] + u, sep) == [""] + parts[1..];
      assert parts[0] + [sep] + u == parts[0] + ([sep] + u);
      SplitAfterPiece(parts[0], [sep] + u, sep);
      assert parts[0] + "" == parts[0];
    }
  }

  /** `"=".repeat(k)`. */
  function Equals(k: nat): (r: string)
    ensures |r| == k && forall i | 0 <= i < k :: r[i] == '='
  {
    seq(k, _ => '=')
  }

  /** Bytes of a character in UTF-8 (section 3 of RFC 3629). */
  function CharBytes(c: char): (n: nat)
    ensures 1 <= n <= 4
    ensures n == 1 <==> c < 0x80 as char
  {
    if c < 0x80 as char then 1
    else if c < 0x800 as char then 2
    else if c < 0x1_0000 as char then 3
    else 4
  }

  /** `str::len`: the length of the UTF-8 encoding, in bytes. */
  function Utf8Len(s: string): nat
    decreases |s|
  {
    if |s| == 0 then 0 else Utf8Len(s[..|s| - 1]) + CharBytes(s[|s| - 1])
  }

  lemma {:induction false} Utf8LenAppend(a: string, b: string)
    ensures Utf8Len(a + b) == Utf8Len(a) + Utf8Len(b)
    decreases |b|
  {
    if |b| > 0 {
      assert (a + b)[..|a + b| - 1] == a + b[..|b| - 1];
      Utf8LenAppend(a, b[..|b| - 1]);
    } else {
      assert a + b == a;
    }
  }

  /** Each character takes at least one byte, and exactly one when all are
      ASCII. */
  lemma {:induction false} Utf8LenBounds(s: string)
    ensures Utf8Len(s) >= |s|
    ensures Utf8Len(s) == |s| <==> forall i | 0 <= i < |s| :: s[i] < 0x80 as char
    decreases |s|
  {
    if |s| > 0 {
      var t := s[..|s| - 1];
      Utf8LenBounds(t);
      assert forall i | 0 <= i < |t| :: t[i] == s[i];
    }
  }

  /** '=' is ASCII, so a run of k of them is k bytes. */
  lemma {:induction false} Utf8LenEquals(k: nat)
    ensures Utf8Len(Equals(k)) == k
  {
    Utf8LenBounds(Equals(k));
  }

  /** The payload padding of `auth_tok_valid`: unchanged when its byte length
      is a multiple of four, otherwise `4 - len % 4` '=' characters appended. */
  function Pad(p: string): (r: string)
    ensures Utf8Len(r) % 4 == 0
    ensures |p| <= |r| < |p| + 4
    ensures r[..|p|] == p
    ensures forall i | |p| <= i < |r| :: r[i] == '='
    ensures Utf8Len(r) == Utf8Len(p) + (|r| - |p|)
    ensures Utf8Len(p) % 4 == 0 ==> r == p
  {
    var n := Utf8Len(p) % 4;
    Utf8LenAppend(p, Equals(4 - n));
    Utf8LenEquals(4 - n);
    if n == 0 then p else p + Equals(4 - n)
  }

  /** The padding is the shortest run of '=' that makes the byte length a
      multiple of four: any other such run is the same or at least four
      longer. */
  lemma PadIsShortest(p: string, k: nat)
    requires (Utf8Len(p) + k) % 4 == 0
    ensures k < 4 ==> Pad(p) == p + Equals(k)
    ensures |Pad(p)| <= |p| + k
  {
    var r := Pad(p);
    if k < 4 {
      SameResidue(Utf8Len(p), |r| - |p|, k);
      assert r == r[..|p|] + r[|p|..];
    }
  }

  /** Two offsets below four that both bring `n` to a multiple of four are
      equal. */
  lemma SameResidue(n: int, d: int, k: int)
    requires 0 <= d < 4 && 0 <= k < 4
    requires (n + d) % 4 == 0 && (n + k) % 4 == 0
    ensures d == k
  {
    var q1, q2 := (n + d) / 4, (n + k) / 4;
    assert n + d == 4 * q1 && n + k == 4 * q2;
    assert d - k == 4 * (q1 - q2);
  }

  /** For an ASCII payload, the byte count is the character count. */
  lemma AsciiPad(p: string)
    requires forall i | 0 <= i < |p| :: p[i] < 0x80 as char
    ensures |Pad(p)| % 4 == 0
    ensures |p| % 4 == 0 ==> Pad(p) == p
  {
    Utf8LenBounds(p);
    var r := Pad(p);
    assert forall i | 0 <= i < |r| :: r[i] < 0x80 as char by {
      assert forall i | 0 <= i < |p| :: r[i] == p[i];
    }
    Utf8LenBounds(r);
  }

  /** What JSON decoding of the payload yields: not JSON at all, or an object
      whose `exp` member, when present and a `u64`, is reported. */
  datatype Payload = NotJson | Json(exp: Option<U64>)

  /** The expiry carried by a token's payload segment, if decoding succeeds. */
  function PayloadExp(segment: string, decode: string -> Option<seq<Byte>>, claims: seq<Byte> -> Payload): (exp: Option<U64>)
    ensures decode(Pad(segment)).None? ==> exp.None?
    ensures exp.Some? <==>
              && decode(Pad(segment)).Some?
              && claims(decode(Pad(segment)).value).Json?
              && claims(decode(Pad(segment)).value).exp.Some?
    ensures exp.Some? ==> claims(decode(Pad(segment)).value) == Json(exp)
  {
    match decode(Pad(segment))
    case None => None
    case Some(bytes) =>
      match claims(bytes)
      case NotJson => None
      case Json(exp) => exp
  }

  /** `auth_tok_valid`, with `now` the seconds since the Unix epoch. */
  function TokValid(tok: Option<string>, now: U64, decode: string -> Option<seq<Byte>>, claims: seq<Byte> -> Payload): (ok: bool)
    ensures tok.None? ==> !ok
    ensures tok.Some? && Count(tok.value, '.') != 2 ==> !ok
    ensures ok <==>
              && tok.Some? && Count(tok.value, '.') == 2
              && var e := PayloadExp(Split(tok.value, '.')[1], decode, claims); e.Some? && now < e.value
  {
    match tok
    case None => false
    case Some(t) =>
      var parts := Split(t, '.');
      if |parts| != 3 then false
      else
        match PayloadExp(parts[1], decode, claims)
        case None => false
        case Some(exp) => now < exp
  }

  /** A token of the shape header.payload.signature is judged by its payload
      alone: valid exactly when the payload names an expiry still ahead. */
  lemma ThreePartToken(h: string, p: string, s: string, now: U64, decode: string -> Option<seq<Byte>>, claims: seq<Byte> -> Payload)
    requires '.' !in h && '.' !in p && '.' !in s
    ensures TokValid(Some(h + "." + p + "." + s), now, decode, claims) <==>
              PayloadExp(p, decode, claims).Some? && now < PayloadExp(p, decode, claims).value
  {
    var parts := [h, p, s];
    assert Join(parts[1..], '.') == p + "." + s by {
      assert parts[1..][1..] == [s];
    }
    assert Join(parts, '.') == h + "." + p + "." + s;
    SplitJoin(parts, '.');
  }

  /** Characters of the standard base64 alphabet of RFC 4648, section 4, with
      its '=' padding. */
  predicate StandardBase64(c: char) {
    ('A' <= c <= 'Z') || ('a' <= c <= 'z') || ('0' <= c <= '9') || c == '+' || c == '/' || c == '='
  }

  /** A decoder for the standard alphabet refuses any text holding a character
      outside it. */
  ghost predicate StandardOnly(decode: string -> Option<seq<Byte>>) {
    forall t: string, i: int :: 0 <= i < |t| && !StandardBase64(t[i]) ==> decode(t).None?
  }

  /** JSON Web Tokens encode their parts in the URL-safe alphabet of RFC 4648,
      section 5 (section 2 of RFC 7515), whose '-' and '_' the standard decoder
      used here refuses: a token whose payload holds either is never valid,
      whatever its expiry. */
  lemma UrlSafePayloadRejected(h: string, p: string, s: string, i: nat, now: U64,
                               decode: string -> Option<seq<Byte>>, claims: seq<Byte> -> Payload)
    requires '.' !in h && '.' !in p && '.' !in s
    requires i < |p| && (p[i] == '-' || p[i] == '_')
    requires StandardOnly(decode)
    ensures !TokValid(Some(h + "." + p + "." + s), now, decode, claims)
  {
    ThreePartToken(h, p, s, now, decode, claims);
    var padded := Pad(p);
    assert padded[i] == p[i];
    assert decode(padded).None?;
  }

  /** The `Authorization` header `esi_get` attaches: a bearer token exactly
      when the token is valid. The "NOACL" fallback for a missing token is
      never sent, because a missing token is never valid. */
  function Authorization(tok: Option<string>, now: U64, decode: string -> Option<seq<Byte>>, claims: seq<Byte> -> Payload): (header: Option<string>)
    ensures header.Some? <==> TokValid(tok, now, decode, claims)
    ensures header.Some? ==> tok.Some? && header.value == "Bearer " + tok.value
  {
    if TokValid(tok, now, decode, claims) then
      Some("Bearer " + match tok case Some(t) => t case None => "NOACL")
    else None
  }
}
