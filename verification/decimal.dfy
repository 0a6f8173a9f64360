/** Decimal text of unsigned integers: Rust's `Display` (`to_string`, `{}` in
    `format!`) and `FromStr` (`str::parse`) for `u32`, `u64` and `usize`. */
module Decimal {
  import opened Wrappers
  import opened Numbers

  predicate IsDigit(c: char) {
    '0' <= c <= '9'
  }

  predicate AllDigits(s: string) {
    forall i | 0 <= i < |s| :: IsDigit(s[i])
  }

  function DigitValue(c: char): nat
    requires IsDigit(c)
  {
    c as int - '0' as int
  }

  function DigitChar(d: nat): (c: char)
    requires d < 10
    ensures IsDigit(c) && DigitValue(c) == d
  {
    ('0' as int + d) as char
  }

  /** The number a non-empty or empty run of digits denotes, most significant first. */
  function Value(s: string): nat
    requires AllDigits(s)
    decreases |s|
  {
    if |s| == 0 then 0 else Value(s[..|s| - 1]) * 10 + DigitValue(s[|s| - 1])
  }

  /** `Display` for an unsigned integer: digits only, no sign, no leading zero. */
  function Show(n: nat): (s: string)
    ensures |s| > 0 && AllDigits(s)
    ensures Value(s) == n
    ensures s[0] == '0' <==> n == 0
    ensures n == 0 ==> s == "0"
    decreases n
  {
    if n < 10 then [DigitChar(n)]
    else
      var s := Show(n / 10) + [DigitChar(n % 10)];
      assert s[..|s| - 1] == Show(n / 10);
      s
  }

  /** Digits as `Display` writes them: at least one, and no leading zero
      unless the number is zero itself. */
  predicate Canonical(s: string) {
    |s| > 0 && AllDigits(s) && (|s| == 1 || s[0] != '0')
  }

  /** `Display` is the only canonical spelling of a number: canonical digits
      are exactly the printed form of the value they denote. */
  lemma {:induction false} CanonicalIsShow(s: string)
    requires AllDigits(s)
    ensures Canonical(s) <==> s == Show(Value(s))
    decreases |s|
  {
    if Canonical(s) && |s| > 1 {
      var p := s[..|s| - 1];
      assert p[0] == s[0];
      CanonicalIsShow(p);
      var n := Value(s);
      assert n / 10 == Value(p) && n % 10 == DigitValue(s[|s| - 1]);
      assert Show(n) == Show(n / 10) + [DigitChar(n % 10)];
      assert s == p + [s[|s| - 1]];
    }
  }

  /** `FromStr` for an unsigned integer type whose values lie below `limit`:
      an optional leading '+', then at least one ASCII digit and nothing else,
      denoting a value that fits the type. Empty input, a lone '+', a '-', a
      space or any other character, and overflow are all errors. */
  function ParseUnsigned(s: string, limit: nat): (r: Option<nat>)
    ensures r.Some? ==> r.value < limit
    ensures r.Some? ==> |s| > 0 && (IsDigit(s[0]) || s[0] == '+')
    ensures |s| > 0 && AllDigits(s) ==> (r.Some? <==> Value(s) < limit)
    ensures |s| > 0 && AllDigits(s) && r.Some? ==> r.value == Value(s)
    ensures |s| > 1 && s[0] == '+' && AllDigits(s[1..]) ==> (r.Some? <==> Value(s[1..]) < limit)
    ensures r.Some? ==>
              || (AllDigits(s) && r.value == Value(s))
              || (|s| > 1 && s[0] == '+' && AllDigits(s[1..]) && r.value == Value(s[1..]))
  {
    var digits := if |s| > 0 && s[0] == '+' then s[1..] else s;
    if |digits| == 0 || !AllDigits(digits) then None
    else if Value(digits) < limit then Some(Value(digits))
    else None
  }

  /** `str::parse::<u32>()`. */
  function ParseU32(s: string): (r: Option<U32>)
    ensures |s| > 0 && AllDigits(s) ==> (r.Some? <==> Value(s) <= 4_294_967_295)
    ensures r.Some? ==> ParseUnsigned(s, U32_LIMIT) == Some(r.value as nat)
    ensures r.None? ==> ParseUnsigned(s, U32_LIMIT).None?
  {
    match ParseUnsigned(s, U32_LIMIT)
    case None => None
    case Some(v) => Some(v)
  }

  /** `str::parse::<usize>()` on a 64-bit target. */
  function ParseUsize(s: string): (r: Option<U64>)
    ensures |s| > 0 && AllDigits(s) ==> (r.Some? <==> Value(s) <= 18_446_744_073_709_551_615)
    ensures r.Some? ==> ParseUnsigned(s, U64_LIMIT) == Some(r.value as nat)
    ensures r.None? ==> ParseUnsigned(s, U64_LIMIT).None?
  {
    match ParseUnsigned(s, U64_LIMIT)
    case None => None
    case Some(v) => Some(v)
  }

  /** Printing a value and parsing it back yields the value. */
  lemma ParseShow(n: nat, limit: nat)
    requires n < limit
    ensures ParseUnsigned(Show(n), limit) == Some(n)
  {
  }

  lemma ParseU32Show(n: U32)
    ensures ParseU32(Show(n)) == Some(n)
  {
    ParseShow(n, U32_LIMIT);
  }

  /** The two parsers differ exactly in width: 2^32 is too large for a `u32`
      but is a `usize`. */
  lemma ParseWidths()
    ensures ParseU32(Show(U32_LIMIT - 1)) == Some(U32_LIMIT - 1)
    ensures ParseU32(Show(U32_LIMIT)) == None
    ensures ParseUsize(Show(U32_LIMIT)) == Some(U32_LIMIT)
  {
    ParseShow(U32_LIMIT - 1, U32_LIMIT);
    ParseShow(U32_LIMIT, U64_LIMIT);
  }

  /** A leading zero does not change the value of a run of digits. */
  lemma {:induction false} LeadingZero(s: string)
    requires AllDigits(s)
    ensures AllDigits("0" + s) && Value("0" + s) == Value(s)
    decreases |s|
  {
    if |s| > 0 {
      var t := "0" + s;
      assert t[..|t| - 1] == "0" + s[..|s| - 1];
      LeadingZero(s[..|s| - 1]);
    }
  }

  /** The parser accepts other spellings of the same number: with a leading
      '+' or a leading zero. So printing is not the only way to reach a value. */
  lemma OtherSpellings(n: nat, limit: nat)
    requires n < limit
    ensures ParseUnsigned("+" + Show(n), limit) == Some(n)
    ensures ParseUnsigned("0" + Show(n), limit) == Some(n)
    ensures "+" + Show(n) != Show(n) && "0" + Show(n) != Show(n)
  {
    assert ("+" + Show(n))[1..] == Show(n);
    LeadingZero(Show(n));
  }

  /** Length of the longest prefix of `s` made of digits. */
  function DigitRun(s: string): (k: nat)
    ensures k <= |s| && AllDigits(s[..k])
    ensures k < |s| ==> !IsDigit(s[k])
    decreases |s|
  {
    if |s| > 0 && IsDigit(s[0]) then
      var k := 1 + DigitRun(s[1..]);
      assert s[..k] == [s[0]] + s[1..][..k - 1];
      k
    else 0
  }

  /** A printed number followed by text that does not start with a digit is
      read back as exactly that number's digits. */
  lemma {:induction false} DigitRunOfShow(d: string, t: string)
    requires AllDigits(d)
    requires |t| == 0 || !IsDigit(t[0])
    ensures DigitRun(d + t) == |d|
    decreases |d|
  {
    if |d| > 0 {
      assert (d + t)[1..] == d[1..] + t;
      DigitRunOfShow(d[1..], t);
    } else {
      assert d + t == t;
    }
  }
}
