/**
 * C strings and the "%d" conversion, as the formatter and the stat-line
 * parser see them.
 */
module CStrings {

  const NUL: char := '\0'

  /** isspace() in the C locale: space, \t, \n, \v, \f, \r */
  predicate IsSpace(c: char) {
    c == ' ' || 9 <= c as int <= 13
  }

  predicate IsDigit(c: char) {
    '0' <= c <= '9'
  }

  predicate AllDigits(s: string) {
    forall i :: 0 <= i < |s| ==> IsDigit(s[i])
  }

  /** The C string held by a buffer: everything before its first NUL. */
  function CStr(b: seq<char>): (r: string)
    ensures |r| <= |b| && r == b[..|r|]
    ensures NUL !in r
    ensures |r| < |b| ==> b[|r|] == NUL
    ensures NUL !in b ==> r == b
  {
    if b == [] || b[0] == NUL then [] else [b[0]] + CStr(b[1..])
  }

  /** The first `n` characters of `s` (all of it when it is shorter). */
  function Clip(s: string, n: nat): (r: string)
    ensures |r| == if |s| <= n then |s| else n
    ensures r == s[..|r|]
  {
    if |s| <= n then s else s[..n]
  }

  /** Clipping after every append gives the same text as clipping once at the end. */
  lemma ClipAppend(a: string, b: string, n: nat)
    ensures Clip(Clip(a, n) + b, n) == Clip(a + b, n)
  {
    if |a| > n {
      assert (Clip(a, n) + b)[..n] == (a + b)[..n];
    }
  }

  function DigitChar(d: nat): (c: char)
    requires d < 10
    ensures IsDigit(c) && c as int - '0' as int == d
  {
    ('0' as int + d) as char
  }

  /** "%u": the decimal digits of `n`, without leading zeros */
  function DecNat(n: nat): (r: string)
    ensures |r| >= 1 && AllDigits(r)
    ensures n < 10 <==> |r| == 1
    decreases n
  {
    if n < 10 then [DigitChar(n)] else DecNat(n / 10) + [DigitChar(n % 10)]
  }

  /** "%d": a minus sign for negative values, then the digits */
  function Dec(n: int): (r: string)
    ensures |r| >= 1
    ensures n >= 0 ==> AllDigits(r)
    ensures n < 0 ==> r[0] == '-' && AllDigits(r[1..])
  {
    if n < 0 then "-" + DecNat(-n) else DecNat(n)
  }

  /** The number a string of decimal digits denotes (the inverse of DecNat). */
  function DigitsValue(s: string): nat
    requires AllDigits(s)
  {
    if s == [] then 0
    else DigitsValue(s[..|s| - 1]) * 10 + (s[|s| - 1] as int - '0' as int)
  }

  lemma {:induction false} DecNatRoundTrip(n: nat)
    ensures DigitsValue(DecNat(n)) == n
    decreases n
  {
    if n >= 10 {
      var s := DecNat(n);
      assert s[..|s| - 1] == DecNat(n / 10);
      DecNatRoundTrip(n / 10);
    }
  }

  /** Two different naturals never have the same digits. */
  lemma DecNatInjective(m: nat, n: nat)
    requires DecNat(m) == DecNat(n)
    ensures m == n
  {
    DecNatRoundTrip(m);
    DecNatRoundTrip(n);
  }

  /** Two different numbers are never printed the same way by "%d". */
  lemma DecInjective(m: int, n: int)
    ensures Dec(m) == Dec(n) ==> m == n
  {
    if Dec(m) == Dec(n) {
      if m < 0 && n < 0 {
        assert Dec(m)[1..] == DecNat(-m);
        assert Dec(n)[1..] == DecNat(-n);
        DecNatInjective(-m, -n);
      } else if m >= 0 && n >= 0 {
        DecNatInjective(m, n);
      }
    }
  }

  /** A common prefix cancels. */
  lemma CancelPrefix(p: string, x: string, y: string)
    requires p + x == p + y
    ensures x == y
  {
    assert x == (p + x)[|p|..];
  }

  /** A common suffix cancels. */
  lemma CancelSuffix(x: string, y: string, q: string)
    requires x + q == y + q
    ensures x == y
  {
    assert x == (x + q)[..|x|];
  }
}
