/**
 * Character-level helpers of the C code: NUL-terminated buffers,
 * pg_strncasecmp and printf's integer conversions.
 */
module Text {

  const Nul: char := '\0'

  /** The string a C routine reads from a buffer: everything before the first NUL. */
  function CStr(s: seq<char>): (r: seq<char>)
    ensures |r| <= |s| && r == s[..|r|]
    ensures Nul !in r
    ensures |r| < |s| ==> s[|r|] == Nul
  {
    if s == [] || s[0] == Nul then [] else [s[0]] + CStr(s[1..])
  }

  /** A buffer holding `text`, its terminating NUL and anything after it reads back as `text`. */
  lemma {:induction false} CStrOfTerminated(text: seq<char>, rest: seq<char>)
    requires Nul !in text
    ensures CStr(text + [Nul] + rest) == text
  {
    if text != [] {
      assert (text + [Nul] + rest)[1..] == text[1..] + [Nul] + rest;
      CStrOfTerminated(text[1..], rest);
    }
  }

  /** pg_tolower for the ASCII range: 'A'..'Z' become 'a'..'z', everything else is kept. */
  function ToLowerAscii(c: char): (r: char)
    ensures r == Nul <==> c == Nul
    ensures ('A' <= c <= 'Z') == (r != c)
    ensures 'A' <= c <= 'Z' ==> r as int == c as int - 'A' as int + 'a' as int
  {
    if 'A' <= c <= 'Z' then (c as int - 'A' as int + 'a' as int) as char else c
  }

  /**
   * pg_strncasecmp(s1, s2, n) == 0 on C strings: a position past the end of a
   * string reads as NUL, and the comparison stops early when both strings end.
   * A match agrees up to case on each of the first `n` positions that both
   * strings have before `s1` ends.
   */
  function CaseEqualPrefix(s1: string, s2: string, n: nat): (equal: bool)
    ensures equal ==> forall i :: 0 <= i < n && i < |s1| && i < |s2| && Nul !in s1[..i] ==>
      ToLowerAscii(s1[i]) == ToLowerAscii(s2[i])
    decreases n
  {
    if n == 0 then true
    else
      var c1 := if |s1| > 0 then s1[0] else Nul;
      var c2 := if |s2| > 0 then s2[0] else Nul;
      if c1 != c2 && ToLowerAscii(c1) != ToLowerAscii(c2) then false
      else if c1 == Nul then true
      else CaseEqualPrefix(s1[1..], if |s2| > 0 then s2[1..] else [], n - 1)
  }

  /**
   * Against a prefix of at least `n` characters with no NUL in it, the comparison
   * succeeds exactly when `s` is at least `n` long and agrees with the prefix, up
   * to ASCII case, on its first `n` characters.
   */
  lemma {:induction false} CaseEqualPrefixMeans(s: string, prefix: string, n: nat)
    requires n <= |prefix| && Nul !in prefix
    ensures CaseEqualPrefix(s, prefix, n) <==>
      n <= |s| && forall i :: 0 <= i < n ==> ToLowerAscii(s[i]) == ToLowerAscii(prefix[i])
  {
    if n > 0 {
      assert prefix[0] in prefix;
      if |s| > 0 && ToLowerAscii(s[0]) == ToLowerAscii(prefix[0]) {
        CaseEqualPrefixMeans(s[1..], prefix[1..], n - 1);
        if n <= |s| {
          forall i | 1 <= i < n
            ensures s[i] == s[1..][i - 1] && prefix[i] == prefix[1..][i - 1]
          {
          }
        }
      }
    }
  }

  /** A digit printf writes in `base` (at most 16), lower-case as %x writes them. */
  predicate IsDigitIn(c: char, base: nat) {
    || ('0' <= c <= '9' && c as int - '0' as int < base)
    || ('a' <= c <= 'f' && c as int - 'a' as int + 10 < base)
  }

  /** The character of digit `d`. */
  function DigitChar(d: nat): (c: char)
    requires d < 16
    ensures IsDigitIn(c, d + 1) && DigitValue(c) == d
  {
    if d < 10 then ('0' as int + d) as char else ('a' as int + d - 10) as char
  }

  /** Value of a digit character (zero for any other character). */
  function DigitValue(c: char): nat
  {
    if '0' <= c <= '9' then c as int - '0' as int
    else if 'a' <= c <= 'f' then c as int - 'a' as int + 10
    else 0
  }

  /** The digits of `n` in `base`, most significant first, without leading zeros. */
  function NatToString(n: nat, base: nat): (r: string)
    requires 2 <= base <= 16
    ensures |r| >= 1
    ensures forall i :: 0 <= i < |r| ==> IsDigitIn(r[i], base)
    ensures r[0] == '0' <==> n == 0
    decreases n
  {
    if n < base then [DigitChar(n)]
    else
      var q, d := n / base, n % base;
      DivModShrink(n, base);
      NatToString(q, base) + [DigitChar(d)]
  }

  lemma DivModShrink(n: nat, base: nat)
    requires 2 <= base <= n
    ensures n / base < n && 0 <= n % base < base
  {
    var q := n / base;
    AtLeastTwice(base, q);
  }

  lemma {:induction false} AtLeastTwice(b: nat, q: nat)
    requires b >= 2
    ensures b * q >= 2 * q
  {
    if q > 0 {
      AtLeastTwice(b, q - 1);
      assert b * q == b * (q - 1) + b;
    }
  }

  /** Reads digits in `base`, most significant first. */
  function StringToNat(s: string, base: nat): nat
  {
    if s == [] then 0 else StringToNat(s[..|s| - 1], base) * base + DigitValue(s[|s| - 1])
  }

  lemma StringToNatSnoc(p: string, c: char, base: nat)
    ensures StringToNat(p + [c], base) == StringToNat(p, base) * base + DigitValue(c)
  {
    assert (p + [c])[..|p|] == p;
  }

  /** Digits read back in their base give the number they were written from. */
  lemma {:induction false} NatToStringRoundTrip(n: nat, base: nat)
    requires 2 <= base <= 16
    ensures StringToNat(NatToString(n, base), base) == n
  {
    if n < base {
      StringToNatSnoc([], DigitChar(n), base);
      assert [] + [DigitChar(n)] == [DigitChar(n)];
    } else {
      var q, d := n / base, n % base;
      DivModShrink(n, base);
      NatToStringRoundTrip(q, base);
      LastDigitRoundTrip(n, base);
    }
  }

  lemma DivModParts(n: nat, base: nat)
    requires base > 0
    ensures (n / base) * base + n % base == n
  {
  }

  /** The last digit of `n` extends the digits of `n / base`, and reads back accordingly. */
  lemma LastDigitRoundTrip(n: nat, base: nat)
    requires 2 <= base <= n && base <= 16
    ensures StringToNat(NatToString(n, base), base) ==
      StringToNat(NatToString(n / base, base), base) * base + n % base
    ensures (n / base) * base + n % base == n
  {
    DivModParts(n, base);
    var p, c := NatToString(n / base, base), DigitChar(n % base);
    assert NatToString(n, base) == p + [c];
    StringToNatSnoc(p, c, base);
  }

  /** printf's %d: an optional minus sign, then decimal digits. */
  function Decimal(n: int): (r: string)
    ensures ',' !in r && '\n' !in r && Nul !in r
  {
    var digits := NatToString(if n < 0 then -n else n, 10);
    assert forall c :: c in digits ==> IsDigitIn(c, 10);
    if n < 0 then "-" + digits else digits
  }

  /** Reads what %d writes. */
  function ParseDecimal(s: string): int
  {
    if |s| > 0 && s[0] == '-' then -(StringToNat(s[1..], 10) as int) else StringToNat(s, 10)
  }

  lemma DecimalRoundTrip(n: int)
    ensures ParseDecimal(Decimal(n)) == n
  {
    var digits := NatToString(if n < 0 then -n else n, 10);
    NatToStringRoundTrip(if n < 0 then -n else n, 10);
    if n >= 0 {
      assert IsDigitIn(digits[0], 10);
    } else {
      assert ("-" + digits)[1..] == digits;
    }
  }

  /** printf's %x and %lx of a value already reinterpreted as unsigned. */
  function Hex(n: nat): (r: string)
    ensures ',' !in r && '.' !in r && '\n' !in r
    ensures StringToNat(r, 16) == n
  {
    var digits := NatToString(n, 16);
    NatToStringRoundTrip(n, 16);
    assert forall c :: c in digits ==> IsDigitIn(c, 16);
    digits
  }

  const TwoTo32: nat := 0x1_0000_0000
  const TwoTo64: nat := 0x1_0000_0000_0000_0000

  /** An int read as C's unsigned int (%x): two's complement, modulo 2^32. */
  function Unsigned32(n: int): (r: nat)
    ensures r < TwoTo32 && (r - n) % TwoTo32 == 0
    ensures 0 <= n < TwoTo32 ==> r == n
  {
    n % TwoTo32
  }

  /** A long read as C's unsigned long (%lx): two's complement, modulo 2^64. */
  function Unsigned64(n: int): (r: nat)
    ensures r < TwoTo64 && (r - n) % TwoTo64 == 0
    ensures 0 <= n < TwoTo64 ==> r == n
  {
    n % TwoTo64
  }

  /** printf's %03d for a value below 1000: exactly three digits, zero-padded. */
  function ThreeDigits(m: nat): (r: string)
    requires m < 1000
    ensures |r| == 3 && StringToNat(r, 10) == m
    ensures forall i :: 0 <= i < 3 ==> IsDigitIn(r[i], 10)
  {
    var h, rest := m / 100, m % 100;
    var t, u := rest / 10, rest % 10;
    var r := [DigitChar(h), DigitChar(t), DigitChar(u)];
    StringToNatSnoc([], r[0], 10);
    assert [] + [r[0]] == r[..1];
    StringToNatSnoc(r[..1], r[1], 10);
    assert r[..1] + [r[1]] == r[..2];
    StringToNatSnoc(r[..2], r[2], 10);
    assert r[..2] + [r[2]] == r;
    r
  }

}
