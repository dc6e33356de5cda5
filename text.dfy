/** Decimal rendering of natural numbers, as Python's f-string `{n}` writes an int,
    and the facts about it that make the generated identifiers distinct. */
module Text {

  predicate IsDigit(c: char) {
    '0' <= c <= '9'
  }

  predicate AllDigits(s: string) {
    forall i :: 0 <= i < |s| ==> IsDigit(s[i])
  }

  function DigitChar(d: nat): (c: char)
    requires d < 10
    ensures IsDigit(c) && c as int - '0' as int == d
  {
    ('0' as int + d) as char
  }

  /** The shortest decimal numeral of `n` (no sign, no leading zeros). */
  function NatToString(n: nat): (s: string)
    ensures |s| > 0 && AllDigits(s)
    ensures |s| > 1 ==> s[0] != '0'
  {
    if n < 10 then [DigitChar(n)] else NatToString(n / 10) + [DigitChar(n % 10)]
  }

  /** True of every numeral and of every identifier that ends in one. */
  predicate EndsInDigit(s: string) {
    |s| > 0 && IsDigit(s[|s| - 1])
  }

  lemma {:induction false} EndsInNumeral(p: string, n: nat)
    ensures EndsInDigit(p + NatToString(n))
  {
    var s := NatToString(n);
    assert (p + s)[|p + s| - 1] == s[|s| - 1];
  }

  /** The value of a numeral; the inverse of NatToString. */
  function ParseNat(s: string): nat
    requires AllDigits(s)
  {
    if s == [] then 0
    else ParseNat(s[..|s| - 1]) * 10 + (s[|s| - 1] as int - '0' as int)
  }

  lemma {:induction false} ParseNatToString(n: nat)
    ensures ParseNat(NatToString(n)) == n
  {
    if n >= 10 {
      var s := NatToString(n);
      assert s[..|s| - 1] == NatToString(n / 10);
      ParseNatToString(n / 10);
    }
  }

  lemma {:induction false} NatToStringInjective(a: nat, b: nat)
    ensures NatToString(a) == NatToString(b) ==> a == b
  {
    ParseNatToString(a);
    ParseNatToString(b);
  }

  /** A fixed prefix followed by a numeral determines the number. */
  lemma {:induction false} PrefixedNatInjective(p: string, a: nat, b: nat)
    ensures p + NatToString(a) == p + NatToString(b) ==> a == b
  {
    if p + NatToString(a) == p + NatToString(b) {
      assert (p + NatToString(a))[|p|..] == NatToString(a);
      assert (p + NatToString(b))[|p|..] == NatToString(b);
      NatToStringInjective(a, b);
    }
  }

  /** Two digit strings each followed by the same non-digit separator split a
      string at the same place. */
  lemma {:induction false} SplitAtSeparator(a: string, b: string, c: char, x: string, y: string)
    requires AllDigits(a) && AllDigits(b) && !IsDigit(c)
    requires a + [c] + x == b + [c] + y
    ensures a == b && x == y
  {
    var s := a + [c] + x;
    assert s[|a|] == c && s[|b|] == c;
    assert forall i :: 0 <= i < |a| ==> s[i] == a[i];
    assert forall i :: 0 <= i < |b| ==> s[i] == b[i];
    assert a == s[..|a|] == b;
    assert x == s[|a| + 1..] == y;
  }
}
