/** Lower-case hexadecimal numerals as printf's "%02lx" writes them. */
module Hex {

  predicate IsDigit(c: char) {
    '0' <= c <= '9' || 'a' <= c <= 'f'
  }

  predicate IsDigits(s: string) {
    forall i :: 0 <= i < |s| ==> IsDigit(s[i])
  }

  function DigitValue(c: char): (d: nat)
    requires IsDigit(c)
    ensures d < 16
  {
    if c <= '9' then c as int - '0' as int else c as int - 'a' as int + 10
  }

  function DigitChar(d: nat): (c: char)
    requires d < 16
    ensures IsDigit(c) && DigitValue(c) == d
  {
    if d < 10 then ('0' as int + d) as char else ('a' as int + d - 10) as char
  }

  /** The numeric value of a numeral, most significant digit first. */
  function Value(s: string): (v: nat)
    requires IsDigits(s)
  {
    if s == [] then 0 else 16 * Value(s[..|s| - 1]) + DigitValue(s[|s| - 1])
  }

  function Pow16(k: nat): (p: nat)
    ensures p >= 1
  {
    if k == 0 then 1 else 16 * Pow16(k - 1)
  }

  /** The shortest numeral of n: "0" for zero, otherwise without leading zeros. */
  function Digits(n: nat): (s: string)
    decreases n
  {
    if n < 16 then [DigitChar(n)] else Digits(n / 16) + [DigitChar(n % 16)]
  }

  /** "%02lx": the shortest numeral, padded with zeros to at least two digits. */
  function Format02(n: nat): (s: string)
    ensures |s| >= 2
  {
    var d := Digits(n);
    if |d| < 2 then "0" + d else d
  }

  /** What a "%02lx" conversion may look like: at least two lower-case hex
      digits, and a leading zero only when it is needed for the width. */
  predicate Canonical02(s: string) {
    |s| >= 2 && IsDigits(s) && (|s| > 2 ==> s[0] != '0')
  }

  lemma {:induction false} DigitsCorrect(n: nat)
    ensures IsDigits(Digits(n)) && Value(Digits(n)) == n
    ensures |Digits(n)| >= 1 && (|Digits(n)| == 1 <==> n < 16)
    ensures n >= 16 ==> Digits(n)[0] != '0'
    decreases n
  {
    if n >= 16 {
      var p := Digits(n / 16);
      DigitsCorrect(n / 16);
      var s := p + [DigitChar(n % 16)];
      assert s[..|s| - 1] == p;
      assert Value(s) == 16 * (n / 16) + n % 16;
      if n / 16 < 16 {
        assert p[0] == DigitChar(n / 16);
      }
      assert s[0] == p[0];
    }
  }

  /** The "%02lx" numeral of n is canonical and denotes exactly n. */
  lemma Format02Correct(n: nat)
    ensures Canonical02(Format02(n)) && Value(Format02(n)) == n
    ensures |Format02(n)| == 2 <==> n < 0x100
  {
    DigitsCorrect(n);
    var d := Digits(n);
    var s := Format02(n);
    if |d| < 2 {
      assert s == ['0', d[0]];
      assert s[..1] == ['0'];
      assert Value(s) == Value(d) by {
        assert ['0'][..0] == [];
        assert d[..0] == [];
      }
    } else {
      LeadingDigitBounds(d);
      if |d| > 2 {
        Pow16Monotone(2, |d| - 1);
      }
    }
  }

  lemma {:induction false} ValueBelowPow16(s: string)
    requires IsDigits(s)
    ensures Value(s) < Pow16(|s|)
    decreases |s|
  {
    if s != [] {
      ValueBelowPow16(s[..|s| - 1]);
    }
  }

  lemma {:induction false} ValueAtLeastLeading(s: string)
    requires IsDigits(s) && |s| >= 1 && s[0] != '0'
    ensures Value(s) >= Pow16(|s| - 1)
    decreases |s|
  {
    if |s| > 1 {
      var init := s[..|s| - 1];
      assert init[0] == s[0];
      ValueAtLeastLeading(init);
    } else {
      assert s[..0] == [];
    }
  }

  /** A numeral of k digits without a leading zero lies in [16^(k-1), 16^k). */
  lemma LeadingDigitBounds(s: string)
    requires IsDigits(s) && |s| >= 1 && s[0] != '0'
    ensures Pow16(|s| - 1) <= Value(s) < Pow16(|s|)
  {
    ValueBelowPow16(s);
    ValueAtLeastLeading(s);
  }

  lemma {:induction false} Pow16Monotone(i: nat, j: nat)
    requires i <= j
    ensures Pow16(i) <= Pow16(j)
    decreases j - i
  {
    if i < j {
      Pow16Monotone(i, j - 1);
    }
  }

  lemma DigitValueInjective(c: char, d: char)
    requires IsDigit(c) && IsDigit(d) && DigitValue(c) == DigitValue(d)
    ensures c == d
  {
  }

  /** Two numerals of one length that denote one number are the same string. */
  lemma {:induction false} SameLengthSameValue(s: string, t: string)
    requires IsDigits(s) && IsDigits(t) && |s| == |t| && Value(s) == Value(t)
    ensures s == t
    decreases |s|
  {
    if s != [] {
      var a, b := Value(s[..|s| - 1]), Value(t[..|t| - 1]);
      var x, y := DigitValue(s[|s| - 1]), DigitValue(t[|t| - 1]);
      assert 16 * a + x == 16 * b + y;
      assert a == b;
      SameLengthSameValue(s[..|s| - 1], t[..|t| - 1]);
      DigitValueInjective(s[|s| - 1], t[|t| - 1]);
      assert s == s[..|s| - 1] + [s[|s| - 1]];
      assert t == t[..|t| - 1] + [t[|t| - 1]];
    }
  }

  /** "%02lx" is the only canonical numeral of n: the encoding is pinned down
      by value, digit set, minimum width and the absence of extra zeros. */
  lemma Format02Unique(n: nat, s: string)
    requires Canonical02(s) && Value(s) == n
    ensures s == Format02(n)
  {
    var t := Format02(n);
    Format02Correct(n);
    if |s| > |t| {
      CanonicalLongerIsLarger(s, t);
    } else if |t| > |s| {
      CanonicalLongerIsLarger(t, s);
    }
    SameLengthSameValue(s, t);
  }

  lemma CanonicalLongerIsLarger(s: string, t: string)
    requires Canonical02(s) && Canonical02(t) && |s| > |t|
    ensures Value(s) > Value(t)
  {
    LeadingDigitBounds(s);
    ValueBelowPow16(t);
    Pow16Monotone(|t|, |s| - 1);
  }

  /** Different numbers give different "%02lx" numerals. */
  lemma Format02Injective(m: nat, n: nat)
    requires Format02(m) == Format02(n)
    ensures m == n
  {
    Format02Correct(m);
    Format02Correct(n);
  }
}
