/**
 `str(i)` for an integer `i`: its decimal digits, most significant first, with a
 leading `-` when negative and no leading zeros. `ParseDecimal` reads a digit string
 back; the two are inverse on canonical digit strings.
 */
module Decimal {

  predicate IsDigit(c: char)
  {
    '0' <= c <= '9'
  }

  function DigitChar(d: nat): (c: char)
    requires d < 10
    ensures IsDigit(c)
  {
    "0123456789"[d]
  }

  function DigitValue(c: char): (d: nat)
    requires IsDigit(c)
    ensures d < 10
  {
    (c as int - '0' as int)
  }

  /** `str(n)` for `n >= 0`. */
  function NatToString(n: nat): (s: string)
    decreases n
  {
    if n < 10 then [DigitChar(n)] else NatToString(n / 10) + [DigitChar(n % 10)]
  }

  /** `str(i)`. */
  function IntToString(i: int): (s: string)
  {
    if i < 0 then "-" + NatToString(-i) else NatToString(i)
  }

  predicate AllDigits(s: string)
  {
    forall k :: 0 <= k < |s| ==> IsDigit(s[k])
  }

  /** A digit string as `str` prints a natural number: non-empty, and no leading zero unless it is `"0"`. */
  predicate Canonical(s: string)
  {
    |s| > 0 && AllDigits(s) && (s[0] == '0' ==> |s| == 1)
  }

  /** `int(s)` for a string of digits. */
  function ParseDecimal(s: string): (n: nat)
    requires AllDigits(s)
    decreases |s|
  {
    if |s| == 0 then 0 else ParseDecimal(s[..|s| - 1]) * 10 + DigitValue(s[|s| - 1])
  }

  lemma DigitRoundTrip(d: nat)
    requires d < 10
    ensures DigitValue(DigitChar(d)) == d
  {
    assert "0123456789"[0] == '0';
    assert "0123456789"[d] as int == '0' as int + d by {
      assert forall j :: 0 <= j < 10 ==> "0123456789"[j] as int == '0' as int + j;
    }
  }

  /** The digits of a natural number are canonical, and in particular never contain `-`. */
  lemma {:induction false} NatToStringCanonical(n: nat)
    ensures Canonical(NatToString(n))
    ensures '-' !in NatToString(n)
    decreases n
  {
    if n >= 10 {
      NatToStringCanonical(n / 10);
      var s := NatToString(n);
      assert s == NatToString(n / 10) + [DigitChar(n % 10)];
      assert s[0] == NatToString(n / 10)[0];
      DigitRoundTrip(0);
      if s[0] == '0' {
        assert NatToString(n / 10) == "0";
        assert NatToString(n / 10) == [DigitChar(n / 10)];
        DigitRoundTrip(n / 10);
        assert false;
      }
    }
  }

  /** Reading back the digits of `n` gives `n`. */
  lemma {:induction false} ParseNatToString(n: nat)
    ensures AllDigits(NatToString(n))
    ensures ParseDecimal(NatToString(n)) == n
    decreases n
  {
    NatToStringCanonical(n);
    var s := NatToString(n);
    if n < 10 {
      assert s[..0] == [];
      DigitRoundTrip(n);
    } else {
      ParseNatToString(n / 10);
      assert s[..|s| - 1] == NatToString(n / 10);
      DigitRoundTrip(n % 10);
    }
  }

  /** A canonical digit string without its last digit reads as a positive number. */
  lemma {:induction false} ParseLeadingNonZero(s: string)
    requires AllDigits(s) && |s| > 0 && s[0] != '0'
    ensures ParseDecimal(s) > 0
    decreases |s|
  {
    if |s| == 1 {
      assert s[..0] == [];
    } else {
      ParseLeadingNonZero(s[..|s| - 1]);
    }
  }

  /** Printing the number a canonical digit string reads as gives the string back. */
  lemma {:induction false} NatToStringParse(s: string)
    requires Canonical(s)
    ensures NatToString(ParseDecimal(s)) == s
    decreases |s|
  {
    var n := ParseDecimal(s);
    var d := DigitValue(s[|s| - 1]);
    var p := s[..|s| - 1];
    assert DigitChar(d) == s[|s| - 1] by {
      assert forall j :: 0 <= j < 10 ==> "0123456789"[j] as int == '0' as int + j;
    }
    if |s| == 1 {
      assert p == [];
      assert ParseDecimal(p) == 0;
      assert n == d;
    } else {
      assert p[0] == s[0];
      ParseLeadingNonZero(p);
      NatToStringParse(p);
      assert n / 10 == ParseDecimal(p) && n % 10 == d;
      assert s == p + [s[|s| - 1]];
    }
  }
}
