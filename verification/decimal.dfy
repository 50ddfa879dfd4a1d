/**
 * Decimal text of integers, as Rust's `to_string` on `i64` renders it:
 * an optional `-` followed by the digits of the magnitude, with no leading
 * zero unless the number is zero. A small parser is the printer's inverse.
 */
module Decimal {
  import opened Wrappers

  predicate IsDigit(c: char) {
    '0' <= c <= '9'
  }

  predicate AllDigits(s: string) {
    forall i :: 0 <= i < |s| ==> IsDigit(s[i])
  }

  /** A non-empty digit string with no superfluous leading zero. */
  predicate CanonicalDigits(s: string) {
    |s| > 0 && AllDigits(s) && (s[0] == '0' ==> |s| == 1)
  }

  /** The decimal text of some integer in canonical form; there is no `-0`. */
  predicate IsCanonical(s: string) {
    || CanonicalDigits(s)
    || (|s| > 1 && s[0] == '-' && CanonicalDigits(s[1..]) && s[1..] != "0")
  }

  /** The numeric value of a digit character. */
  function CharValue(c: char): (d: nat)
    requires IsDigit(c)
    ensures d < 10
  {
    c as int - '0' as int
  }

  /** The character of a single decimal digit. */
  function DigitChar(d: nat): (c: char)
    requires d < 10
    ensures IsDigit(c) && CharValue(c) == d
  {
    ('0' as int + d) as char
  }

  lemma DigitCharOfValue(c: char)
    requires IsDigit(c)
    ensures DigitChar(CharValue(c)) == c
  {
  }

  /** The digits of a natural number, most significant first. */
  function ShowNat(n: nat): (s: string)
    ensures CanonicalDigits(s)
    ensures s == "0" <==> n == 0
    decreases n
  {
    if n < 10 then [DigitChar(n)] else ShowNat(n / 10) + [DigitChar(n % 10)]
  }

  /** The decimal text of an integer: a `-` exactly for negative numbers. */
  function Show(n: int): (s: string)
    ensures IsCanonical(s)
    ensures s[0] == '-' <==> n < 0
  {
    if n < 0 then
      var m := ShowNat(-n);
      assert ("-" + m)[1..] == m;
      "-" + m
    else
      ShowNat(n)
  }

  /** The number a digit string denotes (leading zeros allowed). */
  function DigitsValue(s: string): nat
    requires AllDigits(s)
    decreases |s|
  {
    if |s| == 0 then 0 else DigitsValue(s[..|s| - 1]) * 10 + CharValue(s[|s| - 1])
  }

  /**
   * Parses an optional `-` followed by at least one digit. Leading zeros and
   * `-0` are accepted; anything else is rejected.
   */
  function Parse(s: string): (r: Option<int>)
    ensures r.Some? <==> (|s| > 0 && (AllDigits(s) || (s[0] == '-' && |s| > 1 && AllDigits(s[1..]))))
    ensures r.Some? && |s| > 0 && s[0] == '-' ==> r.value <= 0
    ensures r.Some? && |s| > 0 && s[0] != '-' ==> r.value >= 0
  {
    if |s| == 0 then None
    else if s[0] == '-' then
      if |s| > 1 && AllDigits(s[1..]) then Some(-(DigitsValue(s[1..]) as int)) else None
    else if AllDigits(s) then Some(DigitsValue(s))
    else None
  }

  /** Reading back the digits of a natural number gives the number. */
  lemma {:induction false} DigitsValueOfShowNat(n: nat)
    ensures DigitsValue(ShowNat(n)) == n
    decreases n
  {
    var s := ShowNat(n);
    if n < 10 {
      assert s[..0] == [];
    } else {
      var p := ShowNat(n / 10);
      assert s == p + [DigitChar(n % 10)];
      assert s[..|s| - 1] == p;
      DigitsValueOfShowNat(n / 10);
    }
  }

  /** Printing the value of a canonical digit string gives the string back. */
  lemma {:induction false} ShowNatOfDigitsValue(s: string)
    requires CanonicalDigits(s)
    ensures ShowNat(DigitsValue(s)) == s
    decreases |s|
  {
    var last := s[|s| - 1];
    var p := s[..|s| - 1];
    if |s| == 1 {
      assert p == [];
      DigitCharOfValue(last);
      assert ShowNat(DigitsValue(s)) == [last];
    } else {
      assert p[0] == s[0] != '0';
      assert CanonicalDigits(p);
      ShowNatOfDigitsValue(p);
      var v := DigitsValue(p);
      assert v != 0;
      DigitCharOfValue(last);
      assert DigitsValue(s) / 10 == v && DigitsValue(s) % 10 == CharValue(last);
      assert s == p + [last];
    }
  }

  /** Round trip: parsing the text of `n` gives back `n`. */
  lemma ParseShow(n: int)
    ensures Parse(Show(n)) == Some(n)
  {
    if n < 0 {
      DigitsValueOfShowNat(-n);
      assert Show(n)[1..] == ShowNat(-n);
    } else {
      DigitsValueOfShowNat(n);
    }
  }

  /** Every canonical text is the text of the number it parses to. */
  lemma ShowParse(s: string)
    requires IsCanonical(s)
    ensures Parse(s).Some? && Show(Parse(s).value) == s
  {
    if CanonicalDigits(s) {
      ShowNatOfDigitsValue(s);
    } else {
      var t := s[1..];
      ShowNatOfDigitsValue(t);
      assert DigitsValue(t) != 0;
      assert s == "-" + t;
    }
  }

  /** Different integers have different texts. */
  lemma ShowInjective(a: int, b: int)
    ensures Show(a) == Show(b) ==> a == b
  {
    ParseShow(a);
    ParseShow(b);
  }

  function Pow10(k: nat): (p: nat)
    ensures p >= 1
  {
    if k == 0 then 1 else 10 * Pow10(k - 1)
  }

  /** A number below `10^k` has at most `k` digits. */
  lemma {:induction false} ShowNatLength(n: nat, k: nat)
    requires 1 <= k && n < Pow10(k)
    ensures |ShowNat(n)| <= k
    decreases k
  {
    if n >= 10 {
      assert k > 1;
      assert n / 10 < Pow10(k - 1);
      ShowNatLength(n / 10, k - 1);
    }
  }

  /**
   * Renders a natural number least significant digit first, the way an
   * integer formatter fills its buffer from the end.
   */
  method RenderNat(n: nat) returns (s: string)
    ensures s == ShowNat(n)
  {
    var m := n;
    s := [];
    while m >= 10
      invariant ShowNat(m) + s == ShowNat(n)
      decreases m
    {
      var d := DigitChar(m % 10);
      assert ShowNat(m) == ShowNat(m / 10) + [d];
      s := [d] + s;
      m := m / 10;
    }
    s := [DigitChar(m)] + s;
  }

  /** Renders an integer: the magnitude's digits, then the sign in front. */
  method Render(n: int) returns (s: string)
    ensures s == Show(n)
  {
    if n < 0 {
      s := RenderNat(-n);
      s := "-" + s;
    } else {
      s := RenderNat(n);
    }
  }

}
