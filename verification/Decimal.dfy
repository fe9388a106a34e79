/** `strconv.FormatInt` and `strconv.ParseInt` for base 10 and 64 bits. */
module Decimal {
  import opened Text

  predicate IsDigit(c: char) {
    '0' <= c <= '9'
  }

  function Digits(n: nat): (s: string)
    ensures s != "" && forall i :: 0 <= i < |s| ==> IsDigit(s[i])
  {
    if n < 10 then ['0' + n as char] else Digits(n / 10) + ['0' + (n % 10) as char]
  }

  function FormatInt(n: int): string {
    if n < 0 then "-" + Digits(-n) else Digits(n)
  }

  function ParseDigits(s: string): Option<nat> {
    if s == "" then None
    else
      var c := s[|s| - 1];
      if !IsDigit(c) then None
      else if |s| == 1 then Some((c - '0') as int)
      else
        match ParseDigits(s[..|s| - 1])
        case None => None
        case Some(n) => Some(10 * n + (c - '0') as int)
  }

  predicate IsInt64(n: int) {
    -0x8000_0000_0000_0000 <= n < 0x8000_0000_0000_0000
  }

  function ParseInt(s: string): Option<int> {
    if s == "" then None
    else
      var negative := s[0] == '-';
      match ParseDigits(if negative || s[0] == '+' then s[1..] else s)
      case None => None
      case Some(n) =>
        var v: int := if negative then 0 - n else n;
        if IsInt64(v) then Some(v) else None
  }

  lemma {:induction false} ParseDigitsOfDigits(n: nat)
    ensures ParseDigits(Digits(n)) == Some(n)
  {
    if n >= 10 {
      var s := Digits(n);
      assert s[..|s| - 1] == Digits(n / 10);
      ParseDigitsOfDigits(n / 10);
    }
  }

  lemma {:induction false} ParseFormatInt(n: int)
    requires IsInt64(n)
    ensures ParseInt(FormatInt(n)) == Some(n)
  {
    var s := Digits(if n < 0 then -n else n);
    ParseDigitsOfDigits(if n < 0 then -n else n);
    assert IsDigit(s[0]);
    assert ("-" + s)[1..] == s && ("-" + s)[0] == '-';
  }

  // ----- digit by digit

  const DIGITS := "0123456789"

  lemma {:induction false} DigitIs(d: nat)
    requires d < 10
    ensures IsDigit(DIGITS[d]) && DIGITS[d] == '0' + d as char && (DIGITS[d] - '0') as int == d
  {
  }

  /** The last digit is the remainder by ten, and a sign stands in front of negative numbers only. */
  lemma {:induction false} FormatDigit(n: nat, d: nat)
    requires d < 10
    ensures FormatInt(10 * n + d) == (if n == 0 then "" else FormatInt(n)) + [DIGITS[d]]
    ensures n + d > 0 ==> FormatInt(-(10 * n + d)) == "-" + FormatInt(10 * n + d)
  {
    DigitIs(d);
    assert (10 * n + d) / 10 == n && (10 * n + d) % 10 == d;
  }

  lemma {:induction false} ParsedDigits(s: string)
    ensures ParseDigits(s).Some? <==> s != "" && AllOf(s, IsDigit)
  {
    if |s| > 1 {
      var init, last := s[..|s| - 1], s[|s| - 1];
      ParsedDigits(init);
      assert s == init + [last];
      assert AllOf(s, IsDigit) <==> AllOf(init, IsDigit) && IsDigit(last) by {
        assert forall i :: 0 <= i < |init| ==> s[i] == init[i];
      }
    }
  }

  /** A sign, if any, and then digits; with one digit more it is ten times as much and the digit. */
  lemma {:induction false} ParseDigit(s: string, d: nat)
    requires s != "" && AllOf(s, IsDigit) && d < 10
    ensures ParseInt([DIGITS[d]]) == Some(d) && ParseInt("+" + s) == ParseInt(s)
    ensures ParseInt(s).Some? ==> ParseInt("-" + s) == Some(-ParseInt(s).value)
    ensures ParseInt(s + [DIGITS[d]])
         == if ParseInt(s).Some? && IsInt64(10 * ParseInt(s).value + d) then Some(10 * ParseInt(s).value + d) else None
  {
    DigitIs(d);
    ParsedDigits(s);
    assert (s + [DIGITS[d]])[..|s|] == s && ("+" + s)[1..] == s && ("-" + s)[1..] == s;
    assert IsDigit(s[0]) && (s + [DIGITS[d]])[0] == s[0];
  }

  /** Nothing else is a number. */
  lemma {:induction false} OnlyDigitsParse(s: string)
    requires ParseInt(s).Some?
    ensures var digits := if s[0] == '-' || s[0] == '+' then s[1..] else s; digits != "" && AllOf(digits, IsDigit)
  {
    ParsedDigits(if s[0] == '-' || s[0] == '+' then s[1..] else s);
  }
}
