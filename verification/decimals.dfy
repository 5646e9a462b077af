/** `std::stoi` in base ten, on a 32-bit int, and decimal printing. */
module Decimals {
  import opened Options

  const INT_MIN: int := -0x8000_0000
  const INT_MAX: int := 0x7FFF_FFFF
  const SIZE_MODULUS: int := 0x1_0000_0000_0000_0000

  predicate IsSpace(c: char) {
    c == ' ' || 9 <= c as int <= 13
  }

  predicate IsDigit(c: char) {
    '0' <= c <= '9'
  }

  function SkipSpaces(s: string): string {
    if s != "" && IsSpace(s[0]) then SkipSpaces(s[1..]) else s
  }

  function LeadingDigits(s: string): (n: nat)
    ensures n <= |s|
  {
    if s != "" && IsDigit(s[0]) then 1 + LeadingDigits(s[1..]) else 0
  }

  function Value(s: string): int {
    if s == "" then 0 else 10 * Value(s[..|s| - 1]) + (s[|s| - 1] as int - '0' as int)
  }

  /** The number at the start of a text; None stands for the exceptions invalid_argument, without
      a digit, and out_of_range. */
  function Number(negative: bool, t: string): (r: Option<int>)
    ensures r.Some? ==> INT_MIN <= r.value <= INT_MAX
  {
    var n := LeadingDigits(t);
    var v := if negative then -Value(t[..n]) else Value(t[..n]);
    if n == 0 || v < INT_MIN || INT_MAX < v then None else Some(v)
  }

  function Stoi(text: string): (r: Option<int>)
    ensures r.Some? ==> INT_MIN <= r.value <= INT_MAX
  {
    var s := SkipSpaces(text);
    var signed := s != "" && (s[0] == '-' || s[0] == '+');
    Number(signed && s[0] == '-', if signed then s[1..] else s)
  }

  /** The conversion of an int to a 64-bit size_t. */
  function SizeOf(n: int): (r: nat)
    requires INT_MIN <= n <= INT_MAX
    ensures n >= 0 ==> r == n
    ensures n < 0 ==> r >= SIZE_MODULUS + INT_MIN
  {
    n % SIZE_MODULUS
  }

  function Decimal(n: nat): (s: string)
    ensures s != ""
  {
    var last := [('0' as int + n % 10) as char];
    if n < 10 then last else Decimal(n / 10) + last
  }

  /** The digits end where something else begins. */
  lemma {:induction false} DigitsThen(s: string, rest: string)
    requires forall i :: 0 <= i < |s| ==> IsDigit(s[i])
    requires rest == "" || !IsDigit(rest[0])
    ensures LeadingDigits(s + rest) == |s|
  {
    if s == "" {
      assert s + rest == rest;
    } else {
      assert (s + rest)[1..] == s[1..] + rest;
      DigitsThen(s[1..], rest);
    }
  }

  lemma {:induction false} SpacesThen(pad: string, s: string)
    requires forall i :: 0 <= i < |pad| ==> IsSpace(pad[i])
    requires s == "" || !IsSpace(s[0])
    ensures SkipSpaces(pad + s) == s
  {
    if pad == "" {
      assert pad + s == s;
    } else {
      assert (pad + s)[1..] == pad[1..] + s;
      SpacesThen(pad[1..], s);
    }
  }

  lemma {:induction false} DecimalValue(n: nat)
    ensures forall i :: 0 <= i < |Decimal(n)| ==> IsDigit(Decimal(n)[i])
    ensures Value(Decimal(n)) == n
  {
    var s := Decimal(n);
    if n >= 10 {
      DecimalValue(n / 10);
      assert s[..|s| - 1] == Decimal(n / 10);
    } else {
      assert s[..|s| - 1] == "";
    }
  }

  /** White space and a sign are read off. */
  lemma StoiSign(pad: string, sign: string, number: string)
    requires forall i :: 0 <= i < |pad| ==> IsSpace(pad[i])
    requires sign == "" || sign == "+" || sign == "-"
    requires sign == "" ==> number == "" || (!IsSpace(number[0]) && number[0] != '+' && number[0] != '-')
    ensures Stoi(pad + (sign + number)) == Number(sign == "-", number)
  {
    var s := sign + number;
    assert if sign == "" then s == number else s[0] == sign[0] && s[1..] == number;
    SpacesThen(pad, s);
  }

  lemma NumberReads(negative: bool, n: nat, rest: string)
    requires rest == "" || !IsDigit(rest[0])
    ensures var v := if negative then 0 - n else n;
            Number(negative, Decimal(n) + rest) == if INT_MIN <= v <= INT_MAX then Some(v) else None
  {
    var digits := Decimal(n);
    DecimalValue(n);
    DigitsThen(digits, rest);
    assert (digits + rest)[..|digits|] == digits;
  }

  /** A signed number behind any white space and before anything but a digit is read as itself,
      and is refused exactly when an int does not hold it. */
  lemma StoiReads(pad: string, sign: string, n: nat, rest: string)
    requires forall i :: 0 <= i < |pad| ==> IsSpace(pad[i])
    requires sign == "" || sign == "+" || sign == "-"
    requires rest == "" || !IsDigit(rest[0])
    ensures var v := if sign == "-" then 0 - n else n;
            Stoi(pad + (sign + (Decimal(n) + rest))) == if INT_MIN <= v <= INT_MAX then Some(v) else None
  {
    DecimalValue(n);
    assert IsDigit(Decimal(n)[0]) && (Decimal(n) + rest)[0] == Decimal(n)[0];
    StoiSign(pad, sign, Decimal(n) + rest);
    NumberReads(sign == "-", n, rest);
  }

  /** Text without a digit behind its white space and sign is refused. */
  lemma StoiRefuses(pad: string, sign: string, rest: string)
    requires forall i :: 0 <= i < |pad| ==> IsSpace(pad[i])
    requires sign == "" || sign == "+" || sign == "-"
    requires rest == "" || (!IsDigit(rest[0]) && (sign == "" ==> !IsSpace(rest[0]) && rest[0] != '+' && rest[0] != '-'))
    ensures Stoi(pad + (sign + rest)) == None
  {
    StoiSign(pad, sign, rest);
  }

  /** Reading back a printed length gives the length. */
  lemma StoiDecimal(n: nat)
    requires n <= INT_MAX
    ensures Stoi(Decimal(n)) == Some(n)
  {
    StoiReads("", "", n, "");
    assert "" + ("" + (Decimal(n) + "")) == Decimal(n);
  }

  // ----- the characters themselves -----

  /** White space and digits are the characters C's isspace and a base of ten make them. */
  lemma CharacterClasses(c: char)
    ensures IsSpace(c) <==> c in [' ', '\t', '\n', 11 as char, 12 as char, '\r']
    ensures IsDigit(c) <==> c in "0123456789"
  {
    if IsDigit(c) {
      assert c == "0123456789"[c as int - '0' as int];
    }
  }

  /** Printed numbers are their decimal digits, the most significant first. */
  lemma DecimalText(n: nat)
    ensures n < 10 ==> Decimal(n) == ["0123456789"[n]]
    ensures n >= 10 ==> Decimal(n) == Decimal(n / 10) + ["0123456789"[n % 10]]
  {
  }

  /** Digits are read from the left, each one more a factor of ten. */
  lemma StoiDigits(t: string, d: nat)
    requires (forall i :: 0 <= i < |t| ==> IsDigit(t[i])) && d < 10
    ensures Stoi(["0123456789"[d]]) == Some(d)
    ensures Stoi(t + ["0123456789"[d]]).Some? && t != "" ==>
              Stoi(t).Some? && Stoi(t + ["0123456789"[d]]).value == 10 * Stoi(t).value + d
  {
    var c := "0123456789"[d];
    DigitsOnly([c]);
    assert [c][..0] == "";
    if t != "" {
      DigitsOnly(t);
      DigitsOnly(t + [c]);
      assert (t + [c])[..|t|] == t;
      ValuePositive(t);
    }
  }

  lemma DigitsOnly(t: string)
    requires t != "" && forall i :: 0 <= i < |t| ==> IsDigit(t[i])
    ensures Stoi(t) == if Value(t) < INT_MIN || INT_MAX < Value(t) then None else Some(Value(t))
  {
    assert IsDigit(t[0]);
    StoiSign("", "", t);
    assert "" + ("" + t) == t;
    AllDigits(t);
  }

  lemma AllDigits(t: string)
    requires forall i :: 0 <= i < |t| ==> IsDigit(t[i])
    ensures LeadingDigits(t) == |t| && t[..|t|] == t
  {
    DigitsThen(t, "");
    assert t + "" == t;
  }

  lemma {:induction false} ValuePositive(t: string)
    requires forall i :: 0 <= i < |t| ==> IsDigit(t[i])
    ensures Value(t) >= 0
  {
    if t != "" {
      ValuePositive(t[..|t| - 1]);
    }
  }
}
