/**
 * Decimal text for Go's `int`: `fmt.Sprintf("%v", n)` renders an integer in
 * decimal, `strconv.Atoi` parses one back. Go's `int` is taken to be 64 bits wide.
 */
module Decimal {
  import opened Wrappers

  /** The values of a 64-bit Go `int`. */
  type Int64 = x: int | -0x8000_0000_0000_0000 <= x < 0x8000_0000_0000_0000

  predicate IsDigit(c: char) {
    '0' <= c <= '9'
  }

  predicate AllDigits(s: string) {
    forall i :: 0 <= i < |s| ==> IsDigit(s[i])
  }

  function DigitValue(c: char): nat
    requires IsDigit(c)
  {
    (c as int) - ('0' as int)
  }

  function DigitChar(d: nat): char
    requires d < 10
  {
    (('0' as int) + d) as char
  }

  /** The number a run of decimal digits denotes, read most significant first. */
  function DigitsValue(s: string): nat
    requires AllDigits(s)
    decreases |s|
  {
    if |s| == 0 then 0 else 10 * DigitsValue(s[..|s| - 1]) + DigitValue(s[|s| - 1])
  }

  /** Shortest decimal digits of a natural number. */
  function NatDigits(n: nat): (s: string)
    ensures |s| > 0 && AllDigits(s) && DigitsValue(s) == n
    ensures s[0] == '0' ==> s == "0"
    decreases n
  {
    if n < 10 then [DigitChar(n)]
    else
      var p := NatDigits(n / 10);
      var s := p + [DigitChar(n % 10)];
      assert s[..|s| - 1] == p;
      s
  }

  /** `fmt.Sprintf("%v", n)` for an integer: optional minus sign, then the digits. */
  function Itoa(n: int): (s: string)
    ensures |s| > 0
    ensures n >= 0 <==> IsDigit(s[0])
    ensures n < 0 <==> s[0] == '-'
    ensures forall i :: 0 < i < |s| ==> IsDigit(s[i])
  {
    if n < 0 then "-" + NatDigits(-n) else NatDigits(n)
  }

  /**
   * `strconv.Atoi`: an optional `+` or `-` sign followed by at least one
   * decimal digit (leading zeros allowed), whose value fits in 64 bits.
   * Anything else is an error; which error (syntax or range) is not modelled.
   */
  function Atoi(s: string): (r: Option<Int64>)
    ensures r.Some? ==> s != "" && s != "+" && s != "-"
    ensures r.Some? ==> IsDigit(s[0]) || s[0] == '+' || s[0] == '-'
    ensures r.Some? ==> forall i :: 0 < i < |s| ==> IsDigit(s[i])
  {
    if |s| == 0 then None
    else
      var digits := if s[0] == '-' || s[0] == '+' then s[1..] else s;
      if |digits| == 0 || !AllDigits(digits) then None
      else
        var v: int := if s[0] == '-' then -(DigitsValue(digits) as int) else DigitsValue(digits);
        if -0x8000_0000_0000_0000 <= v < 0x8000_0000_0000_0000 then Some(v) else None
  }

  /** Whether a value fits in a 64-bit Go `int`. */
  predicate InInt64Range(v: int) {
    -0x8000_0000_0000_0000 <= v < 0x8000_0000_0000_0000
  }

  /**
   * The value `Atoi` gives a run of digits `d`, unsigned, after `+` or after `-`:
   * the number the digits denote (with leading zeros allowed), negated after `-`,
   * and an error when that number does not fit in 64 bits.
   */
  lemma AtoiValue(d: string)
    requires |d| > 0 && AllDigits(d)
    ensures Atoi(d) == if InInt64Range(DigitsValue(d)) then Some(DigitsValue(d)) else None
    ensures Atoi("+" + d) == if InInt64Range(DigitsValue(d)) then Some(DigitsValue(d)) else None
    ensures Atoi("-" + d) == if InInt64Range(-(DigitsValue(d) as int)) then Some(-(DigitsValue(d) as int)) else None
  {
    AtoiUnsigned(d);
    AtoiPlus(d);
    AtoiMinus(d);
  }

  lemma AtoiUnsigned(d: string)
    requires |d| > 0 && AllDigits(d)
    ensures Atoi(d) == if InInt64Range(DigitsValue(d)) then Some(DigitsValue(d)) else None
  {
    assert IsDigit(d[0]);
  }

  lemma AtoiPlus(d: string)
    requires |d| > 0 && AllDigits(d)
    ensures Atoi("+" + d) == if InInt64Range(DigitsValue(d)) then Some(DigitsValue(d)) else None
  {
    var s := "+" + d;
    assert s[1..] == d;
    AtoiAfterSign(s);
  }

  lemma AtoiMinus(d: string)
    requires |d| > 0 && AllDigits(d)
    ensures Atoi("-" + d) == if InInt64Range(-(DigitsValue(d) as int)) then Some(-(DigitsValue(d) as int)) else None
  {
    var s := "-" + d;
    assert s[1..] == d;
    AtoiAfterSign(s);
  }

  lemma AtoiAfterSign(s: string)
    requires |s| > 1 && (s[0] == '+' || s[0] == '-') && AllDigits(s[1..])
    ensures var v: int := if s[0] == '-' then -(DigitsValue(s[1..]) as int) else DigitsValue(s[1..]);
            Atoi(s) == if InInt64Range(v) then Some(v) else None
  {
  }

  /** Leading zeros and a plus sign are accepted. */
  lemma AtoiExamples()
    ensures Atoi("+05") == Some(5)
    ensures Atoi("-007") == Some(-7)
  {
    AtoiValue("05");
    AtoiValue("007");
    assert "+" + "05" == "+05" && "-" + "007" == "-007";
  }

  /** Parsing the decimal rendering of any 64-bit integer gives that integer back. */
  lemma AtoiItoa(n: Int64)
    ensures Atoi(Itoa(n)) == Some(n)
  {
    var s := Itoa(n);
    if n < 0 {
      var m: nat := -(n as int);
      var d := NatDigits(m);
      assert s == "-" + d && s[1..] == d;
    } else {
      assert s == NatDigits(n);
    }
  }

  /** Distinct integers have distinct decimal renderings. */
  lemma ItoaInjective(a: Int64, b: Int64)
    requires Itoa(a) == Itoa(b)
    ensures a == b
  {
    AtoiItoa(a);
    AtoiItoa(b);
  }
}
