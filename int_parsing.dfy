/**
 * Decimal text for Java `int`s: `Integer.parseInt` as a parser that returns
 * `None` where Java throws `NumberFormatException`, and `Integer.toString`
 * as its inverse on the `int` range.
 */
module IntParsing {
  import opened Wrappers
  import opened Bytes

  const MinInt32: int := -0x8000_0000
  const MaxInt32: int := 0x7fff_ffff

  predicate IsDigit(c: char)
  {
    '0' <= c <= '9'
  }

  predicate AllDigits(s: string)
  {
    forall i :: 0 <= i < |s| ==> IsDigit(s[i])
  }

  /** The value of a string of decimal digits, most significant first. */
  function DigitsValue(s: string): nat
    requires AllDigits(s)
  {
    if s == [] then 0 else DigitsValue(s[..|s| - 1]) * 10 + (s[|s| - 1] as int - '0' as int)
  }

  /**
   * `Integer.parseInt(s)`: an optional `-` or `+`, then one or more decimal
   * digits, whose value must lie in the `int` range.
   */
  function ParseInt(s: string): (r: Option<Int32>)
    ensures r.Some? ==> s != [] && (IsDigit(s[0]) || s[0] == '-' || s[0] == '+')
    ensures r.Some? && r.value < 0 ==> s[0] == '-'
    ensures s == [] || s == "-" || s == "+" ==> r.None?
  {
    if s == [] then None
    else
      var digits := if s[0] == '-' || s[0] == '+' then s[1..] else s;
      if digits == [] || !AllDigits(digits) then None
      else
        var v: int := if s[0] == '-' then 0 - DigitsValue(digits) as int else DigitsValue(digits);
        if MinInt32 <= v <= MaxInt32 then Some(v) else None
  }

  function DigitChar(d: nat): char
    requires d < 10
  {
    ('0' as int + d) as char
  }

  /** The decimal digits of `n`, without leading zeros. */
  function ShowNat(n: nat): string
  {
    if n < 10 then [DigitChar(n)] else ShowNat(n / 10) + [DigitChar(n % 10)]
  }

  /** `Integer.toString(n)`. */
  function ShowInt(n: int): string
  {
    if n < 0 then "-" + ShowNat(-n) else ShowNat(n)
  }

  lemma {:induction false} ShowNatDigits(n: nat)
    ensures ShowNat(n) != [] && AllDigits(ShowNat(n)) && DigitsValue(ShowNat(n)) == n
  {
    if n >= 10 {
      ShowNatDigits(n / 10);
      var s := ShowNat(n);
      assert s[..|s| - 1] == ShowNat(n / 10);
    }
  }

  /** Parsing the decimal text of an `int` gives that `int` back. */
  lemma ParseShowRoundTrip(n: Int32)
    ensures ParseInt(ShowInt(n)) == Some(n)
  {
    ShowNatDigits(if n < 0 then -(n as int) else n as int);
    if n < 0 {
      assert ShowInt(n)[1..] == ShowNat(-(n as int));
    }
  }

  /** The decimal text of a number outside the `int` range does not parse. */
  lemma ParseRejectsOutOfRange(n: int)
    requires n < MinInt32 || MaxInt32 < n
    ensures ParseInt(ShowInt(n)).None?
  {
    ShowNatDigits(if n < 0 then -(n as int) else n as int);
    if n < 0 {
      assert ShowInt(n)[1..] == ShowNat(-(n as int));
    }
  }

  /** A leading `+` changes nothing. */
  lemma ParsePlusSign(n: nat)
    ensures ParseInt("+" + ShowNat(n)) == ParseInt(ShowNat(n))
  {
    ShowNatDigits(n);
    assert ("+" + ShowNat(n))[1..] == ShowNat(n);
  }
}
