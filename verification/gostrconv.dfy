/**
 * Decimal integer text as Go's `strconv.Atoi` reads it and as `fmt`'s `%d` / `%v`
 * verbs write it.
 */
module GoStrconv {
  import opened Results
  import opened GoInt

  predicate IsDigit(c: char) {
    '0' <= c <= '9'
  }

  predicate AllDigits(s: string) {
    forall i :: 0 <= i < |s| ==> IsDigit(s[i])
  }

  function DigitValue(c: char): nat
    requires IsDigit(c)
  {
    c as int - '0' as int
  }

  function Digit(d: nat): (c: char)
    requires d < 10
    ensures IsDigit(c) && DigitValue(c) == d
  {
    ('0' as int + d) as char
  }

  /** The value of a string of decimal digits, most significant first. */
  function DigitsValue(s: string): nat
    requires AllDigits(s)
    decreases |s|
  {
    if |s| == 0 then 0 else 10 * DigitsValue(s[..|s| - 1]) + DigitValue(s[|s| - 1])
  }

  /** The digits after an optional leading `+` or `-`. */
  function Unsigned(s: string): string
    requires |s| > 0
  {
    if s[0] == '+' || s[0] == '-' then s[1..] else s
  }

  /**
   * Go's `strconv.Atoi`: an optional sign followed by one or more decimal digits,
   * whose value fits a 64-bit `int`. Both of Go's failures (syntax and range) are `None`.
   */
  function Atoi(s: string): (r: Option<int>)
    ensures r.Some? ==> IsInt64(r.value)
  {
    if |s| == 0 then None
    else
      var body := Unsigned(s);
      if |body| == 0 || !AllDigits(body) then None
      else
        var v: int := if s[0] == '-' then 0 - DigitsValue(body) as int else DigitsValue(body);
        if IsInt64(v) then Some(v)
        else None
  }

  /** Text `Atoi` reads: an optional `+` or `-`, then at least one decimal digit, and nothing else. */
  predicate SignedDigits(s: string) {
    && |s| > 0
    && (IsDigit(s[0]) || ((s[0] == '+' || s[0] == '-') && |s| > 1))
    && forall i :: 0 < i < |s| ==> IsDigit(s[i])
  }

  /** The number signed-digit text denotes: leading zeros and a `+` change nothing. */
  function SignedValue(s: string): int
    requires SignedDigits(s)
  {
    if IsDigit(s[0]) then DigitsValue(s)
    else if s[0] == '+' then DigitsValue(s[1..])
    else 0 - DigitsValue(s[1..])
  }

  /** `Atoi` accepts exactly the signed-digit texts whose value fits 64 bits, and yields that value. */
  lemma AtoiSyntax(s: string)
    ensures Atoi(s).Some? <==> SignedDigits(s) && IsInt64(SignedValue(s))
    ensures Atoi(s).Some? ==> Atoi(s).value == SignedValue(s)
  {
    if |s| > 0 && (s[0] == '+' || s[0] == '-') {
      assert forall i :: 0 < i < |s| ==> s[i] == Unsigned(s)[i - 1];
    }
  }

  /** Signs and leading zeros are read as Go reads them; a lone sign or an empty text is not a number. */
  lemma AtoiExamples()
    ensures Atoi("+080") == Some(80)
    ensures Atoi("-0") == Some(0)
    ensures Atoi("007") == Some(7)
    ensures Atoi("+") == None && Atoi("") == None && Atoi("8-") == None
  {
    assert Unsigned("+080") == "080";
    assert "080"[..2] == "08" && "08"[..1] == "0";
    assert DigitsValue("08") == 8;
    assert DigitsValue("080") == 80;
    assert Unsigned("-0") == "0";
    assert "007"[..2] == "00" && "00"[..1] == "0";
    assert Unsigned("+") == "";
    assert !IsDigit("8-"[1]);
  }

  /** `%d` of a non-negative integer: its decimal digits without leading zeros. */
  function FormatNat(n: nat): (s: string)
    ensures |s| > 0 && AllDigits(s)
    ensures DigitsValue(s) == n
    ensures s[0] == '0' ==> n == 0
  {
    if n < 10 then [Digit(n)]
    else
      var s := FormatNat(n / 10) + [Digit(n % 10)];
      assert s[..|s| - 1] == FormatNat(n / 10);
      s
  }

  /** `%d` (and `%v`) of an integer: a `-` for negative values, then the digits of its magnitude. */
  function FormatInt(n: int): (s: string)
    ensures |s| > 0
    ensures s[0] == '-' <==> n < 0
    ensures forall i :: 0 <= i < |s| ==> IsDigit(s[i]) || s[i] == '-'
    ensures forall i :: 0 < i < |s| ==> IsDigit(s[i])
  {
    if n < 0 then "-" + FormatNat(-n) else FormatNat(n)
  }

  /** Reading back what `%d` wrote gives the same integer, for every 64-bit value. */
  lemma AtoiFormatInt(n: int)
    requires IsInt64(n)
    ensures Atoi(FormatInt(n)) == Some(n)
  {
    var s := FormatInt(n);
    if n < 0 {
      assert Unsigned(s) == FormatNat(-n);
    } else {
      assert Unsigned(s) == FormatNat(n);
    }
  }
}
