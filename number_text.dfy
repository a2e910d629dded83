/** Decimal text of integers: `Long.parseLong` / `Integer.parseInt` in radix
    10, and the `%d` conversion of `String.format`. */
module NumberText {

  import opened Options
  import opened JavaInts

  predicate IsDigit(ch: char) {
    '0' <= ch <= '9'
  }

  predicate AllDigits(s: string) {
    forall i | 0 <= i < |s| :: IsDigit(s[i])
  }

  function DigitValue(ch: char): nat
    requires IsDigit(ch)
  {
    ch as int - '0' as int
  }

  function DigitChar(d: nat): (ch: char)
    requires d < 10
    ensures IsDigit(ch) && DigitValue(ch) == d
  {
    ('0' as int + d) as char
  }

  /** The value of a string of decimal digits, most significant first. */
  function DigitsValue(s: string): nat
    requires AllDigits(s)
  {
    if s == [] then 0 else DigitsValue(s[..|s| - 1]) * 10 + DigitValue(s[|s| - 1])
  }

  lemma DigitsSnoc(s: string, ch: char)
    requires AllDigits(s) && IsDigit(ch)
    ensures AllDigits(s + [ch]) && DigitsValue(s + [ch]) == DigitsValue(s) * 10 + DigitValue(ch)
  {
    assert (s + [ch])[..|s|] == s;
  }

  /** Parsing an optionally signed string of decimal digits whose value must
      lie in `lo..hi`; `None` is the NumberFormatException. Together with
      `ParseRejectsNonDigit` the ensures describe every input. */
  function ParseInRange(s: string, lo: int, hi: int): (r: Option<int>)
    ensures r.Some? ==> lo <= r.value <= hi
    ensures s == "" || s == "-" || s == "+" ==> r == None
    ensures |s| > 0 && AllDigits(s) ==>
      r == if lo <= DigitsValue(s) <= hi then Some(DigitsValue(s) as int) else None
    ensures |s| > 1 && s[0] == '+' && AllDigits(s[1..]) ==>
      r == if lo <= DigitsValue(s[1..]) <= hi then Some(DigitsValue(s[1..]) as int) else None
    ensures |s| > 1 && s[0] == '-' && AllDigits(s[1..]) ==>
      r == if lo <= -(DigitsValue(s[1..]) as int) <= hi then Some(-(DigitsValue(s[1..]) as int)) else None
  {
    if |s| == 0 then None
    else
      var digits := if s[0] == '-' || s[0] == '+' then s[1..] else s;
      if |digits| == 0 || !AllDigits(digits) then None
      else
        assert IsDigit(s[|s| - 1]);
        var v: int := if s[0] == '-' then -(DigitsValue(digits) as int) else DigitsValue(digits);
        if lo <= v <= hi then Some(v) else None
  }

  /** Any character other than a digit, or a sign in front, makes the
      text malformed. */
  lemma ParseRejectsNonDigit(s: string, lo: int, hi: int, k: nat)
    requires k < |s| && !IsDigit(s[k]) && !(k == 0 && s[k] in "+-")
    ensures ParseInRange(s, lo, hi) == None
  {
    if s[0] == '-' || s[0] == '+' {
      assert s[1..][k - 1] == s[k];
    }
  }

  /** `Long.parseLong(s)`. */
  function ParseLong(s: string): (r: Option<int>)
    ensures r.Some? ==> LONG_MIN <= r.value <= LONG_MAX
  {
    ParseInRange(s, LONG_MIN, LONG_MAX)
  }

  /** `Integer.parseInt(s)`. */
  function ParseInt(s: string): (r: Option<int>)
    ensures r.Some? ==> INT_MIN <= r.value <= INT_MAX
  {
    ParseInRange(s, INT_MIN, INT_MAX)
  }

  /** The digits of a natural number, without leading zeros. */
  function FormatNat(n: nat): (s: string)
    ensures |s| > 0 && AllDigits(s)
    ensures s[0] == '0' ==> n == 0
  {
    if n < 10 then [DigitChar(n)] else FormatNat(n / 10) + [DigitChar(n % 10)]
  }

  /** `String.format("%d", n)`: a minus sign for negative values, then the
      digits of the magnitude without leading zeros. */
  function FormatDecimal(n: int): (s: string)
    ensures |s| > 0 && (s[0] == '-' <==> n < 0)
    ensures n < 0 ==> |s| > 1 && AllDigits(s[1..]) && DigitsValue(s[1..]) == -n && s[1] != '0'
    ensures n >= 0 ==> AllDigits(s) && DigitsValue(s) == n && (s[0] == '0' ==> n == 0)
  {
    if n < 0 then
      FormatNatValue(-n);
      var digits := FormatNat(-n);
      assert ("-" + digits)[1..] == digits;
      "-" + digits
    else
      FormatNatValue(n);
      FormatNat(n)
  }

  lemma {:induction false} FormatNatValue(n: nat)
    ensures DigitsValue(FormatNat(n)) == n
  {
    var s := FormatNat(n);
    if n >= 10 {
      FormatNatValue(n / 10);
      assert s[..|s| - 1] == FormatNat(n / 10);
    }
  }

  /** Parsing the `%d` text of a value in range gives the value back. */
  lemma ParseFormatRoundTrip(n: int, lo: int, hi: int)
    requires lo <= n <= hi
    ensures ParseInRange(FormatDecimal(n), lo, hi) == Some(n)
  {
    var s := FormatDecimal(n);
    if n < 0 {
      assert s[0] == '-';
    }
  }

  lemma LongRoundTrip(n: Int64)
    ensures ParseLong(FormatDecimal(n)) == Some(n as int)
  {
    ParseFormatRoundTrip(n, LONG_MIN, LONG_MAX);
  }

  lemma IntRoundTrip(n: Int32)
    ensures ParseInt(FormatDecimal(n)) == Some(n as int)
  {
    ParseFormatRoundTrip(n, INT_MIN, INT_MAX);
  }

  /** The `%d` text of a value outside the range is rejected. */
  lemma ParseRejectsOutOfRange(n: int, lo: int, hi: int)
    requires n < lo || hi < n
    ensures ParseInRange(FormatDecimal(n), lo, hi) == None
  {
    ParseFormatRoundTrip(n, if n < lo then n else lo, if hi < n then n else hi);
  }

  /** Text that is not a number, a bare sign, and a value one past the
      `long` range are all rejected. */
  lemma ParseLongRejects()
    ensures ParseLong("not-a-number") == None
    ensures ParseLong("") == None
    ensures ParseLong("-") == None
    ensures ParseLong(FormatDecimal(LONG_MAX + 1)) == None
  {
    ParseRejectsNonDigit("not-a-number", LONG_MIN, LONG_MAX, 0);
    ParseRejectsOutOfRange(LONG_MAX + 1, LONG_MIN, LONG_MAX);
  }
}
