/**
 * Base-10 integer text as Go's `strconv` and `fmt` read and write it:
 * `Atoi`, `ParseInt(s, 10, 64)` and `%d`. Integers are unbounded here, so
 * the 64-bit range of Go's `int`/`int64` is checked explicitly.
 */
module Numbers {
  import opened Wrappers

  const Int64Min: int := -0x8000_0000_0000_0000
  const Int64Max: int := 0x7FFF_FFFF_FFFF_FFFF

  predicate IsInt64(n: int) {
    Int64Min <= n <= Int64Max
  }

  predicate IsDigit(c: char) {
    '0' <= c <= '9'
  }

  predicate AllDigits(s: string) {
    forall i | 0 <= i < |s| :: IsDigit(s[i])
  }

  function DigitChar(d: nat): (c: char)
    requires d < 10
    ensures IsDigit(c)
  {
    ('0' as int + d) as char
  }

  /** The decimal digits of `n`, most significant first, without leading zeros. */
  function Digits(n: nat): (r: string)
    ensures |r| >= 1 && AllDigits(r)
    ensures r[0] == '0' ==> n == 0
  {
    if n < 10 then [DigitChar(n)] else Digits(n / 10) + [DigitChar(n % 10)]
  }

  /** `fmt.Sprintf("%d", n)`: an optional minus sign and the digits. */
  function FormatInt(n: int): string {
    if n < 0 then "-" + Digits(-n) else Digits(n)
  }

  /** The value of a string of decimal digits. */
  function DigitsValue(s: string): nat
    requires AllDigits(s)
  {
    if s == [] then 0 else DigitsValue(s[..|s| - 1]) * 10 + (s[|s| - 1] as int - '0' as int)
  }

  /** The syntax `[+-]?[0-9]+` of `Atoi` and `ParseInt(s, 10, _)`, read with no bound on the value. */
  function ParseDecimal(s: string): Option<int> {
    if |s| > 0 && (s[0] == '+' || s[0] == '-') then
      var body := s[1..];
      if body != [] && AllDigits(body) then
        Some(if s[0] == '-' then 0 - DigitsValue(body) as int else DigitsValue(body) as int)
      else None
    else if s != [] && AllDigits(s) then Some(DigitsValue(s))
    else None
  }

  /** `strconv.Atoi` on a 64-bit platform: None for a syntax or range error. */
  function Atoi(s: string): (r: Option<int>)
    ensures r.Some? ==> IsInt64(r.value) && ParseDecimal(s) == r
    ensures ParseDecimal(s).Some? && IsInt64(ParseDecimal(s).value) ==> r == ParseDecimal(s)
  {
    match ParseDecimal(s)
    case Some(n) => if IsInt64(n) then Some(n) else None
    case None => None
  }

  /**
   * The value `strconv.ParseInt(s, 10, 64)` returns when its error is
   * ignored: 0 for a syntax error, the nearest bound for a range error.
   */
  function ParseIntValue(s: string): (r: int)
    ensures IsInt64(r)
    ensures ParseDecimal(s).None? ==> r == 0
    ensures ParseDecimal(s).Some? && IsInt64(ParseDecimal(s).value) ==> r == ParseDecimal(s).value
  {
    match ParseDecimal(s)
    case None => 0
    case Some(n) => if n < Int64Min then Int64Min else if n > Int64Max then Int64Max else n
  }

  lemma {:induction false} DigitsRoundTrip(n: nat)
    ensures DigitsValue(Digits(n)) == n
  {
    if n >= 10 {
      DigitsRoundTrip(n / 10);
      var s := Digits(n / 10) + [DigitChar(n % 10)];
      assert s[..|s| - 1] == Digits(n / 10);
    }
  }

  /** Reading back what `%d` printed gives the number. */
  lemma FormatIntRoundTrip(n: int)
    ensures ParseDecimal(FormatInt(n)) == Some(n)
  {
    if n < 0 {
      DigitsRoundTrip(-n);
      assert ("-" + Digits(-n))[1..] == Digits(-n);
    } else {
      DigitsRoundTrip(n);
    }
  }

  /** `%d` never prints two numbers the same way. */
  lemma FormatIntInjective(m: int, n: int)
    requires FormatInt(m) == FormatInt(n)
    ensures m == n
  {
    FormatIntRoundTrip(m);
    FormatIntRoundTrip(n);
  }
}
