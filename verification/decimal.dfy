/** Decimal text of integers: the `%d` verb of `fmt` and `strconv.Atoi`. */
module Decimal {
  import opened Wrappers
  import opened GoInt

  predicate IsDigit(c: char)
  {
    '0' <= c <= '9'
  }

  predicate AllDigits(s: string)
  {
    forall i :: 0 <= i < |s| ==> IsDigit(s[i])
  }

  predicate NoColon(s: string)
  {
    forall i :: 0 <= i < |s| ==> s[i] != ':'
  }

  function DigitChar(d: nat): (c: char)
    requires d < 10
    ensures IsDigit(c)
  {
    ('0' as int + d) as char
  }

  /** Value of a string of decimal digits, most significant first. */
  function DigitsValue(s: string): nat
    requires AllDigits(s)
  {
    if |s| == 0 then 0
    else DigitsValue(s[..|s| - 1]) * 10 + (s[|s| - 1] as int - '0' as int)
  }

  /** Shortest decimal digits of a natural number (no leading zero). */
  function NatDigits(n: nat): (s: string)
    ensures |s| >= 1 && AllDigits(s)
    ensures s[0] == '0' ==> n == 0
    ensures |s| > 1 ==> s[0] != '0'
  {
    if n < 10 then [DigitChar(n)] else NatDigits(n / 10) + [DigitChar(n % 10)]
  }

  /** `fmt.Sprintf("%d", n)`: a minus sign for negatives, then the digits. */
  function FormatInt(n: int): (s: string)
    ensures |s| >= 1 && NoColon(s)
    ensures s[0] == '-' <==> n < 0
  {
    if n < 0 then "-" + NatDigits(-n) else NatDigits(n)
  }

  /** An optional `+` or `-` followed by at least one decimal digit, read as
      an unbounded integer; `None` for any other text. */
  function ParseSigned(s: string): (r: Option<int>)
    ensures r.Some? ==> |s| >= 1 && NoColon(s)
  {
    if |s| > 0 && (s[0] == '-' || s[0] == '+') then
      var body := s[1..];
      if |body| >= 1 && AllDigits(body) then
        var v: int := if s[0] == '-' then -(DigitsValue(body) as int) else DigitsValue(body);
        Some(v)
      else None
    else if |s| >= 1 && AllDigits(s) then Some(DigitsValue(s))
    else None
  }

  /** `strconv.Atoi` on a 64-bit platform: a signed decimal within the range
      of `int`; an out-of-range value is an error like malformed text. */
  function Atoi(s: string): (r: Option<Int64>)
    ensures r.Some? ==> |s| >= 1 && NoColon(s)
    ensures r.Some? ==> ParseSigned(s) == Some(r.value as int)
    ensures ParseSigned(s).Some? && MinInt <= ParseSigned(s).value <= MaxInt ==>
              r == Some(ParseSigned(s).value as Int64)
  {
    match ParseSigned(s)
    case Some(v) => if MinInt <= v <= MaxInt then Some(v) else None
    case None => None
  }

  lemma {:induction false} DigitsRoundTrip(n: nat)
    ensures DigitsValue(NatDigits(n)) == n
  {
    if n >= 10 {
      var s := NatDigits(n);
      assert s[..|s| - 1] == NatDigits(n / 10);
      DigitsRoundTrip(n / 10);
    }
  }

  /** Reading back what `%d` printed gives the number printed. */
  lemma ParseFormatRoundTrip(n: int)
    ensures ParseSigned(FormatInt(n)) == Some(n)
  {
    var s := FormatInt(n);
    if n < 0 {
      assert s[0] == '-' && s[1..] == NatDigits(-n);
      DigitsRoundTrip(-n);
    } else {
      assert s == NatDigits(n) && IsDigit(s[0]);
      DigitsRoundTrip(n);
    }
  }

  /** `strconv.Atoi` accepts everything `%d` prints for a Go int. */
  lemma AtoiFormatRoundTrip(n: Int64)
    ensures Atoi(FormatInt(n)) == Some(n)
  {
    ParseFormatRoundTrip(n);
  }

  /** `%d` never prints the same text for two different numbers. */
  lemma FormatIntInjective(a: int, b: int)
    requires FormatInt(a) == FormatInt(b)
    ensures a == b
  {
    ParseFormatRoundTrip(a);
    ParseFormatRoundTrip(b);
  }

  /** `strconv.Atoi` refuses the empty string and text that is not a number. */
  lemma AtoiRejects(s: string)
    requires |s| == 0 || (s[0] != '-' && s[0] != '+' && !IsDigit(s[0]))
    ensures Atoi(s) == None
  {
  }
}
