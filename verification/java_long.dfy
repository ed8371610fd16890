/** Java's `Long.parseLong(String)` in radix 10, which the activity check uses
    to turn the activity's textual movie id into a movie key, together with the
    decimal rendering it inverts. */
module JavaLong {
  import opened Domain

  const MIN_LONG: int := -0x8000_0000_0000_0000
  const MAX_LONG: int :=  0x7FFF_FFFF_FFFF_FFFF

  predicate InLongRange(n: int) {
    MIN_LONG <= n <= MAX_LONG
  }

  predicate IsDigit(c: char) {
    '0' <= c <= '9'
  }

  predicate AllDigits(s: string) {
    forall i :: 0 <= i < |s| ==> IsDigit(s[i])
  }

  function DigitValue(c: char): (d: nat)
    requires IsDigit(c)
    ensures d < 10
  {
    (c as int) - ('0' as int)
  }

  function DigitChar(d: nat): (c: char)
    requires d < 10
    ensures IsDigit(c) && DigitValue(c) == d
  {
    ('0' as int + d) as char
  }

  /** The value of a run of decimal digits, most significant digit first. */
  function DigitsValue(s: string): nat
    requires AllDigits(s)
    decreases |s|
  {
    if |s| == 0 then 0
    else DigitsValue(s[..|s| - 1]) * 10 + DigitValue(s[|s| - 1])
  }

  /** The shortest decimal digits of `n` (no sign, no leading zero). */
  function NatDigits(n: nat): (s: string)
    ensures |s| > 0
    decreases n
  {
    if n < 10 then [DigitChar(n)]
    else NatDigits(n / 10) + [DigitChar(n % 10)]
  }

  /** `Long.toString(n)`: an optional minus sign followed by the digits of |n|. */
  function FormatLong(n: int): string {
    if n < 0 then ['-'] + NatDigits(-n) else NatDigits(n)
  }

  /** `Long.parseLong(s)`: an optional '+' or '-' followed by at least one
      decimal digit, whose value lies in the 64-bit signed range; anything
      else is a NumberFormatException, here `None`. */
  function ParseLong(s: string): (r: Option<int>)
    ensures r.Some? ==> InLongRange(r.value)
    ensures r.Some? ==> |s| > 0 && (IsDigit(s[0]) || s[0] == '-' || s[0] == '+')
    ensures r.Some? ==> AllDigits(s[1..])
    ensures |s| > 0 && AllDigits(s) ==>
      r == (if DigitsValue(s) <= MAX_LONG then Some(DigitsValue(s)) else None)
    ensures |s| > 1 && s[0] == '+' && AllDigits(s[1..]) ==>
      r == (if DigitsValue(s[1..]) <= MAX_LONG then Some(DigitsValue(s[1..])) else None)
    ensures |s| > 1 && s[0] == '-' && AllDigits(s[1..]) ==>
      r == (if DigitsValue(s[1..]) <= -MIN_LONG then Some(-(DigitsValue(s[1..]) as int)) else None)
    ensures s == [] || s == ['-'] || s == ['+'] ==> r == None
  {
    if |s| == 0 then None
    else
      var signed := s[0] == '-' || s[0] == '+';
      var digits := if signed then s[1..] else s;
      if |digits| == 0 || !AllDigits(digits) then None
      else
        var magnitude: int := DigitsValue(digits);
        var v := if s[0] == '-' then -magnitude else magnitude;
        if InLongRange(v) then Some(v) else None
  }

  /** The digits of `n` read back give `n`. */
  lemma {:induction false} NatDigitsRoundTrip(n: nat)
    ensures AllDigits(NatDigits(n))
    ensures DigitsValue(NatDigits(n)) == n
    decreases n
  {
    if n >= 10 {
      NatDigitsRoundTrip(n / 10);
      var s := NatDigits(n);
      var prefix := NatDigits(n / 10);
      assert s == prefix + [DigitChar(n % 10)];
      assert s[..|s| - 1] == prefix;
    }
  }

  /** Parsing the rendering of any 64-bit value gives that value back. */
  lemma ParseFormatRoundTrip(n: int)
    requires InLongRange(n)
    ensures ParseLong(FormatLong(n)) == Some(n)
  {
    if n < 0 {
      NatDigitsRoundTrip(-n);
      var s := FormatLong(n);
      assert s[0] == '-';
      assert s[1..] == NatDigits(-n);
    } else {
      NatDigitsRoundTrip(n);
      var s := NatDigits(n);
      assert IsDigit(s[0]);
    }
  }
}
