/** An option type shared by every module. */
module Options {

  datatype Option<+T> = None | Some(value: T)
}

/**
  Decimal text for integers, as the three parties of the view counter read
  and write it:
  - `Show` is `String.valueOf(long)` / `Long.toString`, also what Redis
    prints after INCR;
  - `ParseJava` is `Long.parseLong` / `Integer.parseInt` in radix 10: an
    optional sign, at least one digit, and a range check;
  - `ParseRedis` is Redis's own strict reading of a counter (string2ll):
    only the canonical form is an integer.
 */
module Decimal {
  import opened Options

  const LongMin: int := -0x8000_0000_0000_0000
  const LongMax: int := 0x7FFF_FFFF_FFFF_FFFF
  const IntMin: int := -0x8000_0000
  const IntMax: int := 0x7FFF_FFFF

  predicate IsDigit(c: char) {
    '0' <= c <= '9'
  }

  predicate AllDigits(s: string) {
    forall i | 0 <= i < |s| :: IsDigit(s[i])
  }

  /** A non-empty digit string without a leading zero, except "0" itself. */
  predicate Canonical(s: string) {
    |s| > 0 && AllDigits(s) && (s[0] == '0' ==> |s| == 1)
  }

  function DigitChar(d: nat): (c: char)
    requires d < 10
    ensures IsDigit(c)
    ensures c == '0' <==> d == 0
  {
    ('0' as int + d) as char
  }

  function DigitValue(c: char): (d: nat)
    requires IsDigit(c)
    ensures d < 10
    ensures DigitChar(d) == c
  {
    c as int - '0' as int
  }

  /** The digits of `n`, most significant first. */
  function Digits(n: nat): (s: string)
    ensures Canonical(s)
    ensures s[0] == '0' <==> n == 0
  {
    if n < 10 then [DigitChar(n)] else Digits(n / 10) + [DigitChar(n % 10)]
  }

  /** The number a digit string denotes (leading zeros allowed). */
  function ValueOf(s: string): nat
    requires AllDigits(s)
  {
    if s == [] then 0 else ValueOf(s[..|s| - 1]) * 10 + DigitValue(s[|s| - 1])
  }

  function Show(n: int): (s: string)
    ensures |s| > 0
    ensures s[0] == '-' <==> n < 0
  {
    if n < 0 then "-" + Digits(-n) else Digits(n)
  }

  /** Radix-10 `Long.parseLong` (lo, hi = LongMin, LongMax) or `Integer.parseInt` (IntMin, IntMax). */
  function ParseJava(s: string, lo: int, hi: int): (r: Option<int>)
    ensures r.Some? ==> lo <= r.value <= hi
  {
    if |s| == 0 then None
    else
      var digits := if s[0] == '-' || s[0] == '+' then s[1..] else s;
      if |digits| == 0 || !AllDigits(digits) then None
      else
        var v: int := if s[0] == '-' then -(ValueOf(digits) as int) else ValueOf(digits);
        if lo <= v <= hi then Some(v) else None
  }

  function ParseLong(s: string): Option<int> {
    ParseJava(s, LongMin, LongMax)
  }

  function ParseInt(s: string): Option<int> {
    ParseJava(s, IntMin, IntMax)
  }

  /** Redis's reading of a string as a signed 64-bit integer: no '+', no leading zero, no "-0". */
  function ParseRedis(s: string): (r: Option<int>)
  {
    if |s| > 0 && s[0] == '-' then
      var digits := s[1..];
      if Canonical(digits) && digits[0] != '0' && LongMin <= -(ValueOf(digits) as int)
      then Some(-(ValueOf(digits) as int)) else None
    else if Canonical(s) && ValueOf(s) <= LongMax then Some(ValueOf(s))
    else None
  }

  lemma {:induction false} ValueOfDigits(n: nat)
    ensures ValueOf(Digits(n)) == n
  {
    if n >= 10 {
      var s := Digits(n);
      assert s[..|s| - 1] == Digits(n / 10);
      ValueOfDigits(n / 10);
    }
  }

  lemma {:induction false} DigitsOfValue(s: string)
    requires Canonical(s)
    ensures Digits(ValueOf(s)) == s
  {
    if |s| > 1 {
      var p := s[..|s| - 1];
      assert Canonical(p);
      DigitsOfValue(p);
      assert ValueOf(p) != 0;
      assert s == p + [s[|s| - 1]];
    }
  }

  /** Java's parsers read back what `Show` prints, exactly when it is in range. */
  lemma ShowParseJava(n: int, lo: int, hi: int)
    ensures ParseJava(Show(n), lo, hi) == if lo <= n <= hi then Some(n) else None
  {
    var s := Show(n);
    if n < 0 {
      assert s[1..] == Digits(-n);
      ValueOfDigits(-n);
    } else {
      ValueOfDigits(n);
    }
  }

  /** Redis accepts a string as an integer exactly when it is `Show` of a 64-bit value. */
  lemma ParseRedisExact(s: string, n: int)
    ensures ParseRedis(s) == Some(n) <==> s == Show(n) && LongMin <= n <= LongMax
  {
    if s == Show(n) && LongMin <= n <= LongMax {
      ParseRedisShow(n);
    }
    if ParseRedis(s) == Some(n) {
      ShowParseRedis(s);
    }
  }

  /** Redis reads back what `Show` prints for a 64-bit value. */
  lemma ParseRedisShow(n: int)
    requires LongMin <= n <= LongMax
    ensures ParseRedis(Show(n)) == Some(n)
  {
    var s := Show(n);
    if n < 0 {
      assert s[1..] == Digits(-n);
      ValueOfDigits(-n);
    } else {
      ValueOfDigits(n);
    }
  }

  /** Whatever Redis accepts as an integer is `Show` of its value. */
  lemma ShowParseRedis(s: string)
    requires ParseRedis(s).Some?
    ensures s == Show(ParseRedis(s).value)
  {
    if s[0] == '-' {
      DigitsOfValue(s[1..]);
      assert s == [s[0]] + s[1..];
    } else {
      DigitsOfValue(s);
    }
  }
}
