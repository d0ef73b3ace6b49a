/**
 Base-10 integer and boolean parsing as Go's `strconv` package performs it for
 64-bit integers: `ParseUint(s, 10, 64)`, `ParseInt(s, 10, 64)`, `Atoi` and
 `ParseBool`, plus the decimal formatting `%v` uses for integers.
 */
module Strconv {
  import opened Wrappers

  const MaxUint64: int := 0xFFFF_FFFF_FFFF_FFFF
  const MaxInt64: int := 0x7FFF_FFFF_FFFF_FFFF
  const MinInt64: int := -0x8000_0000_0000_0000

  predicate InInt64(n: int) { MinInt64 <= n <= MaxInt64 }

  predicate IsDigit(c: char) { '0' <= c <= '9' }

  function DigitValue(c: char): (d: nat)
    requires IsDigit(c)
    ensures d < 10
  {
    (c as int) - ('0' as int)
  }

  function DigitChar(d: nat): (c: char)
    requires d < 10
    ensures IsDigit(c) && DigitValue(c) == d
  {
    ((d + '0' as int) as char)
  }

  predicate AllDigits(s: string) {
    forall i :: 0 <= i < |s| ==> IsDigit(s[i])
  }

  /** The number a string of decimal digits denotes (reference definition,
      read from the last digit backwards). */
  function DigitsValue(s: string): nat
    requires AllDigits(s)
  {
    if |s| == 0 then 0 else 10 * DigitsValue(s[..|s| - 1]) + DigitValue(s[|s| - 1])
  }

  /** Length of the leading run of decimal digits: how far the digit loop of
      `ParseUint` reads before it meets a character that is not a digit. */
  function DigitRun(s: string): (k: nat)
    ensures k <= |s| && AllDigits(s[..k])
    ensures k < |s| ==> !IsDigit(s[k])
    decreases |s|
  {
    if s == [] || !IsDigit(s[0]) then 0
    else
      var k := 1 + DigitRun(s[1..]);
      assert s[..k] == [s[0]] + s[1..][..k - 1];
      k
  }

  /** The value of the leading run of digits. */
  function LeadingValue(s: string): nat {
    DigitsValue(s[..DigitRun(s)])
  }

  /** Characters after a non-digit do not change the leading run. */
  lemma {:induction false} DigitRunAppend(p: string, tail: string)
    requires tail != [] && !IsDigit(tail[0])
    ensures DigitRun(p + tail) == DigitRun(p) < |p + tail|
    ensures LeadingValue(p + tail) == LeadingValue(p)
    decreases |p|
  {
    var s := p + tail;
    if p != [] && IsDigit(p[0]) {
      assert s[1..] == p[1..] + tail;
      DigitRunAppend(p[1..], tail);
    }
    assert s[..DigitRun(p)] == p[..DigitRun(p)];
  }

  /** When `ParseUint` reports a syntax error: the input is empty, or the scan
      meets a non-digit before the digits read so far overflow 64 bits. */
  predicate UintSyntaxError(s: string) {
    (s == "" || DigitRun(s) < |s|) && LeadingValue(s) <= MaxUint64
  }

  /** Outcome of a strconv parse: a value, a syntax error, or a range error
      together with the clamped value Go returns beside it. */
  datatype NumResult = Parsed(n: int) | SyntaxError | RangeError(clamped: int)

  /** Reading more digits never makes a decimal value smaller. */
  lemma {:induction false} DigitsPrefixMonotone(s: string, j: nat)
    requires AllDigits(s) && j <= |s|
    ensures AllDigits(s[..j]) && DigitsValue(s[..j]) <= DigitsValue(s)
    decreases |s| - j
  {
    if j == |s| {
      assert s[..j] == s;
    } else {
      DigitsPrefixMonotone(s, j + 1);
      assert s[..j + 1][..j] == s[..j];
    }
  }

  /** The digit loop of `ParseUint` for base 10 and 64 bits: `acc` holds the
      value of `s[..i]`; the loop stops with a range error as soon as the next
      digit would overflow, before it looks at the characters after it. */
  function ScanDigits(s: string, i: nat, acc: nat): (r: NumResult)
    requires i <= |s|
    requires AllDigits(s[..i]) && acc == DigitsValue(s[..i]) && acc <= MaxUint64
    ensures r.Parsed? <==> AllDigits(s) && DigitsValue(s) <= MaxUint64
    ensures r.Parsed? ==> r.n == DigitsValue(s)
    ensures r.RangeError? ==> r.clamped == MaxUint64
    ensures AllDigits(s) && DigitsValue(s) > MaxUint64 ==> r.RangeError?
    ensures r.RangeError? <==> LeadingValue(s) > MaxUint64
    ensures r.SyntaxError? <==> DigitRun(s) < |s| && LeadingValue(s) <= MaxUint64
    decreases |s| - i
  {
    var k := DigitRun(s);
    if i == |s| then
      assert s[..i] == s;
      Parsed(acc)
    else if !IsDigit(s[i]) then
      SyntaxError
    else
      assert AllDigits(s[..i + 1]) && s[..i + 1][..i] == s[..i];
      var next := 10 * acc + DigitValue(s[i]);
      if acc >= MaxUint64 / 10 + 1 || next > MaxUint64 then
        DigitsPrefixMonotone(s[..k], i + 1);
        assert s[..k][..i + 1] == s[..i + 1];
        (if AllDigits(s) then DigitsPrefixMonotone(s, i + 1); RangeError(MaxUint64)
         else RangeError(MaxUint64))
      else
        ScanDigits(s, i + 1, next)
  }

  /** `strconv.ParseUint(s, 10, 64)`: digits only, no sign, no underscores. */
  function ParseUint(s: string): (r: NumResult)
    ensures r.Parsed? <==> s != "" && AllDigits(s) && DigitsValue(s) <= MaxUint64
    ensures r.Parsed? ==> r.n == DigitsValue(s)
    ensures r.RangeError? ==> r.clamped == MaxUint64
    ensures s != "" && AllDigits(s) && DigitsValue(s) > MaxUint64 ==> r == RangeError(MaxUint64)
    ensures s == "" || !IsDigit(s[0]) ==> r == SyntaxError
    ensures r.SyntaxError? <==> UintSyntaxError(s)
    ensures r.RangeError? <==> LeadingValue(s) > MaxUint64
  {
    if s == "" then SyntaxError else ScanDigits(s, 0, 0)
  }

  /** The digits of a signed literal: `s` without one leading '+' or '-'. */
  function Magnitude(s: string): string {
    if |s| > 0 && (s[0] == '+' || s[0] == '-') then s[1..] else s
  }

  /** An optional sign followed by at least one decimal digit. */
  predicate IsSignedDecimal(s: string) {
    |s| > 0 && |Magnitude(s)| > 0 && AllDigits(Magnitude(s))
  }

  /** Characters after the first that are not a sign do not change where the
      digits start. */
  lemma MagnitudeAppend(p: string, tail: string)
    requires tail != [] && tail[0] != '+' && tail[0] != '-'
    ensures Magnitude(p + tail) == Magnitude(p) + tail
  {
    if |p| > 0 && (p[0] == '+' || p[0] == '-') {
      assert (p + tail)[1..] == p[1..] + tail;
    }
  }

  function SignedValue(s: string): int
    requires IsSignedDecimal(s)
  {
    var m: int := DigitsValue(Magnitude(s));
    if s[0] == '-' then -m else m
  }

  /** `strconv.ParseInt(s, 10, 64)`. */
  function ParseInt(s: string): (r: NumResult)
    ensures r.Parsed? <==> IsSignedDecimal(s) && InInt64(SignedValue(s))
    ensures r.Parsed? ==> r.n == SignedValue(s)
    ensures IsSignedDecimal(s) && SignedValue(s) > MaxInt64 ==> r == RangeError(MaxInt64)
    ensures IsSignedDecimal(s) && SignedValue(s) < MinInt64 ==> r == RangeError(MinInt64)
    ensures r.RangeError? ==> r.clamped == MaxInt64 || r.clamped == MinInt64
    ensures r.SyntaxError? ==> !IsSignedDecimal(s)
    ensures r.SyntaxError? <==> UintSyntaxError(Magnitude(s))
  {
    if s == "" then SyntaxError
    else
      var neg := s[0] == '-';
      var un := ParseUint(Magnitude(s));
      if un.SyntaxError? then SyntaxError
      else
        var u := if un.Parsed? then un.n else un.clamped;
        if !neg && u >= 0x8000_0000_0000_0000 then RangeError(MaxInt64)
        else if neg && u > 0x8000_0000_0000_0000 then RangeError(MinInt64)
        else Parsed(if neg then -u else u)
  }

  function Clamp64(n: int): int {
    if n > MaxInt64 then MaxInt64 else if n < MinInt64 then MinInt64 else n
  }

  /** `strconv.Atoi` on a 64-bit platform with its error discarded, as the
      MinSize/MaxSize rules read their argument: the parsed value, the clamped
      value on overflow, and 0 on a syntax error. Digits that overflow before
      the first non-digit make a range error, not a syntax error, so "99999999999999999999x"
      reads as the bound while "5x" reads as 0. */
  function Atoi(s: string): (n: int)
    ensures InInt64(n)
    ensures IsSignedDecimal(s) ==> n == Clamp64(SignedValue(s))
    ensures Magnitude(s) == "" || !IsDigit(Magnitude(s)[0]) ==> n == 0
    ensures ParseInt(s).SyntaxError? ==> n == 0
    ensures UintSyntaxError(Magnitude(s)) ==> n == 0
    ensures LeadingValue(Magnitude(s)) > MaxUint64 ==> n == (if s[0] == '-' then MinInt64 else MaxInt64)
  {
    match ParseInt(s)
    case Parsed(v) => v
    case RangeError(c) => c
    case SyntaxError => 0
  }

  const TrueLiterals: set<string> := {"1", "t", "T", "TRUE", "true", "True"}
  const FalseLiterals: set<string> := {"0", "f", "F", "FALSE", "false", "False"}

  /** `strconv.ParseBool`. */
  function ParseBool(s: string): (r: Option<bool>)
    ensures r == Some(true) <==> s in TrueLiterals
    ensures r == Some(false) <==> s in FalseLiterals
  {
    if s == "1" || s == "t" || s == "T" || s == "TRUE" || s == "true" || s == "True" then Some(true)
    else if s == "0" || s == "f" || s == "F" || s == "FALSE" || s == "false" || s == "False" then Some(false)
    else None
  }

  /** Decimal digits of a natural number, most significant first. */
  function FormatNat(n: nat): (s: string)
    ensures |s| > 0 && AllDigits(s) && DigitsValue(s) == n
    ensures IsDigit(s[0])
  {
    if n < 10 then [DigitChar(n)]
    else
      var p := FormatNat(n / 10);
      assert (p + [DigitChar(n % 10)])[..|p|] == p;
      p + [DigitChar(n % 10)]
  }

  /** `strconv.FormatInt(n, 10)`, which is also what `%v` prints for an integer. */
  function FormatInt(n: int): string {
    if n < 0 then "-" + FormatNat(-n) else FormatNat(n)
  }

  /** Printing an int64 and parsing it back gives the same number. */
  lemma ParseFormatInt(n: int)
    requires InInt64(n)
    ensures ParseInt(FormatInt(n)) == Parsed(n)
  {
    var s := FormatInt(n);
    if n < 0 {
      assert Magnitude(s) == FormatNat(-n);
    } else {
      assert Magnitude(s) == FormatNat(n);
    }
  }

  /** Printing a uint64 and parsing it back gives the same number. */
  lemma ParseFormatUint(n: nat)
    requires n <= MaxUint64
    ensures ParseUint(FormatNat(n)) == Parsed(n)
  {
  }

  /** A single decimal digit parses to its value. */
  lemma ParseDigit(c: char)
    requires IsDigit(c)
    ensures ParseInt([c]) == Parsed(DigitValue(c)) && Atoi([c]) == DigitValue(c)
  {
    var s := [c];
    assert Magnitude(s) == s && AllDigits(s);
    assert s[..0] == [] && s[|s| - 1] == c;
    assert DigitsValue(s) == DigitValue(c);
    assert IsSignedDecimal(s) && SignedValue(s) == DigitValue(c);
  }
}
