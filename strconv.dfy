/**
 * Go's `strconv.ParseInt(s, 10, 64)` as used by `jsonGetInt` and for the
 * `FLUSH_MS` setting: an optional sign, then decimal digits accumulated left
 * to right into an unsigned 64-bit value, then a signed range check.
 * A non-digit yields a syntax error (value 0); an overflow yields a range
 * error whose value is clamped to the nearest 64-bit bound. The digit loop
 * stops at whichever of the two it meets first.
 */
module Strconv {

  const MaxUint64: nat := 0xFFFF_FFFF_FFFF_FFFF
  const MaxInt64: int := 0x7FFF_FFFF_FFFF_FFFF
  const MinInt64: int := -0x8000_0000_0000_0000

  /** What ParseInt returns: a value, a syntax error, or a range error with its clamped value. */
  datatype IntOutcome = Parsed(value: int) | SyntaxError | RangeError(clamped: int) {

    /** The integer Go hands back when the error is ignored (`v, _ := strconv.ParseInt(...)`). */
    function IgnoringError(): int {
      match this
      case Parsed(v) => v
      case SyntaxError => 0
      case RangeError(c) => c
    }
  }

  /** What the unsigned digit loop returns. */
  datatype UintOutcome = UParsed(n: nat) | USyntax | URange

  predicate IsDigit(c: char) {
    '0' <= c <= '9'
  }

  function DigitValue(c: char): nat
    requires IsDigit(c)
  {
    c as int - '0' as int
  }

  function Digit(d: nat): (c: char)
    requires d < 10
    ensures IsDigit(c) && DigitValue(c) == d
  {
    ('0' as int + d) as char
  }

  predicate AllDigits(s: string) {
    forall i :: 0 <= i < |s| ==> IsDigit(s[i])
  }

  /** Decimal value of a digit string, read left to right on top of `n`. */
  function Horner(n: nat, s: string): nat
    requires AllDigits(s)
    decreases |s|
  {
    if s == [] then n else Horner(n * 10 + DigitValue(s[0]), s[1..])
  }

  function DecimalValue(s: string): nat
    requires AllDigits(s)
  {
    Horner(0, s)
  }

  /** The part of `s` after an optional leading sign. */
  function Unsigned(s: string): string {
    if |s| > 0 && (s[0] == '+' || s[0] == '-') then s[1..] else s
  }

  /** `s` is an optional sign followed by at least one decimal digit. */
  predicate IsDecimalInt(s: string) {
    |Unsigned(s)| > 0 && AllDigits(Unsigned(s))
  }

  function SignedValue(s: string): int
    requires IsDecimalInt(s)
  {
    if s[0] == '-' then -(DecimalValue(Unsigned(s)) as int) else DecimalValue(Unsigned(s))
  }

  /** The digit loop of ParseUint for base 10 (no underscores: the base is explicit). */
  function AccumulateDigits(n: nat, s: string): UintOutcome
    decreases |s|
  {
    if s == [] then UParsed(n)
    else if !IsDigit(s[0]) then USyntax
    else if n * 10 + DigitValue(s[0]) > MaxUint64 then URange
    else AccumulateDigits(n * 10 + DigitValue(s[0]), s[1..])
  }

  function ParseUint(s: string): UintOutcome {
    if s == [] then USyntax else AccumulateDigits(0, s)
  }

  function ParseInt(s: string): IntOutcome {
    if s == [] then SyntaxError
    else
      var neg := s[0] == '-';
      match ParseUint(Unsigned(s))
      case USyntax => SyntaxError
      case URange => if neg then RangeError(MinInt64) else RangeError(MaxInt64)
      case UParsed(un) =>
        if !neg && un > MaxInt64 then RangeError(MaxInt64)
        else if neg && un > -MinInt64 then RangeError(MinInt64)
        else Parsed(if neg then -(un as int) else un)
  }

  /** Decimal rendering of a natural number, most significant digit first. */
  function FormatNat(n: nat): (s: string)
    ensures |s| > 0 && AllDigits(s)
  {
    if n < 10 then [Digit(n)] else FormatNat(n / 10) + [Digit(n % 10)]
  }

  /** Decimal rendering of an integer, with a leading '-' when negative. */
  function FormatInt(i: int): string {
    if i < 0 then "-" + FormatNat(-i) else FormatNat(i)
  }

  lemma {:induction false} HornerAtLeast(n: nat, s: string)
    requires AllDigits(s)
    ensures Horner(n, s) >= n
    decreases |s|
  {
    if s != [] {
      HornerAtLeast(n * 10 + DigitValue(s[0]), s[1..]);
    }
  }

  lemma {:induction false} HornerAppend(n: nat, a: string, b: string)
    requires AllDigits(a) && AllDigits(b)
    ensures AllDigits(a + b) && Horner(n, a + b) == Horner(Horner(n, a), b)
    decreases |a|
  {
    if a == [] {
      assert a + b == b;
    } else {
      assert (a + b)[0] == a[0] && (a + b)[1..] == a[1..] + b;
      HornerAppend(n * 10 + DigitValue(a[0]), a[1..], b);
    }
  }

  /** The digit loop accepts exactly the digit strings whose value fits in 64 unsigned bits. */
  lemma {:induction false} AccumulateDigitsMeaning(n: nat, s: string)
    ensures n <= MaxUint64 && AccumulateDigits(n, s).UParsed? ==>
      AllDigits(s) && AccumulateDigits(n, s).n == Horner(n, s) && Horner(n, s) <= MaxUint64
    ensures AllDigits(s) && n <= MaxUint64 ==>
      AccumulateDigits(n, s) == if Horner(n, s) <= MaxUint64 then UParsed(Horner(n, s)) else URange
    decreases |s|
  {
    if s != [] && IsDigit(s[0]) {
      var m := n * 10 + DigitValue(s[0]);
      AccumulateDigitsMeaning(m, s[1..]);
      if AllDigits(s) {
        HornerAtLeast(m, s[1..]);
      }
    }
  }

  /** The digit loop over a digit prefix that fits carries on from that prefix's value. */
  lemma {:induction false} AccumulateDigitsAppend(n: nat, a: string, b: string)
    requires AllDigits(a) && Horner(n, a) <= MaxUint64
    ensures AccumulateDigits(n, a + b) == AccumulateDigits(Horner(n, a), b)
    decreases |a|
  {
    if a == [] {
      assert a + b == b;
    } else {
      var m := n * 10 + DigitValue(a[0]);
      HornerAtLeast(m, a[1..]);
      assert (a + b)[0] == a[0] && (a + b)[1..] == a[1..] + b;
      AccumulateDigitsAppend(m, a[1..], b);
    }
  }

  /** Whatever ParseInt accepts is a well-formed decimal integer, its value, and within 64 signed bits. */
  lemma ParseIntSound(s: string)
    ensures ParseInt(s).Parsed? ==>
      IsDecimalInt(s) && ParseInt(s).value == SignedValue(s) && MinInt64 <= ParseInt(s).value <= MaxInt64
  {
    AccumulateDigitsMeaning(0, Unsigned(s));
  }

  /** Every well-formed decimal integer within 64 signed bits is accepted with its value. */
  lemma ParseIntComplete(s: string)
    requires IsDecimalInt(s) && MinInt64 <= SignedValue(s) <= MaxInt64
    ensures ParseInt(s) == Parsed(SignedValue(s))
  {
    AccumulateDigitsMeaning(0, Unsigned(s));
  }

  /** A well-formed decimal integer outside 64 signed bits is a range error clamped to the bound on its side. */
  lemma ParseIntOutOfRange(s: string)
    requires IsDecimalInt(s) && !(MinInt64 <= SignedValue(s) <= MaxInt64)
    ensures ParseInt(s) == if s[0] == '-' then RangeError(MinInt64) else RangeError(MaxInt64)
  {
    AccumulateDigitsMeaning(0, Unsigned(s));
  }

  /** ParseInt accepts exactly the well-formed decimal integers within 64 signed bits, with their values. */
  lemma ParseIntMeaning(s: string)
    ensures ParseInt(s).Parsed? <==> IsDecimalInt(s) && MinInt64 <= SignedValue(s) <= MaxInt64
    ensures ParseInt(s).Parsed? ==> ParseInt(s).value == SignedValue(s)
  {
    ParseIntSound(s);
    if IsDecimalInt(s) && MinInt64 <= SignedValue(s) <= MaxInt64 {
      ParseIntComplete(s);
    }
  }

  lemma {:induction false} FormatNatValue(n: nat)
    ensures DecimalValue(FormatNat(n)) == n
  {
    if n < 10 {
      assert Horner(0, [Digit(n)]) == Horner(n, []);
    } else {
      FormatNatValue(n / 10);
      var d := Digit(n % 10);
      HornerAppend(0, FormatNat(n / 10), [d]);
      assert FormatNat(n) == FormatNat(n / 10) + [d];
      assert Horner(n / 10, [d]) == Horner((n / 10) * 10 + n % 10, []);
    }
  }

  /** Round trip: parsing the decimal rendering of any 64-bit integer gives it back. */
  lemma ParseFormatInt(i: int)
    requires MinInt64 <= i <= MaxInt64
    ensures FormatInt(i) != "-" && ParseInt(FormatInt(i)) == Parsed(i)
  {
    var s := FormatInt(i);
    if i < 0 {
      FormatNatValue(-i);
      assert Unsigned(s) == FormatNat(-i);
    } else {
      FormatNatValue(i);
      assert Unsigned(s) == FormatNat(i);
    }
    ParseIntComplete(s);
  }
}
