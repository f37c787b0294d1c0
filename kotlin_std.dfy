/*
 * The few Kotlin standard-library calls whose exact behaviour the screens rely on:
 * String.isBlank, String.toIntOrNull, Int.toString, String.length (UTF-16 code units),
 * Number.toInt on a Gson-decoded number, and List.filter.
 */
module KotlinStd {

  datatype Option<+T> = None | Some(value: T) {
    /** Kotlin's `x ?: default` on a nullable value. */
    function GetOr(default: T): T {
      match this
      case Some(v) => v
      case None => default
    }
  }

  const MinInt: int := -0x8000_0000
  const MaxInt: int := 0x7FFF_FFFF

  predicate IsInt32(n: int) {
    MinInt <= n <= MaxInt
  }

  // ---------------------------------------------------------------------------
  // Char.isWhitespace / String.isBlank
  // ---------------------------------------------------------------------------

  /** Char.isWhitespace on the JVM: Character.isWhitespace || Character.isSpaceChar. */
  predicate IsWhitespace(c: char) {
    || c == '\t' || c == '\n' || c == '\U{B}' || c == '\U{C}' || c == '\r'
    || ('\U{1C}' <= c <= '\U{1F}')
    || c == ' ' || c == '\U{A0}' || c == '\U{1680}'
    || ('\U{2000}' <= c <= '\U{200A}')
    || c == '\U{2028}' || c == '\U{2029}' || c == '\U{202F}' || c == '\U{205F}' || c == '\U{3000}'
  }

  /** String.isBlank: empty, or made only of whitespace. */
  predicate IsBlank(s: string) {
    forall i :: 0 <= i < |s| ==> IsWhitespace(s[i])
  }

  // ---------------------------------------------------------------------------
  // Int.toString and String.toIntOrNull (radix 10)
  // ---------------------------------------------------------------------------

  predicate IsDigit(c: char) {
    '0' <= c <= '9'
  }

  predicate AllDigits(s: string) {
    forall i :: 0 <= i < |s| ==> IsDigit(s[i])
  }

  function DigitChar(d: int): (c: char)
    requires 0 <= d < 10
    ensures IsDigit(c)
  {
    (48 + d) as char
  }

  /** The value of a string of decimal digits, most significant first. */
  function DigitsValue(s: string): nat
    requires AllDigits(s)
  {
    if |s| == 0 then 0
    else DigitsValue(s[..|s| - 1]) * 10 + (s[|s| - 1] as int - 48)
  }

  /** Decimal digits of a natural number, without leading zeros. */
  function NatToString(n: nat): (s: string)
    ensures |s| > 0 && AllDigits(s)
    decreases n
  {
    if n < 10 then [DigitChar(n)] else NatToString(n / 10) + [DigitChar(n % 10)]
  }

  /** Int.toString: a leading '-' for negative numbers, then the decimal digits. */
  function IntToString(n: int): (s: string)
    ensures |s| > 0
    ensures n < 0 <==> s[0] == '-'
  {
    if n < 0 then "-" + NatToString(-n) else NatToString(n)
  }

  function InInt32(n: int): Option<int> {
    if IsInt32(n) then Some(n) else None
  }

  /**
   * String.toIntOrNull(): an optional leading '-' or '+' followed by at least one
   * decimal digit, and a value that fits in a 32-bit Int; anything else gives null.
   */
  function ParseInt(s: string): (r: Option<int>)
    ensures r.Some? <==>
      || (|s| > 0 && AllDigits(s) && IsInt32(DigitsValue(s)))
      || (|s| > 1 && s[0] == '-' && AllDigits(s[1..]) && IsInt32(-(DigitsValue(s[1..]) as int)))
      || (|s| > 1 && s[0] == '+' && AllDigits(s[1..]) && IsInt32(DigitsValue(s[1..])))
    ensures r.Some? && AllDigits(s) ==> r.value == DigitsValue(s)
    ensures r.Some? && s[0] == '-' ==> r.value == -(DigitsValue(s[1..]) as int)
    ensures r.Some? && s[0] == '+' ==> r.value == DigitsValue(s[1..])
    ensures r.Some? ==> IsInt32(r.value)
    ensures r.Some? ==> |s| > 0 && !IsBlank(s)
    ensures r.Some? && s[0] == '-' ==> r.value <= 0
    ensures r.Some? && s[0] != '-' ==> r.value >= 0
  {
    if |s| == 0 then None
    else if s[0] < '0' then
      if |s| == 1 then None
      else if s[0] == '-' && AllDigits(s[1..]) then InInt32(-(DigitsValue(s[1..]) as int))
      else if s[0] == '+' && AllDigits(s[1..]) then InInt32(DigitsValue(s[1..]))
      else None
    else if AllDigits(s) then InInt32(DigitsValue(s))
    else None
  }

  lemma {:induction false} DigitsValueOfNatToString(n: nat)
    ensures DigitsValue(NatToString(n)) == n
    decreases n
  {
    var s := NatToString(n);
    if n < 10 {
      assert s[..|s| - 1] == [];
    } else {
      DigitsValueOfNatToString(n / 10);
      assert s[..|s| - 1] == NatToString(n / 10);
    }
  }

  /** Every 32-bit Int survives printing and parsing back: toString().toIntOrNull() == this. */
  lemma ParseIntOfIntToString(n: int)
    requires IsInt32(n)
    ensures ParseInt(IntToString(n)) == Some(n)
  {
    if n < 0 {
      var digits := NatToString(-n);
      var s := IntToString(n);
      assert s[1..] == digits;
      DigitsValueOfNatToString(-n);
    } else {
      DigitsValueOfNatToString(n);
      var s := NatToString(n);
      assert IsDigit(s[0]);
    }
  }

  /** Distinct numbers print differently. */
  lemma IntToStringInjective(m: int, n: int)
    requires IsInt32(m) && IsInt32(n) && IntToString(m) == IntToString(n)
    ensures m == n
  {
    ParseIntOfIntToString(m);
    ParseIntOfIntToString(n);
  }

  // ---------------------------------------------------------------------------
  // String.length
  // ---------------------------------------------------------------------------

  /** String.length counts UTF-16 code units: a character outside the BMP counts twice. */
  function Utf16Length(s: string): (n: nat)
    ensures |s| <= n <= 2 * |s|
  {
    if |s| == 0 then 0
    else (if s[0] as int > 0xFFFF then 2 else 1) + Utf16Length(s[1..])
  }

  // ---------------------------------------------------------------------------
  // Number.toInt on a decoded JSON number (a Double in the source)
  // ---------------------------------------------------------------------------

  /** Truncation toward zero, saturating at the bounds of Int. */
  function DoubleToInt(x: real): (n: int)
    ensures IsInt32(n)
    ensures 0.0 <= x <= MaxInt as real ==> n as real <= x < (n + 1) as real
    ensures MinInt as real <= x < 0.0 ==> (n - 1) as real < x <= n as real
    ensures x >= MaxInt as real ==> n == MaxInt
    ensures x <= MinInt as real ==> n == MinInt
    ensures x >= 0.0 ==> n >= 0
    ensures x <= 0.0 ==> n <= 0
  {
    var t := if x >= 0.0 then x.Floor else -((-x).Floor);
    if t < MinInt then MinInt else if t > MaxInt then MaxInt else t
  }

  /** A whole number within Int converts to itself. */
  lemma DoubleToIntOfWhole(n: int)
    requires IsInt32(n)
    ensures DoubleToInt(n as real) == n
  {
  }

  /** Conversion never reverses the order of two numbers. */
  lemma {:induction false} DoubleToIntMonotonic(x: real, y: real)
    requires x <= y
    ensures DoubleToInt(x) <= DoubleToInt(y)
  {
  }

  // ---------------------------------------------------------------------------
  // List.filter
  // ---------------------------------------------------------------------------

  function Filter<T(!new)>(xs: seq<T>, keep: T -> bool): (r: seq<T>)
    ensures |r| <= |xs|
    ensures forall x :: x in r <==> x in xs && keep(x)
  {
    if |xs| == 0 then []
    else if keep(xs[0]) then [xs[0]] + Filter(xs[1..], keep)
    else Filter(xs[1..], keep)
  }

  /** Filtering keeps the order of what it keeps: it distributes over concatenation. */
  lemma {:induction false} FilterAppend<T(!new)>(xs: seq<T>, ys: seq<T>, keep: T -> bool)
    ensures Filter(xs + ys, keep) == Filter(xs, keep) + Filter(ys, keep)
  {
    if |xs| == 0 {
      assert xs + ys == ys;
    } else {
      assert (xs + ys)[1..] == xs[1..] + ys;
      FilterAppend(xs[1..], ys, keep);
    }
  }

  /** Each kept element keeps its multiplicity; every other element is gone. */
  lemma {:induction false} FilterMultiset<T(!new)>(xs: seq<T>, keep: T -> bool, x: T)
    ensures multiset(Filter(xs, keep))[x] == if keep(x) then multiset(xs)[x] else 0
  {
    if |xs| > 0 {
      FilterMultiset(xs[1..], keep, x);
      assert xs == [xs[0]] + xs[1..];
    }
  }

  /** A list in which every element passes is returned unchanged. */
  lemma {:induction false} FilterAllKept<T(!new)>(xs: seq<T>, keep: T -> bool)
    requires forall i :: 0 <= i < |xs| ==> keep(xs[i])
    ensures Filter(xs, keep) == xs
  {
    if |xs| > 0 {
      FilterAllKept(xs[1..], keep);
    }
  }

  /** Filtering twice with the same predicate is the same as filtering once. */
  lemma FilterIdempotent<T(!new)>(xs: seq<T>, keep: T -> bool)
    ensures Filter(Filter(xs, keep), keep) == Filter(xs, keep)
  {
    var r := Filter(xs, keep);
    forall i | 0 <= i < |r| ensures keep(r[i]) {
      assert r[i] in r;
    }
    FilterAllKept(r, keep);
  }
}
