/**
 * Decimal text shared by the backend and the frontend: the decimal form of an
 * integer (Python's `str` and JavaScript's `String` agree on it for integers)
 * and Python's `int()` conversion of a string in base 10. JavaScript writes
 * integers from 1e21 up in exponent form; that range is not modelled.
 */
module Text {
  import opened Wrappers

  predicate IsDigit(c: char) {
    '0' <= c <= '9'
  }

  predicate AllDigits(s: string) {
    forall i :: 0 <= i < |s| ==> IsDigit(s[i])
  }

  function DigitValue(c: char): (d: nat)
    requires IsDigit(c)
    ensures d < 10
  {
    (c as int) - ('0' as int)
  }

  function DigitChar(d: nat): (c: char)
    requires d < 10
    ensures IsDigit(c) && DigitValue(c) == d
  {
    (('0' as int) + d) as char
  }

  /** The value of a run of decimal digits, most significant first. */
  function DigitsValue(s: string): nat
    requires AllDigits(s)
    decreases |s|
  {
    if s == [] then 0 else DigitsValue(s[..|s| - 1]) * 10 + DigitValue(s[|s| - 1])
  }

  /** Decimal text of a natural number: digits only, no leading zero. */
  function NatToString(n: nat): (s: string)
    ensures |s| > 0 && AllDigits(s)
    ensures |s| > 1 ==> s[0] != '0'
    decreases n
  {
    if n < 10 then [DigitChar(n)] else NatToString(n / 10) + [DigitChar(n % 10)]
  }

  /** Decimal text of an integer, with a leading '-' when it is negative. */
  function IntToString(n: int): (s: string)
    ensures |s| > 0
    ensures n < 0 <==> s[0] == '-'
  {
    if n < 0 then "-" + NatToString(-n) else NatToString(n)
  }

  lemma {:induction false} NatToStringValue(n: nat)
    ensures DigitsValue(NatToString(n)) == n
    decreases n
  {
    if n >= 10 {
      var s := NatToString(n);
      NatToStringValue(n / 10);
      assert s[..|s| - 1] == NatToString(n / 10);
    }
  }

  // ---- Python's int(s) for a str in base 10 ----

  /**
   * The ASCII white space int() skips around the number: TAB, LF, VT, FF, CR
   * and SPACE. (int() passes every other ASCII character through unchanged,
   * so the separators chr(28) to chr(31) are not skipped.)
   */
  predicate IsPySpace(c: char) {
    c == ' ' || 9 <= c as int <= 13
  }

  function TrimStart(s: string): (t: string)
    ensures |t| <= |s| && t == s[|s| - |t|..]
    ensures |t| > 0 ==> !IsPySpace(t[0])
    decreases |s|
  {
    if |s| > 0 && IsPySpace(s[0]) then TrimStart(s[1..]) else s
  }

  function TrimEnd(s: string): (t: string)
    ensures |t| <= |s| && t == s[..|t|]
    ensures |t| > 0 ==> !IsPySpace(t[|t| - 1])
    decreases |s|
  {
    if |s| > 0 && IsPySpace(s[|s| - 1]) then TrimEnd(s[..|s| - 1]) else s
  }

  predicate DigitsOrUnderscores(s: string) {
    forall i :: 0 <= i < |s| ==> IsDigit(s[i]) || s[i] == '_'
  }

  /** Digits, with single underscores allowed only between two digits. */
  predicate IsDigitRun(s: string) {
    && |s| > 0
    && IsDigit(s[0])
    && IsDigit(s[|s| - 1])
    && DigitsOrUnderscores(s)
    && forall i :: 0 <= i < |s| - 1 && s[i] == '_' ==> s[i + 1] != '_'
  }

  function DropUnderscores(s: string): (t: string)
    ensures |t| <= |s|
    ensures DigitsOrUnderscores(s) ==> AllDigits(t)
    ensures AllDigits(s) ==> t == s
  {
    if s == [] then []
    else if s[0] == '_' then DropUnderscores(s[1..])
    else [s[0]] + DropUnderscores(s[1..])
  }

  /** An unsigned digit run and its value. */
  function ParseRun(t: string): (r: Option<nat>)
    ensures r.Some? ==> |t| > 0 && IsDigit(t[0])
  {
    if IsDigitRun(t) then Some(DigitsValue(DropUnderscores(t))) else None
  }

  /** What int() accepts once the white space is trimmed: one optional sign, then a digit run. */
  function ParseSignedRun(t: string): (r: Option<int>)
    ensures r.Some? ==> exists i :: 0 <= i < |t| && IsDigit(t[i])
  {
    if |t| > 0 && (t[0] == '-' || t[0] == '+') then
      match ParseRun(t[1..])
      case None => None
      case Some(v) =>
        assert IsDigit(t[1..][0]);
        var w: int := v;
        Some(if t[0] == '-' then -w else w)
    else ParseRun(t)
  }

  /**
   * The default of `sys.int_max_str_digits`: int() of a str in base 10 with more
   * digits than this raises ValueError.
   */
  const MaxStrDigits := 4300

  /** The number of decimal digits in `s` (underscores and signs are not digits). */
  function CountDigits(s: string): (k: nat)
    ensures k <= |s|
    ensures AllDigits(s) ==> k == |s|
  {
    if s == [] then 0 else (if IsDigit(s[0]) then 1 else 0) + CountDigits(s[1..])
  }

  /**
   * int(s) for a string: surrounding white space is ignored, one optional sign,
   * then a digit run of at most MaxStrDigits digits. None stands for the
   * ValueError Python raises.
   */
  function ParsePyInt(s: string): (r: Option<int>)
    ensures r.Some? ==> exists i :: 0 <= i < |s| && IsDigit(s[i])
    ensures r.Some? ==> CountDigits(TrimEnd(TrimStart(s))) <= MaxStrDigits
  {
    var t := TrimEnd(TrimStart(s));
    var r := if CountDigits(t) > MaxStrDigits then None else ParseSignedRun(t);
    if r.Some? then
      var i :| 0 <= i < |t| && IsDigit(t[i]);
      assert t[i] == s[|s| - |TrimStart(s)| + i];
      r
    else r
  }

  /** A non-empty run of plain digits is a digit run that dropping underscores leaves alone. */
  lemma PlainDigitsAreRun(d: string)
    requires |d| > 0 && AllDigits(d)
    ensures IsDigitRun(d) && DropUnderscores(d) == d
  {
  }

  /** Trimming leaves a string alone whose ends are not white space. */
  lemma TrimKeepsUnspacedEnds(s: string)
    requires |s| > 0 && !IsPySpace(s[0]) && !IsPySpace(s[|s| - 1])
    ensures TrimEnd(TrimStart(s)) == s
  {
  }

  /** A run of plain digits parses to its value. */
  lemma ParseRunOfDigits(d: string)
    requires |d| > 0 && AllDigits(d)
    ensures ParseRun(d) == Some(DigitsValue(d))
  {
    PlainDigitsAreRun(d);
  }

  /** A string starting with a digit has no sign to read. */
  lemma UnsignedRun(d: string)
    requires |d| > 0 && IsDigit(d[0])
    ensures ParseSignedRun(d) == ParseRun(d)
  {
  }

  /** int() of a string that trimming leaves alone is the parse of its signed run, within the digit limit. */
  lemma ParseUntrimmed(s: string)
    requires TrimEnd(TrimStart(s)) == s
    ensures ParsePyInt(s) == if CountDigits(s) > MaxStrDigits then None else ParseSignedRun(s)
  {
  }

  /** int() of at most MaxStrDigits plain digits is their value. */
  lemma ParseUnsignedDigits(d: string)
    requires 0 < |d| <= MaxStrDigits && AllDigits(d)
    ensures ParsePyInt(d) == Some(DigitsValue(d))
  {
    ParseRunOfDigits(d);
    UnsignedRun(d);
    TrimKeepsUnspacedEnds(d);
    ParseUntrimmed(d);
  }

  /** int() of more than MaxStrDigits plain digits raises ValueError, whatever their value. */
  lemma {:induction false} TooManyDigitsIsValueError(d: string)
    requires |d| > MaxStrDigits && AllDigits(d)
    ensures ParsePyInt(d) == None
  {
    TrimKeepsUnspacedEnds(d);
    ParseUntrimmed(d);
  }

  lemma SignedRunOfNegated(d: string)
    requires ParseRun(d).Some?
    ensures ParseSignedRun("-" + d) == Some(-(ParseRun(d).value as int))
  {
    assert ("-" + d)[1..] == d;
  }

  lemma NegatedDigitsAreTrimmed(d: string)
    requires |d| > 0 && AllDigits(d)
    ensures TrimEnd(TrimStart("-" + d)) == "-" + d
  {
    var s := "-" + d;
    assert s[|s| - 1] == d[|d| - 1];
    TrimKeepsUnspacedEnds(s);
  }

  /** A sign is not a digit. */
  lemma CountDigitsNegated(d: string)
    ensures CountDigits("-" + d) == CountDigits(d)
  {
    assert ("-" + d)[1..] == d;
  }

  /** int() of '-' followed by at most MaxStrDigits plain digits is minus their value. */
  lemma ParseNegatedDigits(d: string)
    requires 0 < |d| <= MaxStrDigits && AllDigits(d)
    ensures ParsePyInt("-" + d) == Some(-(DigitsValue(d) as int))
  {
    ParseRunOfDigits(d);
    SignedRunOfNegated(d);
    NegatedDigitsAreTrimmed(d);
    CountDigitsNegated(d);
    ParseUntrimmed("-" + d);
  }

  /** The absolute value of an integer. */
  function Magnitude(n: int): (m: nat)
    ensures m == n || m == -n
  {
    if n < 0 then -n else n
  }

  /** The decimal text of an integer reads back as that integer as a signed digit run. */
  lemma {:induction false} SignedRunOfIntToString(n: int)
    ensures ParseSignedRun(IntToString(n)) == Some(n)
  {
    var d := NatToString(Magnitude(n));
    NatToStringValue(Magnitude(n));
    ParseRunOfDigits(d);
    if n < 0 {
      var s := IntToString(n);
      assert s == "-" + d;
      SignedRunOfNegated(d);
    } else {
      UnsignedRun(d);
    }
  }

  /** Distinct integers have distinct decimal texts. */
  lemma IntToStringInjective(a: int, b: int)
    requires IntToString(a) == IntToString(b)
    ensures a == b
  {
    SignedRunOfIntToString(a);
    SignedRunOfIntToString(b);
  }

  lemma ParseOfNegative(n: int)
    requires n < 0 && |NatToString(-n)| <= MaxStrDigits
    ensures ParsePyInt(IntToString(n)) == Some(n)
  {
    var m: nat := -n;
    var d := NatToString(m);
    NatToStringValue(m);
    var s := IntToString(n);
    assert s == "-" + d;
    ParseNegatedDigits(d);
  }

  lemma ParseOfNonNegative(n: nat)
    requires |NatToString(n)| <= MaxStrDigits
    ensures ParsePyInt(IntToString(n)) == Some(n)
  {
    NatToStringValue(n);
    ParseUnsignedDigits(NatToString(n));
  }

  /**
   * int(str(n)) == n for every integer of at most MaxStrDigits digits (str()
   * itself raises ValueError beyond that limit).
   */
  lemma ParsePyIntOfIntToString(n: int)
    requires |NatToString(Magnitude(n))| <= MaxStrDigits
    ensures ParsePyInt(IntToString(n)) == Some(n)
  {
    if n < 0 {
      ParseOfNegative(n);
    } else {
      ParseOfNonNegative(n);
    }
  }
}
