/**
 * The JavaScript built-ins the dashboard's components rely on, stated over
 * `string` = `seq<char>`: `toLowerCase` (ASCII letters only), `trim`,
 * `includes`, `slice`, `String(n)` for an integer-valued number and
 * `Number(s)` for decimal integer text.
 */
module JsText {

  function Min(a: int, b: int): int { if a <= b then a else b }

  function Max(a: int, b: int): int { if a <= b then b else a }

  /** The em dash the components show in place of a missing value. */
  const Dash: string := "—"

  // ---------------------------------------------------------------------------
  // String.prototype.toLowerCase, restricted to the ASCII letters

  function Lower(c: char): (r: char)
    ensures !('A' <= r <= 'Z')
    ensures r == c || 'A' <= c <= 'Z'
  {
    if 'A' <= c <= 'Z' then (c as int + 32) as char else c
  }

  function ToLowerCase(s: string): (r: string)
    ensures |r| == |s|
    ensures forall i :: 0 <= i < |s| ==> r[i] == Lower(s[i])
  {
    seq(|s|, i requires 0 <= i < |s| => Lower(s[i]))
  }

  /** Lowercasing twice is lowercasing once. */
  lemma ToLowerCaseIdempotent(s: string)
    ensures ToLowerCase(ToLowerCase(s)) == ToLowerCase(s)
  {
  }

  // ---------------------------------------------------------------------------
  // String.prototype.trim: ECMAScript WhiteSpace and LineTerminator code points

  predicate IsWhitespace(c: char) {
    || c == '\t' || c == '\n' || c == '\U{000B}' || c == '\U{000C}' || c == '\r'
    || c == ' ' || c == '\U{00A0}' || c == '\U{1680}'
    || ('\U{2000}' <= c <= '\U{200A}')
    || c == '\U{2028}' || c == '\U{2029}' || c == '\U{202F}' || c == '\U{205F}'
    || c == '\U{3000}' || c == '\U{FEFF}'
  }

  predicate AllWhitespace(s: string) {
    forall i :: 0 <= i < |s| ==> IsWhitespace(s[i])
  }

  /** The number of leading whitespace characters of `s`. */
  function LeadingWhitespace(s: string): (k: nat)
    ensures k <= |s|
    ensures forall i :: 0 <= i < k ==> IsWhitespace(s[i])
    ensures k < |s| ==> !IsWhitespace(s[k])
  {
    if s == [] || !IsWhitespace(s[0]) then 0 else 1 + LeadingWhitespace(s[1..])
  }

  /** The index at which the trailing whitespace of `s` begins. */
  function TrailingStart(s: string): (k: nat)
    ensures k <= |s|
    ensures forall i :: k <= i < |s| ==> IsWhitespace(s[i])
    ensures k > 0 ==> !IsWhitespace(s[k - 1])
  {
    if s == [] || !IsWhitespace(s[|s| - 1]) then |s| else TrailingStart(s[..|s| - 1])
  }

  function Trim(s: string): (r: string)
    // the result is the infix of `s` left once the whitespace at both ends is cut off
    ensures var a := LeadingWhitespace(s);
      && a + |r| <= |s| && r == s[a..a + |r|]
      && (forall i :: 0 <= i < a ==> IsWhitespace(s[i]))
      && (forall i :: a + |r| <= i < |s| ==> IsWhitespace(s[i]))
    ensures r != [] ==> !IsWhitespace(r[0]) && !IsWhitespace(r[|r| - 1])
    ensures r == [] <==> AllWhitespace(s)
  {
    var a := LeadingWhitespace(s);
    var t := s[a..];
    var b := TrailingStart(t);
    assert b > 0 ==> t[b - 1] == s[a + b - 1];
    t[..b]
  }

  /** Trimming a string that neither starts nor ends with whitespace changes nothing. */
  lemma TrimUnchanged(s: string)
    requires s != [] ==> !IsWhitespace(s[0]) && !IsWhitespace(s[|s| - 1])
    ensures Trim(s) == s
  {
    var r := Trim(s);
    var a := LeadingWhitespace(s);
    if s != [] {
      assert a == 0;
      assert !IsWhitespace(s[|s| - 1]);
    }
  }

  // ---------------------------------------------------------------------------
  // String.prototype.includes

  predicate StartsWith(s: string, p: string) {
    |p| <= |s| && s[..|p|] == p
  }

  /** `t` occurs in `s` starting at index `i`. */
  predicate OccursAt(s: string, t: string, i: int) {
    0 <= i <= |s| - |t| && s[i..i + |t|] == t
  }

  predicate Includes(s: string, t: string)
    decreases |s|
  {
    StartsWith(s, t) || (s != [] && Includes(s[1..], t))
  }

  /** `Includes` holds exactly when `t` occurs in `s` at some position. */
  lemma {:induction false} IncludesIff(s: string, t: string)
    ensures Includes(s, t) <==> exists i :: OccursAt(s, t, i)
  {
    if StartsWith(s, t) {
      assert OccursAt(s, t, 0);
    } else if s == [] {
    } else {
      IncludesIff(s[1..], t);
      if Includes(s[1..], t) {
        var i :| OccursAt(s[1..], t, i);
        assert s[i + 1..i + 1 + |t|] == s[1..][i..i + |t|];
        assert OccursAt(s, t, i + 1);
      }
      if exists i :: OccursAt(s, t, i) {
        var i :| OccursAt(s, t, i);
        assert i != 0;
        assert s[1..][i - 1..i - 1 + |t|] == s[i..i + |t|];
        assert OccursAt(s[1..], t, i - 1);
      }
    }
  }

  /** A string without the first character of `t` cannot include `t`. */
  lemma {:induction false} MissingFirstChar(s: string, t: string)
    requires t != [] && t[0] !in s
    ensures !Includes(s, t)
  {
    if s != [] {
      assert s[0] != t[0];
      assert s == [s[0]] + s[1..];
      MissingFirstChar(s[1..], t);
    }
  }

  // ---------------------------------------------------------------------------
  // String.prototype.slice and Array.prototype.slice

  /** How `slice` resolves one index argument against a length. */
  function ResolveIndex(i: int, len: nat): (r: nat)
    ensures r <= len
    ensures 0 <= i ==> r == Min(i, len)
    ensures i < 0 ==> r == Max(len + i, 0)
  {
    if i < 0 then (if len + i < 0 then 0 else len + i) else if i > len then len else i
  }

  function Slice<T>(s: seq<T>, start: int, end: int): (r: seq<T>)
    ensures 0 <= start && 0 <= end ==> |r| <= Max(end - start, 0)
    ensures 0 <= start <= end ==> r == s[Min(start, |s|)..Min(end, |s|)]
    ensures forall x :: x in r ==> x in s
  {
    var lo, hi := ResolveIndex(start, |s|), ResolveIndex(end, |s|);
    if lo < hi then s[lo..hi] else []
  }

  // ---------------------------------------------------------------------------
  // String(n) and Number(s) for integer values

  predicate IsDigit(c: char) { '0' <= c <= '9' }

  predicate AllDigits(s: string) {
    forall i :: 0 <= i < |s| ==> IsDigit(s[i])
  }

  function DigitChar(d: nat): (c: char)
    requires d < 10
    ensures IsDigit(c)
  {
    ('0' as int + d) as char
  }

  function DigitValue(c: char): (d: nat)
    requires IsDigit(c)
    ensures d < 10 && DigitChar(d) == c
  {
    c as int - '0' as int
  }

  /** The decimal digits of `n`, most significant first, without leading zeros. */
  function NatToString(n: nat): (r: string)
    ensures r != [] && AllDigits(r)
    ensures |r| > 1 || n > 0 ==> r[0] != '0'
  {
    if n < 10 then [DigitChar(n)] else NatToString(n / 10) + [DigitChar(n % 10)]
  }

  /** `String(n)` for an integer-valued number `n`. */
  function IntToString(n: int): (r: string)
    ensures r != []
    ensures r[0] == '-' <==> n < 0
    ensures n >= 0 ==> AllDigits(r)
    ensures n < 0 ==> AllDigits(r[1..])
  {
    if n < 0 then "-" + NatToString(-n) else NatToString(n)
  }

  /** The value of a string of decimal digits. */
  function DecimalValue(s: string): nat
    requires AllDigits(s)
  {
    if s == [] then 0 else 10 * DecimalValue(s[..|s| - 1]) + DigitValue(s[|s| - 1])
  }

  /** Reading back the digits `NatToString` writes gives the number. */
  lemma {:induction false} DecimalValueOfNatToString(n: nat)
    ensures DecimalValue(NatToString(n)) == n
  {
    if n >= 10 {
      var p := NatToString(n / 10);
      var r := NatToString(n);
      assert r[..|r| - 1] == p;
      DecimalValueOfNatToString(n / 10);
    }
  }

  /** Trimming leaves a run of digits as it is. */
  lemma DigitsAreTrimmed(s: string)
    ensures AllDigits(s) ==> Trim(s) == s
  {
    if AllDigits(s) {
      TrimUnchanged(s);
    }
  }

  /** A JavaScript number as far as the dashboard uses it: an integer, or NaN. */
  datatype JsNumber = Finite(value: int) | NaN

  /**
   * `Number(s)`: surrounding whitespace is ignored, blank text is 0, an
   * optionally signed run of decimal digits is its value, and anything else
   * is NaN here.
   */
  function Number(s: string): (x: JsNumber)
    ensures AllWhitespace(s) ==> x == Finite(0)
    ensures s != [] && AllDigits(s) ==> x == Finite(DecimalValue(s))
  {
    DigitsAreTrimmed(s);
    var t := Trim(s);
    if t == [] then Finite(0)
    else if |t| > 1 && t[0] == '-' && AllDigits(t[1..]) then Finite(0 - DecimalValue(t[1..]))
    else if |t| > 1 && t[0] == '+' && AllDigits(t[1..]) then Finite(DecimalValue(t[1..]))
    else if AllDigits(t) then Finite(DecimalValue(t))
    else NaN
  }

  /** `String(x)` for a number of the dashboard. */
  function NumberToString(x: JsNumber): (r: string)
    ensures r == "NaN" <==> x.NaN?
    ensures x.Finite? ==> r != [] && (r[0] == '-' <==> x.value < 0)
  {
    match x
    case Finite(v) => IntToString(v)
    case NaN => "NaN"
  }

  /** `Number(String(x)) == x` for every integer and for NaN. */
  lemma {:induction false} NumberOfNumberToString(x: JsNumber)
    ensures Number(NumberToString(x)) == x
  {
    var s := NumberToString(x);
    match x
    case NaN =>
      TrimUnchanged(s);
      assert !IsDigit(s[0]);
    case Finite(v) =>
      TrimUnchanged(s);
      if v < 0 {
        assert s[1..] == NatToString(-v);
        DecimalValueOfNatToString(-v);
        if |s| == 1 {
          assert false;
        }
      } else {
        DecimalValueOfNatToString(v);
      }
  }
}
