// The slice of JavaScript value semantics the itinerary form relies on:
// `Number(x)`, the `||` default idiom, `String(n)` for integers, and the
// whitespace class shared by `String.prototype.trim` and the regex `\s`.

module JsValues {

  datatype Option<+T> = None | Some(value: T)

  /** A form value as JavaScript sees it. Numbers are modelled as integers. */
  datatype Value = Num(n: int) | NaN | Str(s: string) | Undefined

  /** JavaScript's WhiteSpace and LineTerminator characters (the class `\s`). */
  predicate IsWhitespace(c: char) {
    c == '\t' || c == '\n' || c == '\U{000B}' || c == '\U{000C}' || c == '\r'
    || c == ' ' || c == '\U{00A0}' || c == '\U{1680}' || ('\U{2000}' <= c <= '\U{200A}')
    || c == '\U{2028}' || c == '\U{2029}' || c == '\U{202F}' || c == '\U{205F}'
    || c == '\U{3000}' || c == '\U{FEFF}'
  }

  predicate NoWhitespace(s: string) {
    forall i :: 0 <= i < |s| ==> !IsWhitespace(s[i])
  }

  /** A string made only of whitespace, such as the padding around a typed number. */
  predicate AllWhitespace(w: string) {
    forall i :: 0 <= i < |w| ==> IsWhitespace(w[i])
  }

  /** `s` without its leading whitespace. */
  function TrimStart(s: string): (r: string)
    ensures |r| <= |s| && r == s[|s| - |r|..]
    ensures forall i :: 0 <= i < |s| - |r| ==> IsWhitespace(s[i])
    ensures r == [] || !IsWhitespace(r[0])
  {
    if |s| > 0 && IsWhitespace(s[0]) then TrimStart(s[1..]) else s
  }

  /** `s` without its trailing whitespace. */
  function TrimEnd(s: string): (r: string)
    ensures |r| <= |s| && r == s[..|r|]
    ensures forall i :: |r| <= i < |s| ==> IsWhitespace(s[i])
    ensures r == [] || !IsWhitespace(r[|r| - 1])
  {
    if |s| > 0 && IsWhitespace(s[|s| - 1]) then TrimEnd(s[..|s| - 1]) else s
  }

  /**
   * `s.trim()`: the run of `s` that starts at index `i`, the length of its
   * leading whitespace, and is followed only by whitespace; a string without
   * whitespace is left as it is.
   */
  function Trim(s: string): (r: string)
    ensures var i := |s| - |TrimStart(s)|;
      && i + |r| <= |s|
      && (forall k :: 0 <= k < i ==> IsWhitespace(s[k]))
      && (forall k :: 0 <= k < |r| ==> r[k] == s[i + k])
      && (forall k :: i + |r| <= k < |s| ==> IsWhitespace(s[k]))
    ensures r == [] || (!IsWhitespace(r[0]) && !IsWhitespace(r[|r| - 1]))
    ensures NoWhitespace(s) ==> r == s
  {
    var t := TrimStart(s);
    var r := TrimEnd(t);
    TrimRun(s, t, r);
    r
  }

  /** The index facts behind `Trim`, from the slices `t == s[n..]` and `r == t[..|r|]`. */
  lemma TrimRun(s: string, t: string, r: string)
    requires |t| <= |s| && t == s[|s| - |t|..]
    requires |r| <= |t| && r == t[..|r|]
    requires forall k :: |r| <= k < |t| ==> IsWhitespace(t[k])
    ensures forall k :: 0 <= k < |r| ==> r[k] == s[|s| - |t| + k]
    ensures forall k :: |s| - |t| + |r| <= k < |s| ==> IsWhitespace(s[k])
  {
    var n := |s| - |t|;
    forall k | n + |r| <= k < |s| ensures IsWhitespace(s[k]) {
      assert s[k] == t[k - n];
    }
  }

  lemma {:induction false} TrimStartPadded(w: string, x: string)
    requires AllWhitespace(w) && x != [] && !IsWhitespace(x[0])
    ensures TrimStart(w + x) == x
  {
    if w == [] {
      assert w + x == x;
    } else {
      assert (w + x)[0] == w[0];
      assert (w + x)[1..] == w[1..] + x;
      TrimStartPadded(w[1..], x);
    }
  }

  lemma {:induction false} TrimEndPadded(x: string, w: string)
    requires AllWhitespace(w) && x != [] && !IsWhitespace(x[|x| - 1])
    ensures TrimEnd(x + w) == x
  {
    if w == [] {
      assert x + w == x;
    } else {
      var xw := x + w;
      assert xw[|xw| - 1] == w[|w| - 1];
      assert xw[..|xw| - 1] == x + w[..|w| - 1];
      TrimEndPadded(x, w[..|w| - 1]);
    }
  }

  /** `trim` leaves text that neither starts nor ends with whitespace as it is. */
  lemma TrimUnpadded(x: string)
    requires x != [] && !IsWhitespace(x[0]) && !IsWhitespace(x[|x| - 1])
    ensures Trim(x) == x
  {
    assert TrimStart(x) == x;
    assert TrimEnd(x) == x;
  }

  /** `trim` removes exactly the whitespace padding around text that neither starts nor ends with whitespace. */
  lemma TrimPadded(w1: string, x: string, w2: string)
    requires AllWhitespace(w1) && AllWhitespace(w2)
    requires x != [] && !IsWhitespace(x[0]) && !IsWhitespace(x[|x| - 1])
    ensures Trim(w1 + x + w2) == x
  {
    assert w1 + x + w2 == w1 + (x + w2);
    assert (x + w2)[0] == x[0];
    TrimStartPadded(w1, x + w2);
    TrimEndPadded(x, w2);
  }

  predicate IsDigit(c: char) { '0' <= c <= '9' }

  predicate AllDigits(s: string) {
    forall i :: 0 <= i < |s| ==> IsDigit(s[i])
  }

  function DigitValue(c: char): (d: nat)
    requires IsDigit(c)
    ensures d < 10
  {
    (c as int) - ('0' as int)
  }

  function DigitChar(d: nat): (c: char)
    requires d < 10
    ensures IsDigit(c) && DigitValue(c) == d
  {
    (('0' as int) + d) as char
  }

  /** The value of a run of decimal digits, most significant first. */
  function DigitsValue(s: string): nat
    requires AllDigits(s)
  {
    if s == [] then 0 else 10 * DigitsValue(s[..|s| - 1]) + DigitValue(s[|s| - 1])
  }

  /** The decimal rendering of a natural number, without leading zeros. */
  function NatToString(n: nat): (r: string)
    ensures |r| >= 1 && AllDigits(r)
    ensures r[0] == '0' ==> n == 0
    ensures n == 0 ==> r == "0"
  {
    if n < 10 then [DigitChar(n)] else NatToString(n / 10) + [DigitChar(n % 10)]
  }

  /** `String(n)` and `${n}` for an integer. */
  function IntToString(n: int): (r: string)
    ensures r != [] && NoWhitespace(r)
    ensures n >= 0 ==> AllDigits(r) && (r[0] == '0' ==> n == 0) && (n == 0 ==> r == "0")
    ensures n < 0 ==> |r| >= 2 && r[0] == '-' && AllDigits(r[1..]) && r[1] != '0'
  {
    if n < 0 then "-" + NatToString(-n) else NatToString(n)
  }

  /** An integer literal as `Number()` reads it: an optional sign, then decimal digits. */
  predicate IsIntegerLiteral(t: string) {
    (|t| >= 1 && AllDigits(t))
    || (|t| >= 2 && (t[0] == '-' || t[0] == '+') && AllDigits(t[1..]))
  }

  /** The value of a trimmed, non-blank string: an integer literal, or NaN (None). */
  function ParseLiteral(t: string): (r: Option<int>)
    ensures r.Some? <==> IsIntegerLiteral(t)
  {
    if |t| >= 1 && AllDigits(t) then Some(DigitsValue(t))
    else if |t| >= 2 && (t[0] == '-' || t[0] == '+') && AllDigits(t[1..]) then
      var magnitude: int := DigitsValue(t[1..]);
      Some(if t[0] == '-' then -magnitude else magnitude)
    else None
  }

  /**
   * `Number(s)` on a string: surrounding whitespace is ignored, a blank string
   * is 0, an integer literal is its value, and anything else is NaN (None).
   */
  function ParseNumber(s: string): (r: Option<int>)
    ensures r.Some? <==> Trim(s) == [] || IsIntegerLiteral(Trim(s))
    ensures Trim(s) == [] ==> r == Some(0)
  {
    var t := Trim(s);
    if t == [] then Some(0) else ParseLiteral(t)
  }

  lemma {:induction false} NatToStringValue(n: nat)
    ensures DigitsValue(NatToString(n)) == n
  {
    if n >= 10 {
      var r := NatToString(n);
      assert r[..|r| - 1] == NatToString(n / 10);
      NatToStringValue(n / 10);
    }
  }

  /** `Number(String(n)) === n`: the decimal rendering of an integer reads back as that integer. */
  lemma ParseIntToString(n: int)
    ensures ParseNumber(IntToString(n)) == Some(n)
  {
    var x := IntToString(n);
    RenderedLiteral(n);
    TrimUnpadded(x);
    ParseTrimmed(x, x);
  }

  /** The rendering of `n` is a literal whose value is `n`, with no whitespace at either end. */
  lemma RenderedLiteral(n: int)
    ensures var x := IntToString(n);
      && x != [] && !IsWhitespace(x[0]) && !IsWhitespace(x[|x| - 1])
      && ParseLiteral(x) == Some(n)
  {
    if n < 0 {
      assert IntToString(n) == "-" + NatToString(-n);
      RenderedDigits("-", -n);
    } else {
      assert IntToString(n) == "" + NatToString(n);
      RenderedDigits("", n);
    }
  }

  lemma RenderedDigits(sign: string, m: nat)
    requires sign == "" || sign == "-"
    ensures var x := sign + NatToString(m);
      && x != [] && !IsWhitespace(x[0]) && !IsWhitespace(x[|x| - 1])
      && ParseLiteral(x) == Some(if sign == "-" then -(m as int) else m)
  {
    NatToStringValue(m);
    ParseSignedLiteral(sign, NatToString(m));
  }

  lemma DigitNotWhitespace(c: char)
    requires IsDigit(c)
    ensures !IsWhitespace(c)
  {
  }

  /**
   * `Number()` of a typed integer: whitespace padding on either side is
   * ignored, a leading `+` or `-` gives the sign, and the digits give the
   * magnitude, leading zeros included.
   */
  lemma ParseTypedInteger(w1: string, sign: string, d: string, w2: string)
    requires AllWhitespace(w1) && AllWhitespace(w2)
    requires sign == "" || sign == "+" || sign == "-"
    requires |d| >= 1 && AllDigits(d)
    ensures ParseNumber(w1 + sign + d + w2)
      == Some(if sign == "-" then -(DigitsValue(d) as int) else DigitsValue(d))
  {
    var x := sign + d;
    Regroup(w1, sign, d, w2);
    ParseSignedLiteral(sign, d);
    TrimPadded(w1, x, w2);
    ParseTrimmed(w1 + x + w2, x);
  }

  lemma Regroup(a: string, b: string, c: string, e: string)
    ensures a + b + c + e == a + (b + c) + e
  {
  }

  lemma ParseTrimmed(s: string, t: string)
    requires Trim(s) == t && t != []
    ensures ParseNumber(s) == ParseLiteral(t)
  {
  }

  lemma ParseSignedLiteral(sign: string, d: string)
    requires sign == "" || sign == "+" || sign == "-"
    requires |d| >= 1 && AllDigits(d)
    ensures var x := sign + d;
      && x != [] && !IsWhitespace(x[0]) && !IsWhitespace(x[|x| - 1])
      && ParseLiteral(x) == Some(if sign == "-" then -(DigitsValue(d) as int) else DigitsValue(d))
  {
    var x := sign + d;
    assert x[|x| - 1] == d[|d| - 1];
    DigitNotWhitespace(d[|d| - 1]);
    if sign == "" {
      assert x == d;
      DigitNotWhitespace(d[0]);
    } else {
      assert x[0] == sign[0] && !IsDigit(x[0]);
      assert x[1..] == d;
    }
  }

  /** A leading zero does not change the value of a run of digits. */
  lemma {:induction false} LeadingZero(d: string)
    requires AllDigits(d)
    ensures AllDigits("0" + d) && DigitsValue("0" + d) == DigitsValue(d)
  {
    var z := "0" + d;
    assert AllDigits(z) by {
      forall i | 0 <= i < |z| ensures IsDigit(z[i]) {
        if i > 0 { assert z[i] == d[i - 1]; }
      }
    }
    if d != [] {
      assert z[..|z| - 1] == "0" + d[..|d| - 1];
      assert z[|z| - 1] == d[|d| - 1];
      LeadingZero(d[..|d| - 1]);
    }
  }

  /** `Number(v)`: always a number or NaN. */
  function Number(v: Value): (r: Value)
    ensures r.Num? || r.NaN?
    ensures v.Num? ==> r == v
    ensures v.Str? && ParseNumber(v.s).Some? ==> r == Num(ParseNumber(v.s).value)
    ensures (v.Str? && ParseNumber(v.s).None?) || v.NaN? || v.Undefined? ==> r == NaN
  {
    match v
    case Num(n) => v
    case NaN => NaN
    case Str(s) => (match ParseNumber(s) case Some(n) => Num(n) case None => NaN)
    case Undefined => NaN
  }

  /** JavaScript truthiness: 0, NaN, the empty string and undefined are falsy. */
  predicate Truthy(v: Value) {
    match v
    case Num(n) => n != 0
    case NaN => false
    case Str(s) => s != []
    case Undefined => false
  }

  /** `a || b`. */
  function Or(a: Value, b: Value): (r: Value)
    ensures Truthy(a) ==> r == a
    ensures !Truthy(a) ==> r == b
  {
    if Truthy(a) then a else b
  }

  /**
   * `Number(v) || d`: the number `v` reads as when that is neither 0 nor NaN,
   * and `d` otherwise, so both 0 and an unparsable value fall back to `d`.
   */
  function NumberOr(v: Value, d: int): (r: int)
    ensures Or(Number(v), Num(d)) == Num(r)
    ensures (r != 0 && Number(v) == Num(r)) || (r == d && (Number(v) == NaN || Number(v) == Num(0)))
    ensures d != 0 ==> r != 0
  {
    match Or(Number(v), Num(d))
    case Num(n) => n
  }

  /**
   * `String(v)`, the text of a value. On the truthy values the error
   * interceptor passes to `new Error(...)` it is that error's message.
   */
  function ToJsString(v: Value): (r: string)
    ensures Truthy(v) ==> r != []
    ensures v.Str? ==> r == v.s
  {
    match v
    case Num(n) => IntToString(n)
    case NaN => "NaN"
    case Str(s) => s
    case Undefined => "undefined"
  }
}
