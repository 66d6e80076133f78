/**
 * The JavaScript number conversions the application uses, on amounts counted
 * in integer cents: `Number.parseFloat` (a prefix parser; `None` is `NaN`),
 * `Number.parseInt`, `toFixed(2)` and `toString`.
 */
module JsNumber {
  import opened Wrappers
  import opened Text

  function Abs(x: int): nat {
    if x < 0 then -x else x
  }

  /** Whether the text after the white space starts with a minus sign. */
  predicate IsNegated(t: string) {
    |t| > 0 && t[0] == '-'
  }

  /** The text after an optional leading `-` or `+`. */
  function Unsigned(t: string): (u: string)
    ensures |u| <= |t|
  {
    if |t| > 0 && (t[0] == '-' || t[0] == '+') then t[1..] else t
  }

  /** A decimal literal starts here: a digit, or a point followed by a digit. */
  predicate StartsNumeric(u: string) {
    (|u| > 0 && IsDigit(u[0])) || (|u| > 1 && u[0] == '.' && IsDigit(u[1]))
  }

  /** The cents the fractional digits denote; digits beyond the second are dropped. */
  function FracCents(fp: string): (c: nat)
    requires AllDigits(fp)
    ensures c < 100
  {
    (if |fp| > 0 then DigitValue(fp[0]) * 10 else 0) + (if |fp| > 1 then DigitValue(fp[1]) else 0)
  }

  /**
   * The magnitude of an unsigned decimal literal at the start of `u`, in cents:
   * the integer digits and, after a `.`, the fractional digits, read as far as
   * they go. There is none when no digit can be read.
   */
  function UnsignedDecimal(u: string): (r: Option<nat>)
    ensures r.Some? <==> StartsNumeric(u)
  {
    var ip := DigitPrefix(u);
    var rest := u[|ip|..];
    var fp := if |rest| > 0 && rest[0] == '.' then DigitPrefix(rest[1..]) else [];
    if |ip| + |fp| == 0 then None else Some(DigitsValue(ip) * 100 + FracCents(fp))
  }

  /**
   * `Number.parseFloat(s)` in cents: leading white space is skipped, then an
   * optional sign and an unsigned decimal literal are read; the rest of the
   * string is ignored. It fails (`NaN`) exactly when no digit can be read.
   */
  function ParseFloat(s: string): (r: Option<int>)
    ensures r.Some? <==> StartsNumeric(Unsigned(TrimStart(s)))
  {
    var t := TrimStart(s);
    match UnsignedDecimal(Unsigned(t))
    case None => None
    case Some(m) => var v: int := m; Some(if IsNegated(t) then -v else v)
  }

  /** `Number.parseInt(s)` in base 10 (a count, not cents). */
  function ParseInt(s: string): (r: Option<int>)
    ensures r.Some? <==> (|Unsigned(TrimStart(s))| > 0 && IsDigit(Unsigned(TrimStart(s))[0]))
  {
    var t := TrimStart(s);
    var ds := DigitPrefix(Unsigned(t));
    if ds == [] then None
    else
      var v: int := DigitsValue(ds);
      Some(if IsNegated(t) then -v else v)
  }

  /** The two digits of a number of cents below 100. */
  function TwoDigits(c: nat): (r: string)
    requires c < 100
    ensures |r| == 2 && AllDigits(r)
  {
    [DigitChar(c / 10), DigitChar(c % 10)]
  }

  /** `u` with a minus in front when `neg`. */
  function Signed(neg: bool, u: string): string {
    (if neg then "-" else "") + u
  }

  /** The integer part `q` followed, when there are any, by a point and the fractional digits `fd`. */
  function DecimalText(q: nat, fd: string): string {
    NatToString(q) + (if fd == [] then "" else "." + fd)
  }

  /** A magnitude `m` (in cents) rendered with two decimals and an optional minus. */
  function Fixed2(neg: bool, m: nat): string {
    Signed(neg, DecimalText(m / 100, TwoDigits(m % 100)))
  }

  /** `x.toFixed(2)` for `x` cents. */
  function ToFixed2(x: int): string {
    Fixed2(x < 0, Abs(x))
  }

  /** `Math.round` of a non-negative quotient, `floor(n / d + 1/2)`. */
  function RoundHalfUp(n: nat, d: nat): (r: nat)
    requires d > 0
    ensures r * 2 * d <= 2 * n + d < (r + 1) * 2 * d
  {
    (2 * n + d) / (2 * d)
  }

  /**
   * `(n / d).toFixed(2)` for `n` cents divided by the count `d`: the exact
   * quotient is rounded to the nearest cent (halves away from zero) and a minus
   * is written whenever the quotient is negative, even when it rounds to zero.
   * A zero divisor gives `Infinity`, `-Infinity` or `NaN`.
   */
  function QuotientToFixed2(n: int, d: int): string {
    if d == 0 then (if n > 0 then "Infinity" else if n < 0 then "-Infinity" else "NaN")
    else Fixed2(n != 0 && ((n < 0) != (d < 0)), RoundHalfUp(Abs(n), Abs(d)))
  }

  /** `x.toString()` for `x` cents: the shortest decimal form, trailing fractional zeros dropped. */
  function NumberToString(x: int): string {
    var m := Abs(x);
    var c := m % 100;
    Signed(x < 0, DecimalText(m / 100, if c == 0 then [] else if c % 10 == 0 then [DigitChar(c / 10)] else TwoDigits(c)))
  }

  // ---------------------------------------------------------------- arithmetic with NaN

  /** `a + b`: `NaN` as soon as either side is. */
  function Plus(a: Option<int>, b: Option<int>): (r: Option<int>)
    ensures r.Some? <==> a.Some? && b.Some?
    ensures r.Some? ==> r.value == a.value + b.value
  {
    if a.Some? && b.Some? then Some(a.value + b.value) else None
  }

  /** `a - b`. */
  function Minus(a: Option<int>, b: Option<int>): (r: Option<int>)
    ensures r.Some? <==> a.Some? && b.Some?
    ensures r.Some? ==> r.value == a.value - b.value
  {
    if a.Some? && b.Some? then Some(a.value - b.value) else None
  }

  /** `a * k` for an integer factor `k`. */
  function Times(a: Option<int>, k: int): (r: Option<int>)
    ensures r.Some? <==> a.Some?
    ensures r.Some? ==> r.value == a.value * k
  {
    if a.Some? then Some(a.value * k) else None
  }

  /** `Math.abs(a)`. */
  function AbsOf(a: Option<int>): (r: Option<int>)
    ensures r.Some? <==> a.Some?
    ensures r.Some? ==> r.value >= 0 && (r.value == a.value || r.value == -a.value)
  {
    if a.Some? then Some(Abs(a.value)) else None
  }

  /** `a >= 0`: false for `NaN`. */
  predicate NonNegative(a: Option<int>) {
    a.Some? && a.value >= 0
  }

  // ---------------------------------------------------------------- reading back

  /** The digits of `q` followed by nothing or by `.` and one or two digits read back as `q` and those cents. */
  lemma UnsignedDecimalOf(q: nat, fd: string)
    requires AllDigits(fd) && |fd| <= 2
    ensures UnsignedDecimal(DecimalText(q, fd)) == Some(q * 100 + FracCents(fd))
  {
    var digits := NatToString(q);
    var tail := if fd == [] then "" else "." + fd;
    var u := digits + tail;
    DigitPrefixOf(digits, tail);
    assert u[|digits|..] == tail;
    if fd != [] {
      assert tail[1..] == fd + [];
      DigitPrefixOf(fd, []);
    }
    NatToStringValue(q);
  }

  /** A sign in front of text that starts with a digit is read as the sign of the number. */
  lemma ParseSigned(neg: bool, u: string, m: nat)
    requires u != [] && IsDigit(u[0])
    requires UnsignedDecimal(u) == Some(m)
    ensures ParseFloat(Signed(neg, u)) == Some(if neg then -(m as int) else m)
  {
    var s := Signed(neg, u);
    assert s[0] == '-' || IsDigit(s[0]);
    assert !IsWhite(s[0]);
    assert TrimStart(s) == s;
    assert Unsigned(s) == u;
  }

  /**
   * The parser reads back any rendering made of an optional minus, the integer
   * digits and at most two fractional digits.
   */
  lemma ParseDecimal(neg: bool, q: nat, fd: string, m: nat)
    requires AllDigits(fd) && |fd| <= 2
    requires m == q * 100 + FracCents(fd)
    ensures ParseFloat(Signed(neg, DecimalText(q, fd))) == Some(if neg then -(m as int) else m)
  {
    UnsignedDecimalOf(q, fd);
    ParseSigned(neg, DecimalText(q, fd), m);
  }

  /** Two rendered cent digits read back as the cents. */
  lemma FracCentsTwoDigits(c: nat)
    requires c < 100
    ensures FracCents(TwoDigits(c)) == c
  {
    var d := TwoDigits(c);
    assert DigitValue(d[0]) == c / 10 && DigitValue(d[1]) == c % 10;
  }

  /** Reading back a two-decimal rendering gives the signed magnitude. */
  lemma Fixed2RoundTrip(neg: bool, m: nat)
    ensures ParseFloat(Fixed2(neg, m)) == Some(if neg then -(m as int) else m)
  {
    FracCentsTwoDigits(m % 100);
    ParseDecimal(neg, m / 100, TwoDigits(m % 100), m);
  }

  /** `parseFloat(x.toFixed(2))` is `x`. */
  lemma ToFixed2RoundTrip(x: int)
    ensures ParseFloat(ToFixed2(x)) == Some(x)
  {
    Fixed2RoundTrip(x < 0, Abs(x));
  }

  /** `parseFloat(x.toString())` is `x`. */
  lemma NumberToStringRoundTrip(x: int)
    ensures ParseFloat(NumberToString(x)) == Some(x)
  {
    var m := Abs(x);
    var q, c := m / 100, m % 100;
    assert m == q * 100 + c;
    var fd := if c == 0 then [] else if c % 10 == 0 then [DigitChar(c / 10)] else TwoDigits(c);
    if c == 0 {
      assert FracCents(fd) == 0;
    } else if c % 10 == 0 {
      assert FracCents(fd) == (c / 10) * 10 == c;
    } else {
      FracCentsTwoDigits(c);
    }
    assert NumberToString(x) == Signed(x < 0, DecimalText(q, fd));
    ParseDecimal(x < 0, q, fd, m);
  }
}
