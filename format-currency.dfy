/**
 * Brazilian-real rendering and parsing of amounts in cents (`R$ 1234,56`: two
 * decimals, a comma as decimal separator, no thousands grouping), the signed
 * display form stored in a transaction's `value`, and the cleaning idiom the
 * screens and hooks use to read an amount back out of that display form.
 */
module Currency {
  import opened Wrappers
  import opened Text
  import opened JsNumber
  import opened Types

  const Prefix := "R$ "

  /** `x.toFixed(2)` with its point turned into a comma. */
  function CommaFixed2(neg: bool, m: nat): string {
    Signed(neg, NatToString(m / 100) + "," + TwoDigits(m % 100))
  }

  /** `formatCurrency(value)`: `R$ `, then the amount with two decimals and a comma. */
  function FormatCurrency(value: int): (r: string)
    ensures r == Prefix + CommaFixed2(value < 0, Abs(value))
  {
    FixedToComma(value < 0, Abs(value));
    Prefix + ReplaceFirst(ToFixed2(value), '.', ',')
  }

  /** `R$ NaN`: what `formatCurrency` renders for a sum that a failed parse turned into `NaN`. */
  function FormatCurrencyOrNaN(value: Option<int>): (r: string)
    ensures value.Some? ==> r == FormatCurrency(value.value)
    ensures value.None? ==> r == Prefix + "NaN"
  {
    match value
    case Some(v) => FormatCurrency(v)
    case None => Prefix + "NaN"
  }

  /** `formatTransactionValue(value, type)`: a `+ ` or `- ` by type, then the magnitude in reais. */
  function FormatTransactionValue(value: int, kind: Kind): string {
    (if kind == Positive then "+ " else "- ") + FormatCurrency(Abs(value))
  }

  /** Characters `parseCurrency` deletes first: `R`, `$`, white space and the thousands point. */
  predicate CurrencyNoise(c: char) {
    c == 'R' || c == '$' || IsWhite(c) || c == '.'
  }

  predicate NotCurrencyNoise(c: char) {
    !CurrencyNoise(c)
  }

  /** Characters `parseCurrency` keeps last: digits, the decimal point and the minus. */
  predicate NumberChar(c: char) {
    IsDigit(c) || c == '.' || c == '-'
  }

  /**
   * `parseCurrency(value)`: delete `R`, `$`, white space and points, turn the
   * first comma into a point, delete every character other than a digit, point
   * or minus, and `parseFloat` what is left.
   */
  function ParseCurrency(value: string): Option<int> {
    ParseFloat(CleanCurrency(value))
  }

  /** The text `parseCurrency` hands to `parseFloat`. */
  function CleanCurrency(value: string): string {
    var stripped := Keep(value, NotCurrencyNoise);
    var dotted := ReplaceFirst(stripped, ',', '.');
    Keep(dotted, NumberChar)
  }

  /** Characters the inline cleaning keeps: digits, commas and the minus. */
  predicate AmountChar(c: char) {
    IsDigit(c) || c == ',' || c == '-'
  }

  /**
   * `value.replace(/[^\d,-]/g, "").replace(",", ".")`, the cleaning the hooks
   * and screens apply to a transaction's display value before `parseFloat`.
   */
  function CleanAmount(value: string): string {
    ReplaceFirst(Keep(value, AmountChar), ',', '.')
  }

  function ParseAmount(value: string): Option<int> {
    ParseFloat(CleanAmount(value))
  }

  // ---------------------------------------------------------------- lemmas

  /** The sign and integer digits of a rendering contain no separator and no letter. */
  lemma SignedDigitsPlain(neg: bool, q: nat)
    ensures forall i :: 0 <= i < |Signed(neg, NatToString(q))| ==>
      var c := Signed(neg, NatToString(q))[i]; (IsDigit(c) || c == '-') && c != '.' && c != ','
  {
    var s := Signed(neg, NatToString(q));
    forall i | 0 <= i < |s| ensures IsDigit(s[i]) || s[i] == '-' {
      if neg && i == 0 {
      } else {
        assert s[i] == NatToString(q)[if neg then i - 1 else i];
      }
    }
  }

  /** Turning the point of `toFixed(2)` into a comma gives the comma rendering, and back. */
  lemma FixedToComma(neg: bool, m: nat)
    ensures ReplaceFirst(Fixed2(neg, m), '.', ',') == CommaFixed2(neg, m)
    ensures ReplaceFirst(CommaFixed2(neg, m), ',', '.') == Fixed2(neg, m)
  {
    var head := Signed(neg, NatToString(m / 100));
    var cents := TwoDigits(m % 100);
    SignedDigitsPlain(neg, m / 100);
    assert Fixed2(neg, m) == head + ("." + cents);
    assert CommaFixed2(neg, m) == head + ("," + cents);
    ReplaceFirstAppend(head, "." + cents, '.', ',');
    ReplaceFirstAppend(head, "," + cents, ',', '.');
  }

  /** Every character of a comma rendering survives both cleanings. */
  lemma CommaFixed2Chars(neg: bool, m: nat)
    ensures forall i :: 0 <= i < |CommaFixed2(neg, m)| ==>
      var c := CommaFixed2(neg, m)[i]; AmountChar(c) && !CurrencyNoise(c)
  {
    var head := Signed(neg, NatToString(m / 100));
    var s := CommaFixed2(neg, m);
    SignedDigitsPlain(neg, m / 100);
    forall i | 0 <= i < |s| ensures AmountChar(s[i]) && !CurrencyNoise(s[i]) {
      if i < |head| {
        assert s[i] == head[i];
      } else if i == |head| {
      } else {
        assert s[i] == TwoDigits(m % 100)[i - |head| - 1];
      }
    }
  }

  /** Every character of `toFixed(2)` is one `parseCurrency` keeps in its last step. */
  lemma Fixed2Chars(neg: bool, m: nat)
    ensures forall i :: 0 <= i < |Fixed2(neg, m)| ==> NumberChar(Fixed2(neg, m)[i])
  {
    var head := Signed(neg, NatToString(m / 100));
    var s := Fixed2(neg, m);
    SignedDigitsPlain(neg, m / 100);
    forall i | 0 <= i < |s| ensures NumberChar(s[i]) {
      if i < |head| {
        assert s[i] == head[i];
      } else if i > |head| {
        assert s[i] == TwoDigits(m % 100)[i - |head| - 1];
      }
    }
  }

  /** `parseCurrency(formatCurrency(x))` is `x`: the two are inverse on every amount in cents. */
  lemma ParseFormatCurrency(x: int)
    ensures ParseCurrency(FormatCurrency(x)) == Some(x)
  {
    var neg, m := x < 0, Abs(x);
    var body := CommaFixed2(neg, m);
    var noise := NotCurrencyNoise;
    KeepAppend(Prefix, body, noise);
    KeepNone(Prefix, noise);
    CommaFixed2Chars(neg, m);
    KeepAll(body, noise);
    assert Keep(FormatCurrency(x), noise) == body;
    FixedToComma(neg, m);
    Fixed2Chars(neg, m);
    KeepAll(Fixed2(neg, m), NumberChar);
    ToFixed2RoundTrip(x);
  }

  /** The cleaning idiom also reads a plain `formatCurrency` rendering back. */
  lemma ParseAmountFormatCurrency(x: int)
    ensures ParseAmount(FormatCurrency(x)) == Some(x)
  {
    var neg, m := x < 0, Abs(x);
    var body := CommaFixed2(neg, m);
    KeepAppend(Prefix, body, AmountChar);
    KeepNone(Prefix, AmountChar);
    CommaFixed2Chars(neg, m);
    KeepAll(body, AmountChar);
    assert Keep(FormatCurrency(x), AmountChar) == body;
    FixedToComma(neg, m);
    ToFixed2RoundTrip(x);
  }

  /** A display value whose sign part cleans to `-` or to nothing reads back as the signed magnitude. */
  lemma ParseSignedDisplay(sign: string, neg: bool, m: nat)
    requires Keep(sign, AmountChar) == (if neg then "-" else "")
    ensures ParseAmount(sign + CommaFixed2(false, m)) == Some(if neg then -(m as int) else m)
  {
    var body := CommaFixed2(false, m);
    CommaFixed2Chars(false, m);
    KeepAll(body, AmountChar);
    KeepAppend(sign, body, AmountChar);
    CommaFixed2Signed(neg, m);
    assert Keep(sign + body, AmountChar) == CommaFixed2(neg, m);
    assert CleanAmount(sign + body) == Fixed2(neg, m) by {
      FixedToComma(neg, m);
    }
    Fixed2RoundTrip(neg, m);
  }

  /** A negative rendering is the positive one behind a minus. */
  lemma CommaFixed2Signed(neg: bool, m: nat)
    ensures CommaFixed2(neg, m) == (if neg then "-" else "") + CommaFixed2(false, m)
  {
    var u := NatToString(m / 100) + "," + TwoDigits(m % 100);
    assert CommaFixed2(false, m) == u;
  }

  /**
   * Reading back a transaction's display value gives its magnitude, negated for
   * an expense: the cleaning keeps the `-` of `- R$` and drops the `+` of `+ R$`.
   */
  lemma ParseTransactionValue(x: int, kind: Kind)
    ensures ParseAmount(FormatTransactionValue(x, kind)) == Some(if kind == Positive then Abs(x) as int else -(Abs(x) as int))
  {
    if kind == Positive {
      ParseIncomeValue(x);
    } else {
      ParseExpenseValue(x);
    }
  }

  /** An income's display value cleans to its digits alone. */
  lemma ParseIncomeValue(x: int)
    ensures ParseAmount(FormatTransactionValue(x, Positive)) == Some(Abs(x) as int)
  {
    var sign := "+ " + Prefix;
    KeepNone(sign, AmountChar);
    assert FormatTransactionValue(x, Positive) == sign + CommaFixed2(false, Abs(x));
    ParseSignedDisplay(sign, false, Abs(x));
  }

  /** An expense's display value keeps the `-` of `- R$`. */
  lemma ParseExpenseValue(x: int)
    ensures ParseAmount(FormatTransactionValue(x, Negative)) == Some(-(Abs(x) as int))
  {
    var sign := "- " + Prefix;
    var body := CommaFixed2(false, Abs(x));
    ExpenseSignCleans();
    assert FormatCurrency(Abs(x)) == Prefix + body;
    assert FormatTransactionValue(x, Negative) == sign + body;
    ParseSignedDisplay(sign, true, Abs(x));
  }

  /** The cleaning reduces `- R$ ` to its minus. */
  lemma ExpenseSignCleans()
    ensures Keep("- " + Prefix, AmountChar) == "-"
  {
    var rest := " " + Prefix;
    assert "- " + Prefix == "-" + rest;
    KeepAppend("-", rest, AmountChar);
    KeepNone(rest, AmountChar);
  }

  /**
   * `parseCurrency` ignores `R`, `$`, white space and points wherever they
   * stand, so a point between digits acts as a thousands separator.
   */
  lemma ParseCurrencyIgnoresNoise(a: string, c: char, b: string)
    requires CurrencyNoise(c)
    ensures ParseCurrency(a + [c] + b) == ParseCurrency(a + b)
  {
    KeepAppend(a + [c], b, NotCurrencyNoise);
    KeepAppend(a, [c], NotCurrencyNoise);
    KeepNone([c], NotCurrencyNoise);
    KeepAppend(a, b, NotCurrencyNoise);
    assert Keep(a + [c], NotCurrencyNoise) == Keep(a, NotCurrencyNoise);
  }

  /**
   * `parseCurrency` gives `NaN` exactly when the cleaned text, past an
   * optional sign, starts with neither a digit nor a point and a digit: the
   * cleaning leaves no white space for `parseFloat` to skip.
   */
  lemma ParseCurrencyNaN(value: string)
    ensures ParseCurrency(value).None? <==> !StartsNumeric(Unsigned(CleanCurrency(value)))
  {
    var c := CleanCurrency(value);
    assert TrimStart(c) == c by {
      if |c| > 0 {
        assert NumberChar(c[0]);
      }
    }
  }

  /** Deleting characters never brings a digit in. */
  lemma {:induction false} KeepNoDigit(s: string, keep: char -> bool)
    requires forall i :: 0 <= i < |s| ==> !IsDigit(s[i])
    ensures forall i :: 0 <= i < |Keep(s, keep)| ==> !IsDigit(Keep(s, keep)[i])
  {
    if s != [] {
      KeepNoDigit(s[1..], keep);
    }
  }

  /** Replacing a character by a non-digit never brings a digit in. */
  lemma {:induction false} ReplaceFirstNoDigit(s: string, from: char, to: char)
    requires forall i :: 0 <= i < |s| ==> !IsDigit(s[i])
    requires !IsDigit(to)
    ensures forall i :: 0 <= i < |ReplaceFirst(s, from, to)| ==> !IsDigit(ReplaceFirst(s, from, to)[i])
  {
    if s != [] && s[0] != from {
      ReplaceFirstNoDigit(s[1..], from, to);
    }
  }

  /** Text without a digit parses to `NaN`, whatever else it holds. */
  lemma ParseCurrencyNoDigits(value: string)
    requires forall i :: 0 <= i < |value| ==> !IsDigit(value[i])
    ensures ParseCurrency(value) == None
  {
    var stripped := Keep(value, NotCurrencyNoise);
    KeepNoDigit(value, NotCurrencyNoise);
    ReplaceFirstNoDigit(stripped, ',', '.');
    KeepNoDigit(ReplaceFirst(stripped, ',', '.'), NumberChar);
    ParseCurrencyNaN(value);
    var c := CleanCurrency(value);
    var u := Unsigned(c);
    assert forall i :: 0 <= i < |u| ==> !IsDigit(u[i]) by {
      if |c| > 0 && (c[0] == '-' || c[0] == '+') {
        assert u == c[1..];
      }
    }
  }
}
