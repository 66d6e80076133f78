/**
 * The salary form of the settings screen: the checks of `handleSaveSalary`,
 * the handler that stores only a positive salary, the salary display and the
 * rule that prefills the input from the stored salary.
 */
module SettingsScreen {
  import opened Wrappers
  import opened Text
  import opened JsNumber
  import opened Currency
  import opened Settings
  import opened Validation

  datatype SalaryError = SalaryRequired | SalaryInvalid

  function Message(e: SalaryError): string {
    match e
    case SalaryRequired => "Por favor, informe o valor do salário"
    case SalaryInvalid => "Por favor, informe um valor válido para o salário"
  }

  const SavedMessage := "Salário atualizado com sucesso!"

  /** The outcome of the checks: the salary in cents, or why it is refused. */
  datatype SalaryCheck = Valid(cents: int) | Refused(error: SalaryError)

  /** The number typed, its first comma read as the decimal point. */
  function TypedSalary(text: string): Option<int> {
    ParseFloat(ReplaceFirst(text, ',', '.'))
  }

  /** The checks of `handleSaveSalary`: blank text, then a number that is `NaN` or not positive. */
  function ValidateSalary(text: string): SalaryCheck {
    if Blank(text) then Refused(SalaryRequired)
    else
      match TypedSalary(text)
      case None => Refused(SalaryInvalid)
      case Some(v) => if v <= 0 then Refused(SalaryInvalid) else Valid(v)
  }

  /** `formatSalaryDisplay`: `R$ ` and the salary with two decimals and a comma, exactly as `formatCurrency` renders it. */
  function SalaryDisplay(value: int): (r: string)
    ensures r == FormatCurrency(value)
  {
    Prefix + ReplaceFirst(ToFixed2(value), '.', ',')
  }

  /** The effect on the settings: a positive stored salary replaces the input by its `toString` with a comma; otherwise the input stays. */
  function Prefill(salary: int, input: string): string {
    if salary > 0 then ReplaceFirst(NumberToString(salary), '.', ',') else input
  }

  /**
   * `handleSaveSalary`: a refused input shows why and stores nothing;
   * otherwise the salary is stored, every other setting kept, and the success
   * alert goes back.
   */
  method HandleSaveSalary(service: SettingsService, text: string) returns (fb: Feedback)
    modifies service
    ensures ValidateSalary(text).Refused? ==>
      fb == Alert(ErrorTitle, Message(ValidateSalary(text).error)) && unchanged(service)
    ensures ValidateSalary(text).Valid? ==>
      fb == AlertThen(SuccessTitle, SavedMessage, PreviousScreen)
      && service.Current() == old(service.Current()).(salary := ValidateSalary(text).cents)
  {
    var check := ValidateSalary(text);
    if check.Refused? {
      return Alert(ErrorTitle, Message(check.error));
    }
    service.UpdateSalary(check.cents);
    fb := AlertThen(SuccessTitle, SavedMessage, PreviousScreen);
  }

  // ---------------------------------------------------------------- lemmas

  /**
   * A salary is accepted exactly when the typed number is positive; the blank
   * check only chooses the message, since blank text never parses.
   */
  lemma AcceptedSalary(text: string)
    ensures ValidateSalary(text).Valid? <==> TypedSalary(text).Some? && TypedSalary(text).value > 0
    ensures ValidateSalary(text).Valid? ==> ValidateSalary(text).cents == TypedSalary(text).value
  {
    if Blank(text) && TypedSalary(text).Some? {
      BlankNeverParses(text);
    }
  }

  /** Blank text is `NaN`, with or without its first comma turned into a point. */
  lemma BlankNeverParses(text: string)
    requires Blank(text)
    ensures TypedSalary(text).None?
  {
    var s := ReplaceFirst(text, ',', '.');
    BlankIffAllWhite(text);
    ReplaceFirstWhite(text);
    TrimStartSuffix(s);
  }

  /** Replacing a comma leaves a string of white space as it is. */
  lemma {:induction false} ReplaceFirstWhite(s: string)
    requires forall i :: 0 <= i < |s| ==> IsWhite(s[i])
    ensures ReplaceFirst(s, ',', '.') == s
  {
    if s != [] {
      ReplaceFirstWhite(s[1..]);
    }
  }

  /** The prefilled input, saved unchanged, stores the same salary again. */
  lemma PrefillReadsBack(salary: int, input: string)
    requires salary > 0
    ensures ValidateSalary(Prefill(salary, input)) == Valid(salary)
  {
    var s := NumberToString(salary);
    var p := ReplaceFirst(s, '.', ',');
    assert Prefill(salary, input) == p;
    CommaRoundTrip(salary);
    NumberToStringRoundTrip(salary);
    assert TypedSalary(p) == Some(salary);
    NumberToStringStart(salary);
    BlankIffAllWhite(p);
    assert !Blank(p);
  }

  /** The comma put in by the prefill is the one the save turns back into a point. */
  lemma CommaRoundTrip(salary: int)
    requires salary > 0
    ensures ReplaceFirst(ReplaceFirst(NumberToString(salary), '.', ','), ',', '.') == NumberToString(salary)
    ensures |ReplaceFirst(NumberToString(salary), '.', ',')| > 0
    ensures ReplaceFirst(NumberToString(salary), '.', ',')[0] == NumberToString(salary)[0]
  {
    var m := Abs(salary);
    var c := m % 100;
    var head := NatToString(m / 100);
    var fd := if c == 0 then [] else if c % 10 == 0 then [DigitChar(c / 10)] else TwoDigits(c);
    var tail := if fd == [] then "" else "." + fd;
    assert NumberToString(salary) == head + tail;
    assert forall i :: 0 <= i < |head| ==> IsDigit(head[i]);
    ReplaceFirstAppend(head, tail, '.', ',');
    var back := if fd == [] then "" else "," + fd;
    assert ReplaceFirst(tail, '.', ',') == back;
    ReplaceFirstAppend(head, back, ',', '.');
    assert ReplaceFirst(back, ',', '.') == tail;
    assert (head + back)[0] == head[0];
  }

  /** A positive number's `toString` starts with a digit. */
  lemma NumberToStringStart(salary: int)
    requires salary > 0
    ensures IsDigit(ReplaceFirst(NumberToString(salary), '.', ',')[0])
  {
    CommaRoundTrip(salary);
    var m := Abs(salary);
    assert NumberToString(salary)[0] == NatToString(m / 100)[0];
  }

  /** The salary display reads back, through `parseCurrency`, as the salary. */
  lemma SalaryDisplayReadsBack(value: int)
    ensures ParseCurrency(SalaryDisplay(value)) == Some(value)
  {
    ParseFormatCurrency(value);
  }
}
