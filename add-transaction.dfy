/**
 * The form for a new transaction: the categories and installment counts it
 * offers, the installment value it previews, the list of persons of a
 * collective expense with its editing operations and sum, and the ordered
 * validation run before submitting.
 */
module AddTransaction {
  import opened Wrappers
  import opened Text
  import opened JsNumber
  import opened Types
  import opened Currency
  import opened Validation
  import CategoryIcons

  /** The reasons `validateForm` refuses a form. */
  datatype FormError = DescriptionRequired | AmountRequired | PeopleIncomplete | SplitMismatch

  /** The alert text of each reason. */
  function Message(e: FormError): string {
    match e
    case DescriptionRequired => "Descrição é obrigatória"
    case AmountRequired => "Valor é obrigatório"
    case PeopleIncomplete => "Preencha todos os campos das pessoas"
    case SplitMismatch => "A soma dos valores individuais deve ser igual ao valor total"
  }

  /** A dropdown entry: the caption shown and the value stored. */
  datatype DropdownOption = DropdownOption(caption: string, value: string)

  /** The categories the form offers, in their order. */
  const FormCategories: seq<DropdownOption> := [
    DropdownOption("Supermercado", "supermercado"),
    DropdownOption("Veículo", "veiculo"),
    DropdownOption("Farmácia", "farmacia"),
    DropdownOption("Lazer", "lazer"),
    DropdownOption("Alimentação", "alimentacao"),
    DropdownOption("Moradia", "moradia"),
    DropdownOption("Saúde", "saude"),
    DropdownOption("Educação", "educacao"),
    DropdownOption("Transporte", "transporte"),
    DropdownOption("Vestuário", "vestuario"),
    DropdownOption("Outros", "outros")
  ]

  /** `Array.from({ length: 12 }, (_, i) => ({ label: `${i + 1}x`, value: (i + 1).toString() }))`. */
  function InstallmentOptions(): (r: seq<DropdownOption>)
    ensures |r| == 12
  {
    seq(12, i requires 0 <= i < 12 => DropdownOption(NatToString(i + 1) + "x", NatToString(i + 1)))
  }

  /** Which field of a person `updatePerson` sets. */
  datatype PersonField = Name | Amount

  /** The state of the form. */
  datatype Form = Form(
    description: string,
    totalAmount: string,
    category: string,
    paymentType: string,
    installments: string,
    isCollective: bool,
    people: seq<Person>)

  /** The state the screen opens with. */
  const InitialForm := Form("", "", "supermercado", "vista", "2", false, [Person("1", "", "")])

  /**
   * `calculateInstallmentValue`: empty for an empty amount, a payment in cash
   * or a number that does not parse; otherwise the amount divided by the
   * count, to two decimals with a comma.
   */
  function InstallmentValue(f: Form): string {
    if f.totalAmount == "" || f.paymentType == "vista" then ""
    else
      match (ParseFloat(ReplaceFirst(f.totalAmount, ',', '.')), ParseInt(f.installments))
      case (Some(total), Some(count)) => ReplaceFirst(QuotientToFixed2(total, count), '.', ',')
      case _ => ""
  }

  /** `[...people, { id, name: "", amount: "" }]`. */
  function WithBlankPerson(people: seq<Person>, id: string): seq<Person> {
    people + [Person(id, "", "")]
  }

  /** `people.filter((person) => person.id !== id)`. */
  function WithoutPerson(people: seq<Person>, id: string): (r: seq<Person>)
    ensures |r| <= |people|
  {
    if people == [] then []
    else
      var rest := WithoutPerson(people[..|people| - 1], id);
      var p := people[|people| - 1];
      if p.id != id then rest + [p] else rest
  }

  /** `removePerson`: a list of one person is left as it is. */
  function Removed(people: seq<Person>, id: string): seq<Person> {
    if |people| > 1 then WithoutPerson(people, id) else people
  }

  /** `{ ...person, [field]: value }`. */
  function SetField(p: Person, field: PersonField, value: string): Person {
    match field
    case Name => p.(name := value)
    case Amount => p.(amount := value)
  }

  /** `people.map((person) => (person.id === id ? { ...person, [field]: value } : person))`. */
  function Updated(people: seq<Person>, id: string, field: PersonField, value: string): (r: seq<Person>)
    ensures |r| == |people|
  {
    seq(|people|, i requires 0 <= i < |people| => if people[i].id == id then SetField(people[i], field, value) else people[i])
  }

  /** `Number.parseFloat(person.amount.replace(",", ".") || "0")`: an empty amount counts as 0. */
  function PersonAmount(p: Person): Option<int> {
    var s := ReplaceFirst(p.amount, ',', '.');
    if |s| == 0 then Some(0) else ParseFloat(s)
  }

  /** `calculateCollectiveTotal`: the persons' amounts added up from 0, `NaN` as soon as one is. */
  function CollectiveTotal(people: seq<Person>): Option<int> {
    if people == [] then Some(0)
    else Plus(CollectiveTotal(people[..|people| - 1]), PersonAmount(people[|people| - 1]))
  }

  /** Some person lacks a name or an amount. */
  predicate HasEmptyPerson(people: seq<Person>) {
    exists i :: 0 <= i < |people| && (Blank(people[i].name) || Blank(people[i].amount))
  }

  /** `Math.abs(total - collectiveTotal) > 0.01`: false as soon as either side is `NaN`. */
  predicate Mismatch(total: Option<int>, split: Option<int>) {
    total.Some? && split.Some? && Abs(total.value - split.value) > 1
  }

  /** The amount the split is compared with. */
  function TotalAmount(f: Form): Option<int> {
    ParseFloat(ReplaceFirst(f.totalAmount, ',', '.'))
  }

  /** `validateForm`: the message of the first failing check, `None` when the form may be submitted. */
  function ValidateForm(f: Form): Option<FormError> {
    if Blank(f.description) then Some(DescriptionRequired)
    else if Blank(f.totalAmount) then Some(AmountRequired)
    else if f.isCollective then
      if HasEmptyPerson(f.people) then Some(PeopleIncomplete)
      else if Mismatch(TotalAmount(f), CollectiveTotal(f.people)) then Some(SplitMismatch)
      else None
    else None
  }

  /** The checks of `validateForm`, in the order they run. */
  function FormChecks(f: Form): seq<Check<FormError>> {
    [Check(Blank(f.description), DescriptionRequired),
     Check(Blank(f.totalAmount), AmountRequired),
     Check(f.isCollective && HasEmptyPerson(f.people), PeopleIncomplete),
     Check(f.isCollective && Mismatch(TotalAmount(f), CollectiveTotal(f.people)), SplitMismatch)]
  }

  const SubmittedMessage := "Transação adicionada com sucesso!"

  /** `handleSubmit`: the first failing check's alert, or the success alert that goes back; nothing is saved. */
  function Submit(f: Form): (r: Feedback)
    ensures r.AlertThen? <==> ValidateForm(f).None?
    ensures ValidateForm(f).Some? ==> r == Alert(ErrorTitle, Message(ValidateForm(f).value))
  {
    match ValidateForm(f)
    case Some(e) => Alert(ErrorTitle, Message(e))
    case None => AlertThen(SuccessTitle, SubmittedMessage, PreviousScreen)
  }

  // ---------------------------------------------------------------- lemmas

  /** Every category the form offers has its own entry in the category table, so none falls back. */
  lemma FormCategoriesStyled()
    ensures forall i :: 0 <= i < |FormCategories| ==> CategoryIcons.Lookup(FormCategories[i].value).Some?
  {
    forall i | 0 <= i < |FormCategories|
      ensures CategoryIcons.Lookup(FormCategories[i].value).Some?
    {
      var v := FormCategories[i].value;
      var k := if i < 10 then i else 11;
      assert CategoryIcons.Table[k].key == v;
    }
  }

  /** The options are 1x to 12x, and each value reads back as its count. */
  lemma InstallmentOptionsSpec()
    ensures forall i :: 0 <= i < 12 ==> InstallmentOptions()[i].caption == InstallmentOptions()[i].value + "x"
    ensures forall i :: 0 <= i < 12 ==> ParseInt(InstallmentOptions()[i].value) == Some(i + 1)
  {
    forall i | 0 <= i < 12 ensures ParseInt(InstallmentOptions()[i].value) == Some(i + 1) {
      ParseNatToString(i + 1);
    }
  }

  /** `parseInt(n.toString())` is `n`. */
  lemma ParseNatToString(n: nat)
    ensures ParseInt(NatToString(n)) == Some(n)
  {
    var s := NatToString(n);
    assert !IsWhite(s[0]) && s[0] != '-' && s[0] != '+';
    assert TrimStart(s) == s && Unsigned(s) == s;
    DigitPrefixOf(s, []);
    assert s + [] == s;
    NatToStringValue(n);
  }

  /** The preview is empty exactly for an empty amount, a payment in cash or a number that does not parse. */
  lemma InstallmentValueEmpty(f: Form)
    ensures InstallmentValue(f) == "" <==>
      f.totalAmount == "" || f.paymentType == "vista"
      || TotalAmount(f).None? || ParseInt(f.installments).None?
  {
    if f.totalAmount != "" && f.paymentType != "vista" && TotalAmount(f).Some? && ParseInt(f.installments).Some? {
      QuotientCommaNonEmpty(TotalAmount(f).value, ParseInt(f.installments).value);
    }
  }

  lemma QuotientCommaNonEmpty(n: int, d: int)
    ensures ReplaceFirst(QuotientToFixed2(n, d), '.', ',') != ""
  {
    if d != 0 {
      assert |Fixed2(n != 0 && ((n < 0) != (d < 0)), RoundHalfUp(Abs(n), Abs(d)))| > 0;
    }
  }

  /**
   * For a positive count, the preview is the amount divided by the count,
   * rounded to the cent, in the comma rendering of the currency field.
   */
  lemma InstallmentValueIsComma(f: Form)
    requires f.totalAmount != "" && f.paymentType != "vista"
    requires TotalAmount(f).Some? && ParseInt(f.installments).Some? && ParseInt(f.installments).value > 0
    ensures var n := TotalAmount(f).value;
      InstallmentValue(f) == CommaFixed2(n < 0, RoundHalfUp(Abs(n), ParseInt(f.installments).value))
  {
    var n := TotalAmount(f).value;
    var d := ParseInt(f.installments).value;
    QuotientFixed2(n, d);
    FixedToComma(n < 0, RoundHalfUp(Abs(n), d));
  }

  /** A comma rendering reads back, comma turned into a point, as the signed number of cents. */
  lemma CommaFixed2ReadsBack(neg: bool, m: nat)
    ensures ParseFloat(ReplaceFirst(CommaFixed2(neg, m), ',', '.')) == Some(if neg then -(m as int) else m)
  {
    FixedToComma(neg, m);
    Fixed2RoundTrip(neg, m);
  }

  lemma QuotientFixed2(n: int, d: int)
    requires d > 0
    ensures QuotientToFixed2(n, d) == Fixed2(n < 0, RoundHalfUp(Abs(n), d))
  {
  }

  /** `validateForm` reports the first failing check, in the order description, amount, persons, split. */
  lemma ValidateFormFirstFailure(f: Form)
    ensures ValidateForm(f) == FirstFailure(FormChecks(f))
  {
    var cs := FormChecks(f);
    FirstOfFour(cs[0], cs[1], cs[2], cs[3]);
  }

  /** A form that passes has a description and an amount, and a collective one has complete persons. */
  lemma ValidFormComplete(f: Form)
    requires ValidateForm(f).None?
    ensures !Blank(f.description) && !Blank(f.totalAmount)
    ensures f.isCollective ==> forall i :: 0 <= i < |f.people| ==> !Blank(f.people[i].name) && !Blank(f.people[i].amount)
  {
    if f.isCollective {
      assert !HasEmptyPerson(f.people);
    }
  }

  /** In a collective form that passes, the split and the amount differ by at most a cent when both parse. */
  lemma ValidFormSplit(f: Form)
    requires ValidateForm(f).None? && f.isCollective
    ensures TotalAmount(f).Some? && CollectiveTotal(f.people).Some? ==>
      -1 <= TotalAmount(f).value - CollectiveTotal(f.people).value <= 1
  {
    assert !Mismatch(TotalAmount(f), CollectiveTotal(f.people));
  }

  /** A collective total that does not parse passes the split check: the comparison with `NaN` is false. */
  lemma UnparsedTotalPassesSplit(f: Form)
    requires f.isCollective && !Blank(f.description) && !Blank(f.totalAmount) && !HasEmptyPerson(f.people)
    requires TotalAmount(f).None?
    ensures ValidateForm(f).None?
  {
  }

  /** The new person comes last, blank, and adds nothing to the collective total. */
  lemma WithBlankPersonSpec(people: seq<Person>, id: string)
    ensures WithBlankPerson(people, id)[..|people|] == people
    ensures CollectiveTotal(WithBlankPerson(people, id)) == CollectiveTotal(people)
  {
    var r := WithBlankPerson(people, id);
    assert r[..|r| - 1] == people;
  }

  /** Removal keeps the persons with another id, and empties the list only when every person has that id. */
  lemma {:induction false} WithoutPersonSpec(people: seq<Person>, id: string)
    ensures forall p :: p in WithoutPerson(people, id) <==> p in people && p.id != id
    ensures WithoutPerson(people, id) == [] <==> forall i :: 0 <= i < |people| ==> people[i].id == id
  {
    if people != [] {
      var q := people[..|people| - 1];
      WithoutPersonSpec(q, id);
      assert people == q + [people[|people| - 1]];
      assert forall i :: 0 <= i < |q| ==> q[i] == people[i];
    }
  }

  /** Removal distributes over concatenation, so the persons kept stay in their order. */
  lemma {:induction false} WithoutPersonAppend(a: seq<Person>, b: seq<Person>, id: string)
    ensures WithoutPerson(a + b, id) == WithoutPerson(a, id) + WithoutPerson(b, id)
  {
    if b != [] {
      var b' := b[..|b| - 1];
      WithoutPersonAppend(a, b', id);
      assert (a + b)[..|a + b| - 1] == a + b';
      assert (a + b)[|a + b| - 1] == b[|b| - 1];
    } else {
      assert a + b == a;
    }
  }

  /** `removePerson` leaves a list of one person alone, and otherwise removes the matching persons. */
  lemma RemovePersonSpec(people: seq<Person>, id: string)
    ensures |people| <= 1 ==> Removed(people, id) == people
    ensures |people| > 1 ==> forall p :: p in Removed(people, id) <==> p in people && p.id != id
    ensures Removed(people, id) == [] <==>
      people == [] || (|people| > 1 && forall i :: 0 <= i < |people| ==> people[i].id == id)
  {
    WithoutPersonSpec(people, id);
  }

  /** With distinct ids, removal from a list of two or more persons leaves someone. */
  lemma RemoveKeepsSomeone(people: seq<Person>, id: string)
    requires |people| > 1 && people[0].id != people[1].id
    ensures Removed(people, id) != []
  {
    WithoutPersonSpec(people, id);
  }

  /** `updatePerson` sets the field of the matching persons only; ids and the other field are kept. */
  lemma UpdatePersonSpec(people: seq<Person>, id: string, field: PersonField, value: string)
    ensures forall i :: 0 <= i < |people| ==> Updated(people, id, field, value)[i].id == people[i].id
    ensures forall i :: 0 <= i < |people| && people[i].id != id ==> Updated(people, id, field, value)[i] == people[i]
    ensures forall i :: 0 <= i < |people| && people[i].id == id ==>
      (field == Name ==> (Updated(people, id, field, value)[i].name == value
                          && Updated(people, id, field, value)[i].amount == people[i].amount))
      && (field == Amount ==> (Updated(people, id, field, value)[i].amount == value
                               && Updated(people, id, field, value)[i].name == people[i].name))
  {
  }

  /** Renaming persons never changes the collective total. */
  lemma {:induction false} RenameKeepsTotal(people: seq<Person>, id: string, value: string)
    ensures CollectiveTotal(Updated(people, id, Name, value)) == CollectiveTotal(people)
  {
    if people != [] {
      var q := people[..|people| - 1];
      var r := Updated(people, id, Name, value);
      assert r[..|r| - 1] == Updated(q, id, Name, value);
      RenameKeepsTotal(q, id, value);
      assert r[|r| - 1].amount == people[|people| - 1].amount;
    }
  }

  /** One amount that does not parse makes the collective total `NaN`. */
  lemma UnparsedAmountPoisons(people: seq<Person>, i: nat)
    requires i < |people| && PersonAmount(people[i]).None?
    ensures CollectiveTotal(people).None?
  {
    TotalIsSum(people);
    PoisonedSum(Amounts(people), i);
  }

  /** Each person's amount as `Number.parseFloat` reads it. */
  function Amounts(people: seq<Person>): (r: seq<Option<int>>)
    ensures |r| == |people| && forall k :: 0 <= k < |r| ==> r[k] == PersonAmount(people[k])
  {
    seq(|people|, k requires 0 <= k < |people| => PersonAmount(people[k]))
  }

  /** The amounts added up from 0, `NaN` as soon as one is. */
  function SumAmounts(xs: seq<Option<int>>): Option<int> {
    if xs == [] then Some(0) else Plus(SumAmounts(xs[..|xs| - 1]), xs[|xs| - 1])
  }

  /** The collective total is the sum of the persons' amounts. */
  lemma {:induction false} TotalIsSum(people: seq<Person>)
    ensures CollectiveTotal(people) == SumAmounts(Amounts(people))
  {
    if people != [] {
      var n := |people| - 1;
      TotalIsSum(people[..n]);
      assert Amounts(people)[..n] == Amounts(people[..n]);
    }
  }

  /** A sum with a `NaN` term is `NaN`. */
  lemma {:induction false} PoisonedSum(xs: seq<Option<int>>, i: nat)
    requires i < |xs| && xs[i].None?
    ensures SumAmounts(xs).None?
  {
    var n := |xs| - 1;
    if i < n {
      assert xs[..n][i] == xs[i];
      PoisonedSum(xs[..n], i);
    }
  }

  /** A `NaN` collective total comes from an amount that does not parse. */
  lemma {:induction false} NaNTotalHasUnparsed(people: seq<Person>)
    requires CollectiveTotal(people).None?
    ensures exists i :: 0 <= i < |people| && PersonAmount(people[i]).None?
  {
    var n := |people| - 1;
    var q := people[..n];
    if CollectiveTotal(q).None? {
      NaNTotalHasUnparsed(q);
      var i :| 0 <= i < |q| && PersonAmount(q[i]).None?;
      assert people[i] == q[i];
    } else {
      assert PersonAmount(people[n]).None?;
    }
  }
}
