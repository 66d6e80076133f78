/**
 * The financial summary of the dashboard: income, expenses and the projected
 * installment debt accumulated over every transaction, the salary taking the
 * place of the income when one is set, and the three summary rows. A value
 * that does not parse is not skipped: it turns the sum it enters into `NaN`.
 */
module Dashboard {
  import opened Wrappers
  import opened Text
  import opened JsNumber
  import opened Types
  import opened Currency
  import opened Aggregation
  import Settings

  datatype SummaryRow = SummaryRow(title: string, amount: string, kind: Kind)

  const AvailableTitle := "Salário Disponível"
  const DebtTitle := "Saldo Devedor"
  const ExpensesTitle := "Resumo Gastos"

  /** The rows shown before the first computation. */
  const InitialSummary := [
    SummaryRow(AvailableTitle, "R$ 0,00", Positive),
    SummaryRow(DebtTitle, "R$ 0,00", Negative),
    SummaryRow(ExpensesTitle, "R$ 0,00", Negative)]

  /** `parseFloat(installmentValue?.replace(",", ".") || "0")`: a missing or empty value counts as 0. */
  function InstallmentAmount(t: Transaction): Option<int> {
    match t.installmentValue
    case None => Some(0)
    case Some(s) => if s == "" then Some(0) else ParseFloat(ReplaceFirst(s, ',', '.'))
  }

  /**
   * What an expense adds to the debt: the installments after the first, all of
   * them assumed outstanding; 0 when the record is not paid in installments.
   */
  function DebtOf(t: Transaction): Option<int> {
    if t.installments.Some? && t.installments.value > 1
    then Times(InstallmentAmount(t), t.installments.value - 1)
    else Some(0)
  }

  /** What the loop reads from one record: its type, its parsed value and its debt. */
  datatype Reading = Reading(kind: Kind, value: Option<int>, debt: Option<int>)

  function Read(t: Transaction): Reading {
    Reading(t.kind, ParseAmount(t.value), DebtOf(t))
  }

  function Readings(txs: seq<Transaction>): (rs: seq<Reading>)
    ensures |rs| == |txs|
  {
    seq(|txs|, i requires 0 <= i < |txs| => Read(txs[i]))
  }

  /** The income after the loop has read `rs`: the values of the incomes. */
  function Income(rs: seq<Reading>): Option<int> {
    if rs == [] then Some(0)
    else
      var r := rs[|rs| - 1];
      var acc := Income(rs[..|rs| - 1]);
      if r.kind == Positive then Plus(acc, r.value) else acc
  }

  /** The expenses after the loop has read `rs`: the magnitudes of all other values. */
  function Expenses(rs: seq<Reading>): Option<int> {
    if rs == [] then Some(0)
    else
      var r := rs[|rs| - 1];
      var acc := Expenses(rs[..|rs| - 1]);
      if r.kind == Positive then acc else Plus(acc, AbsOf(r.value))
  }

  /** The pending debt after the loop has read `rs`. */
  function PendingDebt(rs: seq<Reading>): Option<int> {
    if rs == [] then Some(0)
    else
      var r := rs[|rs| - 1];
      var acc := PendingDebt(rs[..|rs| - 1]);
      if r.kind == Positive then acc else Plus(acc, r.debt)
  }

  /** `settings.salary > 0 ? settings.salary : income`. */
  function TotalIncome(salary: int, income: Option<int>): Option<int> {
    if salary > 0 then Some(salary) else income
  }

  /** The three rows, in their fixed order; only the first row's type depends on the amounts. */
  function SummaryRows(available: Option<int>, debt: Option<int>, expenses: Option<int>): (rows: seq<SummaryRow>)
    ensures |rows| == 3
    ensures rows[0].title == AvailableTitle && rows[1].title == DebtTitle && rows[2].title == ExpensesTitle
    ensures rows[0].kind == Positive <==> NonNegative(available)
    ensures rows[1].kind == Negative && rows[2].kind == Negative
    ensures rows[0].amount == FormatCurrencyOrNaN(available)
    ensures rows[1].amount == FormatCurrencyOrNaN(debt) && rows[2].amount == FormatCurrencyOrNaN(expenses)
  {
    [SummaryRow(AvailableTitle, FormatCurrencyOrNaN(available), if NonNegative(available) then Positive else Negative),
     SummaryRow(DebtTitle, FormatCurrencyOrNaN(debt), Negative),
     SummaryRow(ExpensesTitle, FormatCurrencyOrNaN(expenses), Negative)]
  }

  /** The summary for the list `txs` and the configured salary. */
  function Summary(txs: seq<Transaction>, salary: int): seq<SummaryRow> {
    var rs := Readings(txs);
    var expenses := Expenses(rs);
    SummaryRows(Minus(TotalIncome(salary, Income(rs)), expenses), PendingDebt(rs), expenses)
  }

  class DashboardScreen {
    var financialSummary: seq<SummaryRow>

    constructor()
      ensures financialSummary == InitialSummary
    {
      financialSummary := InitialSummary;
    }

    /** The effect recomputing the summary: nothing happens while the settings are not loaded. */
    method RecalculateSummary(transactions: seq<Transaction>, settings: Option<Settings.AppSettings>)
      modifies this
      ensures settings.None? ==> financialSummary == old(financialSummary)
      ensures settings.Some? ==> financialSummary == Summary(transactions, settings.value.salary)
    {
      if settings.None? {
        return;
      }
      var rs := Readings(transactions);
      var income: Option<int> := Some(0);
      var expenses: Option<int> := Some(0);
      var pendingDebt: Option<int> := Some(0);
      var i := 0;
      while i < |transactions|
        invariant 0 <= i <= |transactions|
        invariant income == Income(rs[..i])
        invariant expenses == Expenses(rs[..i])
        invariant pendingDebt == PendingDebt(rs[..i])
      {
        var t := transactions[i];
        var next := i + 1;
        var value := ParseAmount(t.value);
        if t.kind == Positive {
          IncomeAt(transactions, i, next);
          income := Plus(income, value);
        } else {
          ExpenseAt(transactions, i, next);
          expenses := Plus(expenses, AbsOf(value));
          if t.installments.Some? && t.installments.value > 1 {
            var installmentValue := InstallmentAmount(t);
            pendingDebt := Plus(pendingDebt, Times(installmentValue, t.installments.value - 1));
          } else {
            PlusZero(pendingDebt);
          }
        }
        i := next;
      }
      assert rs[..|transactions|] == rs;
      var totalIncome := TotalIncome(settings.value.salary, income);
      var availableSalary := Minus(totalIncome, expenses);
      financialSummary := SummaryRows(availableSalary, pendingDebt, expenses);
    }
  }

  // ---------------------------------------------------------------- lemmas

  /** The loop reading the income at position `i`: only the income changes. */
  lemma IncomeAt(txs: seq<Transaction>, i: nat, next: nat)
    requires i < |txs| && next == i + 1 && txs[i].kind == Positive
    ensures var rs := Readings(txs);
      Income(rs[..next]) == Plus(Income(rs[..i]), ParseAmount(txs[i].value))
      && Expenses(rs[..next]) == Expenses(rs[..i]) && PendingDebt(rs[..next]) == PendingDebt(rs[..i])
  {
    var rs := Readings(txs);
    assert rs[..next][..i] == rs[..i];
    assert rs[i] == Read(txs[i]);
  }

  /** The loop reading the expense at position `i`: the expenses and the debt change. */
  lemma ExpenseAt(txs: seq<Transaction>, i: nat, next: nat)
    requires i < |txs| && next == i + 1 && txs[i].kind == Negative
    ensures var rs := Readings(txs);
      Income(rs[..next]) == Income(rs[..i])
      && Expenses(rs[..next]) == Plus(Expenses(rs[..i]), AbsOf(ParseAmount(txs[i].value)))
      && PendingDebt(rs[..next]) == Plus(PendingDebt(rs[..i]), DebtOf(txs[i]))
  {
    var rs := Readings(txs);
    assert rs[..next][..i] == rs[..i];
    assert rs[i] == Read(txs[i]);
  }

  /** Adding 0 leaves a sum, `NaN` or not, as it is. */
  lemma PlusZero(a: Option<int>)
    ensures Plus(a, Some(0)) == a
  {
  }

  /** The expense sum is never negative. */
  lemma {:induction false} ExpensesNonNegative(rs: seq<Reading>)
    ensures Expenses(rs).Some? ==> Expenses(rs).value >= 0
  {
    if rs != [] {
      ExpensesNonNegative(rs[..|rs| - 1]);
    }
  }

  /** One expense whose value does not parse turns the expense sum, and so the available amount, into `NaN`. */
  lemma UnparsedExpensePoisons(txs: seq<Transaction>, k: nat)
    requires k < |txs| && txs[k].kind == Negative && ParseAmount(txs[k].value).None?
    ensures Expenses(Readings(txs)) == None
    ensures forall salary :: salary <= 0 ==> Summary(txs, salary)[0] == SummaryRow(AvailableTitle, "R$ NaN", Negative)
  {
    NaNReadingPoisons(Readings(txs), k);
  }

  /** The same, on what the loop reads. */
  lemma {:induction false} NaNReadingPoisons(rs: seq<Reading>, k: nat)
    requires k < |rs| && rs[k].kind == Negative && rs[k].value.None?
    ensures Expenses(rs) == None
  {
    var last := |rs| - 1;
    if k < last {
      assert rs[..last][k] == rs[k];
      NaNReadingPoisons(rs[..last], k);
    }
  }

  /** An expense is well-formed for the category totals when it has a category and its value parses. */
  predicate Categorized(t: Transaction) {
    t.kind == Negative ==> t.category.Some? && t.category.value != "" && ParseAmount(t.value).Some?
  }

  /** A reading and a contribution of the same record count the same magnitude. */
  predicate Agrees(r: Reading, c: Option<Entry>) {
    (r.kind == Positive ==> c == None)
    && (r.kind == Negative ==> c.Some? && AbsOf(r.value) == Some(c.value.total))
  }

  /**
   * When every expense has a category and a value that parses, the expense row
   * is the sum of the category totals: both add the same magnitudes.
   */
  lemma ExpensesMatchCategoryTotals(txs: seq<Transaction>)
    requires forall i :: 0 <= i < |txs| ==> Categorized(txs[i])
    ensures Expenses(Readings(txs)) == Some(ContributingSum(Contributions(txs)))
  {
    var rs := Readings(txs);
    var cs := Contributions(txs);
    forall i | 0 <= i < |txs|
      ensures Agrees(rs[i], cs[i])
    {
      ContributionsAt(txs, i);
      CategorizedContribution(txs[i]);
    }
    ExpensesAgree(rs, cs);
  }

  /** What a categorized record adds to the expenses is what it contributes to its category. */
  lemma CategorizedContribution(t: Transaction)
    requires Categorized(t)
    ensures Agrees(Read(t), Contribution(t))
  {
    if t.kind == Negative {
      SomeContribution(t, ParseAmount(t.value).value);
    } else {
      NoContribution(t);
    }
  }

  /** Readings and contributions that agree position by position have the same sum. */
  lemma {:induction false} ExpensesAgree(rs: seq<Reading>, cs: seq<Option<Entry>>)
    requires |rs| == |cs|
    requires forall i :: 0 <= i < |rs| ==> Agrees(rs[i], cs[i])
    ensures Expenses(rs) == Some(ContributingSum(cs))
  {
    if rs != [] {
      var last := |rs| - 1;
      assert forall i :: 0 <= i < last ==> rs[..last][i] == rs[i] && cs[..last][i] == cs[i];
      ExpensesAgree(rs[..last], cs[..last]);
      assert Agrees(rs[last], cs[last]);
    }
  }

  /** With a salary set, the income of the transactions plays no part in the available amount. */
  lemma SalaryOverridesIncome(txs: seq<Transaction>, others: seq<Transaction>, salary: int)
    requires salary > 0 && Expenses(Readings(txs)) == Expenses(Readings(others))
    ensures Summary(txs, salary)[0] == Summary(others, salary)[0]
  {
  }

  /** With a salary set and expenses that parse, the first row is positive exactly when the salary covers them. */
  lemma AvailableWithSalary(txs: seq<Transaction>, salary: int)
    requires salary > 0 && Expenses(Readings(txs)).Some?
    ensures Summary(txs, salary)[0].kind == Positive <==> salary >= Expenses(Readings(txs)).value
  {
  }
}
