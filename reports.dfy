/**
 * The statistics of the reports screen. One loop over every transaction adds
 * the incomes, the magnitudes of the expenses, keeps the biggest expense and
 * counts the expenses per category; the most used category is then read off
 * the counts, and the average expense divides the expense sum by the number of
 * expenses. Like the dashboard, the loop does not skip a value that does not
 * parse.
 */
module Reports {
  import opened Wrappers
  import opened Text
  import opened JsNumber
  import opened Types
  import opened Currency
  import opened Aggregation
  import opened Dashboard

  /** The answer of `mostUsedCategory` when no expense has a category. */
  const NoCategory := "Nenhuma"

  const HighSpendingText := "Seus gastos estão altos. Considere revisar suas despesas."
  const ControlledSpendingText := "Seus gastos estão controlados. Continue assim!"

  /**
   * `averageTransaction`: a plain amount, or the quotient of the expense sum
   * (in cents) by the number of expenses, which may be zero.
   */
  datatype Average = Exact(cents: int) | Quotient(total: Option<int>, count: nat)

  datatype ReportData = ReportData(
    totalIncome: Option<int>,
    totalExpenses: Option<int>,
    balance: Option<int>,
    transactionCount: nat,
    averageTransaction: Average,
    biggestExpense: nat,
    mostUsedCategory: string)

  const InitialReport := ReportData(Some(0), Some(0), Some(0), 0, Exact(0), 0, "")

  /** What an expense adds to the category counts: one, under its category when it has one. */
  function Counted(t: Transaction): Option<Entry> {
    if t.kind != Positive && t.category.Some? && t.category.value != "" then Some(Entry(t.category.value, 1)) else None
  }

  function CountContributions(txs: seq<Transaction>): (cs: seq<Option<Entry>>)
    ensures |cs| == |txs|
  {
    seq(|txs|, i requires 0 <= i < |txs| => Counted(txs[i]))
  }

  /** The `categoryCount` record after the loop: `(categoryCount[c] || 0) + 1` per counted expense. */
  function CategoryCounts(txs: seq<Transaction>): seq<Entry> {
    GroupEntries(CountContributions(txs))
  }

  /** `biggestExpense` after the loop has read `rs`: a `NaN` magnitude never compares greater. */
  function Biggest(rs: seq<Reading>): nat {
    if rs == [] then 0
    else
      var r := rs[|rs| - 1];
      var acc := Biggest(rs[..|rs| - 1]);
      var magnitude := AbsOf(r.value);
      if r.kind == Positive || magnitude.None? then acc
      else if magnitude.value > acc then magnitude.value else acc
  }

  /** The `reduce` over the entries of the counts: a strictly greater count takes over, starting from `Nenhuma` and 0. */
  function MostUsed(counts: seq<Entry>): Entry {
    if counts == [] then Entry(NoCategory, 0)
    else
      var best := MostUsed(counts[..|counts| - 1]);
      var e := counts[|counts| - 1];
      if e.total > best.total then e else best
  }

  /** `filteredTransactions.filter((t) => t.type === "negative")`. */
  function Negatives(txs: seq<Transaction>): (r: seq<Transaction>)
    ensures |r| <= |txs|
    ensures forall i :: 0 <= i < |r| ==> r[i].kind == Negative
  {
    if txs == [] then []
    else
      var rest := Negatives(txs[..|txs| - 1]);
      if txs[|txs| - 1].kind == Negative then rest + [txs[|txs| - 1]] else rest
  }

  /** The report for the list `txs` and the configured salary. */
  function Report(txs: seq<Transaction>, salary: int): ReportData {
    var rs := Readings(txs);
    var expenses := Expenses(rs);
    var totalIncome := TotalIncome(salary, Income(rs));
    ReportData(
      totalIncome,
      expenses,
      Minus(totalIncome, expenses),
      |txs|,
      if |txs| > 0 then Quotient(expenses, |Negatives(txs)|) else Exact(0),
      Biggest(rs),
      MostUsed(CategoryCounts(txs)).name)
  }

  /** `formatCurrency(averageTransaction)`. */
  function AverageText(a: Average): string {
    match a
    case Exact(v) => FormatCurrency(v)
    case Quotient(None, _) => Prefix + "NaN"
    case Quotient(Some(n), d) => Prefix + ReplaceFirst(QuotientToFixed2(n, d), '.', ',')
  }

  /** The savings rate is shown only for a positive income. */
  predicate ShowsSavingsRate(r: ReportData) {
    r.totalIncome.Some? && r.totalIncome.value > 0
  }

  /** `totalExpenses > totalIncome * 0.8`, in cents; a comparison with `NaN` is false. */
  predicate HighSpending(r: ReportData) {
    r.totalExpenses.Some? && r.totalIncome.Some? && 5 * r.totalExpenses.value > 4 * r.totalIncome.value
  }

  function SpendingInsight(r: ReportData): string {
    if HighSpending(r) then HighSpendingText else ControlledSpendingText
  }

  class ReportsScreen {
    var reportData: ReportData

    constructor()
      ensures reportData == InitialReport
    {
      reportData := InitialReport;
    }

    /** `calculateReportData`, over every transaction (no period filter is applied). */
    method CalculateReportData(transactions: seq<Transaction>, salary: int)
      modifies this
      ensures reportData == Report(transactions, salary)
    {
      var rs := Readings(transactions);
      var cs := CountContributions(transactions);
      var income: Option<int> := Some(0);
      var expenses: Option<int> := Some(0);
      var biggestExpense: nat := 0;
      var categoryCount: seq<Entry> := [];
      var i := 0;
      while i < |transactions|
        invariant 0 <= i <= |transactions|
        invariant income == Income(rs[..i])
        invariant expenses == Expenses(rs[..i])
        invariant biggestExpense == Biggest(rs[..i])
        invariant categoryCount == GroupEntries(cs[..i])
      {
        var t := transactions[i];
        var next := i + 1;
        var value := ParseAmount(t.value);
        if t.kind == Positive {
          IncomeRead(transactions, i, next);
          income := Plus(income, value);
        } else {
          ExpenseRead(transactions, i, next);
          var absValue := AbsOf(value);
          expenses := Plus(expenses, absValue);
          if absValue.Some? && absValue.value > biggestExpense {
            biggestExpense := absValue.value;
          }
          if t.category.Some? && t.category.value != "" {
            categoryCount := Bump(categoryCount, t.category.value, 1);
          }
        }
        i := next;
      }
      assert rs[..|transactions|] == rs;
      assert cs[..|transactions|] == cs;
      var mostUsedCategory := MostUsed(categoryCount).name;
      var totalIncome := TotalIncome(salary, income);
      var balance := Minus(totalIncome, expenses);
      var averageTransaction := if |transactions| > 0 then Quotient(expenses, |Negatives(transactions)|) else Exact(0);
      reportData := ReportData(totalIncome, expenses, balance, |transactions|, averageTransaction, biggestExpense, mostUsedCategory);
    }
  }

  // ---------------------------------------------------------------- lemmas

  /** An income read by the loop enters the income and nothing else. */
  lemma IncomeStep(rs: seq<Reading>, i: nat, next: nat)
    requires i < |rs| && next == i + 1 && rs[i].kind == Positive
    ensures Income(rs[..next]) == Plus(Income(rs[..i]), rs[i].value)
    ensures Expenses(rs[..next]) == Expenses(rs[..i]) && Biggest(rs[..next]) == Biggest(rs[..i])
  {
    assert rs[..next][..i] == rs[..i];
  }

  /** An expense read by the loop enters the expenses and the biggest expense, and not the income. */
  lemma ExpenseStep(rs: seq<Reading>, i: nat, next: nat)
    requires i < |rs| && next == i + 1 && rs[i].kind == Negative
    ensures Income(rs[..next]) == Income(rs[..i])
    ensures Expenses(rs[..next]) == Plus(Expenses(rs[..i]), AbsOf(rs[i].value))
    ensures var m := AbsOf(rs[i].value);
      Biggest(rs[..next]) == if m.Some? && m.value > Biggest(rs[..i]) then m.value else Biggest(rs[..i])
  {
    assert rs[..next][..i] == rs[..i];
  }

  /** The loop reading the income at position `i`: only the income changes. */
  lemma IncomeRead(txs: seq<Transaction>, i: nat, next: nat)
    requires i < |txs| && next == i + 1 && txs[i].kind == Positive
    ensures var rs := Readings(txs);
      Income(rs[..next]) == Plus(Income(rs[..i]), ParseAmount(txs[i].value))
      && Expenses(rs[..next]) == Expenses(rs[..i]) && Biggest(rs[..next]) == Biggest(rs[..i])
    ensures var cs := CountContributions(txs); GroupEntries(cs[..next]) == GroupEntries(cs[..i])
  {
    var rs := Readings(txs);
    var cs := CountContributions(txs);
    assert rs[i] == Read(txs[i]);
    IncomeStep(rs, i, next);
    assert cs[i] == None;
    CountStep(cs, i, next);
  }

  /** The loop reading the expense at position `i`: the expenses, the biggest expense and the counts change. */
  lemma ExpenseRead(txs: seq<Transaction>, i: nat, next: nat)
    requires i < |txs| && next == i + 1 && txs[i].kind == Negative
    ensures var rs := Readings(txs); var m := AbsOf(ParseAmount(txs[i].value));
      Income(rs[..next]) == Income(rs[..i])
      && Expenses(rs[..next]) == Plus(Expenses(rs[..i]), m)
      && Biggest(rs[..next]) == if m.Some? && m.value > Biggest(rs[..i]) then m.value else Biggest(rs[..i])
    ensures var cs := CountContributions(txs); var c := txs[i].category;
      GroupEntries(cs[..next]) == if c.Some? && c.value != "" then Bump(GroupEntries(cs[..i]), c.value, 1) else GroupEntries(cs[..i])
  {
    var rs := Readings(txs);
    var cs := CountContributions(txs);
    assert rs[i] == Read(txs[i]);
    ExpenseStep(rs, i, next);
    assert cs[i] == Counted(txs[i]);
    CountStep(cs, i, next);
  }

  /** One more record adds its count contribution. */
  lemma CountStep(cs: seq<Option<Entry>>, i: nat, next: nat)
    requires i < |cs| && next == i + 1
    ensures GroupEntries(cs[..next]) == Accumulate(GroupEntries(cs[..i]), cs[i])
  {
    assert cs[..next][..i] == cs[..i];
  }

  /** `biggestExpense` is the largest magnitude among the expenses that parse, or 0 when there is none. */
  lemma {:induction false} BiggestIsMaximum(rs: seq<Reading>)
    ensures forall i :: 0 <= i < |rs| && rs[i].kind == Negative && rs[i].value.Some? ==> Abs(rs[i].value.value) <= Biggest(rs)
    ensures Biggest(rs) == 0 || exists i :: 0 <= i < |rs| && rs[i].kind == Negative && rs[i].value.Some? && Abs(rs[i].value.value) == Biggest(rs)
  {
    if rs != [] {
      var last := |rs| - 1;
      var p := rs[..last];
      BiggestIsMaximum(p);
      assert forall i :: 0 <= i < last ==> p[i] == rs[i];
      if Biggest(rs) != 0 && Biggest(rs) == Biggest(p) {
        var i :| 0 <= i < |p| && p[i].kind == Negative && p[i].value.Some? && Abs(p[i].value.value) == Biggest(p);
        assert rs[i] == p[i];
      }
    }
  }

  /**
   * The most used category holds the highest count, and the earliest entry
   * wins a tie; a record with no positive count answers `Nenhuma` with 0.
   */
  lemma {:induction false} MostUsedIsFirstMaximum(counts: seq<Entry>)
    ensures forall j :: 0 <= j < |counts| ==> counts[j].total <= MostUsed(counts).total
    ensures MostUsed(counts).total == 0 ==> MostUsed(counts) == Entry(NoCategory, 0)
    ensures MostUsed(counts).total > 0 ==>
      exists k :: 0 <= k < |counts| && counts[k] == MostUsed(counts) && forall j :: 0 <= j < k ==> counts[j].total < counts[k].total
  {
    if counts != [] {
      var last := |counts| - 1;
      var p := counts[..last];
      MostUsedIsFirstMaximum(p);
      assert forall j :: 0 <= j < last ==> p[j] == counts[j];
      var best := MostUsed(p);
      if counts[last].total > best.total {
        assert forall j :: 0 <= j < last ==> counts[j].total < counts[last].total;
      } else if best.total > 0 {
        var k :| 0 <= k < |p| && p[k] == best && forall j :: 0 <= j < k ==> p[j].total < p[k].total;
        assert counts[k] == best;
      }
    }
  }

  /** Every count the loop keeps is at least one. */
  lemma {:induction false} CountsPositive(cs: seq<Option<Entry>>)
    requires forall i :: 0 <= i < |cs| && cs[i].Some? ==> cs[i].value.total == 1
    ensures forall i :: 0 <= i < |GroupEntries(cs)| ==> GroupEntries(cs)[i].total >= 1
  {
    if cs != [] {
      var last := |cs| - 1;
      var p := cs[..last];
      assert forall i :: 0 <= i < last ==> p[i] == cs[i];
      CountsPositive(p);
      match cs[last]
      case None =>
      case Some(e) =>
        var g := GroupEntries(p);
        var k := IndexOf(g, e.name);
        if k >= 0 {
          assert GroupEntries(cs) == g[k := Entry(e.name, g[k].total + 1)];
        } else {
          assert GroupEntries(cs) == g + [Entry(e.name, 1)];
        }
    }
  }

  /**
   * The counts hold, per category, the number of expenses that carry it; the
   * most used category is `Nenhuma` when no expense has a category, and
   * otherwise the first category reaching the highest count.
   */
  lemma MostUsedCategorySpec(txs: seq<Transaction>, salary: int)
    ensures DistinctNames(CategoryCounts(txs))
    ensures forall n :: TotalOf(CategoryCounts(txs), n) == CategorySum(CountContributions(txs), n)
    ensures (forall i :: 0 <= i < |txs| ==> Counted(txs[i]).None?) ==> Report(txs, salary).mostUsedCategory == NoCategory
    ensures (exists i :: 0 <= i < |txs| && Counted(txs[i]).Some?) ==>
      var counts := CategoryCounts(txs);
      exists k :: 0 <= k < |counts| && counts[k].name == Report(txs, salary).mostUsedCategory
        && (forall j :: 0 <= j < |counts| ==> counts[j].total <= counts[k].total)
        && (forall j :: 0 <= j < k ==> counts[j].total < counts[k].total)
  {
    GroupTotalsSpec(CountContributions(txs));
    MostUsedOfCounts(txs);
    assert Report(txs, salary).mostUsedCategory == MostUsed(CategoryCounts(txs)).name;
  }

  /** The part of `MostUsedCategorySpec` about the winner of the counts themselves. */
  lemma MostUsedOfCounts(txs: seq<Transaction>)
    ensures (forall i :: 0 <= i < |txs| ==> Counted(txs[i]).None?) ==> MostUsed(CategoryCounts(txs)).name == NoCategory
    ensures (exists i :: 0 <= i < |txs| && Counted(txs[i]).Some?) ==>
      var counts := CategoryCounts(txs);
      exists k :: 0 <= k < |counts| && counts[k].name == MostUsed(counts).name
        && (forall j :: 0 <= j < |counts| ==> counts[j].total <= counts[k].total)
        && (forall j :: 0 <= j < k ==> counts[j].total < counts[k].total)
  {
    var cs := CountContributions(txs);
    var counts := CategoryCounts(txs);
    GroupTotalsSpec(cs);
    CountsPositive(cs);
    MostUsedIsFirstMaximum(counts);
    if exists i :: 0 <= i < |txs| && Counted(txs[i]).Some? {
      var i :| 0 <= i < |txs| && Counted(txs[i]).Some?;
      assert AddsTo(cs[i], cs[i].value.name);
      assert Has(counts, cs[i].value.name);
      assert counts[0].total >= 1;
    }
    if counts != [] {
      CountedWitness(txs);
    }
  }

  /** A key of the counts comes from some expense that carries a category. */
  lemma CountedWitness(txs: seq<Transaction>)
    requires CategoryCounts(txs) != []
    ensures exists i :: 0 <= i < |txs| && Counted(txs[i]).Some?
  {
    var cs := CountContributions(txs);
    KeysContribute(cs);
    var i :| 0 <= i < |cs| && AddsTo(cs[i], CategoryCounts(txs)[0].name);
    assert Counted(txs[i]).Some?;
  }

  /** The expense sum of a list without expenses is 0. */
  lemma {:induction false} ExpensesWithoutExpenses(rs: seq<Reading>)
    requires forall i :: 0 <= i < |rs| ==> rs[i].kind == Positive
    ensures Expenses(rs) == Some(0)
  {
    if rs != [] {
      var p := rs[..|rs| - 1];
      assert forall i :: 0 <= i < |p| ==> p[i] == rs[i];
      ExpensesWithoutExpenses(p);
    }
  }

  /** The filter keeps exactly the expenses. */
  lemma {:induction false} NegativesCount(txs: seq<Transaction>)
    ensures (forall i :: 0 <= i < |txs| ==> txs[i].kind == Positive) ==> Negatives(txs) == []
    ensures (exists i :: 0 <= i < |txs| && txs[i].kind == Negative) ==> |Negatives(txs)| > 0
  {
    if txs != [] {
      var p := txs[..|txs| - 1];
      assert forall i :: 0 <= i < |p| ==> p[i] == txs[i];
      NegativesCount(p);
      if exists i :: 0 <= i < |txs| && txs[i].kind == Negative {
        var i :| 0 <= i < |txs| && txs[i].kind == Negative;
        if i < |p| {
          assert p[i] == txs[i];
        }
      }
    }
  }

  /** A non-empty list with no expense divides 0 by 0: the average shows `R$ NaN`. */
  lemma AverageWithoutExpenses(txs: seq<Transaction>, salary: int)
    requires txs != [] && forall i :: 0 <= i < |txs| ==> txs[i].kind == Positive
    ensures Report(txs, salary).averageTransaction == Quotient(Some(0), 0)
    ensures AverageText(Report(txs, salary).averageTransaction) == "R$ NaN"
  {
    var rs := Readings(txs);
    assert forall i :: 0 <= i < |rs| ==> rs[i].kind == txs[i].kind;
    ExpensesWithoutExpenses(rs);
    NegativesCount(txs);
    assert Report(txs, salary).averageTransaction == Quotient(Expenses(rs), |Negatives(txs)|);
    ZeroByZeroText();
  }

  /** `0 / 0` renders as `R$ NaN`. */
  lemma ZeroByZeroText()
    ensures AverageText(Quotient(Some(0), 0)) == "R$ NaN"
  {
    assert QuotientToFixed2(0, 0) == "NaN";
    assert ReplaceFirst("NaN", '.', ',') == "NaN";
  }

  /**
   * With at least one expense and an expense sum that parses, the average is
   * the sum divided by the number of expenses, rounded to the cent, and it
   * reads back to that rounded amount.
   */
  lemma AverageOfExpenses(txs: seq<Transaction>, salary: int)
    requires |Negatives(txs)| > 0 && Expenses(Readings(txs)).Some?
    ensures var total := Expenses(Readings(txs)).value;
      total >= 0
      && AverageText(Report(txs, salary).averageTransaction) == FormatCurrency(RoundHalfUp(total, |Negatives(txs)|))
      && ParseCurrency(AverageText(Report(txs, salary).averageTransaction)) == Some(RoundHalfUp(total, |Negatives(txs)|))
  {
    var total := Expenses(Readings(txs)).value;
    var d := |Negatives(txs)|;
    ExpensesNonNegative(Readings(txs));
    var m := RoundHalfUp(total, d);
    assert QuotientToFixed2(total, d) == Fixed2(false, m);
    FixedToComma(false, m);
    ParseFormatCurrency(m);
  }

  /** The insight warns about high spending exactly when both amounts are numbers and the expenses pass 80% of the income. */
  lemma HighSpendingThreshold(txs: seq<Transaction>, salary: int)
    requires salary > 0 && Expenses(Readings(txs)).Some?
    ensures SpendingInsight(Report(txs, salary)) == HighSpendingText
      <==> 5 * Expenses(Readings(txs)).value > 4 * salary
    ensures ShowsSavingsRate(Report(txs, salary))
  {
  }

  /** The balance the report shows is the available amount of the dashboard. */
  lemma BalanceIsAvailable(txs: seq<Transaction>, salary: int)
    ensures FormatCurrencyOrNaN(Report(txs, salary).balance) == Summary(txs, salary)[0].amount
  {
  }
}
