/**
 * The screen of one category: the expenses filed under it, how many there
 * are, their average and the width of the progress bar. The average divides
 * the total the category screen receives by the number of listed expenses.
 */
module CategoryScreen {
  import opened Wrappers
  import opened JsNumber
  import opened Types
  import opened Currency
  import opened Aggregation
  import opened Reports

  /** `transactions.filter(t => t.category === category.name && t.type === "negative")`. */
  function CategoryTransactions(txs: seq<Transaction>, name: string): (r: seq<Transaction>)
    ensures |r| <= |txs|
  {
    if txs == [] then []
    else
      var rest := CategoryTransactions(txs[..|txs| - 1], name);
      var t := txs[|txs| - 1];
      if t.category == Some(name) && t.kind == Negative then rest + [t] else rest
  }

  /** Whether a record is listed on the screen of category `name`. */
  predicate Listed(t: Transaction, name: string) {
    t.category == Some(name) && t.kind == Negative
  }

  /** What the screen shows besides the list: the count and the average. */
  datatype CategoryStats = CategoryStats(count: nat, average: Average)

  /** `totalTransactions` and `averageTransaction` for the category total `c`. */
  function Stats(txs: seq<Transaction>, c: CategoryTotal): (s: CategoryStats)
    ensures s.count == |CategoryTransactions(txs, c.name)|
    ensures s.count == 0 ==> s.average == Exact(0)
    ensures s.count > 0 ==> s.average == Quotient(Some(c.total), s.count)
  {
    var n := |CategoryTransactions(txs, c.name)|;
    CategoryStats(n, if n > 0 then Quotient(Some(c.total), n) else Exact(0))
  }

  /** `Math.min(category.percentage, 100)`. */
  function ProgressWidth(percentage: int): (w: int)
    ensures w <= 100 && w <= percentage
    ensures w == percentage || w == 100
  {
    if percentage < 100 then percentage else 100
  }

  // ---------------------------------------------------------------- lemmas

  /** The list holds exactly the listed records, in their original order, each as often as it occurs. */
  lemma {:induction false} CategoryTransactionsSpec(txs: seq<Transaction>, name: string)
    ensures forall t :: t in CategoryTransactions(txs, name) <==> t in txs && Listed(t, name)
    ensures forall t :: multiset(CategoryTransactions(txs, name))[t] == if Listed(t, name) then multiset(txs)[t] else 0
  {
    if txs != [] {
      var p := txs[..|txs| - 1];
      CategoryTransactionsSpec(p, name);
      assert txs == p + [txs[|txs| - 1]];
    }
  }

  /** Filtering a concatenation filters each part. */
  lemma {:induction false} CategoryTransactionsAppend(a: seq<Transaction>, b: seq<Transaction>, name: string)
    ensures CategoryTransactions(a + b, name) == CategoryTransactions(a, name) + CategoryTransactions(b, name)
  {
    if b == [] {
      assert a + b == a;
    } else {
      var last := |b| - 1;
      assert (a + b)[..|a + b| - 1] == a + b[..last];
      CategoryTransactionsAppend(a, b[..last], name);
    }
  }

  /**
   * An expense of the category whose value does not parse is counted on the
   * screen, although it adds nothing to the category totals the screen
   * receives.
   */
  lemma UnparsedExpenseCounted(txs: seq<Transaction>, t: Transaction, name: string)
    requires name != "" && Listed(t, name) && ParseAmount(t.value).None?
    ensures |CategoryTransactions(txs + [t], name)| == |CategoryTransactions(txs, name)| + 1
    ensures GroupTotals(txs + [t]) == GroupTotals(txs)
  {
    var all := txs + [t];
    assert all[..|all| - 1] == txs;
    NoContribution(t);
  }

  /**
   * With at least one listed expense and a non-negative total, the average
   * shown is the total divided by the count, rounded to the cent, and it reads
   * back as that amount.
   */
  lemma CategoryAverage(txs: seq<Transaction>, c: CategoryTotal)
    requires |CategoryTransactions(txs, c.name)| > 0 && c.total >= 0
    ensures var n := |CategoryTransactions(txs, c.name)|;
      AverageText(Stats(txs, c).average) == FormatCurrency(RoundHalfUp(c.total, n))
      && ParseCurrency(AverageText(Stats(txs, c).average)) == Some(RoundHalfUp(c.total, n))
  {
    var n := |CategoryTransactions(txs, c.name)|;
    var m := RoundHalfUp(c.total, n);
    assert QuotientToFixed2(c.total, n) == Fixed2(false, m);
    FixedToComma(false, m);
    ParseFormatCurrency(m);
  }
}
