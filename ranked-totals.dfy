/**
 * The list of category totals the dashboard shows: the totals record mapped to
 * `CategoryTotal`s (index as id, formatted amount, rounded percentage of the
 * grand total, colour and icon), then sorted by total, largest first, with
 * `Array.prototype.sort`, which is stable.
 */
module RankedTotals {
  import opened Wrappers
  import opened Text
  import opened JsNumber
  import opened Types
  import opened Currency
  import opened Aggregation
  import CategoryIcons

  /**
   * `grand > 0 ? Math.round((total / grand) * 100) : 0` on exact values: the
   * percentage rounded to the nearest integer, halves up.
   */
  function Percent(total: nat, grand: nat): (p: nat)
    ensures grand > 0 ==> p * (2 * grand) <= 200 * total + grand < (p + 1) * (2 * grand)
    ensures grand == 0 ==> p == 0
  {
    if grand > 0 then RoundHalfUp(100 * total, grand) else 0
  }

  /** One key of the record, at enumeration position `index`, as the dashboard shows it. */
  function ToCategoryTotal(e: Entry, index: nat, grand: nat): CategoryTotal {
    CategoryTotal(
      NatToString(index), e.name, e.total, FormatCurrency(e.total), Percent(e.total, grand),
      CategoryIcons.ColorFor(e.name), CategoryIcons.IconFor(e.name))
  }

  /** `Object.entries(totals).map(([category, total], index) => ...)` with the grand total of the record. */
  function FormatTotals(totals: seq<Entry>): (r: seq<CategoryTotal>)
    ensures |r| == |totals|
  {
    var grand := SumTotals(totals);
    seq(|totals|, i requires 0 <= i < |totals| => ToCategoryTotal(totals[i], i, grand))
  }

  // ---------------------------------------------------------------- stable sort

  predicate SortedDesc(s: seq<CategoryTotal>) {
    forall i, j :: 0 <= i < j < |s| ==> s[i].total >= s[j].total
  }

  /** Places `x` before the first element whose total is not larger, so it precedes the equal ones. */
  function InsertDesc(x: CategoryTotal, s: seq<CategoryTotal>): (r: seq<CategoryTotal>)
    ensures multiset(r) == multiset(s) + multiset{x}
  {
    if s == [] || s[0].total <= x.total then [x] + s
    else
      assert s == [s[0]] + s[1..];
      [s[0]] + InsertDesc(x, s[1..])
  }

  /** `sort((a, b) => b.total - a.total)`, the library's stable sort, on values. */
  function SortDesc(s: seq<CategoryTotal>): (r: seq<CategoryTotal>)
    ensures multiset(r) == multiset(s)
  {
    if s == [] then []
    else
      assert s == [s[0]] + s[1..];
      InsertDesc(s[0], SortDesc(s[1..]))
  }

  /** The elements with total `v`, in order. */
  function WithTotal(s: seq<CategoryTotal>, v: int): seq<CategoryTotal> {
    if s == [] then [] else (if s[0].total == v then [s[0]] else []) + WithTotal(s[1..], v)
  }

  /** The sum of the totals of the list. */
  function SumShown(s: seq<CategoryTotal>): int {
    if s == [] then 0 else s[0].total + SumShown(s[1..])
  }

  /** The sum of the percentages of the list. */
  function SumPercent(s: seq<CategoryTotal>): int {
    if s == [] then 0 else s[0].percentage + SumPercent(s[1..])
  }

  predicate DistinctShown(s: seq<CategoryTotal>) {
    forall i, j :: 0 <= i < j < |s| ==> s[i].name != s[j].name
  }

  /** The list the dashboard shows for a totals record. */
  function RankTotals(totals: seq<Entry>): seq<CategoryTotal> {
    SortDesc(FormatTotals(totals))
  }

  /** `calculateCategoryTotals(transactions)`: filter, group-sum, map, sort. */
  function CategoryTotals(txs: seq<Transaction>): seq<CategoryTotal> {
    RankTotals(GroupTotals(txs))
  }

  // ---------------------------------------------------------------- percentage lemmas

  /** A part of the grand total gets a percentage between 0 and 100. */
  lemma PercentBound(total: nat, grand: nat)
    requires total <= grand
    ensures Percent(total, grand) <= 100
  {
    var p := Percent(total, grand);
    if grand > 0 {
      assert (2 * p) * grand <= 201 * grand;
      MulCancel(2 * p, 201, grand);
    }
  }

  lemma MulCancel(a: int, b: int, g: nat)
    requires g > 0 && a * g <= b * g
    ensures a <= b
  {
    MulPositive(a - b, g);
    assert (a - b) * g == a * g - b * g;
  }

  /** A positive number times a positive number is positive. */
  lemma {:induction false} MulPositive(d: int, g: nat)
    requires g > 0
    ensures d > 0 ==> d * g > 0
  {
    if g > 1 {
      MulPositive(d, g - 1);
      assert d * g == d * (g - 1) + d;
    }
  }

  /** Each key's total is at most the grand total. */
  lemma {:induction false} TotalBelowSum(totals: seq<Entry>, i: nat)
    requires i < |totals|
    ensures totals[i].total <= SumTotals(totals)
  {
    if i > 0 {
      TotalBelowSum(totals[1..], i - 1);
    }
  }

  /**
   * The mapped list keeps the record's keys and totals in enumeration order,
   * numbers them `"0"`, `"1"`, ... (distinct ids), gives each a percentage in
   * 0..100 and a formatted amount that reads back as the total.
   */
  lemma FormatTotalsSpec(totals: seq<Entry>)
    ensures forall i :: 0 <= i < |totals| ==>
      var c := FormatTotals(totals)[i];
      c.name == totals[i].name && c.total == totals[i].total && c.id == NatToString(i)
      && c.percentage <= 100 && ParseCurrency(c.formattedTotal) == Some(c.total as int)
    ensures forall i, j :: 0 <= i < j < |totals| ==> FormatTotals(totals)[i].id != FormatTotals(totals)[j].id
  {
    var r := FormatTotals(totals);
    forall i | 0 <= i < |totals| ensures r[i].percentage <= 100 && ParseCurrency(r[i].formattedTotal) == Some(r[i].total as int) {
      TotalBelowSum(totals, i);
      PercentBound(totals[i].total, SumTotals(totals));
      ParseFormatCurrency(totals[i].total);
    }
    forall i, j | 0 <= i < j < |totals| ensures r[i].id != r[j].id {
      if r[i].id == r[j].id {
        NatToStringInjective(i, j);
      }
    }
  }

  // ---------------------------------------------------------------- sort lemmas

  lemma {:induction false} InsertDescSorted(x: CategoryTotal, s: seq<CategoryTotal>)
    requires SortedDesc(s)
    ensures SortedDesc(InsertDesc(x, s))
  {
    if !(s == [] || s[0].total <= x.total) {
      var rest := InsertDesc(x, s[1..]);
      InsertDescSorted(x, s[1..]);
      forall k | 0 <= k < |rest| ensures rest[k].total <= s[0].total {
        assert rest[k] in multiset(rest);
        if rest[k] != x {
          assert rest[k] in multiset(s[1..]);
          var m :| 0 <= m < |s[1..]| && s[1..][m] == rest[k];
          assert s[m + 1] == rest[k];
        }
      }
    }
  }

  /** The sorted list is in descending order of total and is a permutation of its input. */
  lemma {:induction false} SortDescSorted(s: seq<CategoryTotal>)
    ensures SortedDesc(SortDesc(s))
    ensures |SortDesc(s)| == |s|
  {
    if s != [] {
      SortDescSorted(s[1..]);
      InsertDescSorted(s[0], SortDesc(s[1..]));
    }
    assert |multiset(SortDesc(s))| == |multiset(s)|;
  }

  lemma {:induction false} InsertDescStable(x: CategoryTotal, s: seq<CategoryTotal>, v: int)
    ensures WithTotal(InsertDesc(x, s), v) == (if x.total == v then [x] else []) + WithTotal(s, v)
  {
    if s == [] || s[0].total <= x.total {
      assert ([x] + s)[1..] == s;
    } else {
      var rest := InsertDesc(x, s[1..]);
      InsertDescStable(x, s[1..], v);
      assert ([s[0]] + rest)[1..] == rest;
    }
  }

  /** Stability: the elements sharing a total keep their relative order. */
  lemma {:induction false} SortDescStable(s: seq<CategoryTotal>, v: int)
    ensures WithTotal(SortDesc(s), v) == WithTotal(s, v)
  {
    if s != [] {
      SortDescStable(s[1..], v);
      InsertDescStable(s[0], SortDesc(s[1..]), v);
    }
  }

  lemma {:induction false} InsertDescSum(x: CategoryTotal, s: seq<CategoryTotal>)
    ensures SumShown(InsertDesc(x, s)) == x.total + SumShown(s)
  {
    if s == [] || s[0].total <= x.total {
      assert ([x] + s)[1..] == s;
    } else {
      InsertDescSum(x, s[1..]);
      assert ([s[0]] + InsertDesc(x, s[1..]))[1..] == InsertDesc(x, s[1..]);
    }
  }

  lemma {:induction false} SortDescSum(s: seq<CategoryTotal>)
    ensures SumShown(SortDesc(s)) == SumShown(s)
  {
    if s != [] {
      SortDescSum(s[1..]);
      InsertDescSum(s[0], SortDesc(s[1..]));
    }
  }

  lemma {:induction false} InsertDescDistinct(x: CategoryTotal, s: seq<CategoryTotal>)
    requires DistinctShown(s)
    requires forall k :: 0 <= k < |s| ==> s[k].name != x.name
    ensures DistinctShown(InsertDesc(x, s))
  {
    if !(s == [] || s[0].total <= x.total) {
      var rest := InsertDesc(x, s[1..]);
      InsertDescDistinct(x, s[1..]);
      forall k | 0 <= k < |rest| ensures rest[k].name != s[0].name {
        assert rest[k] in multiset(rest);
        if rest[k] != x {
          assert rest[k] in multiset(s[1..]);
          var m :| 0 <= m < |s[1..]| && s[1..][m] == rest[k];
          assert s[m + 1] == rest[k];
        }
      }
    }
  }

  /** Sorting never makes two entries share a name. */
  lemma {:induction false} SortDescDistinct(s: seq<CategoryTotal>)
    requires DistinctShown(s)
    ensures DistinctShown(SortDesc(s))
  {
    if s != [] {
      var rest := SortDesc(s[1..]);
      SortDescDistinct(s[1..]);
      forall k | 0 <= k < |rest| ensures rest[k].name != s[0].name {
        assert rest[k] in multiset(rest);
        var m :| 0 <= m < |s[1..]| && s[1..][m] == rest[k];
        assert s[m + 1] == rest[k];
      }
      InsertDescDistinct(s[0], rest);
    }
  }

  // ---------------------------------------------------------------- filter, group-sum, map and sort

  /** Lists with the same totals, position by position, have the same sum. */
  lemma {:induction false} SumShownTotals(s: seq<CategoryTotal>, totals: seq<Entry>)
    requires |s| == |totals| && forall i :: 0 <= i < |s| ==> s[i].total == totals[i].total
    ensures SumShown(s) == SumTotals(totals)
  {
    if s != [] {
      SumShownTotals(s[1..], totals[1..]);
    }
  }

  /** Every shown entry is a key of the record, with its total, a percentage in 0..100 and a formatted amount that reads back. */
  lemma RankTotalsMembers(g: seq<Entry>)
    requires DistinctNames(g)
    ensures forall i :: 0 <= i < |RankTotals(g)| ==>
      var c := RankTotals(g)[i];
      Has(g, c.name) && c.total == TotalOf(g, c.name)
      && c.percentage <= 100 && ParseCurrency(c.formattedTotal) == Some(c.total as int)
  {
    var r := RankTotals(g);
    forall i | 0 <= i < |r| ensures Has(g, r[i].name) && r[i].total == TotalOf(g, r[i].name)
      && r[i].percentage <= 100 && ParseCurrency(r[i].formattedTotal) == Some(r[i].total as int)
    {
      assert r[i] in multiset(FormatTotals(g));
      FormattedMember(g, r[i]);
    }
  }

  /** One formatted total, wherever the sort puts it. */
  lemma FormattedMember(g: seq<Entry>, c: CategoryTotal)
    requires DistinctNames(g)
    requires c in multiset(FormatTotals(g))
    ensures Has(g, c.name) && c.total == TotalOf(g, c.name)
    ensures c.percentage <= 100 && ParseCurrency(c.formattedTotal) == Some(c.total as int)
  {
    var f := FormatTotals(g);
    FormatTotalsSpec(g);
    var k :| 0 <= k < |f| && f[k] == c;
    IndexOfDistinct(g, k);
  }

  /** Every key of the record is shown. */
  lemma RankTotalsCovers(g: seq<Entry>)
    ensures forall n :: Has(g, n) ==> exists i :: 0 <= i < |RankTotals(g)| && RankTotals(g)[i].name == n
  {
    var f := FormatTotals(g);
    var r := RankTotals(g);
    forall n | Has(g, n) ensures exists i :: 0 <= i < |r| && r[i].name == n {
      var k := IndexOf(g, n);
      assert f[k].name == n;
      assert f[k] in multiset(r);
      var i :| 0 <= i < |r| && r[i] == f[k];
    }
  }

  /**
   * `loadCategoryTotals` over a stored record: the shown list is sorted by
   * total, largest first, shows each key of the record exactly once with its
   * total, a percentage in 0..100 and a formatted amount that reads back, and
   * its totals add up to the grand total.
   */
  lemma RankTotalsSpec(g: seq<Entry>)
    requires DistinctNames(g)
    ensures SortedDesc(RankTotals(g)) && DistinctShown(RankTotals(g))
    ensures forall i :: 0 <= i < |RankTotals(g)| ==>
      var c := RankTotals(g)[i];
      Has(g, c.name) && c.total == TotalOf(g, c.name)
      && c.percentage <= 100 && ParseCurrency(c.formattedTotal) == Some(c.total as int)
    ensures forall n :: Has(g, n) ==> exists i :: 0 <= i < |RankTotals(g)| && RankTotals(g)[i].name == n
    ensures SumShown(RankTotals(g)) == SumTotals(g)
  {
    var f := FormatTotals(g);
    FormatTotalsSpec(g);
    SortDescSorted(f);
    assert DistinctShown(f);
    SortDescDistinct(f);
    SortDescSum(f);
    SumShownTotals(f, g);
    RankTotalsMembers(g);
    RankTotalsCovers(g);
  }

  /**
   * `calculateCategoryTotals`: the shown list is sorted by total, largest
   * first; it has exactly one entry per category some transaction contributes
   * to, holding that category's sum, a percentage in 0..100 and a formatted
   * amount that reads back as the total; and the totals add up to the sum over
   * all contributing transactions.
   */
  lemma CategoryTotalsSpec(txs: seq<Transaction>)
    ensures SortedDesc(CategoryTotals(txs)) && DistinctShown(CategoryTotals(txs))
    ensures forall i :: 0 <= i < |CategoryTotals(txs)| ==>
      var c := CategoryTotals(txs)[i];
      Contributes(Contributions(txs), c.name) && c.total == CategorySum(Contributions(txs), c.name)
      && c.percentage <= 100 && ParseCurrency(c.formattedTotal) == Some(c.total as int)
    ensures forall n :: Contributes(Contributions(txs), n) ==>
      exists i :: 0 <= i < |CategoryTotals(txs)| && CategoryTotals(txs)[i].name == n
    ensures SumShown(CategoryTotals(txs)) == ContributingSum(Contributions(txs))
  {
    GroupTotalsSpec(Contributions(txs));
    RankTotalsSpec(GroupTotals(txs));
  }

  /** The sort keeps the enumeration order among categories with equal totals. */
  lemma CategoryTotalsTies(txs: seq<Transaction>, v: int)
    ensures WithTotal(CategoryTotals(txs), v) == WithTotal(FormatTotals(GroupTotals(txs)), v)
  {
    SortDescStable(FormatTotals(GroupTotals(txs)), v);
  }

  // ---------------------------------------------------------------- percentage sum

  lemma {:induction false} InsertDescPercent(x: CategoryTotal, s: seq<CategoryTotal>)
    ensures SumPercent(InsertDesc(x, s)) == x.percentage + SumPercent(s)
  {
    if s == [] || s[0].total <= x.total {
      assert ([x] + s)[1..] == s;
    } else {
      InsertDescPercent(x, s[1..]);
      assert ([s[0]] + InsertDesc(x, s[1..]))[1..] == InsertDesc(x, s[1..]);
    }
  }

  lemma {:induction false} SortDescPercent(s: seq<CategoryTotal>)
    ensures SumPercent(SortDesc(s)) == SumPercent(s)
  {
    if s != [] {
      SortDescPercent(s[1..]);
      InsertDescPercent(s[0], SortDesc(s[1..]));
    }
  }

  /** One percentage of the grand total `g` is off by at most half a point. */
  lemma PercentHalf(t: nat, g: nat)
    requires g > 0
    ensures 2 * g * Percent(t, g) <= 200 * t + g
    ensures 200 * t <= 2 * g * Percent(t, g) + g
  {
    var p := Percent(t, g);
    assert p * (2 * g) <= 200 * t + g < (p + 1) * (2 * g);
    assert (p + 1) * (2 * g) == p * (2 * g) + 2 * g;
  }

  lemma Distribute(a: int, b: int, c: int)
    ensures a * (b + c) == a * b + a * c
  {
  }

  /**
   * Each percentage of the grand total `g` is off by at most half a point, so
   * twice their sum is within `|s|` points of 200 times the shown total over `g`.
   */
  lemma {:induction false} PercentSumBounds(s: seq<CategoryTotal>, g: nat)
    requires g > 0
    requires forall i :: 0 <= i < |s| ==> s[i].total >= 0 && s[i].percentage == Percent(s[i].total, g)
    ensures 2 * g * SumPercent(s) <= 200 * SumShown(s) + |s| * g
    ensures 200 * SumShown(s) <= 2 * g * SumPercent(s) + |s| * g
  {
    if s != [] {
      var rest := s[1..];
      PercentSumBounds(rest, g);
      PercentHalf(s[0].total, g);
      AddBounds(g, s[0].percentage, s[0].total, SumPercent(rest), SumShown(rest), |rest|);
      assert |s| == |rest| + 1;
    }
  }

  /** Adding one term within half a point to a sum within `n` half points gives a sum within `n + 1`. */
  lemma AddBounds(g: int, p: int, t: int, rp: int, rt: int, n: int)
    requires 2 * g * p <= 200 * t + g && 200 * t <= 2 * g * p + g
    requires 2 * g * rp <= 200 * rt + n * g && 200 * rt <= 2 * g * rp + n * g
    ensures 2 * g * (p + rp) <= 200 * (t + rt) + (n + 1) * g
    ensures 200 * (t + rt) <= 2 * g * (p + rp) + (n + 1) * g
  {
    Distribute(2 * g, p, rp);
    assert (n + 1) * g == n * g + g;
  }

  /**
   * The shown percentages add up to 100 within half a point per category:
   * each is rounded on its own, so the sum may miss 100 by at most `|r| / 2`.
   */
  lemma RankTotalsPercentSum(g: seq<Entry>)
    requires SumTotals(g) > 0
    ensures 200 - |RankTotals(g)| <= 2 * SumPercent(RankTotals(g)) <= 200 + |RankTotals(g)|
  {
    var f := FormatTotals(g);
    var grand := SumTotals(g);
    FormattedPercent(g);
    SumShownTotals(f, g);
    PercentSumBounds(f, grand);
    DivideBounds(grand, SumPercent(f), |f|);
    SortDescPercent(f);
    SortDescSorted(f);
  }

  /** Every mapped entry carries its key's percentage of the grand total. */
  lemma FormattedPercent(g: seq<Entry>)
    ensures forall i :: 0 <= i < |FormatTotals(g)| ==>
      FormatTotals(g)[i].total >= 0 && FormatTotals(g)[i].percentage == Percent(FormatTotals(g)[i].total, SumTotals(g))
  {
  }

  /** Dividing the summed bounds by the grand total. */
  lemma DivideBounds(g: nat, sp: int, n: nat)
    requires g > 0
    requires 2 * g * sp <= 200 * g + n * g
    requires 200 * g <= 2 * g * sp + n * g
    ensures 200 - n <= 2 * sp <= 200 + n
  {
    assert (2 * sp) * g <= (200 + n) * g;
    MulCancel(2 * sp, 200 + n, g);
    assert (200 - n) * g <= (2 * sp) * g;
    MulCancel(200 - n, 2 * sp, g);
  }

  /** With some expense counted, the dashboard's percentages add up to 100 within half a point per category. */
  lemma CategoryTotalsPercentSum(txs: seq<Transaction>)
    requires ContributingSum(Contributions(txs)) > 0
    ensures 200 - |CategoryTotals(txs)| <= 2 * SumPercent(CategoryTotals(txs)) <= 200 + |CategoryTotals(txs)|
  {
    GroupTotalsSpec(Contributions(txs));
    RankTotalsPercentSum(GroupTotals(txs));
  }
}
