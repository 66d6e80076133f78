/**
 * Per-category expense totals. A `Record<string, number>` filled in a loop
 * keeps its keys in insertion order, so it is modelled as an association list
 * of entries with distinct names; `GroupTotals` is the record the loop builds,
 * written as a fold over the transactions.
 */
module Aggregation {
  import opened Wrappers
  import opened Search
  import opened JsNumber
  import opened Types
  import opened Currency

  /** One key of the totals record and its value, in cents. */
  datatype Entry = Entry(name: string, total: nat)

  /**
   * What one transaction adds to the totals: only an expense with a non-empty
   * category and a value that parses counts, with the magnitude of that value.
   */
  function Contribution(t: Transaction): Option<Entry> {
    if t.category.None? || t.category.value == "" || t.kind != Negative then None
    else match ParseAmount(t.value)
      case None => None
      case Some(a) => Some(Entry(t.category.value, Abs(a)))
  }

  /** The filter step: what each transaction of the list contributes, position by position. */
  function Contributions(txs: seq<Transaction>): (cs: seq<Option<Entry>>)
    ensures |cs| == |txs|
  {
    if txs == [] then [] else Contributions(txs[..|txs| - 1]) + [Contribution(txs[|txs| - 1])]
  }

  /** Whether a contribution goes to category `name`. */
  predicate AddsTo(c: Option<Entry>, name: string) {
    c.Some? && c.value.name == name
  }

  /** The position of the key `name`, or -1 when the record has none. */
  function IndexOf(totals: seq<Entry>, name: string): (k: int)
    ensures -1 <= k < |totals|
    ensures 0 <= k ==> totals[k].name == name
    ensures forall j :: 0 <= j < (if k < 0 then |totals| else k) ==> totals[j].name != name
  {
    FindFirst(totals, (e: Entry) => e.name == name)
  }

  predicate Has(totals: seq<Entry>, name: string) {
    IndexOf(totals, name) >= 0
  }

  /** `totals[name] || 0`. */
  function TotalOf(totals: seq<Entry>, name: string): nat {
    var k := IndexOf(totals, name);
    if k < 0 then 0 else totals[k].total
  }

  predicate DistinctNames(totals: seq<Entry>) {
    forall i, j :: 0 <= i < j < |totals| ==> totals[i].name != totals[j].name
  }

  /** `Object.values(totals).reduce((sum, value) => sum + value, 0)`. */
  function SumTotals(totals: seq<Entry>): nat {
    if totals == [] then 0 else totals[0].total + SumTotals(totals[1..])
  }

  /** `totals[name] = value`: a new key goes last, an existing one keeps its place. */
  function Set(totals: seq<Entry>, name: string, value: nat): seq<Entry> {
    var k := IndexOf(totals, name);
    if k < 0 then totals + [Entry(name, value)]
    else totals[k := Entry(name, value)]
  }

  /** `totals[name] = (totals[name] || 0) + amount`. */
  function Bump(totals: seq<Entry>, name: string, amount: nat): seq<Entry> {
    Set(totals, name, TotalOf(totals, name) + amount)
  }

  /** One iteration of the group-sum loop: a contribution is added to its key, a non-contribution is skipped. */
  function Accumulate(acc: seq<Entry>, c: Option<Entry>): seq<Entry> {
    match c
    case None => acc
    case Some(e) => Bump(acc, e.name, e.total)
  }

  /** When the key holds a truthy value, `+=` on it is the `|| 0` update. */
  lemma BumpTruthy(totals: seq<Entry>, name: string, amount: nat)
    requires TotalOf(totals, name) != 0
    ensures Bump(totals, name, amount) == Set(totals, name, TotalOf(totals, name) + amount)
  {
  }

  /** When the key is missing or holds 0, assigning the amount is the `|| 0` update. */
  lemma BumpFalsy(totals: seq<Entry>, name: string, amount: nat)
    requires TotalOf(totals, name) == 0
    ensures Bump(totals, name, amount) == Set(totals, name, amount)
  {
  }

  /** The group-sum step: the record after adding the contributions `cs` in order. */
  function GroupEntries(cs: seq<Option<Entry>>): seq<Entry> {
    if cs == [] then [] else Accumulate(GroupEntries(cs[..|cs| - 1]), cs[|cs| - 1])
  }

  /** The totals record after the loop has visited every transaction of `txs`, in order. */
  function GroupTotals(txs: seq<Transaction>): seq<Entry> {
    GroupEntries(Contributions(txs))
  }

  // ---------------------------------------------------------------- reference sums

  /** The sum of the magnitudes the contributions `cs` add to category `name`. */
  function CategorySum(cs: seq<Option<Entry>>, name: string): nat {
    if cs == [] then 0
    else
      var c := cs[|cs| - 1];
      CategorySum(cs[..|cs| - 1], name) + (if AddsTo(c, name) then c.value.total else 0)
  }

  /** The sum of the magnitudes of all contributions. */
  function ContributingSum(cs: seq<Option<Entry>>): nat {
    if cs == [] then 0
    else
      var c := cs[|cs| - 1];
      ContributingSum(cs[..|cs| - 1]) + (if c.Some? then c.value.total else 0)
  }

  /** Some contribution of `cs` goes to category `name`. */
  predicate Contributes(cs: seq<Option<Entry>>, name: string) {
    exists i :: 0 <= i < |cs| && AddsTo(cs[i], name)
  }

  /** The position of the first contribution to `name`. */
  function FirstContribution(cs: seq<Option<Entry>>, name: string): (i: nat)
    requires Contributes(cs, name)
    ensures i < |cs| && AddsTo(cs[i], name)
    ensures forall j :: 0 <= j < i ==> !AddsTo(cs[j], name)
  {
    var last := |cs| - 1;
    if Contributes(cs[..last], name) then
      var i := FirstContribution(cs[..last], name);
      assert forall j :: 0 <= j < i ==> cs[j] == cs[..last][j];
      i
    else
      assert forall j :: 0 <= j < last ==> cs[j] == cs[..last][j];
      last
  }

  // ---------------------------------------------------------------- record lemmas

  /** The cases in which a transaction contributes nothing. */
  lemma NoContribution(t: Transaction)
    requires t.category.None? || t.category.value == "" || t.kind != Negative || ParseAmount(t.value).None?
    ensures Contribution(t) == None
  {
  }

  /** An expense with a category and a parseable value contributes its magnitude. */
  lemma SomeContribution(t: Transaction, amount: int)
    requires t.category.Some? && t.category.value != "" && t.kind == Negative
    requires ParseAmount(t.value) == Some(amount)
    ensures Contribution(t) == Some(Entry(t.category.value, Abs(amount)))
  {
  }

  /** One more transaction adds its contribution to the record, as one loop iteration does. */
  lemma GroupStep(txs: seq<Transaction>, i: nat)
    requires i < |txs|
    ensures Contributions(txs[..i + 1]) == Contributions(txs[..i]) + [Contribution(txs[i])]
    ensures GroupTotals(txs[..i + 1]) == Accumulate(GroupTotals(txs[..i]), Contribution(txs[i]))
  {
    assert txs[..i + 1][..i] == txs[..i];
    var cs := Contributions(txs[..i]) + [Contribution(txs[i])];
    assert cs[..|cs| - 1] == Contributions(txs[..i]);
  }

  /** An iteration that reads an expense with a category and a parseable value bumps its category. */
  lemma GroupStepBump(txs: seq<Transaction>, i: nat, next: nat, amount: int)
    requires i < |txs| && next == i + 1
    requires txs[i].category.Some? && txs[i].category.value != "" && txs[i].kind == Negative
    requires ParseAmount(txs[i].value) == Some(amount)
    ensures GroupTotals(txs[..next]) == Bump(GroupTotals(txs[..i]), txs[i].category.value, Abs(amount))
  {
    GroupStep(txs, i);
    SomeContribution(txs[i], amount);
  }

  /** An iteration that reads any other record leaves the totals as they are. */
  lemma GroupStepSkip(txs: seq<Transaction>, i: nat, next: nat)
    requires i < |txs| && next == i + 1
    requires txs[i].category.None? || txs[i].category.value == "" || txs[i].kind != Negative || ParseAmount(txs[i].value).None?
    ensures GroupTotals(txs[..next]) == GroupTotals(txs[..i])
  {
    GroupStep(txs, i);
    NoContribution(txs[i]);
  }

  /** The first-index characterisation determines `IndexOf`. */
  lemma IndexOfUnique(totals: seq<Entry>, name: string, k: int)
    requires -1 <= k < |totals|
    requires 0 <= k ==> totals[k].name == name
    requires forall j :: 0 <= j < (if k < 0 then |totals| else k) ==> totals[j].name != name
    ensures IndexOf(totals, name) == k
  {
  }

  /** With distinct names, each entry is found at its own position. */
  lemma IndexOfDistinct(totals: seq<Entry>, i: nat)
    requires DistinctNames(totals) && i < |totals|
    ensures IndexOf(totals, totals[i].name) == i
  {
    IndexOfUnique(totals, totals[i].name, i);
  }

  lemma {:induction false} SumAppend(totals: seq<Entry>, e: Entry)
    ensures SumTotals(totals + [e]) == SumTotals(totals) + e.total
  {
    if totals != [] {
      assert (totals + [e])[1..] == totals[1..] + [e];
      SumAppend(totals[1..], e);
    }
  }

  lemma {:induction false} SumUpdate(totals: seq<Entry>, k: nat, e: Entry)
    requires k < |totals|
    ensures SumTotals(totals[k := e]) + totals[k].total == SumTotals(totals) + e.total
  {
    if k > 0 {
      assert totals[k := e][1..] == totals[1..][k - 1 := e];
      SumUpdate(totals[1..], k - 1, e);
    }
  }

  /** One step of the loop keeps the keys distinct, adds `name` and adds `amount` to its total only. */
  lemma BumpSpec(totals: seq<Entry>, name: string, amount: nat)
    requires DistinctNames(totals)
    ensures DistinctNames(Bump(totals, name, amount))
    ensures forall n :: Has(Bump(totals, name, amount), n) <==> Has(totals, n) || n == name
    ensures forall n :: TotalOf(Bump(totals, name, amount), n) == TotalOf(totals, n) + (if n == name then amount else 0)
    ensures SumTotals(Bump(totals, name, amount)) == SumTotals(totals) + amount
  {
    if IndexOf(totals, name) < 0 {
      BumpNewKey(totals, name, amount);
    } else {
      BumpOldKey(totals, name, amount);
    }
  }

  /** A new key goes last; every other key keeps its position. */
  lemma BumpNewKey(totals: seq<Entry>, name: string, amount: nat)
    requires DistinctNames(totals) && IndexOf(totals, name) < 0
    ensures Bump(totals, name, amount) == totals + [Entry(name, amount)]
    ensures forall n :: IndexOf(Bump(totals, name, amount), n) == (if n == name then |totals| else IndexOf(totals, n))
    ensures SumTotals(Bump(totals, name, amount)) == SumTotals(totals) + amount
  {
    var r := Bump(totals, name, amount);
    SumAppend(totals, Entry(name, amount));
    forall n ensures IndexOf(r, n) == (if n == name then |totals| else IndexOf(totals, n)) {
      if n == name {
        IndexOfUnique(r, n, |totals|);
      } else {
        IndexOfUnique(r, n, IndexOf(totals, n));
      }
    }
  }

  /** An existing key is updated in place; every key keeps its position. */
  lemma BumpOldKey(totals: seq<Entry>, name: string, amount: nat)
    requires DistinctNames(totals) && IndexOf(totals, name) >= 0
    ensures Bump(totals, name, amount) == totals[IndexOf(totals, name) := Entry(name, totals[IndexOf(totals, name)].total + amount)]
    ensures forall n :: IndexOf(Bump(totals, name, amount), n) == IndexOf(totals, n)
    ensures SumTotals(Bump(totals, name, amount)) == SumTotals(totals) + amount
  {
    var k := IndexOf(totals, name);
    var r := Bump(totals, name, amount);
    SumUpdate(totals, k, Entry(name, totals[k].total + amount));
    forall n ensures IndexOf(r, n) == IndexOf(totals, n) {
      IndexOfUnique(r, n, IndexOf(totals, n));
    }
  }

  /** `Contributes` read from the right, the way `GroupTotals` visits the list. */
  lemma ContributesLast(cs: seq<Option<Entry>>, name: string)
    requires cs != []
    ensures Contributes(cs, name) <==> Contributes(cs[..|cs| - 1], name) || AddsTo(cs[|cs| - 1], name)
  {
    var p := cs[..|cs| - 1];
    if Contributes(p, name) {
      var i :| 0 <= i < |p| && AddsTo(p[i], name);
      assert cs[i] == p[i];
    }
    if Contributes(cs, name) && !AddsTo(cs[|cs| - 1], name) {
      var i :| 0 <= i < |cs| && AddsTo(cs[i], name);
      assert p[i] == cs[i];
    }
  }

  /**
   * The loop's record has one key per category some transaction adds to, each
   * key holding exactly the sum that category receives, and all totals together
   * add up to the sum over every contributing transaction.
   */
  lemma {:induction false} GroupTotalsSpec(cs: seq<Option<Entry>>)
    ensures DistinctNames(GroupEntries(cs))
    ensures forall n :: Has(GroupEntries(cs), n) <==> Contributes(cs, n)
    ensures forall n :: TotalOf(GroupEntries(cs), n) == CategorySum(cs, n)
    ensures SumTotals(GroupEntries(cs)) == ContributingSum(cs)
  {
    if cs != [] {
      var p := cs[..|cs| - 1];
      GroupTotalsSpec(p);
      forall n ensures Contributes(cs, n) <==> Contributes(p, n) || AddsTo(cs[|cs| - 1], n) {
        ContributesLast(cs, n);
      }
      match cs[|cs| - 1]
      case None =>
      case Some(e) =>
        BumpSpec(GroupEntries(p), e.name, e.total);
    }
  }

  /** Every key of the record is found, so it names a category some contribution goes to. */
  lemma KeysContribute(cs: seq<Option<Entry>>)
    ensures forall i :: 0 <= i < |GroupEntries(cs)| ==> Contributes(cs, GroupEntries(cs)[i].name)
  {
    GroupTotalsSpec(cs);
    var g := GroupEntries(cs);
    forall i | 0 <= i < |g| ensures Has(g, g[i].name) {
    }
  }

  /** A category already reached in a prefix keeps its first contribution when the list grows. */
  lemma FirstContributionExtend(cs: seq<Option<Entry>>, name: string)
    requires cs != [] && Contributes(cs[..|cs| - 1], name)
    ensures Contributes(cs, name) && FirstContribution(cs, name) == FirstContribution(cs[..|cs| - 1], name)
  {
    ContributesLast(cs, name);
  }

  /**
   * Keys appear in the order of their first contribution, so the index a key
   * gets when the record is enumerated is first-encounter order.
   */
  lemma {:induction false} GroupTotalsOrder(cs: seq<Option<Entry>>)
    ensures forall i :: 0 <= i < |GroupEntries(cs)| ==> Contributes(cs, GroupEntries(cs)[i].name)
    ensures forall i, j :: 0 <= i < j < |GroupEntries(cs)| ==>
      FirstContribution(cs, GroupEntries(cs)[i].name) < FirstContribution(cs, GroupEntries(cs)[j].name)
  {
    KeysContribute(cs);
    if cs != [] {
      var last := |cs| - 1;
      var p := cs[..last];
      var g, gp := GroupEntries(cs), GroupEntries(p);
      GroupTotalsOrder(p);
      forall i | 0 <= i < |gp| ensures Contributes(cs, gp[i].name) && FirstContribution(cs, gp[i].name) == FirstContribution(p, gp[i].name) {
        FirstContributionExtend(cs, gp[i].name);
      }
      match cs[last]
      case None =>
      case Some(e) =>
        if IndexOf(gp, e.name) < 0 {
          assert g == gp + [Entry(e.name, e.total)];
          GroupTotalsSpec(p);
          ContributesLast(cs, e.name);
          assert FirstContribution(cs, e.name) == last;
        } else {
          assert |g| == |gp| && forall i :: 0 <= i < |g| ==> g[i].name == gp[i].name;
        }
    }
  }

  /** What a list contributes, read from the front: the first transaction's contribution comes first. */
  lemma {:induction false} ContributionsCons(t: Transaction, txs: seq<Transaction>)
    ensures Contributions([t] + txs) == [Contribution(t)] + Contributions(txs)
  {
    if txs != [] {
      var s, last := [t] + txs, |txs| - 1;
      var x := Contribution(txs[last]);
      assert s[..|txs|] == [t] + txs[..last] && s[|txs|] == txs[last];
      ContributionsCons(t, txs[..last]);
      assert Contributions(s) == [Contribution(t)] + Contributions(txs[..last]) + [x];
      assert Contributions(txs) == Contributions(txs[..last]) + [x];
    }
  }

  /** A leading transaction that contributes nothing leaves the record as it is. */
  lemma {:induction false} GroupEntriesSkip(cs: seq<Option<Entry>>)
    ensures GroupEntries([None] + cs) == GroupEntries(cs)
  {
    if cs != [] {
      var last := |cs| - 1;
      assert ([None] + cs)[..|cs|] == [None] + cs[..last];
      GroupEntriesSkip(cs[..last]);
    }
  }

  /** Position `i` of the contributions is what the `i`-th transaction contributes. */
  lemma {:induction false} ContributionsAt(txs: seq<Transaction>, i: nat)
    requires i < |txs|
    ensures Contributions(txs)[i] == Contribution(txs[i])
  {
    var last := |txs| - 1;
    var init := Contributions(txs[..last]);
    var x := Contribution(txs[last]);
    assert Contributions(txs) == init + [x];
    if i < last {
      assert txs[..last][i] == txs[i];
      ContributionsAt(txs[..last], i);
      assert (init + [x])[i] == init[i];
    } else {
      assert (init + [x])[i] == x;
    }
  }
}
