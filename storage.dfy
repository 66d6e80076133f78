/**
 * The transaction store: the list kept under the transactions key of the
 * device's key-value storage, and the operations that rebuild and overwrite
 * it. Serialisation is left out: the key holds the list itself, or nothing.
 */
module Storage {
  import opened Wrappers
  import opened Text
  import opened JsNumber
  import opened Types
  import opened Currency
  import opened Aggregation

  /** `{ ...transaction, id: Date.now().toString(), timestamp: Date.now() }` for the clock reading `now`. */
  function Stamped(tx: Transaction, now: nat): Transaction {
    tx.(id := Some(NatToString(now)), timestamp := Some(now))
  }

  /** `transactions.map(t => t.id === updated.id ? updated : t)`; two missing ids are equal too. */
  function Replace(txs: seq<Transaction>, updated: Transaction): (r: seq<Transaction>)
    ensures |r| == |txs|
  {
    seq(|txs|, i requires 0 <= i < |txs| => if txs[i].id == updated.id then updated else txs[i])
  }

  /** `transactions.filter(t => t.id !== id)`: a transaction without id is always kept. */
  function Remove(txs: seq<Transaction>, id: string): (r: seq<Transaction>)
    ensures |r| <= |txs|
    ensures forall t :: t in r <==> t in txs && t.id != Some(id)
  {
    if txs == [] then []
    else (if txs[0].id != Some(id) then [txs[0]] else []) + Remove(txs[1..], id)
  }

  /** `transactions.filter(t => t.category === category)`, expenses and incomes alike. */
  function ByCategory(txs: seq<Transaction>, category: string): (r: seq<Transaction>)
    ensures |r| <= |txs|
    ensures forall t :: t in r <==> t in txs && t.category == Some(category)
  {
    if txs == [] then []
    else (if txs[0].category == Some(category) then [txs[0]] else []) + ByCategory(txs[1..], category)
  }

  class TransactionStore {
    /** The content of the transactions key; `None` when nothing was ever stored or the data was cleared. */
    var stored: Option<seq<Transaction>>

    constructor()
      ensures stored == None
    {
      stored := None;
    }

    /** `data ? JSON.parse(data) : []`. */
    function Contents(): seq<Transaction>
      reads this
    {
      match stored
      case None => []
      case Some(txs) => txs
    }

    /** `getTransactions`: the stored list, or the empty list when nothing is stored. */
    method GetTransactions() returns (txs: seq<Transaction>)
      ensures txs == Contents()
      ensures stored.None? ==> txs == []
    {
      txs := Contents();
    }

    /** `saveTransaction`: stamps the record, stores it in front of the others and returns it. */
    method SaveTransaction(tx: Transaction, now: nat) returns (saved: Transaction)
      modifies this
      ensures saved == Stamped(tx, now)
      ensures stored == Some([saved] + old(Contents()))
    {
      var txs := GetTransactions();
      saved := Stamped(tx, now);
      stored := Some([saved] + txs);
    }

    /** `updateTransaction`: every record with the same id is replaced. */
    method UpdateTransaction(updated: Transaction)
      modifies this
      ensures stored == Some(Replace(old(Contents()), updated))
    {
      var txs := GetTransactions();
      stored := Some(Replace(txs, updated));
    }

    /** `deleteTransaction`: every record with that id is dropped. */
    method DeleteTransaction(id: string)
      modifies this
      ensures stored == Some(Remove(old(Contents()), id))
    {
      var txs := GetTransactions();
      stored := Some(Remove(txs, id));
    }

    /** `getTransactionsByCategory`. */
    method GetTransactionsByCategory(category: string) returns (txs: seq<Transaction>)
      ensures txs == ByCategory(Contents(), category)
    {
      var all := GetTransactions();
      txs := ByCategory(all, category);
    }

    /**
     * `getCategoryTotals`: the per-category record of expense magnitudes. This
     * loop tests whether the key already holds a truthy value, where the hook's
     * loop adds to `|| 0`; both build the same record.
     */
    method GetCategoryTotals() returns (totals: seq<Entry>)
      ensures totals == GroupTotals(Contents())
    {
      var txs := GetTransactions();
      totals := [];
      var i := 0;
      while i < |txs|
        invariant 0 <= i <= |txs|
        invariant totals == GroupTotals(txs[..i])
      {
        var t := txs[i];
        GroupStep(txs, i);
        if t.category.Some? && t.category.value != "" && t.kind == Negative {
          var category := t.category.value;
          var amount := ParseAmount(t.value);
          if amount.Some? {
            SomeContribution(t, amount.value);
            var magnitude := Abs(amount.value);
            if TotalOf(totals, category) != 0 {
              BumpTruthy(totals, category, magnitude);
              totals := Set(totals, category, TotalOf(totals, category) + magnitude);
            } else {
              BumpFalsy(totals, category, magnitude);
              totals := Set(totals, category, magnitude);
            }
          } else {
            NoContribution(t);
          }
        } else {
          NoContribution(t);
        }
        i := i + 1;
      }
      assert txs[..|txs|] == txs;
    }

    /** `clearAllData`. */
    method ClearAllData()
      modifies this
      ensures stored == None
    {
      stored := None;
    }
  }

  // ---------------------------------------------------------------- lemmas

  /** Filtering by id distributes over concatenation, so the kept records stay in their order. */
  lemma {:induction false} RemoveAppend(a: seq<Transaction>, b: seq<Transaction>, id: string)
    ensures Remove(a + b, id) == Remove(a, id) + Remove(b, id)
  {
    if a == [] {
      assert a + b == b;
    } else {
      assert (a + b)[0] == a[0] && (a + b)[1..] == a[1..] + b;
      RemoveAppend(a[1..], b, id);
    }
  }

  /** A list none of whose records has the id is left as it is. */
  lemma {:induction false} RemoveNoMatch(txs: seq<Transaction>, id: string)
    requires forall i :: 0 <= i < |txs| ==> txs[i].id != Some(id)
    ensures Remove(txs, id) == txs
  {
    if txs != [] {
      RemoveNoMatch(txs[1..], id);
      assert txs == [txs[0]] + txs[1..];
    }
  }

  /** Deleting twice is deleting once. */
  lemma RemoveIdempotent(txs: seq<Transaction>, id: string)
    ensures Remove(Remove(txs, id), id) == Remove(txs, id)
  {
    var r := Remove(txs, id);
    forall i | 0 <= i < |r| ensures r[i].id != Some(id) {
      assert r[i] in r;
    }
    RemoveNoMatch(r, id);
  }

  /** Deleting the id a save just issued gives back the list as it was, less records that already had that id. */
  lemma RemoveUndoesSave(txs: seq<Transaction>, tx: Transaction, now: nat)
    ensures Remove([Stamped(tx, now)] + txs, NatToString(now)) == Remove(txs, NatToString(now))
  {
    RemoveAppend([Stamped(tx, now)], txs, NatToString(now));
  }

  /** Replacing keeps every record's id, so later lookups by id see the same positions. */
  lemma ReplaceKeepsIds(txs: seq<Transaction>, updated: Transaction)
    ensures forall i :: 0 <= i < |txs| ==> Replace(txs, updated)[i].id == txs[i].id
    ensures forall i :: 0 <= i < |txs| && txs[i].id != updated.id ==> Replace(txs, updated)[i] == txs[i]
  {
  }

  /** With no record carrying the updated id, an update changes nothing; and updating twice is updating once. */
  lemma ReplaceSpec(txs: seq<Transaction>, updated: Transaction)
    ensures (forall i :: 0 <= i < |txs| ==> txs[i].id != updated.id) ==> Replace(txs, updated) == txs
    ensures Replace(Replace(txs, updated), updated) == Replace(txs, updated)
  {
  }

  /** Selecting by category distributes over concatenation. */
  lemma {:induction false} ByCategoryAppend(a: seq<Transaction>, b: seq<Transaction>, category: string)
    ensures ByCategory(a + b, category) == ByCategory(a, category) + ByCategory(b, category)
  {
    if a == [] {
      assert a + b == b;
    } else {
      assert (a + b)[0] == a[0] && (a + b)[1..] == a[1..] + b;
      ByCategoryAppend(a[1..], b, category);
    }
  }
}
