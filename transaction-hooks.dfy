/**
 * The two transaction hooks. The context provider keeps the list in memory,
 * prepends a saved record and filters out a deleted one itself, and recomputes
 * the category totals from its own list; the plain hook reloads everything
 * from the store after each change and takes the totals record from the store.
 * A storage write that throws is the flag `storageFails`: the store is left as
 * it was and the hook records its error message.
 */
module TransactionHooks {
  import opened Wrappers
  import opened JsNumber
  import opened Types
  import opened Currency
  import opened Aggregation
  import opened RankedTotals
  import opened Storage

  const AddError := "Erro ao adicionar transação"
  const UpdateError := "Erro ao atualizar transação"
  const DeleteError := "Erro ao excluir transação"

  /** The context provider of `use-transactions.tsx`. */
  class TransactionsProvider {
    const store: TransactionStore
    var transactions: seq<Transaction>
    var categoryTotals: seq<CategoryTotal>
    var isLoading: bool
    var error: Option<string>

    /** The shown totals are those of the list in memory. */
    predicate Consistent()
      reads this
    {
      categoryTotals == CategoryTotals(transactions)
    }

    /** The list in memory is the stored one. */
    predicate Synced()
      reads this, store
    {
      transactions == store.Contents()
    }

    /** The initial state, before the first load. */
    constructor(store: TransactionStore)
      ensures this.store == store
      ensures transactions == [] && categoryTotals == [] && isLoading && error == None
      ensures Consistent()
    {
      this.store := store;
      transactions := [];
      categoryTotals := [];
      isLoading := true;
      error := None;
    }

    /**
     * `calculateCategoryTotals(current)`: fills the totals record with
     * `(totals[category] || 0) + Math.abs(amount)`, maps its entries and sorts
     * them by total, largest first.
     */
    method CalculateCategoryTotals(current: seq<Transaction>)
      modifies this
      ensures categoryTotals == CategoryTotals(current)
      ensures transactions == old(transactions) && isLoading == old(isLoading) && error == old(error)
    {
      var totals: seq<Entry> := [];
      var i := 0;
      while i < |current|
        invariant 0 <= i <= |current|
        invariant totals == GroupTotals(current[..i])
        invariant unchanged(this)
      {
        var t := current[i];
        var next := i + 1;
        if t.category.Some? && t.category.value != "" && t.kind == Negative {
          var category := t.category.value;
          var amount := ParseAmount(t.value);
          if amount.Some? {
            GroupStepBump(current, i, next, amount.value);
            totals := Bump(totals, category, Abs(amount.value));
          } else {
            GroupStepSkip(current, i, next);
          }
        } else {
          GroupStepSkip(current, i, next);
        }
        i := next;
      }
      assert current[..|current|] == current;
      var formatted := FormatTotals(totals);
      categoryTotals := SortDesc(formatted);
    }

    /** `loadTransactions`: reads the stored list and recomputes the totals; reading never fails. */
    method LoadTransactions()
      modifies this
      ensures transactions == store.Contents() && Synced() && Consistent()
      ensures !isLoading && error == None
    {
      isLoading := true;
      error := None;
      var data := store.GetTransactions();
      transactions := data;
      CalculateCategoryTotals(data);
      isLoading := false;
    }

    /**
     * `addTransaction`: saves the record, puts the saved record in front of the
     * list in memory and recomputes the totals. The record `saveTransaction`
     * returns is always truthy, so a successful save always answers `true`.
     */
    method AddTransaction(tx: Transaction, now: nat, storageFails: bool) returns (ok: bool)
      modifies this, store
      ensures ok == !storageFails
      ensures ok ==> store.stored == Some([Stamped(tx, now)] + old(store.Contents()))
      ensures ok ==> transactions == [Stamped(tx, now)] + old(transactions) && Consistent()
      ensures ok ==> error == old(error)
      ensures !ok ==> store.stored == old(store.stored) && error == Some(AddError)
      ensures !ok ==> transactions == old(transactions) && categoryTotals == old(categoryTotals)
      ensures isLoading == old(isLoading)
      ensures old(Synced()) ==> Synced()
    {
      if storageFails {
        error := Some(AddError);
        return false;
      }
      var saved := store.SaveTransaction(tx, now);
      var updated := [saved] + transactions;
      transactions := updated;
      CalculateCategoryTotals(updated);
      return true;
    }

    /** `updateTransaction`: replaces the stored record, then reloads everything. */
    method UpdateTransaction(updated: Transaction, storageFails: bool) returns (ok: bool)
      modifies this, store
      ensures ok == !storageFails
      ensures ok ==> store.stored == Some(Replace(old(store.Contents()), updated))
      ensures ok ==> Synced() && Consistent() && error == None && !isLoading
      ensures !ok ==> store.stored == old(store.stored) && error == Some(UpdateError)
      ensures !ok ==> transactions == old(transactions) && categoryTotals == old(categoryTotals) && isLoading == old(isLoading)
    {
      if storageFails {
        error := Some(UpdateError);
        return false;
      }
      store.UpdateTransaction(updated);
      LoadTransactions();
      return true;
    }

    /**
     * `deleteTransaction`: deletes the stored records with that id, drops them
     * from the list in memory too and recomputes the totals.
     */
    method DeleteTransaction(id: string, storageFails: bool) returns (ok: bool)
      modifies this, store
      ensures ok == !storageFails
      ensures ok ==> store.stored == Some(Remove(old(store.Contents()), id))
      ensures ok ==> transactions == Remove(old(transactions), id) && Consistent()
      ensures ok ==> error == old(error)
      ensures !ok ==> store.stored == old(store.stored) && error == Some(DeleteError)
      ensures !ok ==> transactions == old(transactions) && categoryTotals == old(categoryTotals)
      ensures isLoading == old(isLoading)
      ensures old(Synced()) ==> Synced()
    {
      if storageFails {
        error := Some(DeleteError);
        return false;
      }
      store.DeleteTransaction(id);
      var remaining := Remove(transactions, id);
      transactions := remaining;
      CalculateCategoryTotals(remaining);
      return true;
    }
  }

  /** The state of the plain hook of `use-transactions.ts`. */
  class TransactionsHook {
    const store: TransactionStore
    var transactions: seq<Transaction>
    var categoryTotals: seq<CategoryTotal>
    var isLoading: bool
    var error: Option<string>

    /** The list and the totals shown are those of the store. */
    predicate Loaded()
      reads this, store
    {
      transactions == store.Contents() && categoryTotals == CategoryTotals(store.Contents())
    }

    constructor(store: TransactionStore)
      ensures this.store == store
      ensures transactions == [] && categoryTotals == [] && isLoading && error == None
    {
      this.store := store;
      transactions := [];
      categoryTotals := [];
      isLoading := true;
      error := None;
    }

    /**
     * `loadCategoryTotals`: takes the totals record from the store, maps its
     * entries with their share of the grand total and sorts them, largest first.
     */
    method LoadCategoryTotals()
      modifies this
      ensures categoryTotals == CategoryTotals(store.Contents())
      ensures transactions == old(transactions) && isLoading == old(isLoading) && error == old(error)
    {
      var totals := store.GetCategoryTotals();
      var formatted := FormatTotals(totals);
      categoryTotals := SortDesc(formatted);
    }

    /** `loadTransactions`: the stored list, then its totals. */
    method LoadTransactions()
      modifies this
      ensures Loaded() && !isLoading && error == None
    {
      isLoading := true;
      error := None;
      var data := store.GetTransactions();
      transactions := data;
      LoadCategoryTotals();
      isLoading := false;
    }

    /** `addTransaction`: saves, then reloads. */
    method AddTransaction(tx: Transaction, now: nat, storageFails: bool) returns (ok: bool)
      modifies this, store
      ensures ok == !storageFails
      ensures ok ==> store.stored == Some([Stamped(tx, now)] + old(store.Contents()))
      ensures ok ==> Loaded() && error == None && !isLoading
      ensures !ok ==> store.stored == old(store.stored) && error == Some(AddError)
      ensures !ok ==> transactions == old(transactions) && categoryTotals == old(categoryTotals) && isLoading == old(isLoading)
    {
      if storageFails {
        error := Some(AddError);
        return false;
      }
      var _ := store.SaveTransaction(tx, now);
      LoadTransactions();
      return true;
    }

    /** `updateTransaction`: replaces, then reloads. */
    method UpdateTransaction(updated: Transaction, storageFails: bool) returns (ok: bool)
      modifies this, store
      ensures ok == !storageFails
      ensures ok ==> store.stored == Some(Replace(old(store.Contents()), updated))
      ensures ok ==> Loaded() && error == None && !isLoading
      ensures !ok ==> store.stored == old(store.stored) && error == Some(UpdateError)
      ensures !ok ==> transactions == old(transactions) && categoryTotals == old(categoryTotals) && isLoading == old(isLoading)
    {
      if storageFails {
        error := Some(UpdateError);
        return false;
      }
      store.UpdateTransaction(updated);
      LoadTransactions();
      return true;
    }

    /** `deleteTransaction`: deletes, then reloads. */
    method DeleteTransaction(id: string, storageFails: bool) returns (ok: bool)
      modifies this, store
      ensures ok == !storageFails
      ensures ok ==> store.stored == Some(Remove(old(store.Contents()), id))
      ensures ok ==> Loaded() && error == None && !isLoading
      ensures !ok ==> store.stored == old(store.stored) && error == Some(DeleteError)
      ensures !ok ==> transactions == old(transactions) && categoryTotals == old(categoryTotals) && isLoading == old(isLoading)
    {
      if storageFails {
        error := Some(DeleteError);
        return false;
      }
      store.DeleteTransaction(id);
      LoadTransactions();
      return true;
    }
  }

  // ---------------------------------------------------------------- lemmas

  /** Adding an income, or any record that contributes nothing, leaves the shown totals as they were. */
  lemma AddNonExpenseKeepsTotals(t: Transaction, txs: seq<Transaction>)
    requires Contribution(t) == None
    ensures CategoryTotals([t] + txs) == CategoryTotals(txs)
  {
    ContributionsCons(t, txs);
    GroupEntriesSkip(Contributions(txs));
  }
}
