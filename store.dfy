/**
 * The Room database behind `ExpenseDao` and `CategoryDao`: two rowid tables
 * declared `autoGenerate = true` (SQLite AUTOINCREMENT), each with the
 * largest id it ever handed out.
 *
 * Room writes an id of 0 as NULL, so the row gets a fresh id one above the
 * largest ever used; any other id is stored as given. Deleting rows never
 * lowers the counter.
 */
module Store {
  import opened Wrappers
  import opened Seqs
  import opened Tables
  import opened Records
  import opened Queries

  function Max(a: int, b: int): int { if a < b then b else a }

  class LedgerStore {
    var transactions: seq<Transaction>
    var categories: seq<CategoryEntity>
    /** The AUTOINCREMENT counters (`sqlite_sequence`). */
    var transactionSeq: int
    var categorySeq: int

    ghost predicate Valid()
      reads this
    {
      && KeysAscending(transactions, TransactionKey)
      && KeysAscending(categories, CategoryKey)
      && transactionSeq >= 0 && categorySeq >= 0
      && (forall t :: t in transactions ==> t.id != Unassigned && t.id <= transactionSeq)
      && (forall c :: c in categories ==> c.id != Unassigned && c.id <= categorySeq)
    }

    constructor()
      ensures Valid()
      ensures transactions == [] && categories == []
      ensures transactionSeq == 0 && categorySeq == 0
    {
      transactions := [];
      categories := [];
      transactionSeq := 0;
      categorySeq := 0;
    }

    /** The id the next insert of `id` gets: a fresh one for 0, else `id` itself. */
    function TransactionIdFor(id: int): (r: int)
      reads this
      ensures r != Unassigned || transactionSeq < 0
      ensures id != Unassigned ==> r == id
    {
      if id == Unassigned then transactionSeq + 1 else id
    }

    function CategoryIdFor(id: int): (r: int)
      reads this
      ensures r != Unassigned || categorySeq < 0
      ensures id != Unassigned ==> r == id
    {
      if id == Unassigned then categorySeq + 1 else id
    }

    /**
     * `insertExpense` (`OnConflictStrategy.REPLACE`): a row with the same id
     * is replaced, otherwise the row is added; a generated id is one above
     * every id in the table, so the row goes last.
     */
    method InsertExpense(expense: Transaction) returns (id: int)
      requires Valid()
      modifies this
      ensures Valid()
      ensures id == old(TransactionIdFor(expense.id))
      ensures transactions == Upsert(old(transactions), expense.(id := id), TransactionKey)
      ensures expense.id == Unassigned ==> transactions == old(transactions) + [expense.(id := id)]
      ensures transactionSeq == Max(old(transactionSeq), id)
      ensures categories == old(categories) && categorySeq == old(categorySeq)
    {
      id := TransactionIdFor(expense.id);
      var row, rows := expense.(id := id), transactions;
      var next, counter := Upsert(rows, row, TransactionKey), Max(transactionSeq, id);
      UpsertSpec(rows, row, TransactionKey);
      if expense.id == Unassigned {
        assert forall i :: 0 <= i < |rows| ==> rows[i] in rows;
        UpsertFreshKey(rows, row, TransactionKey);
      }
      forall t | t in next ensures t.id != Unassigned && t.id <= counter {
        assert t == row || t in rows;
      }
      transactions, transactionSeq := next, counter;
    }

    /** `updateExpense`: overwrites the row with the same id; no such row, no change. */
    method UpdateExpense(expense: Transaction)
      requires Valid()
      modifies this
      ensures Valid()
      ensures transactions == Replace(old(transactions), expense, TransactionKey)
      ensures !HasKey(old(transactions), expense.id, TransactionKey) ==> transactions == old(transactions)
      ensures transactionSeq == old(transactionSeq)
      ensures categories == old(categories) && categorySeq == old(categorySeq)
    {
      ReplaceSpec(transactions, expense, TransactionKey);
      transactions := Replace(transactions, expense, TransactionKey);
    }

    /** `deleteExpense`: removes the row with the entity's id, whatever its other fields. */
    method DeleteExpense(expense: Transaction)
      requires Valid()
      modifies this
      ensures Valid()
      ensures transactions == RemoveKey(old(transactions), expense.id, TransactionKey)
      ensures forall t :: t in transactions <==> t in old(transactions) && t.id != expense.id
      ensures transactionSeq == old(transactionSeq)
      ensures categories == old(categories) && categorySeq == old(categorySeq)
    {
      RemoveKeySpec(transactions, expense.id, TransactionKey);
      transactions := RemoveKey(transactions, expense.id, TransactionKey);
    }

    /** `deleteAllTransactions`: the table is emptied, the counter stays. */
    method DeleteAllTransactions()
      requires Valid()
      modifies this
      ensures Valid()
      ensures transactions == [] && transactionSeq == old(transactionSeq)
      ensures categories == old(categories) && categorySeq == old(categorySeq)
    {
      transactions := [];
    }

    /**
     * `insertCategory` (`@Insert`, conflict strategy ABORT): an explicit id
     * already in the table makes the insert fail and changes nothing.
     */
    method InsertCategory(category: CategoryEntity) returns (ok: bool)
      requires Valid()
      modifies this
      ensures Valid()
      ensures ok <==> category.id == Unassigned || !HasKey(old(categories), category.id, CategoryKey)
      ensures ok ==> var id := old(CategoryIdFor(category.id));
        && categories == Upsert(old(categories), category.(id := id), CategoryKey)
        && category.(id := id) in categories
        && categorySeq == Max(old(categorySeq), id)
      ensures ok && category.id == Unassigned ==> categories == old(categories) + [category.(id := old(categorySeq) + 1)]
      ensures !ok ==> categories == old(categories) && categorySeq == old(categorySeq)
      ensures transactions == old(transactions) && transactionSeq == old(transactionSeq)
    {
      if category.id != Unassigned && HasKey(categories, category.id, CategoryKey) {
        return false;
      }
      var id := CategoryIdFor(category.id);
      var row, rows := category.(id := id), categories;
      var next, counter := Upsert(rows, row, CategoryKey), Max(categorySeq, id);
      UpsertSpec(rows, row, CategoryKey);
      if category.id == Unassigned {
        assert forall i :: 0 <= i < |rows| ==> rows[i] in rows;
        UpsertFreshKey(rows, row, CategoryKey);
      }
      forall c | c in next ensures c.id != Unassigned && c.id <= counter {
        assert c == row || c in rows;
      }
      categories, categorySeq := next, counter;
      ok := true;
    }

    /** `deleteCategory` (`@Delete`): removes the row with the entity's id. */
    method DeleteCategory(category: CategoryEntity)
      requires Valid()
      modifies this
      ensures Valid()
      ensures categories == RemoveKey(old(categories), category.id, CategoryKey)
      ensures forall c :: c in categories <==> c in old(categories) && c.id != category.id
      ensures categorySeq == old(categorySeq)
      ensures transactions == old(transactions) && transactionSeq == old(transactionSeq)
    {
      DeleteCategoryById(category.id);
    }

    /** `deleteCategoryById(categoryId)`. */
    method DeleteCategoryById(categoryId: int)
      requires Valid()
      modifies this
      ensures Valid()
      ensures categories == RemoveKey(old(categories), categoryId, CategoryKey)
      ensures forall c :: c in categories <==> c in old(categories) && c.id != categoryId
      ensures categorySeq == old(categorySeq)
      ensures transactions == old(transactions) && transactionSeq == old(transactionSeq)
    {
      RemoveKeySpec(categories, categoryId, CategoryKey);
      categories := RemoveKey(categories, categoryId, CategoryKey);
    }

    /** `deleteAllCategories`. */
    method DeleteAllCategories()
      requires Valid()
      modifies this
      ensures Valid()
      ensures categories == [] && categorySeq == old(categorySeq)
      ensures transactions == old(transactions) && transactionSeq == old(transactionSeq)
    {
      categories := [];
    }

    // The SELECT queries, on the current tables.

    function GetAllExpenses(): seq<TransactionWithCategory>
      reads this
      requires AllRelated(transactions, categories)
    {
      AllExpenses(transactions, categories)
    }

    function GetAllCategories(): seq<CategoryEntity>
      reads this
    {
      AllCategories(categories)
    }

    function GetCategoryByName(name: string): Option<CategoryEntity>
      reads this
    {
      CategoryByName(categories, name)
    }
  }

  /** A freshly inserted row adds its amount to the balance and to exactly one of income and expense. */
  lemma InsertAddsToTotals(rows: seq<Transaction>, t: Transaction)
    ensures TotalBalance(rows + [t]) == TotalBalance(rows) + t.amount
    ensures TotalIncome(rows + [t]) == TotalIncome(rows) + (if t.amount > 0.0 then t.amount else 0.0)
    ensures TotalExpense(rows + [t]) == TotalExpense(rows) + (if t.amount < 0.0 then t.amount else 0.0)
  {
    SumAppend(rows, [t]);
    FilterAppend(rows, [t], IsIncome);
    FilterAppend(rows, [t], IsExpense);
    SumAppend(Filter(rows, IsIncome), Filter([t], IsIncome));
    SumAppend(Filter(rows, IsExpense), Filter([t], IsExpense));
  }
}
