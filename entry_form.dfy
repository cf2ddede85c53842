/**
 * The state of the add/edit transaction screen and its handlers: the
 * keypad, the title and memo fields, the category chips with their delete
 * dialog, the new-category dialog, and the save button.
 *
 * The screen writes transactions through the transaction view model, which
 * hands each row to the `ExpenseDao` unchanged; here the form writes the
 * store directly. Category changes go through the category view model.
 */
module EntryForm {
  import opened Wrappers
  import opened Tables
  import opened Records
  import opened Store
  import opened Queries
  import opened CategoryScreen
  import opened Keypad

  /** `Color(0xFF4CAF50)`, the new-category dialog's initial colour, as its ARGB word. */
  const DefaultColor: int := 0xFF4C_AF50
  const DefaultIconName: string := "category"

  class AddExpenseForm {
    /** The table the transaction view model writes to. */
    const store: LedgerStore
    const categoryViewModel: CategoryViewModel
    /** `null` adds a new row; an id edits that row. */
    const transactionId: Option<int>

    var amount: string
    var title: string
    var memo: string
    var selectedCategory: Option<CategoryEntity>
    var selectedTransactionType: int

    var categoryToDelete: Option<CategoryEntity>
    var showDeleteDialog: bool
    var showAddCategoryDialog: bool
    var newCategoryName: string
    var selectedIconName: string
    /** The colour picked in the new-category dialog, as a 32-bit ARGB word. */
    var selectedColor: int

    /** What the handlers keep true: keypad text, a memo within the limit, a 32-bit colour. */
    ghost predicate Valid()
      reads this
    {
      PadText(amount) && |memo| <= MemoLimit && 0 <= selectedColor < TwoTo32
    }

    /** The entry fields are as they were. */
    twostate predicate EntryKept()
      reads this
    {
      && amount == old(amount) && title == old(title) && memo == old(memo)
      && selectedCategory == old(selectedCategory) && selectedTransactionType == old(selectedTransactionType)
    }

    /** The new-category dialog's fields are as they were. */
    twostate predicate AddDialogKept()
      reads this
    {
      && showAddCategoryDialog == old(showAddCategoryDialog) && newCategoryName == old(newCategoryName)
      && selectedIconName == old(selectedIconName) && selectedColor == old(selectedColor)
    }

    /** The dialog fields are as they were. */
    twostate predicate DialogsKept()
      reads this
    {
      && categoryToDelete == old(categoryToDelete) && showDeleteDialog == old(showDeleteDialog)
      && AddDialogKept()
    }

    /** A new entry: empty fields, no category, type expense, the dialogs closed. */
    constructor(store: LedgerStore, categoryViewModel: CategoryViewModel, transactionId: Option<int>)
      ensures Valid()
      ensures this.store == store && this.categoryViewModel == categoryViewModel && this.transactionId == transactionId
      ensures amount == "" && title == "" && memo == "" && selectedCategory.None?
      ensures selectedTransactionType == ExpenseType
      ensures categoryToDelete.None? && !showDeleteDialog && !showAddCategoryDialog
      ensures newCategoryName == "" && selectedIconName == DefaultIconName && selectedColor == DefaultColor
    {
      this.store := store;
      this.categoryViewModel := categoryViewModel;
      this.transactionId := transactionId;
      amount, title, memo := "", "", "";
      selectedCategory := None;
      selectedTransactionType := ExpenseType;
      categoryToDelete := None;
      showDeleteDialog, showAddCategoryDialog := false, false;
      newCategoryName, selectedIconName, selectedColor := "", DefaultIconName, DefaultColor;
    }

    /**
     * A keypad button, on the corrected keypad: the decimal key enters '.'
     * where the handler as written appends its label (see `Keypad.NextAmount`).
     */
    method PressKey(key: Key)
      requires Valid() && OnPad(key)
      modifies this
      ensures Valid()
      ensures amount == KeypadStep(old(amount), key)
      ensures title == old(title) && memo == old(memo) && selectedCategory == old(selectedCategory)
      ensures selectedTransactionType == old(selectedTransactionType) && DialogsKept()
    {
      KeypadStepKeepsPadText(amount, key);
      amount := KeypadStep(amount, key);
    }

    method ChangeTitle(newTitle: string)
      requires Valid()
      modifies this
      ensures Valid()
      ensures title == newTitle
      ensures amount == old(amount) && memo == old(memo) && selectedCategory == old(selectedCategory)
      ensures selectedTransactionType == old(selectedTransactionType) && DialogsKept()
    {
      title := newTitle;
    }

    /** The memo editor: a value over the limit is ignored, so the memo never exceeds it. */
    method ChangeMemo(newValue: string)
      requires Valid()
      modifies this
      ensures Valid()
      ensures memo == EditMemo(old(memo), newValue)
      ensures amount == old(amount) && title == old(title) && selectedCategory == old(selectedCategory)
      ensures selectedTransactionType == old(selectedTransactionType) && DialogsKept()
    {
      if |newValue| <= MemoLimit {
        memo := newValue;
      }
    }

    method SelectCategory(category: CategoryEntity)
      requires Valid()
      modifies this
      ensures Valid()
      ensures selectedCategory == Some(category)
      ensures amount == old(amount) && title == old(title) && memo == old(memo)
      ensures selectedTransactionType == old(selectedTransactionType) && DialogsKept()
    {
      selectedCategory := Some(category);
    }

    method SelectTransactionType(transactionType: int)
      requires Valid()
      modifies this
      ensures Valid()
      ensures selectedTransactionType == transactionType
      ensures amount == old(amount) && title == old(title) && memo == old(memo)
      ensures selectedCategory == old(selectedCategory) && DialogsKept()
    {
      selectedTransactionType := transactionType;
    }

    /**
     * The save button. It writes only when `CanSave` holds: a new row gets
     * the next id and goes last; an edit overwrites the row with
     * `transactionId`. The amount is stored with the sign of the type.
     */
    method OnSave(hour: int, minute: int, date: string) returns (saved: bool)
      requires Valid() && store.Valid()
      requires 0 <= hour < 24 && 0 <= minute < 60
      modifies store
      ensures store.Valid()
      ensures saved <==> CanSave(selectedCategory, amount, title)
      ensures !saved ==> unchanged(store)
      ensures saved ==> var row := EntryRow(selectedCategory.value, title, selectedTransactionType,
                                            CurrentTime(hour, minute), ParseAmount(amount).value, date, memo);
        && (transactionId.None? ==> store.transactions == old(store.transactions) + [row.(id := old(store.transactionSeq) + 1)])
        && (transactionId.None? ==> store.transactionSeq == old(store.transactionSeq) + 1)
        && (transactionId.Some? ==>
              store.transactions == Replace(old(store.transactions), row.(id := transactionId.value), TransactionKey))
        && (transactionId.Some? ==> store.transactionSeq == old(store.transactionSeq))
      ensures store.categories == old(store.categories) && store.categorySeq == old(store.categorySeq)
    {
      if !CanSave(selectedCategory, amount, title) {
        return false;
      }
      var value := ParseAmount(amount).value;
      var row := EntryRow(selectedCategory.value, title, selectedTransactionType, CurrentTime(hour, minute), value, date, memo);
      if transactionId.Some? {
        store.UpdateExpense(row.(id := transactionId.value));
      } else {
        var id := store.InsertExpense(row);
      }
      saved := true;
    }

    /** A long press on a category chip opens the delete dialog for it. */
    method RequestDeleteCategory(category: CategoryEntity)
      requires Valid()
      modifies this
      ensures Valid()
      ensures categoryToDelete == Some(category) && showDeleteDialog
      ensures EntryKept()
      ensures showAddCategoryDialog == old(showAddCategoryDialog) && newCategoryName == old(newCategoryName)
      ensures selectedIconName == old(selectedIconName) && selectedColor == old(selectedColor)
    {
      categoryToDelete := Some(category);
      showDeleteDialog := true;
    }

    /**
     * The delete dialog's confirm: the category is deleted, a selection equal
     * to it is cleared, and the dialog closes.
     */
    method ConfirmDeleteCategory(fault: bool)
      requires Valid() && categoryToDelete.Some?
      requires categoryViewModel.categoryRepository.categoryDao.Valid()
      modifies this, categoryViewModel, categoryViewModel.categoryRepository.categoryDao
      ensures Valid()
      ensures categoryViewModel.categoryRepository.categoryDao.Valid()
      ensures selectedCategory == if old(selectedCategory) == old(categoryToDelete) then None else old(selectedCategory)
      ensures categoryToDelete.None? && !showDeleteDialog
      ensures !fault ==> forall c :: c in categoryViewModel.categories ==> c.id != old(categoryToDelete.value.id)
      ensures !fault ==> forall c :: c in categoryViewModel.categoryRepository.categoryDao.categories <==>
        c in old(categoryViewModel.categoryRepository.categoryDao.categories) && c.id != old(categoryToDelete.value.id)
      ensures fault ==> unchanged(categoryViewModel.categoryRepository.categoryDao)
      ensures amount == old(amount) && title == old(title) && memo == old(memo)
      ensures selectedTransactionType == old(selectedTransactionType)
      ensures AddDialogKept()
    {
      categoryViewModel.DeleteCategory(categoryToDelete.value, fault);
      if selectedCategory == categoryToDelete {
        selectedCategory := None;
      }
      showDeleteDialog := false;
      categoryToDelete := None;
    }

    method DismissDeleteCategory()
      requires Valid()
      modifies this
      ensures Valid()
      ensures categoryToDelete.None? && !showDeleteDialog
      ensures EntryKept()
      ensures showAddCategoryDialog == old(showAddCategoryDialog) && newCategoryName == old(newCategoryName)
      ensures selectedIconName == old(selectedIconName) && selectedColor == old(selectedColor)
    {
      showDeleteDialog := false;
      categoryToDelete := None;
    }

    method OpenAddCategory()
      requires Valid()
      modifies this
      ensures Valid()
      ensures showAddCategoryDialog
      ensures EntryKept()
      ensures categoryToDelete == old(categoryToDelete) && showDeleteDialog == old(showDeleteDialog)
      ensures newCategoryName == old(newCategoryName)
      ensures selectedIconName == old(selectedIconName) && selectedColor == old(selectedColor)
    {
      showAddCategoryDialog := true;
    }

    /**
     * The new-category dialog's fields: name, icon and colour. The screen sets
     * them through three callbacks (name change, icon picked, colour picked),
     * folded here into one setter; the icon picker's own open/closed flag is
     * part of the rendering and not modelled.
     */
    method EditNewCategory(name: string, iconName: string, argb: int)
      requires Valid() && 0 <= argb < TwoTo32
      modifies this
      ensures Valid()
      ensures newCategoryName == name && selectedIconName == iconName && selectedColor == argb
      ensures EntryKept()
      ensures categoryToDelete == old(categoryToDelete) && showDeleteDialog == old(showDeleteDialog)
      ensures showAddCategoryDialog == old(showAddCategoryDialog)
    {
      newCategoryName, selectedIconName, selectedColor := name, iconName, argb;
    }

    /** The row the new-category dialog would add: the next id, the typed name, the picked icon and colour, custom. */
    function PendingCategory(): (c: CategoryEntity)
      requires 0 <= selectedColor < TwoTo32
      reads this, categoryViewModel.categoryRepository.categoryDao
    {
      CategoryEntity(categoryViewModel.categoryRepository.categoryDao.categorySeq + 1, newCategoryName,
                     selectedIconName, SrgbColorValue(selectedColor), true)
    }

    /**
     * The new-category dialog's confirm: with a name, the category is added
     * as a custom one with the picked icon and colour, and the dialog resets
     * and closes; with an empty name nothing happens.
     */
    method ConfirmAddCategory(fault: bool)
      requires Valid()
      requires categoryViewModel.categoryRepository.categoryDao.Valid()
      modifies this, categoryViewModel, categoryViewModel.categoryRepository.categoryDao
      ensures Valid()
      ensures categoryViewModel.categoryRepository.categoryDao.Valid()
      ensures old(newCategoryName) == "" ==> AddDialogKept()
      ensures old(newCategoryName) == "" ==>
        unchanged(categoryViewModel) && unchanged(categoryViewModel.categoryRepository.categoryDao)
      ensures old(newCategoryName) != "" ==>
        newCategoryName == "" && selectedIconName == DefaultIconName && selectedColor == DefaultColor && !showAddCategoryDialog
      ensures old(newCategoryName) != "" && !fault ==> old(PendingCategory()) in categoryViewModel.categories
      ensures fault ==> unchanged(categoryViewModel.categoryRepository.categoryDao)
      ensures EntryKept()
      ensures categoryToDelete == old(categoryToDelete) && showDeleteDialog == old(showDeleteDialog)
    {
      if newCategoryName != "" {
        AddPendingCategory(fault);
      }
    }

    /**
     * The confirm with a name typed: the category goes to the view model and the dialog resets.
     * The arguments are read before the reset, so the order of the two makes no difference.
     */
    method AddPendingCategory(fault: bool)
      requires Valid() && newCategoryName != ""
      requires categoryViewModel.categoryRepository.categoryDao.Valid()
      modifies this, categoryViewModel, categoryViewModel.categoryRepository.categoryDao
      ensures Valid()
      ensures categoryViewModel.categoryRepository.categoryDao.Valid()
      ensures newCategoryName == "" && selectedIconName == DefaultIconName && selectedColor == DefaultColor && !showAddCategoryDialog
      ensures !fault ==> old(PendingCategory()) in categoryViewModel.categories
      ensures fault ==> unchanged(categoryViewModel.categoryRepository.categoryDao)
      ensures EntryKept()
      ensures categoryToDelete == old(categoryToDelete) && showDeleteDialog == old(showDeleteDialog)
    {
      var name, icon, color := newCategoryName, selectedIconName, SrgbColorValue(selectedColor);
      newCategoryName, selectedIconName, selectedColor := "", DefaultIconName, DefaultColor;
      showAddCategoryDialog := false;
      categoryViewModel.AddCategory(name, icon, color, fault);
    }

    /** The new-category dialog's dismiss: the fields reset and the dialog closes. */
    method DismissAddCategory()
      requires Valid()
      modifies this
      ensures Valid()
      ensures newCategoryName == "" && selectedIconName == DefaultIconName && selectedColor == DefaultColor
      ensures !showAddCategoryDialog
      ensures EntryKept()
      ensures categoryToDelete == old(categoryToDelete) && showDeleteDialog == old(showDeleteDialog)
    {
      newCategoryName, selectedIconName, selectedColor := "", DefaultIconName, DefaultColor;
      showAddCategoryDialog := false;
    }
  }

  /**
   * A saved new entry moves the totals by its signed amount: income grows by
   * the keypad value for type 0, expense falls by it otherwise.
   */
  lemma SaveMovesTotals(rows: seq<Transaction>, category: CategoryEntity, title: string, transactionType: int,
                        time: string, value: real, date: string, memo: string, id: int)
    requires value > 0.0
    ensures var row := EntryRow(category, title, transactionType, time, value, date, memo).(id := id);
      && TotalBalance(rows + [row]) == TotalBalance(rows) + SignedAmount(transactionType, value)
      && (transactionType == IncomeType ==> TotalIncome(rows + [row]) == TotalIncome(rows) + value)
      && (transactionType == IncomeType ==> TotalExpense(rows + [row]) == TotalExpense(rows))
      && (transactionType != IncomeType ==> TotalExpense(rows + [row]) == TotalExpense(rows) - value)
      && (transactionType != IncomeType ==> TotalIncome(rows + [row]) == TotalIncome(rows))
  {
    var row := EntryRow(category, title, transactionType, time, value, date, memo).(id := id);
    InsertAddsToTotals(rows, row);
  }
}
