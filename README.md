# Expense tracker ledger core, in Dafny

A model of the sequential core of an Android expense tracker, with proofs
about it. The modelled parts are:

- the Room database with its two tables (`transactions`, `categories`) and
  the queries of `ExpenseDao` and `CategoryDao`;
- the category repository, which seeds eight built-in categories;
- the category view model, which keeps the observed category list;
- the statistics breakdown (`toExpenseStatistics` and the statistics
  screen's type filter and sort);
- the client-side filters of the transaction list and the dashboard;
- the add/edit transaction screen: amount keypad, save gate, sign rule,
  memo cap and preview, clock text, category dialogs;
- the session layer: `PreferenceManager`, `AuthManager`, and the checks and
  user-name derivation of the sign-in screen.

Files and modules:

| file | module | contents |
|---|---|---|
| `records.dfy` | `Records` | the records, packed colours, `getRandomDate` |
| `store.dfy` | `Store` | the database class and its writes |
| `queries.dfy` | `Queries` | the read queries, as functions of the tables |
| `registry.dfy` | `Registry` | `CategoryRepository` |
| `category_vm.dfy` | `CategoryScreen` | `CategoryViewModel` |
| `statistics.dfy` | `Statistics` | the statistics breakdown |
| `filters.dfy` | `Filters` | the list filters and the dashboard's recent list |
| `keypad.dfy` | `Keypad` | the pure logic of the entry form |
| `entry_form.dfy` | `EntryForm` | the entry form's state and handlers |
| `preferences.dfy` | `Preferences` | `PreferenceManager` |
| `session.dfy` | `Session` | `AuthManager` |
| `auth_form.dfy` | `AuthScreen` | the sign-in form |
| `seqs.dfy`, `tables.dfy`, `text.dfy`, `wrappers.dfy` | | filters, a stable insertion sort, id-keyed tables, Kotlin string helpers, `Option` |

Modelling decisions:

- **Amounts.** Kotlin `Double`s become exact `real`s.
- **Store state.** Code that changes state is a class with fields:
  - the store, with two tables and two AUTOINCREMENT counters;
  - the repository and the category view model;
  - the preference file;
  - the auth manager;
  - the screens' state.
- **Pure code.** Queries and screen computations are functions, with lemmas
  about them.
- **Table order.** Each table is a `seq` in ascending id order, the order
  SQLite scans a rowid table. Rows that tie under an `ORDER BY` are assumed
  to keep that order. SQLite does not promise this; it is a choice of the
  model, and the tie-order lemmas hold only under it.
- **Ids.** An id of 0 is Room's "not yet assigned". The row then gets one
  more than the largest id the table ever handed out.
- **Conflicts.** `insertExpense` replaces a row with the same id (REPLACE).
  `insertCategory` fails on one and changes nothing (ABORT).
- **Coroutines.** Every `viewModelScope.launch` and the logout clean-up run
  to completion before the next call.
- **Exceptions.** A repository exception is the `fault` argument. The view
  model catches it, so the observed list keeps its old value. Only a throw
  before the first write is modelled (see "Left out").
- **Dates.** `LocalDate.parse` with the "dd MM yyyy" formatter is a
  parameter of type `string -> Option<int>`, where the number is an epoch
  day and `None` is a parse failure. "Today", the first day of the year and
  the clock are inputs too.
- **E-mail check.** The platform's e-mail pattern is a parameter
  `string -> bool`.

## Model

| member | source | states |
|---|---|---|
| Records.ToLongSpec | app/src/main/java/com/rudy/expensetracker/repository/CategoryRepository.kt:33 | `toLong()` on an unsigned 64-bit colour value lands in the signed range, is congruent to it modulo 2^64, and `toULong()` undoes it |
| Records.SrgbColorValueSpec | app/src/main/java/com/rudy/expensetracker/repository/CategoryRepository.kt:33 | `Color(0xAARRGGBB).value.toLong()` is a signed 64-bit value whose upper 32 bits are the ARGB word and whose lower 32 bits are zero |
| Records.SrgbColorValueInjective | app/src/main/java/com/rudy/expensetracker/ui/screens/AddExpenseScreen.kt:496 | different picked colours are stored as different `colorValue`s |
| Records.RandomDate | app/src/main/java/com/rudy/expensetracker/model/Transactions.kt:48-53 | the text is the day's digits plus eight characters, ending in "/2025" |
| Records.RandomDateFields | app/src/main/java/com/rudy/expensetracker/model/Transactions.kt:49-52 | day in 1..27 (unpadded, one digit below 10), '/', month in 1..11 as exactly two digits, '/', "2025"; the fields read back as the draws |
| Records.RandomDateIsNotLedgerLayout | app/src/main/java/com/rudy/expensetracker/model/Transactions.kt:52 | the random date never has the "dd MM yyyy" layout's space at index 2 |
| Records.DateText | app/src/main/java/com/rudy/expensetracker/ui/screens/AddExpenseScreen.kt:1868 | a "dd MM yyyy" token is ten characters with spaces at indices 2 and 5 |
| Store.LedgerStore.TransactionIdFor | app/src/main/java/com/rudy/expensetracker/model/Transactions.kt:14-15 | id 0 gets a fresh, non-zero id; any other id is kept |
| Store.LedgerStore.CategoryIdFor | app/src/main/java/com/rudy/expensetracker/model/Transactions.kt:30-31 | the same for categories |
| Store.LedgerStore.constructor | app/src/main/java/com/rudy/expensetracker/database/Dao.kt:14-15 | empty tables, counters at 0, invariant holds |
| Store.LedgerStore.InsertExpense | app/src/main/java/com/rudy/expensetracker/database/Dao.kt:17-18 | REPLACE: the row with the same id is replaced or the row added; a generated id goes last; ids stay unique and ascending; the category table is untouched |
| Store.LedgerStore.UpdateExpense | app/src/main/java/com/rudy/expensetracker/database/Dao.kt:20-21 | only the row with the entity's id is overwritten; no such row, no change |
| Store.LedgerStore.DeleteExpense | app/src/main/java/com/rudy/expensetracker/database/Dao.kt:23-24 | exactly the rows with other ids remain |
| Store.LedgerStore.DeleteAllTransactions | app/src/main/java/com/rudy/expensetracker/database/Dao.kt:58-59 | the transaction table is empty; the counter and the category table stay |
| Store.LedgerStore.InsertCategory | app/src/main/java/com/rudy/expensetracker/database/Dao.kt:67-68 | ABORT: succeeds iff the id is 0 or not yet in the table; on success the row is in the table under its id; on failure nothing changes |
| Store.LedgerStore.DeleteCategory | app/src/main/java/com/rudy/expensetracker/database/Dao.kt:70-71 | exactly the rows with other ids remain |
| Store.LedgerStore.DeleteCategoryById | app/src/main/java/com/rudy/expensetracker/database/Dao.kt:73-74 | exactly the rows with other ids remain |
| Store.LedgerStore.DeleteAllCategories | app/src/main/java/com/rudy/expensetracker/database/Dao.kt:79-80 | the category table is empty; the counter and the transaction table stay |
| Store.InsertAddsToTotals | app/src/main/java/com/rudy/expensetracker/database/Dao.kt:46-56 | a new row adds its amount to the balance and to exactly one of income (positive) and expense (negative) |
| Queries.BalanceIsIncomePlusExpense | app/src/main/java/com/rudy/expensetracker/database/Dao.kt:46-56 | balance = income + expense; zero amounts count in neither |
| Queries.IncomeNonNegative | app/src/main/java/com/rudy/expensetracker/database/Dao.kt:52-53 | income >= 0, and = 0 iff no amount is positive |
| Queries.ExpenseNonPositive | app/src/main/java/com/rudy/expensetracker/database/Dao.kt:55-56 | expense <= 0, and = 0 iff no amount is negative |
| Queries.TodayExpenseBounds | app/src/main/java/com/rudy/expensetracker/database/Dao.kt:49-50 | total expense <= one day's expense <= 0 |
| Queries.MonthYearSlots | app/src/main/java/com/rudy/expensetracker/database/Dao.kt:35-43 | for a 2-character month and 4-character year, a date matches iff it has at least 10 characters and characters 4-5 and 7-10 (1-based) are those texts |
| Queries.MonthYearOfDateText | app/src/main/java/com/rudy/expensetracker/database/Dao.kt:35-43 | on "dd MM yyyy" text the query matches iff the date's month and year are the queried ones |
| Queries.MonthYearOfRandomDate | app/src/main/java/com/rudy/expensetracker/database/Dao.kt:37-38 | a `getRandomDate` text is found only when its day has two digits |
| Queries.MonthYearExamples | app/src/main/java/com/rudy/expensetracker/database/Dao.kt:37-38 | "05 08 2025" matches ("08","2025"); "05 8 2025" and "05 08 2024" do not |
| Queries.Relate | app/src/main/java/com/rudy/expensetracker/model/Transactions.kt:38-45 | pairs a transaction with the category row whose id is its `category` |
| Queries.Join | app/src/main/java/com/rudy/expensetracker/model/Transactions.kt:38-45 | one pair per row, in order, each with its own category |
| Queries.ByDateDescSpec | app/src/main/java/com/rudy/expensetracker/database/Dao.kt:27 | `ORDER BY date DESC`: same rows, descending text order, rows with one date text in table order |
| Queries.ByDateDescIsNotChronological | app/src/main/java/com/rudy/expensetracker/database/Dao.kt:27 | "31 01 2025" is listed before "01 12 2025" |
| Queries.AllExpenses | app/src/main/java/com/rudy/expensetracker/database/Dao.kt:26-28 | every row once, in `ByDateDesc` order, each with its category |
| Queries.TransactionsByMonthYear | app/src/main/java/com/rudy/expensetracker/database/Dao.kt:34-43 | exactly the matching rows, each joined to its category |
| Queries.ExpenseById | app/src/main/java/com/rudy/expensetracker/database/Dao.kt:30-32 | the row with that id and its category, or none iff no row has it |
| Queries.AllCategoriesIsStableSort | app/src/main/java/com/rudy/expensetracker/database/Dao.kt:64-65 | the list equals the stable sort descending by `isCustom`, ties in table order |
| Queries.AllCategoriesSpec | app/src/main/java/com/rudy/expensetracker/database/Dao.kt:64-65 | same rows; every custom row before every built-in one; each kind in table order |
| Queries.AllCategoriesMembers | app/src/main/java/com/rudy/expensetracker/database/Dao.kt:64-65 | a category is listed iff it is in the table |
| Queries.CategoryByName | app/src/main/java/com/rudy/expensetracker/database/Dao.kt:76-77 | the first row in table order with that name, or none iff no row has it |
| Registry.DefaultCategories | app/src/main/java/com/rudy/expensetracker/repository/CategoryRepository.kt:29-43 | eight defaults, each with id 0 and `isCustom = false` |
| Registry.DefaultCategoryNames | app/src/main/java/com/rudy/expensetracker/repository/CategoryRepository.kt:29-43 | names in order: Food, Transport, Shopping, Bills, Entertainment, Health, Education, Other |
| Registry.DefaultCategoriesDistinct | app/src/main/java/com/rudy/expensetracker/repository/CategoryRepository.kt:29-43 | no two defaults share a name or an icon name |
| Registry.Stamped | app/src/main/java/com/rudy/expensetracker/repository/CategoryRepository.kt:45-47 | the i-th inserted row gets id base + i + 1 |
| Registry.CategoryRepository.GetAllCategories | app/src/main/java/com/rudy/expensetracker/repository/CategoryRepository.kt:9-11 | the DAO's rows, custom ones first |
| Registry.CategoryRepository.GetCategoryByName | app/src/main/java/com/rudy/expensetracker/repository/CategoryRepository.kt:21-23 | a row with that name, or none iff there is none |
| Registry.CategoryRepository.InsertCategory | app/src/main/java/com/rudy/expensetracker/repository/CategoryRepository.kt:13-15 | the DAO's insert succeeds iff the row has no id or its id is free; then the row is upserted under its own id (or appended under the next id when it has none) and the counter becomes the larger of the counter and that id; a conflict changes nothing; transactions are untouched |
| Registry.CategoryRepository.InsertNew | app/src/main/java/com/rudy/expensetracker/repository/CategoryRepository.kt:13-15 | a row without an id is appended under the next id and the category counter goes up by one; transactions are untouched |
| Registry.CategoryRepository.DeleteCategory | app/src/main/java/com/rudy/expensetracker/repository/CategoryRepository.kt:17-19 | exactly the rows with other ids remain |
| Registry.CategoryRepository.InitializeDefaultCategories | app/src/main/java/com/rudy/expensetracker/repository/CategoryRepository.kt:26-49 | an empty table receives exactly the eight defaults in order with consecutive fresh ids; a non-empty one is unchanged, so a second call adds nothing |
| Registry.CategoryRepository.InsertAll | app/src/main/java/com/rudy/expensetracker/repository/CategoryRepository.kt:45-47 | the rows are appended in order with ids above the counter |
| CategoryScreen.CategoryViewModel.constructor | app/src/main/java/com/rudy/expensetracker/viewmodel/CategoryViewModel.kt:18-25 | starts empty, seeds, loads; not loading afterwards; a fault leaves the list empty |
| CategoryScreen.CategoryViewModel.InitializeCategories | app/src/main/java/com/rudy/expensetracker/viewmodel/CategoryViewModel.kt:27-39 | seeds once and loads the store's list; `isLoading` false at the end, fault or not |
| CategoryScreen.CategoryViewModel.LoadCategories | app/src/main/java/com/rudy/expensetracker/viewmodel/CategoryViewModel.kt:41-50 | the list becomes the store's `getAllCategories`; a fault keeps the old list |
| CategoryScreen.CategoryViewModel.AddCategory | app/src/main/java/com/rudy/expensetracker/viewmodel/CategoryViewModel.kt:52-67 | a custom row with exactly that name, icon and colour is appended under the next id and is in the refreshed list |
| CategoryScreen.CategoryViewModel.DeleteCategory | app/src/main/java/com/rudy/expensetracker/viewmodel/CategoryViewModel.kt:69-78 | the row's id is gone from the table and from the refreshed list; other rows stay |
| Statistics.StatisticsFor | app/src/main/java/com/rudy/expensetracker/utils/dataMapper.kt:15-29 | one statistic per key, named after it, with its group's absolute total and share |
| Statistics.StatisticsShape | app/src/main/java/com/rudy/expensetracker/utils/dataMapper.kt:9-29 | no rows, no statistics; else one per distinct category (whole-record equality), in first-occurrence order, with name, icon, colour and a non-negative absolute sum |
| Statistics.StatisticsAmountsSum | app/src/main/java/com/rudy/expensetracker/utils/dataMapper.kt:13-18 | the amounts add up to the total absolute amount |
| Statistics.KeysCoverRows | app/src/main/java/com/rudy/expensetracker/utils/dataMapper.kt:16 | every row's category is one of the groups |
| Statistics.StatisticsPercentagesBounded | app/src/main/java/com/rudy/expensetracker/utils/dataMapper.kt:19 | with a non-zero total every percentage is a real in [0, 100] |
| Statistics.StatisticsPercentagesSum | app/src/main/java/com/rudy/expensetracker/utils/dataMapper.kt:13-19 | with a non-zero total the percentages add up to 100 |
| Statistics.StatisticsPercentagesUndefined | app/src/main/java/com/rudy/expensetracker/utils/dataMapper.kt:13-19 | with a zero total every percentage is 0/0, NaN |
| Statistics.TypeFilterSpec | app/src/main/java/com/rudy/expensetracker/ui/screens/ExpenseStatisticsScreen.kt:153-157 | EXPENSE keeps negative amounts, INCOME positive ones, ALL every row |
| Statistics.SortStatisticsSpec | app/src/main/java/com/rudy/expensetracker/ui/screens/ExpenseStatisticsScreen.kt:159-161 | same statistics and total; negative amounts first; within a sign, larger amounts first |
| Statistics.StatisticsDataSpec | app/src/main/java/com/rudy/expensetracker/ui/screens/ExpenseStatisticsScreen.kt:153-161 | the displayed total is the selected rows' absolute total, one card per category, largest amount first |
| Statistics.MonthName | app/src/main/java/com/rudy/expensetracker/ui/screens/ExpenseStatisticsScreen.kt:889-905 | "Unknown" exactly outside 1..12 |
| Statistics.MonthNameInjective | app/src/main/java/com/rudy/expensetracker/ui/screens/ExpenseStatisticsScreen.kt:889-905 | the twelve month names are distinct |
| Statistics.MonthQuery | app/src/main/java/com/rudy/expensetracker/ui/screens/ExpenseStatisticsScreen.kt:146-147 | for 1..12 the month argument is two digits reading back as the month; a four-digit year is its digits |
| Filters.LatestFirstSpec | app/src/main/java/com/rudy/expensetracker/ui/screens/AllTransaction.kt:145-151 | same rows, later dates first, unparseable dates as minimum, rows of one date in input order |
| Filters.UnparsedLast | app/src/main/java/com/rudy/expensetracker/ui/screens/AllTransaction.kt:146-150 | in the sorted list an unparseable row comes after every parseable one |
| Filters.CutoffSpec | app/src/main/java/com/rudy/expensetracker/ui/screens/AllTransaction.kt:111-118 | Today, 7, 30, 90 days, This Year give their cutoffs; any other selection falls back to seven days |
| Filters.SelectedSpec | app/src/main/java/com/rudy/expensetracker/ui/screens/AllTransaction.kt:110-142 | each stage drops what it should (before the cutoff or unparseable; non-positive for Income; non-negative for Expense; other category names); all at "All" drops nothing |
| Filters.FilterTransactions | app/src/main/java/com/rudy/expensetracker/ui/screens/AllTransaction.kt:106-152 | the stage-by-stage narrowing equals the sorted filter by the three conditions together |
| Filters.FilterTransactionsSpec | app/src/main/java/com/rudy/expensetracker/ui/screens/AllTransaction.kt:106-152 | the list is exactly the selected rows, latest first, stable |
| Filters.NoFilterKeepsAll | app/src/main/java/com/rudy/expensetracker/ui/screens/AllTransaction.kt:107-142 | with "All" three times every row passes |
| Filters.CategoryNames | app/src/main/java/com/rudy/expensetracker/ui/screens/AllTransaction.kt:103 | one name per row, in order |
| Filters.CategoryNamesMembership | app/src/main/java/com/rudy/expensetracker/ui/screens/AllTransaction.kt:103 | a name is listed iff some row's category has it |
| Filters.CategoryFilterOptionsSpec | app/src/main/java/com/rudy/expensetracker/ui/screens/AllTransaction.kt:103 | "All" first, then exactly the categories' names, each once |
| Filters.CategoryFilterOptionsOrder | app/src/main/java/com/rudy/expensetracker/ui/screens/AllTransaction.kt:103 | the names are in first-occurrence order |
| Filters.TransactionFilterState.constructor | app/src/main/java/com/rudy/expensetracker/ui/screens/AllTransaction.kt:75-77 | all three selections start at "All" |
| Filters.TransactionFilterState.SelectTime | app/src/main/java/com/rudy/expensetracker/ui/screens/AllTransaction.kt:280 | the time selection changes, the others stay |
| Filters.TransactionFilterState.SelectKind | app/src/main/java/com/rudy/expensetracker/ui/screens/AllTransaction.kt:337 | the type selection changes, the others stay |
| Filters.TransactionFilterState.SelectCategory | app/src/main/java/com/rudy/expensetracker/ui/screens/AllTransaction.kt:396 | the category selection changes, the others stay |
| Filters.TransactionFilterState.ClearAll | app/src/main/java/com/rudy/expensetracker/ui/screens/AllTransaction.kt:416-427 | all three back to "All", the link hidden, and every row shown |
| Filters.RecentSpec | app/src/main/java/com/rudy/expensetracker/ui/screens/DashboardScreen.kt:114-138 | a prefix of the sorted window of length min(window, 10 or 20); no row left out is later than a row shown |
| Filters.RecentMembers | app/src/main/java/com/rudy/expensetracker/ui/screens/DashboardScreen.kt:115-130 | every shown row is a row whose date parses and is on or after today minus 1 ("1 day") or 7 (anything else) |
| Filters.RecentExample | app/src/main/java/com/rudy/expensetracker/ui/screens/DashboardScreen.kt:115-138 | rows two days apart: "1 day" shows the later one, "7 days" both, latest first |
| Keypad.NextAmountKeepsBulletText | app/src/main/java/com/rudy/expensetracker/ui/screens/AddExpenseScreen.kt:867-880 | as written, every key keeps the label's last character at most once and only as the end of a whole label, so the full three-character label occurs at most once |
| Keypad.BulletTextLabelOnce | app/src/main/java/com/rudy/expensetracker/ui/screens/AddExpenseScreen.kt:871-873 | such text holds the full label at no two different places |
| Keypad.PressAllAsWrittenKeepsBulletText | app/src/main/java/com/rudy/expensetracker/ui/screens/AddExpenseScreen.kt:866-901 | as written, any key sequence from such text keeps it so, with the full label at most once |
| Keypad.BulletSticks | app/src/main/java/com/rudy/expensetracker/ui/screens/AddExpenseScreen.kt:871-880 | once the full label is in, only backspace or Clear can break it up |
| Keypad.BackspaceKeepsPadText | app/src/main/java/com/rudy/expensetracker/ui/screens/AddExpenseScreen.kt:868-870 | dropping the last character keeps keypad text |
| Keypad.DecimalKeepsPadText | app/src/main/java/com/rudy/expensetracker/ui/screens/AddExpenseScreen.kt:871-877 | corrected keypad: one point appended to point-free keypad text keeps it keypad text |
| Keypad.DigitKeepsPadText | app/src/main/java/com/rudy/expensetracker/ui/screens/AddExpenseScreen.kt:878-880 | a digit appended below ten characters keeps keypad text |
| Keypad.KeypadStepKeepsPadText | app/src/main/java/com/rudy/expensetracker/ui/screens/AddExpenseScreen.kt:867-901 | corrected keypad: every key keeps the amount keypad text: a leading digit, digits, at most one point, at most 10 characters before the point |
| Keypad.PressAllKeepsPadText | app/src/main/java/com/rudy/expensetracker/ui/screens/AddExpenseScreen.kt:866-901 | corrected keypad: any key sequence from "" stays keypad text |
| Keypad.ParseAmountAlphabet | app/src/main/java/com/rudy/expensetracker/ui/screens/AddExpenseScreen.kt:339 | a readable amount holds only digits and '.', never a character of the decimal key's label |
| Keypad.PadTextParses | app/src/main/java/com/rudy/expensetracker/ui/screens/AddExpenseScreen.kt:339 | every non-empty keypad text reads as a number, positive iff some digit is not 0 |
| Keypad.CanSaveOnPadText | app/src/main/java/com/rudy/expensetracker/ui/screens/AddExpenseScreen.kt:339-340 | on keypad text, save is allowed iff a category and a title are set and some digit is not 0 |
| Keypad.BulletBlocksSave | app/src/main/java/com/rudy/expensetracker/ui/screens/AddExpenseScreen.kt:339-340 | an amount holding the decimal label can never be saved |
| Keypad.FragmentBlocksSave | app/src/main/java/com/rudy/expensetracker/ui/screens/AddExpenseScreen.kt:339-340 | an amount holding any one character of the label, such as the two a backspace leaves, can never be saved |
| Keypad.BackspaceLeavesFragment | app/src/main/java/com/rudy/expensetracker/ui/screens/AddExpenseScreen.kt:867-873 | as written, keys 1, 2, decimal, backspace give "12" plus the label's first two characters, which the save gate rejects |
| Keypad.BackspaceAfterPointCorrected | app/src/main/java/com/rudy/expensetracker/ui/screens/AddExpenseScreen.kt:867-877 | on the corrected keypad the same keys give back "12", read as 12 and accepted |
| Keypad.DecimalBackspaceGrows | app/src/main/java/com/rudy/expensetracker/ui/screens/AddExpenseScreen.kt:867-873 | as written, decimal then backspace on a non-empty amount without the label's last character adds the label's first two characters, and the label is again not contained |
| Keypad.DecimalBackspacesGrow | app/src/main/java/com/rudy/expensetracker/ui/screens/AddExpenseScreen.kt:867-873 | `n` rounds of decimal and backspace lengthen such an amount by `2 * n`, keep it as a prefix and put a label character right after it |
| Keypad.AsWrittenUnbounded | app/src/main/java/com/rudy/expensetracker/ui/screens/AddExpenseScreen.kt:867-880 | as written the amount has no length bound: after 1, `n` rounds give `1 + 2 * n` characters, and that amount cannot be saved |
| Keypad.TwelveAndAHalfAsWritten | app/src/main/java/com/rudy/expensetracker/ui/screens/AddExpenseScreen.kt:871-873 | keys 1, 2, decimal, 5 give "12" + label + "5", which the save gate rejects |
| Keypad.HalfAsWrittenSaves | app/src/main/java/com/rudy/expensetracker/ui/screens/AddExpenseScreen.kt:874-875 | as written, decimal first gives "0.", so decimal then 5 gives "0.5", which reads as 0.5 and saves with a category and a title |
| Keypad.TwelveAndAHalfCorrected | app/src/main/java/com/rudy/expensetracker/ui/screens/AddExpenseScreen.kt:871-877 | the same keys with '.' give "12.5", read as 12.5 and accepted |
| Keypad.ParseTwelveAndAHalf | app/src/main/java/com/rudy/expensetracker/ui/screens/AddExpenseScreen.kt:339 | "12.5" reads as 12.5 |
| Keypad.SignRule | app/src/main/java/com/rudy/expensetracker/ui/screens/AddExpenseScreen.kt:341 | the stored amount is positive iff the type is 0 (income), negative otherwise, with the keypad value's magnitude |
| Keypad.EntryRow | app/src/main/java/com/rudy/expensetracker/ui/screens/AddExpenseScreen.kt:358-366 | the saved row has id 0, the category's id, the title, type, time, date and memo |
| Keypad.EditMemo | app/src/main/java/com/rudy/expensetracker/ui/screens/AddExpenseScreen.kt:1351-1354 | the memo becomes the typed value or stays as it was; a value of at most 100 characters is taken and a longer one ignored, so a memo within 100 characters stays within 100 |
| Keypad.MemoPreviewSpec | app/src/main/java/com/rudy/expensetracker/ui/screens/AddExpenseScreen.kt:806-810 | "Add note" when empty; the memo itself up to 15 characters; first 15 plus "..." up to 100 |
| Keypad.MemoPreviewTooLong | app/src/main/java/com/rudy/expensetracker/ui/screens/AddExpenseScreen.kt:808 | over 100: first 15, "... (Too long: ", digits that read back as the length, " chars)" |
| Keypad.CurrentTimePieces | app/src/main/java/com/rudy/expensetracker/ui/screens/AddExpenseScreen.kt:1859-1866 | eight characters: the 12-hour hour, the minute, 'P' or 'A' at fixed places |
| Keypad.CurrentTimeSpec | app/src/main/java/com/rudy/expensetracker/ui/screens/AddExpenseScreen.kt:1859-1866 | "hh:mm XM" with the hour in 1..12 agreeing modulo 12, the minute, and PM exactly from noon |
| Keypad.CurrentTimeInjective | app/src/main/java/com/rudy/expensetracker/ui/screens/AddExpenseScreen.kt:1859-1866 | different clock readings give different texts |
| EntryForm.AddExpenseForm.constructor | app/src/main/java/com/rudy/expensetracker/ui/screens/AddExpenseScreen.kt:132-189 | a new entry: empty fields, no category, type 1, dialogs closed, icon "category", colour 0xFF4CAF50 |
| EntryForm.AddExpenseForm.PressKey | app/src/main/java/com/rudy/expensetracker/ui/screens/AddExpenseScreen.kt:866-901 | corrected keypad: the amount takes one keypad step and stays keypad text; nothing else changes |
| EntryForm.AddExpenseForm.ChangeTitle | app/src/main/java/com/rudy/expensetracker/ui/screens/AddExpenseScreen.kt:321 | the title changes, nothing else |
| EntryForm.AddExpenseForm.ChangeMemo | app/src/main/java/com/rudy/expensetracker/ui/screens/AddExpenseScreen.kt:1351-1354 | the memo follows `EditMemo` and never exceeds 100 characters |
| EntryForm.AddExpenseForm.SelectCategory | app/src/main/java/com/rudy/expensetracker/ui/screens/AddExpenseScreen.kt:325 | the selection changes, nothing else |
| EntryForm.AddExpenseForm.SelectTransactionType | app/src/main/java/com/rudy/expensetracker/ui/screens/AddExpenseScreen.kt:327 | the type changes, nothing else |
| EntryForm.AddExpenseForm.OnSave | app/src/main/java/com/rudy/expensetracker/ui/screens/AddExpenseScreen.kt:338-368 | writes iff the save gate holds; a new entry is appended under the next id, an edit replaces the row with its id; the transaction counter goes up by one for a new entry and stays for an edit; categories and their counter are untouched; the amount carries the type's sign; no write leaves the store unchanged |
| EntryForm.AddExpenseForm.RequestDeleteCategory | app/src/main/java/com/rudy/expensetracker/ui/screens/AddExpenseScreen.kt:332-335 | the delete dialog opens for that category |
| EntryForm.AddExpenseForm.ConfirmDeleteCategory | app/src/main/java/com/rudy/expensetracker/ui/screens/AddExpenseScreen.kt:471-479 | the category's id leaves the table and the list; a selection equal to it is cleared; the dialog closes |
| EntryForm.AddExpenseForm.DismissDeleteCategory | app/src/main/java/com/rudy/expensetracker/ui/screens/AddExpenseScreen.kt:480-483 | the dialog closes, nothing else changes |
| EntryForm.AddExpenseForm.OpenAddCategory | app/src/main/java/com/rudy/expensetracker/ui/screens/AddExpenseScreen.kt:331 | the add dialog opens |
| EntryForm.AddExpenseForm.EditNewCategory | app/src/main/java/com/rudy/expensetracker/ui/screens/AddExpenseScreen.kt:486-490 | the dialog's name, icon and colour change, the three setter callbacks taken as one; the entry fields and the dialogs' flags stay |
| EntryForm.AddExpenseForm.ConfirmAddCategory | app/src/main/java/com/rudy/expensetracker/ui/screens/AddExpenseScreen.kt:491-504 | with a name: the custom category with the picked icon and packed colour is in the list, and the dialog resets and closes; with an empty name nothing changes |
| EntryForm.AddExpenseForm.AddPendingCategory | app/src/main/java/com/rudy/expensetracker/ui/screens/AddExpenseScreen.kt:493-501 | with a name typed: the pending custom category is in the refreshed list (no fault), the dialog resets and closes, the entry fields stay |
| EntryForm.AddExpenseForm.DismissAddCategory | app/src/main/java/com/rudy/expensetracker/ui/screens/AddExpenseScreen.kt:505-510 | the dialog resets and closes |
| EntryForm.SaveMovesTotals | app/src/main/java/com/rudy/expensetracker/ui/screens/AddExpenseScreen.kt:341 | a saved new entry raises income by the value for type 0, otherwise lowers expense by it |
| Preferences.ReadBack | app/src/main/java/com/rudy/expensetracker/utils/PreferenceManager.kt:10-32 | a key reads back what was put under it; other keys keep their readings; an empty file reads as the defaults |
| Preferences.PreferenceManager.constructor | app/src/main/java/com/rudy/expensetracker/utils/PreferenceManager.kt:8 | a fresh file reads "", "" and false |
| Preferences.PreferenceManager.SetUserName | app/src/main/java/com/rudy/expensetracker/utils/PreferenceManager.kt:10-12 | the name reads back; e-mail and flag unchanged |
| Preferences.PreferenceManager.SetUserEmail | app/src/main/java/com/rudy/expensetracker/utils/PreferenceManager.kt:18-20 | the e-mail reads back; name and flag unchanged |
| Preferences.PreferenceManager.SetUserLoginStatus | app/src/main/java/com/rudy/expensetracker/utils/PreferenceManager.kt:26-28 | the flag reads back; name and e-mail unchanged |
| Preferences.PreferenceManager.ClearUserData | app/src/main/java/com/rudy/expensetracker/utils/PreferenceManager.kt:34-36 | every key removed; all readings back at their defaults |
| Session.NameFromEmailSpec | app/src/main/java/com/rudy/expensetracker/utils/AuthManager.kt:34-42 | the derived name is the local part before the first '@', with only a lowercase first letter capitalised |
| Session.NameFromAddress | app/src/main/java/com/rudy/expensetracker/utils/AuthManager.kt:37-41 | for `local@domain` with no '@' in `local`, the name is `local` capitalised |
| Session.NameFromEmailLowercase | app/src/test/java/com/rudy/expensetracker/utils/AuthManagerTest.kt:103-109 | "john.doe@example.com" gives "John.doe" |
| Session.NameFromEmailCapital | app/src/test/java/com/rudy/expensetracker/utils/AuthManagerTest.kt:111-117 | "Bob@example.com" gives "Bob" |
| Session.AuthManager.Login | app/src/main/java/com/rudy/expensetracker/utils/AuthManager.kt:13-17 | logged in with that e-mail and name (default "User"); the greeting name is the name, or derived from the e-mail when it is empty |
| Session.AuthManager.Logout | app/src/main/java/com/rudy/expensetracker/utils/AuthManager.kt:19-28 | logged out, preferences empty, both tables empty, counters kept |
| AuthScreen.Sanitize | app/src/main/java/com/rudy/expensetracker/ui/screens/AuthScreen.kt:90 | '.' and '-' become '_', every other character kept |
| AuthScreen.AutoUserNameSpec | app/src/main/java/com/rudy/expensetracker/ui/screens/AuthScreen.kt:88-94 | "" without an '@'; otherwise as long as the local part, free of '.', '-' and '@', equal to it elsewhere |
| AuthScreen.AutoUserNameOfAddress | app/src/main/java/com/rudy/expensetracker/ui/screens/AuthScreen.kt:88-94 | for `local@domain` with no '@' in `local`, the suggestion is `local` with '.' and '-' replaced by '_' |
| AuthScreen.AutoUserNameExample | app/src/main/java/com/rudy/expensetracker/ui/screens/AuthScreen.kt:88-94 | "jo.d-s@x.com" suggests "jo_d_s" |
| AuthScreen.AuthFormState.HandleAuthentication | app/src/main/java/com/rudy/expensetracker/ui/screens/AuthScreen.kt:563-601 | the checks in order, each failure setting exactly its message and leaving loading alone; proceeds iff all pass, then loading with no message |
| AuthScreen.SignInName | app/src/main/java/com/rudy/expensetracker/ui/screens/AuthScreen.kt:612 | the typed name, or "User" for an empty one |
| AuthScreen.SignUpName | app/src/main/java/com/rudy/expensetracker/ui/screens/AuthScreen.kt:621-623 | the typed name, or the sanitised local part |
| AuthScreen.SignUpKeepsSuggestion | app/src/main/java/com/rudy/expensetracker/ui/screens/AuthScreen.kt:621-623 | keeping the suggestion records exactly the suggestion |
| AuthScreen.CompleteAuthentication | app/src/main/java/com/rudy/expensetracker/ui/screens/AuthScreen.kt:607-630 | after success: logged in, the account's e-mail (or the typed one), and the sign-in or sign-up name |

## Left out

- Compose rendering: layouts, dialogs' looks, the pie chart, responsive sizing. For the dashboard, "landscape or foldable" is one boolean input.
- Coroutines and flows: `viewModelScope.launch`, `StateFlow`, Room's `Flow` queries and the logout clean-up on `Dispatchers.IO` are modelled as finishing at once, in call order. Races between them are not modelled.
- `TransactionViewmodel.kt` and `TransactionRepository.kt`: both hand each row to the DAO unchanged. The entry form therefore writes to the store directly.
- Room's generated code: tables and replace/abort conflicts are modelled. Indices and the SQL evaluator are not.
- SQL `SUM` over no rows is read as 0 rather than NULL.
- Queries.Join: requires every transaction's category row to exist. What Room's `@Relation` does with an orphaned row (a deleted category) is generated code and is not modelled.
- Queries.AllExpenses: requires every category row to exist, as `Join` does.
- Queries.TransactionsByMonthYear: requires every category row to exist. It also states which rows are returned but not their order (table order).
- Queries.ExpenseById: requires the matched row's category to exist; the orphan case is not modelled.
- The store's `GetAllExpenses` has the same requirement as `Queries.AllExpenses`.
- Ids and counters are unbounded integers. Overflow of SQLite's 64-bit rowid and of Kotlin's `Int` id is not modelled.
- Firebase: sign-in and sign-up requests, the profile update, a null current user, analytics and crash reporting. Only what the form does before the request and with a success is modelled. Error messages from a failed request and the final `onLoadingChange(false)` are not.
- The e-mail pattern (`Patterns.EMAIL_ADDRESS`) is a parameter.
- java.time and `SimpleDateFormat`: parsing and formatting are a parameter or an input. This covers `toReadableDate`, `LocalDate.now()` and `LocalTime.now()`. `ResolverStyle` details are part of the parameter.
- Floating point: amounts are exact reals. Rounding, `toString()` of a `Double` and `toDoubleOrNull` on general input are not modelled. `ParseAmount` reads only what the keypad can produce (digits with at most one '.'); any other text reads as no number.
- `Long.toColor()` and the icon catalogue (`IconManager`/`IconResolver`): statistics keep the icon name and the packed colour value.
- Characters are handled as single code points. There is no UTF-16 surrogate handling. Capitalisation is modelled for ASCII letters only, and `titlecase()` of other letters is not covered.
- The edit mode's prefill of the entry form (`LaunchedEffect(transactionToEdit)`, the date picker and its millisecond state) is not modelled. `EntryForm.AddExpenseForm.constructor` builds a new entry; an edit writes whatever the fields then hold.
- The list screen's delete dialog for transactions and the other screens (splash, detail, navigation) are not modelled.
- Dashboard and statistics totals use the modelled queries. The text they display is not modelled.
- EntryForm.AddExpenseForm.PressKey: runs the corrected keypad (`Keypad.KeypadStep`, the decimal key enters '.'), and so do the form's invariant and `OnSave`. The form's amount therefore never holds the decimal key's label, and the as-written refusal to save such an amount is stated apart, by `Keypad.BulletBlocksSave`, `Keypad.TwelveAndAHalfAsWritten`, `Keypad.BackspaceLeavesFragment` and `Keypad.AsWrittenUnbounded` on the as-written handler `Keypad.NextAmount`.
- EntryForm.AddExpenseForm.EditNewCategory: the name, icon and colour callbacks (`AddExpenseScreen.kt:486-490`, `512-515`) are one setter; the icon picker's open/closed flag is rendering and is not modelled.
- Exceptions part-way through a write: `fault` stands for a throw before any write. A throw between the inserts of the default seeding (`CategoryRepository.kt:45-47`), which leaves some of the defaults inserted, and a throw in the reload after a successful insert or delete, which leaves the table changed but the list old, are not modelled.

## Findings

| source | as written | input that shows it | evidently intended | confidence | as-written member | corrected member |
|---|---|---|---|---|---|---|
| app/src/main/java/com/rudy/expensetracker/ui/screens/AddExpenseScreen.kt:871-873 | after a digit, the decimal key appends its own label, which is not '.' (the source holds a mis-decoded bullet, the three characters U+00E2 U+20AC U+00A2), and `onSave` reads the amount with `toDoubleOrNull` | keys 1, 2, decimal, 5 give "12" + label + "5", which reads as null, so save is refused for every amount whose integer part was typed before the decimal key; only decimal on an empty amount gives "0." and a fraction that saves (`Keypad.HalfAsWrittenSaves`) | the key enters '.', giving "12.5", read as 12.5 | high, not executed | Keypad.TwelveAndAHalfAsWritten | Keypad.TwelveAndAHalfCorrected |
| app/src/main/java/com/rudy/expensetracker/ui/screens/AddExpenseScreen.kt:867-873 | backspace drops one character, and the decimal key's label is three, so a backspace after the decimal key leaves two label characters behind; the label is then no longer contained, so the decimal key appends it again | keys 1, 2, decimal, backspace give "12" and two label characters, which reads as null and cannot be saved; each further decimal and backspace adds two more characters, with no length bound | backspace after the decimal key gives back "12" | high, not executed | Keypad.BackspaceLeavesFragment | Keypad.BackspaceAfterPointCorrected |
