/**
 * The read queries of the two DAOs, as functions of a table snapshot (the
 * rows in ascending id order, which is the order SQLite scans them).
 */
module Queries {
  import opened Wrappers
  import opened Text
  import opened Seqs
  import opened Tables
  import opened Records

  // ---------------------------------------------------------------------------
  // SUM queries

  /** SQL `SUM(amount)`; an empty sum is read back as 0. */
  function Sum(rows: seq<Transaction>): real {
    if rows == [] then 0.0 else rows[0].amount + Sum(rows[1..])
  }

  predicate IsIncome(t: Transaction) { t.amount > 0.0 }
  predicate IsExpense(t: Transaction) { t.amount < 0.0 }

  /** The row filter of `getTodayExpense(currentDate)`. */
  function ExpenseOn(date: string): Transaction -> bool {
    (t: Transaction) => t.date == date && t.amount < 0.0
  }

  function TotalBalance(rows: seq<Transaction>): real { Sum(rows) }
  function TotalIncome(rows: seq<Transaction>): real { Sum(Filter(rows, IsIncome)) }
  function TotalExpense(rows: seq<Transaction>): real { Sum(Filter(rows, IsExpense)) }
  function TodayExpense(rows: seq<Transaction>, currentDate: string): real {
    Sum(Filter(rows, ExpenseOn(currentDate)))
  }

  lemma SumCons(x: Transaction, s: seq<Transaction>)
    ensures Sum([x] + s) == x.amount + Sum(s)
  {
    assert ([x] + s)[1..] == s;
  }

  lemma SumFilterStep(rows: seq<Transaction>, p: Transaction -> bool)
    requires rows != []
    ensures Sum(Filter(rows, p)) == (if p(rows[0]) then rows[0].amount else 0.0) + Sum(Filter(rows[1..], p))
  {
    if p(rows[0]) {
      SumCons(rows[0], Filter(rows[1..], p));
    } else {
      assert Filter(rows, p) == Filter(rows[1..], p);
    }
  }

  lemma {:induction false} SumAppend(a: seq<Transaction>, b: seq<Transaction>)
    ensures Sum(a + b) == Sum(a) + Sum(b)
  {
    if a == [] {
      assert a + b == b;
    } else {
      assert a + b == [a[0]] + (a[1..] + b);
      SumCons(a[0], a[1..] + b);
      SumAppend(a[1..], b);
    }
  }

  /** The balance is income plus expense: zero-amount rows count in neither. */
  lemma {:induction false} BalanceIsIncomePlusExpense(rows: seq<Transaction>)
    ensures TotalBalance(rows) == TotalIncome(rows) + TotalExpense(rows)
  {
    if rows != [] {
      BalanceIsIncomePlusExpense(rows[1..]);
      SumFilterStep(rows, IsIncome);
      SumFilterStep(rows, IsExpense);
    }
  }

  lemma {:induction false} IncomeNonNegative(rows: seq<Transaction>)
    ensures TotalIncome(rows) >= 0.0
    ensures TotalIncome(rows) == 0.0 <==> forall t :: t in rows ==> t.amount <= 0.0
  {
    if rows != [] {
      IncomeNonNegative(rows[1..]);
      SumFilterStep(rows, IsIncome);
      assert forall t :: t in rows <==> t == rows[0] || t in rows[1..];
    }
  }

  lemma {:induction false} ExpenseNonPositive(rows: seq<Transaction>)
    ensures TotalExpense(rows) <= 0.0
    ensures TotalExpense(rows) == 0.0 <==> forall t :: t in rows ==> t.amount >= 0.0
  {
    if rows != [] {
      ExpenseNonPositive(rows[1..]);
      SumFilterStep(rows, IsExpense);
      assert forall t :: t in rows <==> t == rows[0] || t in rows[1..];
    }
  }

  /** One day's spending lies between all spending and nothing. */
  lemma {:induction false} TodayExpenseBounds(rows: seq<Transaction>, currentDate: string)
    ensures TotalExpense(rows) <= TodayExpense(rows, currentDate) <= 0.0
  {
    if rows != [] {
      TodayExpenseBounds(rows[1..], currentDate);
      SumFilterStep(rows, IsExpense);
      SumFilterStep(rows, ExpenseOn(currentDate));
    }
  }

  // ---------------------------------------------------------------------------
  // getTransactionsByMonthYear

  /** `SUBSTR(date, 4, 2) = :month AND SUBSTR(date, 7, 4) = :year`. */
  predicate MatchesMonthYear(date: string, month: string, year: string) {
    Substr(date, 4, 2) == month && Substr(date, 7, 4) == year
  }

  function InMonthYear(month: string, year: string): Transaction -> bool {
    (t: Transaction) => MatchesMonthYear(t.date, month, year)
  }

  /**
   * For a two-character month and four-character year the query selects the
   * dates of at least ten characters whose characters 4-5 and 7-10 (1-based)
   * are those texts; anything shorter never matches.
   */
  lemma MonthYearSlots(date: string, month: string, year: string)
    requires |month| == 2 && |year| == 4
    ensures MatchesMonthYear(date, month, year) <==> |date| >= 10 && date[3..5] == month && date[6..10] == year
  {
  }

  /**
   * On the "dd MM yyyy" layout the query is exact: a date matches the
   * formatted month and year if and only if it carries that month and year.
   */
  lemma MonthYearOfDateText(day: int, month: int, year: int, qMonth: int, qYear: int)
    requires 0 <= day < 100 && 0 <= month < 100 && 1000 <= year < 10000
    requires 0 <= qMonth < 100 && 1000 <= qYear < 10000
    ensures MatchesMonthYear(DateText(day, month, year), Format02(qMonth), NatToString(qYear))
            <==> month == qMonth && year == qYear
  {
    var d := DateText(day, month, year);
    assert d[3..5] == Format02(month);
    assert d[6..10] == NatToString(year);
    MonthYearSlots(d, Format02(qMonth), NatToString(qYear));
    if d[3..5] == Format02(qMonth) { Format02Injective(month, qMonth); }
    if d[6..10] == NatToString(qYear) { NatToStringInjective(year, qYear); }
  }

  /**
   * `getRandomDate()` texts are found by the month query only when the day
   * has two digits: a one-digit day shifts the slots and the text is too short.
   */
  lemma MonthYearOfRandomDate(day: int, month: int, qMonth: string, qYear: string)
    requires 1 <= day < 28 && 1 <= month < 12
    requires |qMonth| == 2 && |qYear| == 4
    ensures MatchesMonthYear(RandomDate(day, month), qMonth, qYear)
            <==> day >= 10 && qMonth == Format02(month) && qYear == "2025"
  {
    var r := RandomDate(day, month);
    RandomDateFields(day, month);
    MonthYearSlots(r, qMonth, qYear);
    if day >= 10 {
      assert r[3..5] == Format02(month);
      assert r[6..10] == "2025";
    }
  }

  lemma MonthYearExamples()
    ensures MatchesMonthYear("05 08 2025", "08", "2025")
    ensures !MatchesMonthYear("05 8 2025", "08", "2025")
    ensures !MatchesMonthYear("05 08 2024", "08", "2025")
  {
    MonthYearSlots("05 08 2025", "08", "2025");
    MonthYearSlots("05 8 2025", "08", "2025");
    MonthYearSlots("05 08 2024", "08", "2025");
    assert "05 8 2025"[3..5] == "8 ";
    assert "05 08 2024"[6..10] == "2024";
  }

  // ---------------------------------------------------------------------------
  // The relation and ordering

  ghost predicate AllRelated(rows: seq<Transaction>, categories: seq<CategoryEntity>) {
    forall t :: t in rows ==> HasKey(categories, t.category, CategoryKey)
  }

  /** The `@Relation`: the transaction with the category row its `category` names. */
  function Relate(t: Transaction, categories: seq<CategoryEntity>): (r: TransactionWithCategory)
    requires HasKey(categories, t.category, CategoryKey)
    ensures r.transaction == t && IsJoinOf(r, categories)
  {
    TransactionWithCategory(t, FindByKey(categories, t.category, CategoryKey).value)
  }

  /** Loads each row's category, row by row. */
  function Join(rows: seq<Transaction>, categories: seq<CategoryEntity>): (r: seq<TransactionWithCategory>)
    requires AllRelated(rows, categories)
    ensures |r| == |rows|
    ensures forall i :: 0 <= i < |rows| ==> r[i].transaction == rows[i] && IsJoinOf(r[i], categories)
  {
    if rows == [] then []
    else
      assert rows[0] in rows;
      [Relate(rows[0], categories)] + Join(rows[1..], categories)
  }

  function DateOf(t: Transaction): string { t.date }

  /** `ORDER BY date DESC` on the text: descending BINARY order, ties in table order. */
  function ByDateDesc(rows: seq<Transaction>): seq<Transaction> {
    SortDesc(rows, DateOf, LexLeq)
  }

  lemma LexLeqIsTotalPreorder()
    ensures TotalPreorder(LexLeq)
  {
    forall a, b ensures LexLeq(a, b) || LexLeq(b, a) { LexLeqTotal(a, b); }
    forall a, b, c | LexLeq(a, b) && LexLeq(b, c) ensures LexLeq(a, c) { LexLeqTransitive(a, b, c); }
  }

  function OnDate(date: string): Transaction -> bool {
    (t: Transaction) => t.date == date
  }

  /**
   * `getAllExpenses` orders its rows: the same rows, latest text first, and
   * rows sharing one date text keep their table order.
   */
  lemma ByDateDescSpec(rows: seq<Transaction>, date: string)
    ensures multiset(ByDateDesc(rows)) == multiset(rows)
    ensures SortedDesc(ByDateDesc(rows), DateOf, LexLeq)
    ensures Filter(ByDateDesc(rows), OnDate(date)) == Filter(rows, OnDate(date))
  {
    LexLeqIsTotalPreorder();
    SortDescPermutation(rows, DateOf, LexLeq);
    SortDescSorted(rows, DateOf, LexLeq);
    SortDescStable(rows, DateOf, LexLeq, date);
    forall t ensures OnDate(date)(t) == (LexLeq(DateOf(t), date) && LexLeq(date, DateOf(t))) {
      LexLeqTotal(t.date, t.date);
      if LexLeq(t.date, date) && LexLeq(date, t.date) { LexLeqAntisymmetric(t.date, date); }
    }
    RankClassIsFilter(ByDateDesc(rows), DateOf, LexLeq, date, OnDate(date));
    RankClassIsFilter(rows, DateOf, LexLeq, date, OnDate(date));
  }

  /**
   * The order is on text, not on time: of "01 12 2025" and "31 01 2025" the
   * January date is listed first.
   */
  lemma ByDateDescIsNotChronological(early: Transaction, late: Transaction)
    requires early.date == "31 01 2025" && late.date == "01 12 2025"
    ensures ByDateDesc([late, early]) == [early, late]
  {
    assert LexLeq("01 12 2025", "31 01 2025");
    assert !LexLeq("31 01 2025", "01 12 2025");
    assert [late, early][1..] == [early] && [early][1..] == [];
    assert SortDesc([early], DateOf, LexLeq) == [early];
    assert [early][1..] == [] && InsertDesc(late, [], DateOf, LexLeq) == [late];
    assert InsertDesc(late, [early], DateOf, LexLeq) == [early, late];
  }

  /** `getAllExpenses`: every row with its category, in `ByDateDesc` order. */
  function AllExpenses(rows: seq<Transaction>, categories: seq<CategoryEntity>): (r: seq<TransactionWithCategory>)
    requires AllRelated(rows, categories)
    ensures |r| == |rows|
    ensures forall i :: 0 <= i < |rows| ==> r[i].transaction == ByDateDesc(rows)[i] && IsJoinOf(r[i], categories)
  {
    SortDescPermutation(rows, DateOf, LexLeq);
    assert forall t :: t in ByDateDesc(rows) ==> t in rows by {
      forall t | t in ByDateDesc(rows) ensures t in rows {
        assert t in multiset(ByDateDesc(rows));
      }
    }
    Join(ByDateDesc(rows), categories)
  }

  /** `getTransactionsByMonthYear(month, year)`: exactly the matching rows, in table order. */
  function TransactionsByMonthYear(rows: seq<Transaction>, categories: seq<CategoryEntity>,
                                   month: string, year: string): (r: seq<TransactionWithCategory>)
    requires AllRelated(rows, categories)
    ensures forall j :: j in r ==> j.transaction in rows && MatchesMonthYear(j.transaction.date, month, year)
    ensures forall j :: j in r ==> IsJoinOf(j, categories)
    ensures forall t :: t in rows && MatchesMonthYear(t.date, month, year) ==> exists j :: j in r && j.transaction == t
  {
    var sel := Filter(rows, InMonthYear(month, year));
    var r := Join(sel, categories);
    assert forall j :: j in r ==> j.transaction in sel && IsJoinOf(j, categories) by {
      forall j | j in r ensures j.transaction in sel && IsJoinOf(j, categories) {
        var i :| 0 <= i < |r| && r[i] == j;
      }
    }
    assert forall t :: t in sel ==> exists j :: j in r && j.transaction == t by {
      forall t | t in sel ensures exists j :: j in r && j.transaction == t {
        var i :| 0 <= i < |sel| && sel[i] == t;
        assert r[i] in r;
      }
    }
    r
  }

  /** `getExpenseById(id)`: the row with that id and its category, or `None`. */
  function ExpenseById(rows: seq<Transaction>, categories: seq<CategoryEntity>, id: int): (r: Option<TransactionWithCategory>)
    requires AllRelated(rows, categories)
    ensures r.None? <==> !HasKey(rows, id, TransactionKey)
    ensures r.Some? ==> r.value.transaction in rows && r.value.transaction.id == id && IsJoinOf(r.value, categories)
  {
    match FindByKey(rows, id, TransactionKey)
    case None => None
    case Some(t) => Some(Relate(t, categories))
  }

  // ---------------------------------------------------------------------------
  // Category queries

  function CustomRank(c: CategoryEntity): int { if c.isCustom then 1 else 0 }

  predicate IntLeq(a: int, b: int) { a <= b }

  predicate IsCustomCategory(c: CategoryEntity) { c.isCustom }

  predicate IsBuiltInCategory(c: CategoryEntity) { !c.isCustom }

  /** The custom rows, in table order. */
  function CustomCategories(categories: seq<CategoryEntity>): seq<CategoryEntity> {
    if categories == [] then []
    else (if categories[0].isCustom then [categories[0]] else []) + CustomCategories(categories[1..])
  }

  /** The built-in rows, in table order. */
  function BuiltInCategories(categories: seq<CategoryEntity>): seq<CategoryEntity> {
    if categories == [] then []
    else (if categories[0].isCustom then [] else [categories[0]]) + BuiltInCategories(categories[1..])
  }

  /** `ORDER BY isCustom DESC`: custom categories first, ties in table order. */
  function AllCategories(categories: seq<CategoryEntity>): seq<CategoryEntity> {
    CustomCategories(categories) + BuiltInCategories(categories)
  }

  /** The custom part holds only custom rows and the built-in part only built-in rows. */
  lemma {:induction false} CategoryKinds(categories: seq<CategoryEntity>)
    ensures forall c :: c in CustomCategories(categories) ==> c.isCustom
    ensures forall c :: c in BuiltInCategories(categories) ==> !c.isCustom
  {
    if categories != [] {
      CategoryKinds(categories[1..]);
      CustomCategoriesCons(categories);
      BuiltInCategoriesCons(categories);
    }
  }

  lemma {:induction false} CustomCategoriesIsFilter(categories: seq<CategoryEntity>)
    ensures CustomCategories(categories) == Filter(categories, IsCustomCategory)
  {
    if categories != [] {
      CustomCategoriesIsFilter(categories[1..]);
    }
  }

  lemma {:induction false} BuiltInCategoriesIsFilter(categories: seq<CategoryEntity>)
    ensures BuiltInCategories(categories) == Filter(categories, IsBuiltInCategory)
  {
    if categories != [] {
      BuiltInCategoriesIsFilter(categories[1..]);
    }
  }

  /** Every row is in exactly one of the two parts. */
  lemma {:induction false} SplitByKind(categories: seq<CategoryEntity>)
    ensures multiset(CustomCategories(categories)) + multiset(BuiltInCategories(categories)) == multiset(categories)
  {
    if categories != [] {
      var x, tail := categories[0], categories[1..];
      SplitByKind(tail);
      assert categories == [x] + tail;
      if x.isCustom {
        assert CustomCategories(categories) == [x] + CustomCategories(tail);
        assert BuiltInCategories(categories) == BuiltInCategories(tail);
      } else {
        assert CustomCategories(categories) == CustomCategories(tail);
        assert BuiltInCategories(categories) == [x] + BuiltInCategories(tail);
      }
    }
  }

  /** A built-in row goes right after the custom ones, ahead of the other built-in rows. */
  lemma {:induction false} InsertBuiltIn(x: CategoryEntity, customs: seq<CategoryEntity>, builtIns: seq<CategoryEntity>)
    requires !x.isCustom && forall c :: c in customs ==> c.isCustom
    requires forall c :: c in builtIns ==> !c.isCustom
    ensures InsertDesc(x, customs + builtIns, CustomRank, IntLeq) == customs + [x] + builtIns
  {
    var s := customs + builtIns;
    if customs != [] {
      assert s[0] == customs[0] && s[1..] == customs[1..] + builtIns;
      assert !IntLeq(CustomRank(s[0]), CustomRank(x));
      assert InsertDesc(x, s, CustomRank, IntLeq) == [s[0]] + InsertDesc(x, s[1..], CustomRank, IntLeq);
      InsertBuiltIn(x, customs[1..], builtIns);
      assert customs == [customs[0]] + customs[1..];
    } else {
      assert s == builtIns;
      assert builtIns != [] ==> IntLeq(CustomRank(builtIns[0]), CustomRank(x));
    }
  }

  /** A custom row goes in front of everything. */
  lemma InsertCustom(x: CategoryEntity, s: seq<CategoryEntity>)
    requires x.isCustom
    ensures InsertDesc(x, s, CustomRank, IntLeq) == [x] + s
  {
    assert s != [] ==> IntLeq(CustomRank(s[0]), CustomRank(x));
  }

  /** One step of `CustomCategories`: the head is kept iff it is custom. */
  lemma CustomCategoriesCons(categories: seq<CategoryEntity>)
    requires categories != []
    ensures CustomCategories(categories) ==
      if categories[0].isCustom then [categories[0]] + CustomCategories(categories[1..]) else CustomCategories(categories[1..])
  {
  }

  /** One step of `BuiltInCategories`: the head is kept iff it is built in. */
  lemma BuiltInCategoriesCons(categories: seq<CategoryEntity>)
    requires categories != []
    ensures BuiltInCategories(categories) ==
      if categories[0].isCustom then BuiltInCategories(categories[1..]) else [categories[0]] + BuiltInCategories(categories[1..])
  {
  }

  /** One step of the split: the head joins the custom part or the built-in part. */
  lemma AllCategoriesCons(categories: seq<CategoryEntity>)
    requires categories != []
    ensures var x, c, b := categories[0], CustomCategories(categories[1..]), BuiltInCategories(categories[1..]);
      AllCategories(categories) == if x.isCustom then [x] + (c + b) else c + [x] + b
  {
    CustomCategoriesCons(categories);
    BuiltInCategoriesCons(categories);
  }

  /** The list is the stable descending sort by `isCustom`, with ties in table order. */
  lemma {:induction false} AllCategoriesIsStableSort(categories: seq<CategoryEntity>)
    ensures AllCategories(categories) == SortDesc(categories, CustomRank, IntLeq)
  {
    if categories != [] {
      var x, tail := categories[0], categories[1..];
      AllCategoriesIsStableSort(tail);
      var c, b := CustomCategories(tail), BuiltInCategories(tail);
      CategoryKinds(tail);
      assert SortDesc(categories, CustomRank, IntLeq) == InsertDesc(x, c + b, CustomRank, IntLeq);
      AllCategoriesCons(categories);
      if x.isCustom {
        InsertCustom(x, c + b);
      } else {
        InsertBuiltIn(x, c, b);
      }
    }
  }

  /** In `customs + builtIns`, the positions before the split hold custom rows and those after built-in rows. */
  lemma KindsByPosition(customs: seq<CategoryEntity>, builtIns: seq<CategoryEntity>)
    requires forall c :: c in customs ==> c.isCustom
    requires forall c :: c in builtIns ==> !c.isCustom
    ensures forall k :: 0 <= k < |customs + builtIns| ==> ((customs + builtIns)[k].isCustom <==> k < |customs|)
  {
    var r := customs + builtIns;
    forall k | 0 <= k < |r| ensures r[k].isCustom <==> k < |customs| {
      if k < |customs| {
        assert r[k] == customs[k];
      } else {
        assert r[k] == builtIns[k - |customs|];
      }
    }
  }

  lemma AllCategoriesSpec(categories: seq<CategoryEntity>)
    ensures multiset(AllCategories(categories)) == multiset(categories)
    ensures var r := AllCategories(categories);
      forall i, j :: 0 <= i < j < |r| && r[j].isCustom ==> r[i].isCustom
    ensures Filter(AllCategories(categories), IsCustomCategory) == Filter(categories, IsCustomCategory)
    ensures Filter(AllCategories(categories), IsBuiltInCategory) == Filter(categories, IsBuiltInCategory)
  {
    var c, b := CustomCategories(categories), BuiltInCategories(categories);
    CategoryKinds(categories);
    SplitByKind(categories);
    CustomCategoriesIsFilter(categories);
    BuiltInCategoriesIsFilter(categories);
    KindsByPosition(c, b);
    FilterAppend(c, b, IsCustomCategory);
    FilterAppend(c, b, IsBuiltInCategory);
    FilterKeepsAll(c, IsCustomCategory);
    FilterKeepsAll(b, IsBuiltInCategory);
    FilterNone(c, IsBuiltInCategory);
    FilterNone(b, IsCustomCategory);
  }

  /** The list shows exactly the table's rows. */
  lemma {:induction false} AllCategoriesMembers(categories: seq<CategoryEntity>, c: CategoryEntity)
    ensures c in AllCategories(categories) <==> c in categories
  {
    if categories != [] {
      AllCategoriesMembers(categories[1..], c);
      assert categories == [categories[0]] + categories[1..];
    }
  }

  function Named(name: string): CategoryEntity -> bool {
    (c: CategoryEntity) => c.name == name
  }

  /** `getCategoryByName(name)` with `LIMIT 1`: the first row in table order with that name. */
  function CategoryByName(categories: seq<CategoryEntity>, name: string): (r: Option<CategoryEntity>)
    ensures r.Some? ==> r.value in categories && r.value.name == name
    ensures r.None? <==> forall c :: c in categories ==> c.name != name
    ensures r == (if Filter(categories, Named(name)) == [] then None else Some(Filter(categories, Named(name))[0]))
  {
    if categories == [] then None
    else if categories[0].name == name then Some(categories[0])
    else
      assert forall c :: c in categories <==> c == categories[0] || c in categories[1..];
      CategoryByName(categories[1..], name)
  }
}
