/**
 * The statistics screen's data: `toExpenseStatistics()` groups the month's
 * rows by category (first occurrence first) and gives each group its total
 * absolute amount and its share of the overall absolute amount; the screen
 * then filters by transaction type before grouping and sorts the groups.
 */
module Statistics {
  import opened Text
  import opened Seqs
  import opened Records

  /** A Kotlin `Double` quotient: a real ratio, or NaN for 0 / 0. */
  datatype Percentage = Ratio(value: real) | NotANumber

  /**
   * One row of the breakdown. The icon is kept by name (the lookup in the
   * icon catalogue is outside the model) and the colour as its packed value.
   */
  datatype ExpenseStatistic = ExpenseStatistic(
    category: string,
    amount: real,
    percentage: Percentage,
    iconName: string,
    colorValue: int)

  function AbsReal(x: real): (r: real)
    ensures r >= 0.0 && (r == x || r == -x)
  {
    if x < 0.0 then -x else x
  }

  /** `sumOf { abs(it.transaction.amount) }`. */
  function AbsTotal(js: seq<TransactionWithCategory>): (t: real)
    ensures t >= 0.0
  {
    if js == [] then 0.0 else AbsReal(js[0].transaction.amount) + AbsTotal(js[1..])
  }

  function CategoriesOf(js: seq<TransactionWithCategory>): (r: seq<CategoryEntity>)
    ensures |r| == |js| && forall i :: 0 <= i < |js| ==> r[i] == js[i].category
  {
    if js == [] then [] else [js[0].category] + CategoriesOf(js[1..])
  }

  function InCategory(c: CategoryEntity): TransactionWithCategory -> bool {
    (j: TransactionWithCategory) => j.category == c
  }

  /** The total absolute amount of the rows grouped under `c`. */
  function GroupSum(js: seq<TransactionWithCategory>, c: CategoryEntity): real {
    AbsTotal(Filter(js, InCategory(c)))
  }

  /** `(sum / total) * 100.0`. */
  function PercentOf(sum: real, total: real): Percentage {
    if total == 0.0 then NotANumber else Ratio(sum / total * 100.0)
  }

  /** One statistic per key, in key order. */
  function StatisticsFor(keys: seq<CategoryEntity>, js: seq<TransactionWithCategory>, total: real): (r: seq<ExpenseStatistic>)
    ensures |r| == |keys|
    ensures forall i :: 0 <= i < |keys| ==>
      r[i] == ExpenseStatistic(keys[i].name, GroupSum(js, keys[i]), PercentOf(GroupSum(js, keys[i]), total),
                               keys[i].iconName, keys[i].colorValue)
  {
    if keys == [] then []
    else
      var sum := GroupSum(js, keys[0]);
      [ExpenseStatistic(keys[0].name, sum, PercentOf(sum, total), keys[0].iconName, keys[0].colorValue)]
        + StatisticsFor(keys[1..], js, total)
  }

  /** `toExpenseStatistics()`. */
  function ToExpenseStatistics(js: seq<TransactionWithCategory>): seq<ExpenseStatistic> {
    if js == [] then [] else StatisticsFor(Distinct(CategoriesOf(js)), js, AbsTotal(js))
  }

  // ---------------------------------------------------------------------------
  // Properties of the grouping

  function SumAmounts(stats: seq<ExpenseStatistic>): real {
    if stats == [] then 0.0 else stats[0].amount + SumAmounts(stats[1..])
  }

  /** The sum of the real percentages (a NaN adds nothing). */
  function SumPercentages(stats: seq<ExpenseStatistic>): real {
    if stats == [] then 0.0
    else (if stats[0].percentage.Ratio? then stats[0].percentage.value else 0.0) + SumPercentages(stats[1..])
  }

  lemma AbsTotalCons(j: TransactionWithCategory, rest: seq<TransactionWithCategory>)
    ensures AbsTotal([j] + rest) == AbsReal(j.transaction.amount) + AbsTotal(rest)
  {
    assert ([j] + rest)[1..] == rest;
  }

  lemma GroupSumCons(j: TransactionWithCategory, rest: seq<TransactionWithCategory>, c: CategoryEntity)
    ensures GroupSum([j] + rest, c) == (if j.category == c then AbsReal(j.transaction.amount) else 0.0) + GroupSum(rest, c)
  {
    var s := [j] + rest;
    assert s[0] == j && s[1..] == rest;
    if j.category == c {
      assert Filter(s, InCategory(c)) == [j] + Filter(rest, InCategory(c));
      AbsTotalCons(j, Filter(rest, InCategory(c)));
    } else {
      assert Filter(s, InCategory(c)) == Filter(rest, InCategory(c));
    }
  }

  lemma {:induction false} FilterAbsTotalBound(js: seq<TransactionWithCategory>, p: TransactionWithCategory -> bool)
    ensures AbsTotal(Filter(js, p)) <= AbsTotal(js)
  {
    if js != [] {
      FilterAbsTotalBound(js[1..], p);
      if p(js[0]) {
        assert Filter(js, p) == [js[0]] + Filter(js[1..], p);
        AbsTotalCons(js[0], Filter(js[1..], p));
      } else {
        assert Filter(js, p) == Filter(js[1..], p);
      }
    }
  }

  function SumGroups(keys: seq<CategoryEntity>, js: seq<TransactionWithCategory>): real {
    if keys == [] then 0.0 else GroupSum(js, keys[0]) + SumGroups(keys[1..], js)
  }

  lemma NoDuplicatesTail(keys: seq<CategoryEntity>)
    requires keys != [] && NoDuplicates(keys)
    ensures NoDuplicates(keys[1..]) && keys[0] !in keys[1..]
  {
    forall i, j | 0 <= i < j < |keys[1..]| ensures keys[1..][i] != keys[1..][j] {
      assert keys[1..][i] == keys[i + 1] && keys[1..][j] == keys[j + 1];
    }
    forall i | 0 <= i < |keys[1..]| ensures keys[1..][i] != keys[0] {
      assert keys[1..][i] == keys[i + 1];
    }
  }

  /** A row adds its absolute amount to the group of its category, if that is a key, once. */
  lemma {:induction false} SumGroupsCons(keys: seq<CategoryEntity>, j: TransactionWithCategory, rest: seq<TransactionWithCategory>)
    requires NoDuplicates(keys)
    ensures SumGroups(keys, [j] + rest) ==
      (if j.category in keys then AbsReal(j.transaction.amount) else 0.0) + SumGroups(keys, rest)
  {
    if keys != [] {
      NoDuplicatesTail(keys);
      GroupSumCons(j, rest, keys[0]);
      SumGroupsCons(keys[1..], j, rest);
      assert j.category in keys <==> j.category == keys[0] || j.category in keys[1..];
    }
  }

  /** Grouping under distinct keys that cover every row splits the total without loss. */
  lemma {:induction false} SumGroupsPartition(keys: seq<CategoryEntity>, js: seq<TransactionWithCategory>)
    requires NoDuplicates(keys)
    requires forall j :: j in js ==> j.category in keys
    ensures SumGroups(keys, js) == AbsTotal(js)
  {
    if js == [] {
      SumGroupsEmpty(keys);
    } else {
      assert js == [js[0]] + js[1..];
      SumGroupsCons(keys, js[0], js[1..]);
      SumGroupsPartition(keys, js[1..]);
      AbsTotalCons(js[0], js[1..]);
    }
  }

  lemma {:induction false} SumGroupsEmpty(keys: seq<CategoryEntity>)
    ensures SumGroups(keys, []) == 0.0
  {
    if keys != [] { SumGroupsEmpty(keys[1..]); }
  }

  lemma ShareAdd(a: real, b: real, total: real)
    requires total > 0.0
    ensures a / total * 100.0 + b / total * 100.0 == (a + b) / total * 100.0
  {
  }

  lemma ShareBound(g: real, total: real)
    requires 0.0 <= g <= total && total > 0.0
    ensures 0.0 <= g / total * 100.0 <= 100.0
  {
    assert g / total <= 1.0;
  }

  lemma WholeShare(total: real)
    requires total > 0.0
    ensures total / total * 100.0 == 100.0
  {
  }

  lemma {:induction false} SumAmountsFor(keys: seq<CategoryEntity>, js: seq<TransactionWithCategory>, total: real)
    ensures SumAmounts(StatisticsFor(keys, js, total)) == SumGroups(keys, js)
  {
    if keys != [] {
      SumAmountsFor(keys[1..], js, total);
      var r := StatisticsFor(keys, js, total);
      assert r[1..] == StatisticsFor(keys[1..], js, total);
    }
  }

  lemma {:induction false} SumPercentagesFor(keys: seq<CategoryEntity>, js: seq<TransactionWithCategory>, total: real)
    requires total > 0.0
    ensures SumPercentages(StatisticsFor(keys, js, total)) == SumGroups(keys, js) / total * 100.0
  {
    if keys == [] {
      assert 0.0 / total == 0.0;
    } else {
      SumPercentagesFor(keys[1..], js, total);
      var r := StatisticsFor(keys, js, total);
      assert r[1..] == StatisticsFor(keys[1..], js, total);
      ShareAdd(GroupSum(js, keys[0]), SumGroups(keys[1..], js), total);
    }
  }

  /**
   * `toExpenseStatistics()`: no rows give no statistics; otherwise one
   * statistic per distinct category, in the order the categories first
   * appear, labelled with the category's name and carrying its icon and
   * colour, with a non-negative amount that is the absolute total of the
   * category's rows.
   */
  lemma StatisticsShape(js: seq<TransactionWithCategory>)
    ensures var r, keys := ToExpenseStatistics(js), Distinct(CategoriesOf(js));
      && (js == [] <==> r == [])
      && |r| == |keys|
      && (forall c :: c in keys <==> exists j :: j in js && j.category == c)
      && (forall i, k :: 0 <= i < k < |keys| ==> FirstIndex(CategoriesOf(js), keys[i]) < FirstIndex(CategoriesOf(js), keys[k]))
      && (forall i :: 0 <= i < |r| ==>
            r[i].category == keys[i].name && r[i].iconName == keys[i].iconName && r[i].colorValue == keys[i].colorValue
            && r[i].amount == GroupSum(js, keys[i]) && r[i].amount >= 0.0)
  {
    var cats, keys := CategoriesOf(js), Distinct(CategoriesOf(js));
    if js != [] {
      assert cats[0] in keys;
    }
    forall c ensures c in keys <==> exists j :: j in js && j.category == c {
      if c in cats {
        var i :| 0 <= i < |cats| && cats[i] == c;
        assert js[i] in js;
      }
    }
    forall i, k | 0 <= i < k < |keys| ensures FirstIndex(cats, keys[i]) < FirstIndex(cats, keys[k]) {
      DistinctOrder(cats, i, k);
    }
  }

  /** The amounts add up to the overall absolute total. */
  lemma StatisticsAmountsSum(js: seq<TransactionWithCategory>)
    ensures SumAmounts(ToExpenseStatistics(js)) == AbsTotal(js)
  {
    if js != [] {
      var keys := Distinct(CategoriesOf(js));
      KeysCoverRows(js);
      SumAmountsFor(keys, js, AbsTotal(js));
      SumGroupsPartition(keys, js);
    }
  }

  lemma KeysCoverRows(js: seq<TransactionWithCategory>)
    ensures forall j :: j in js ==> j.category in Distinct(CategoriesOf(js))
  {
    forall j | j in js ensures j.category in Distinct(CategoriesOf(js)) {
      var i :| 0 <= i < |js| && js[i] == j;
      assert CategoriesOf(js)[i] == j.category;
    }
  }

  /** With some non-zero amount, every percentage is a real share between 0 and 100. */
  lemma StatisticsPercentagesBounded(js: seq<TransactionWithCategory>)
    requires AbsTotal(js) > 0.0
    ensures var r := ToExpenseStatistics(js);
      forall i :: 0 <= i < |r| ==> r[i].percentage.Ratio? && 0.0 <= r[i].percentage.value <= 100.0
  {
    var r, keys := ToExpenseStatistics(js), Distinct(CategoriesOf(js));
    forall i | 0 <= i < |r| ensures r[i].percentage.Ratio? && 0.0 <= r[i].percentage.value <= 100.0 {
      FilterAbsTotalBound(js, InCategory(keys[i]));
      ShareBound(GroupSum(js, keys[i]), AbsTotal(js));
    }
  }

  /** With some non-zero amount, the shares add up to 100. */
  lemma StatisticsPercentagesSum(js: seq<TransactionWithCategory>)
    requires AbsTotal(js) > 0.0
    ensures SumPercentages(ToExpenseStatistics(js)) == 100.0
  {
    var keys, total := Distinct(CategoriesOf(js)), AbsTotal(js);
    assert js != [];
    assert ToExpenseStatistics(js) == StatisticsFor(keys, js, total);
    KeysCoverRows(js);
    SumPercentagesFor(keys, js, total);
    SumGroupsPartition(keys, js);
    WholeShare(total);
  }

  /** When every amount is zero, each percentage is 0 / 0, NaN. */
  lemma StatisticsPercentagesUndefined(js: seq<TransactionWithCategory>)
    requires AbsTotal(js) == 0.0
    ensures var r := ToExpenseStatistics(js);
      forall i :: 0 <= i < |r| ==> r[i].percentage == NotANumber
  {
  }

  // ---------------------------------------------------------------------------
  // The statistics screen

  /** The screen's `TransactionType` selector. */
  datatype TransactionType = EXPENSE | INCOME | ALL

  function IsExpenseRow(j: TransactionWithCategory): bool { j.transaction.amount < 0.0 }
  function IsIncomeRow(j: TransactionWithCategory): bool { j.transaction.amount > 0.0 }

  function TypeFilter(js: seq<TransactionWithCategory>, t: TransactionType): seq<TransactionWithCategory> {
    match t
    case EXPENSE => Filter(js, IsExpenseRow)
    case INCOME => Filter(js, IsIncomeRow)
    case ALL => js
  }

  /** What each selector keeps: spending, earnings, or every row (zero amounts only under ALL). */
  lemma TypeFilterSpec(js: seq<TransactionWithCategory>, t: TransactionType)
    ensures t == EXPENSE ==> forall j :: j in TypeFilter(js, t) <==> j in js && j.transaction.amount < 0.0
    ensures t == INCOME ==> forall j :: j in TypeFilter(js, t) <==> j in js && j.transaction.amount > 0.0
    ensures t == ALL ==> TypeFilter(js, t) == js
  {
  }

  /**
   * The order `compareBy { it.amount >= 0 }.thenByDescending { it.amount }`
   * induces, as "`a` ranks no higher than `b`": negative amounts rank above
   * non-negative ones; within each part the larger amount ranks higher.
   */
  predicate StatLeq(a: real, b: real) {
    if (a < 0.0) != (b < 0.0) then a >= 0.0 else a <= b
  }

  function AmountOf(s: ExpenseStatistic): real { s.amount }

  /** The stable `sortedWith` of the screen. */
  function SortStatistics(stats: seq<ExpenseStatistic>): seq<ExpenseStatistic> {
    SortDesc(stats, AmountOf, StatLeq)
  }

  lemma StatLeqIsTotalPreorder()
    ensures TotalPreorder(StatLeq)
  {
  }

  lemma {:induction false} SumAmountsAppend(a: seq<ExpenseStatistic>, b: seq<ExpenseStatistic>)
    ensures SumAmounts(a + b) == SumAmounts(a) + SumAmounts(b)
  {
    if a == [] {
      assert a + b == b;
    } else {
      assert (a + b)[0] == a[0] && (a + b)[1..] == a[1..] + b;
      SumAmountsAppend(a[1..], b);
    }
  }

  lemma {:induction false} SortStatisticsSum(stats: seq<ExpenseStatistic>)
    ensures SumAmounts(SortStatistics(stats)) == SumAmounts(stats)
  {
    if stats != [] {
      SortStatisticsSum(stats[1..]);
      var r := SortStatistics(stats[1..]);
      var k := InsertPosition(stats[0], r, AmountOf, StatLeq);
      SumAmountsAppend(r[..k] + [stats[0]], r[k..]);
      SumAmountsAppend(r[..k], [stats[0]]);
      SumAmountsAppend(r[..k], r[k..]);
      assert r == r[..k] + r[k..];
    }
  }

  /**
   * The sort keeps the statistics (and their total), lists negative amounts
   * first, and orders by amount, largest first, within each sign; since the
   * grouping only produces non-negative amounts, its rows come out largest
   * first.
   */
  lemma SortStatisticsSpec(stats: seq<ExpenseStatistic>)
    ensures var r := SortStatistics(stats);
      && multiset(r) == multiset(stats)
      && SumAmounts(r) == SumAmounts(stats)
      && (forall i, j :: 0 <= i < j < |r| && r[j].amount < 0.0 ==> r[i].amount < 0.0)
      && (forall i, j :: 0 <= i < j < |r| && (r[i].amount < 0.0) == (r[j].amount < 0.0) ==> r[i].amount >= r[j].amount)
  {
    StatLeqIsTotalPreorder();
    SortDescPermutation(stats, AmountOf, StatLeq);
    SortDescSorted(stats, AmountOf, StatLeq);
    SortStatisticsSum(stats);
    var r := SortStatistics(stats);
    forall i, j | 0 <= i < j < |r| ensures StatLeq(r[j].amount, r[i].amount) {
      assert StatLeq(AmountOf(r[j]), AmountOf(r[i]));
    }
  }

  /** `statisticsData`: filter by type, group, sort. */
  function StatisticsData(filtered: seq<TransactionWithCategory>, t: TransactionType): seq<ExpenseStatistic> {
    SortStatistics(ToExpenseStatistics(TypeFilter(filtered, t)))
  }

  /**
   * The screen's headline: the displayed total is the absolute total of
   * the rows of the selected type, the categories are listed largest
   * amount first, and there is one card per distinct category.
   */
  lemma StatisticsDataSpec(filtered: seq<TransactionWithCategory>, t: TransactionType)
    ensures var r, rows := StatisticsData(filtered, t), TypeFilter(filtered, t);
      && SumAmounts(r) == AbsTotal(rows)
      && |r| == |Distinct(CategoriesOf(rows))|
      && (forall i, j :: 0 <= i < j < |r| ==> r[i].amount >= r[j].amount)
  {
    var rows := TypeFilter(filtered, t);
    var stats := ToExpenseStatistics(rows);
    StatisticsShape(rows);
    StatisticsAmountsSum(rows);
    SortStatisticsSpec(stats);
    var r := SortStatistics(stats);
    forall x | x in r ensures x.amount >= 0.0 {
      assert x in multiset(stats);
      var i :| 0 <= i < |stats| && stats[i] == x;
    }
    forall i, j | 0 <= i < j < |r| ensures r[i].amount >= r[j].amount {
      assert r[i] in r && r[j] in r;
    }
    assert |multiset(r)| == |multiset(stats)|;
  }

  /** `getMonthName`. */
  function MonthName(month: int): (r: string)
    ensures 1 <= month <= 12 <==> r != "Unknown"
  {
    match month
    case 1 => "January"
    case 2 => "February"
    case 3 => "March"
    case 4 => "April"
    case 5 => "May"
    case 6 => "June"
    case 7 => "July"
    case 8 => "August"
    case 9 => "September"
    case 10 => "October"
    case 11 => "November"
    case 12 => "December"
    case _ => "Unknown"
  }

  lemma MonthNameInjective(m: int, n: int)
    requires 1 <= m <= 12 && 1 <= n <= 12 && MonthName(m) == MonthName(n)
    ensures m == n
  {
  }

  /** The month query's arguments: `String.format("%02d", month)` and `year.toString()`. */
  function MonthQuery(month: int, year: int): (q: (string, string))
    ensures 1 <= month <= 12 ==> |q.0| == 2 && AllDigits(q.0) && DigitsValue(q.0) == month
    ensures 1000 <= year < 10000 ==> |q.1| == 4 && q.1 == NatToString(year)
  {
    (Format02(month), IntToString(year))
  }
}
