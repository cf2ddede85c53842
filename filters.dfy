/**
 * The client-side filters of the transaction list screen and the dashboard:
 * a time window on the parsed date, a type filter on the sign of the amount,
 * an exact category-name filter, then a stable sort latest-first.
 *
 * Dates are parsed by the platform's "dd MM yyyy" formatter; here the parser
 * is a parameter mapping date text to an epoch-day number, or to `None`
 * where the formatter throws. "Today" and the first day of the current year
 * are inputs too.
 */
module Filters {
  import opened Wrappers
  import opened Seqs
  import opened Records
  import Statistics

  /** A calendar day, as its epoch-day number (later days are larger). */
  type Date = int

  /** `LocalDate.parse(text, formatter)`, with `None` for a parse failure. */
  type DateParser = string -> Option<Date>

  /** The two clock readings the filters use. */
  datatype Clock = Clock(today: Date, startOfYear: Date)

  /** The three drop-down selections of the transaction list. */
  datatype FilterSettings = FilterSettings(time: string, kind: string, category: string)

  const All: string := "All"
  const TimeFilterOptions: seq<string> := ["All", "Today", "7 days", "30 days", "90 days", "This Year"]
  const TypeFilterOptions: seq<string> := ["All", "Income", "Expense"]

  // ---------------------------------------------------------------------------
  // Dates and their order

  function DateKey(parse: DateParser): TransactionWithCategory -> Option<Date> {
    (j: TransactionWithCategory) => parse(j.transaction.date)
  }

  /**
   * The sort key's order: a failed parse stands for `LocalDate.MIN`, below
   * every parsed date (a four-digit year never parses to `LocalDate.MIN`).
   */
  predicate DateLeq(a: Option<Date>, b: Option<Date>) {
    a.None? || (b.Some? && a.value <= b.value)
  }

  lemma DateLeqIsTotalPreorder()
    ensures TotalPreorder(DateLeq)
  {
  }

  /** Two keys are tied under `DateLeq` exactly when they are equal. */
  lemma DateLeqTies(a: Option<Date>, b: Option<Date>)
    ensures (DateLeq(a, b) && DateLeq(b, a)) <==> a == b
  {
  }

  /** The rows whose date parses to exactly `d` (or fails to parse, for `None`). */
  function HasDate(parse: DateParser, d: Option<Date>): TransactionWithCategory -> bool {
    (j: TransactionWithCategory) => parse(j.transaction.date) == d
  }

  /** `sortedByDescending` on the parsed date (a stable sort). */
  function LatestFirst(rows: seq<TransactionWithCategory>, parse: DateParser): seq<TransactionWithCategory> {
    SortDesc(rows, DateKey(parse), DateLeq)
  }

  /**
   * The same rows, no date before a later one, unparseable rows last, and
   * rows with the same parsed date kept in their input order.
   */
  lemma LatestFirstSpec(rows: seq<TransactionWithCategory>, parse: DateParser, d: Option<Date>)
    ensures multiset(LatestFirst(rows, parse)) == multiset(rows)
    ensures SortedDesc(LatestFirst(rows, parse), DateKey(parse), DateLeq)
    ensures Filter(LatestFirst(rows, parse), HasDate(parse, d)) == Filter(rows, HasDate(parse, d))
  {
    DateLeqIsTotalPreorder();
    SortDescPermutation(rows, DateKey(parse), DateLeq);
    SortDescSorted(rows, DateKey(parse), DateLeq);
    SortDescStable(rows, DateKey(parse), DateLeq, d);
    forall j ensures HasDate(parse, d)(j) == (DateLeq(DateKey(parse)(j), d) && DateLeq(d, DateKey(parse)(j))) {
      DateLeqTies(parse(j.transaction.date), d);
    }
    RankClassIsFilter(LatestFirst(rows, parse), DateKey(parse), DateLeq, d, HasDate(parse, d));
    RankClassIsFilter(rows, DateKey(parse), DateLeq, d, HasDate(parse, d));
  }

  /** In a list sorted latest-first, a row that fails to parse comes after every row that parses. */
  lemma UnparsedLast(s: seq<TransactionWithCategory>, parse: DateParser, i: int, j: int)
    requires SortedDesc(s, DateKey(parse), DateLeq)
    requires 0 <= i < |s| && 0 <= j < |s|
    requires parse(s[i].transaction.date).None? && parse(s[j].transaction.date).Some?
    ensures j < i
  {
  }

  // ---------------------------------------------------------------------------
  // The stages

  /** On or after the cutoff (`isAfter || isEqual`); a failed parse is never in a window. */
  function InWindow(parse: DateParser, cutoff: Date): TransactionWithCategory -> bool {
    (j: TransactionWithCategory) => parse(j.transaction.date).Some? && parse(j.transaction.date).value >= cutoff
  }

  /** The time filter's cutoff; any selection it does not name falls back to seven days. */
  function Cutoff(time: string, clock: Clock): Date {
    if time == "Today" then clock.today
    else if time == "30 days" then clock.today - 30
    else if time == "90 days" then clock.today - 90
    else if time == "This Year" then clock.startOfYear
    else clock.today - 7
  }

  /** Each listed option's cutoff, and the fallback for anything else. */
  lemma CutoffSpec(time: string, clock: Clock)
    ensures Cutoff("Today", clock) == clock.today
    ensures Cutoff("7 days", clock) == clock.today - 7
    ensures Cutoff("30 days", clock) == clock.today - 30
    ensures Cutoff("90 days", clock) == clock.today - 90
    ensures Cutoff("This Year", clock) == clock.startOfYear
    ensures time !in TimeFilterOptions ==> Cutoff(time, clock) == Cutoff("7 days", clock)
    ensures time != "This Year" ==> clock.today - 90 <= Cutoff(time, clock) <= clock.today
  {
  }

  predicate TimeOk(time: string, parse: DateParser, clock: Clock, j: TransactionWithCategory) {
    time == All || InWindow(parse, Cutoff(time, clock))(j)
  }

  /** "Income" keeps positive amounts, "Expense" negative ones, anything else keeps every row. */
  predicate KindOk(kind: string, j: TransactionWithCategory) {
    if kind == "Income" then Statistics.IsIncomeRow(j)
    else if kind == "Expense" then Statistics.IsExpenseRow(j)
    else true
  }

  function NamedCategory(name: string): TransactionWithCategory -> bool {
    (j: TransactionWithCategory) => j.category.name == name
  }

  predicate CategoryOk(category: string, j: TransactionWithCategory) {
    category == All || j.category.name == category
  }

  /** The rows the three selections let through, as a single condition. */
  predicate IsSelected(f: FilterSettings, parse: DateParser, clock: Clock, j: TransactionWithCategory) {
    TimeOk(f.time, parse, clock, j) && KindOk(f.kind, j) && CategoryOk(f.category, j)
  }

  function Selected(f: FilterSettings, parse: DateParser, clock: Clock): TransactionWithCategory -> bool {
    (j: TransactionWithCategory) => IsSelected(f, parse, clock, j)
  }

  /** What each selection keeps, in the terms of the screen. */
  lemma SelectedSpec(f: FilterSettings, parse: DateParser, clock: Clock, j: TransactionWithCategory)
    ensures f.time != All && !InWindow(parse, Cutoff(f.time, clock))(j) ==> !Selected(f, parse, clock)(j)
    ensures f.time != All && parse(j.transaction.date).None? ==> !Selected(f, parse, clock)(j)
    ensures f.kind == "Income" && j.transaction.amount <= 0.0 ==> !Selected(f, parse, clock)(j)
    ensures f.kind == "Expense" && j.transaction.amount >= 0.0 ==> !Selected(f, parse, clock)(j)
    ensures f.category != All && j.category.name != f.category ==> !Selected(f, parse, clock)(j)
    ensures Selected(FilterSettings(All, All, All), parse, clock)(j)
  {
  }

  /**
   * `filteredTransactions`: `filtered` is narrowed stage by stage, then
   * sorted latest-first.
   */
  method FilterTransactions(all: seq<TransactionWithCategory>, f: FilterSettings, parse: DateParser, clock: Clock)
    returns (r: seq<TransactionWithCategory>)
    ensures r == LatestFirst(Filter(all, Selected(f, parse, clock)), parse)
  {
    var stage1 := (j: TransactionWithCategory) => TimeOk(f.time, parse, clock, j);
    var stage2 := (j: TransactionWithCategory) => TimeOk(f.time, parse, clock, j) && KindOk(f.kind, j);
    var filtered := all;
    if f.time != All {
      filtered := Filter(filtered, InWindow(parse, Cutoff(f.time, clock)));
      FilterExt(all, InWindow(parse, Cutoff(f.time, clock)), stage1);
    } else {
      FilterKeepsAll(all, stage1);
    }
    assert filtered == Filter(all, stage1);
    if f.kind != All {
      if f.kind == "Income" {
        filtered := Filter(filtered, Statistics.IsIncomeRow);
        FilterFilter(all, stage1, Statistics.IsIncomeRow, stage2);
      } else if f.kind == "Expense" {
        filtered := Filter(filtered, Statistics.IsExpenseRow);
        FilterFilter(all, stage1, Statistics.IsExpenseRow, stage2);
      } else {
        FilterExt(all, stage1, stage2);
      }
    } else {
      FilterExt(all, stage1, stage2);
    }
    assert filtered == Filter(all, stage2);
    if f.category != All {
      filtered := Filter(filtered, NamedCategory(f.category));
      FilterFilter(all, stage2, NamedCategory(f.category), Selected(f, parse, clock));
    } else {
      FilterExt(all, stage2, Selected(f, parse, clock));
    }
    r := LatestFirst(filtered, parse);
  }

  /** With every selection at "All" the list is the whole input, latest first. */
  lemma NoFilterKeepsAll(all: seq<TransactionWithCategory>, parse: DateParser, clock: Clock)
    ensures Filter(all, Selected(FilterSettings(All, All, All), parse, clock)) == all
  {
    FilterKeepsAll(all, Selected(FilterSettings(All, All, All), parse, clock));
  }

  /**
   * The list the screen shows: exactly the selected rows (as a multiset),
   * sorted latest-first, with rows of one date in input order.
   */
  lemma FilterTransactionsSpec(all: seq<TransactionWithCategory>, f: FilterSettings, parse: DateParser, clock: Clock,
                               d: Option<Date>)
    ensures var r := LatestFirst(Filter(all, Selected(f, parse, clock)), parse);
      && multiset(r) == multiset(Filter(all, Selected(f, parse, clock)))
      && SortedDesc(r, DateKey(parse), DateLeq)
      && Filter(r, HasDate(parse, d)) == Filter(Filter(all, Selected(f, parse, clock)), HasDate(parse, d))
    ensures forall j :: j in LatestFirst(Filter(all, Selected(f, parse, clock)), parse) <==> j in all && Selected(f, parse, clock)(j)
  {
    var sel := Filter(all, Selected(f, parse, clock));
    LatestFirstSpec(sel, parse, d);
    forall j ensures j in LatestFirst(sel, parse) <==> j in sel {
      assert j in LatestFirst(sel, parse) <==> j in multiset(LatestFirst(sel, parse));
    }
  }

  // ---------------------------------------------------------------------------
  // Filter options and state

  function CategoryNames(rows: seq<TransactionWithCategory>): (r: seq<string>)
    ensures |r| == |rows|
    ensures forall i :: 0 <= i < |rows| ==> r[i] == rows[i].category.name
  {
    if rows == [] then [] else [rows[0].category.name] + CategoryNames(rows[1..])
  }

  /** `categoryFilterOptions`: "All", then each category name once, in order of first appearance. */
  function CategoryFilterOptions(rows: seq<TransactionWithCategory>): seq<string> {
    [All] + Distinct(CategoryNames(rows))
  }

  /** A name is listed exactly when some row's category carries it. */
  lemma CategoryNamesMembership(rows: seq<TransactionWithCategory>, n: string)
    ensures n in CategoryNames(rows) <==> exists j :: j in rows && j.category.name == n
  {
    var names := CategoryNames(rows);
    if n in names {
      var m :| 0 <= m < |names| && names[m] == n;
      assert rows[m] in rows;
    }
    if exists j :: j in rows && j.category.name == n {
      var j :| j in rows && j.category.name == n;
      var m :| 0 <= m < |rows| && rows[m] == j;
      assert names[m] == n;
    }
  }

  /** The options after "All" are each row's category name, each once. */
  lemma CategoryFilterOptionsSpec(rows: seq<TransactionWithCategory>)
    ensures CategoryFilterOptions(rows)[0] == All
    ensures forall n :: n in CategoryFilterOptions(rows)[1..] <==> exists j :: j in rows && j.category.name == n
    ensures NoDuplicates(CategoryFilterOptions(rows)[1..])
  {
    var options := CategoryFilterOptions(rows);
    assert options[1..] == Distinct(CategoryNames(rows));
    forall n ensures n in options[1..] <==> exists j :: j in rows && j.category.name == n {
      CategoryNamesMembership(rows, n);
    }
  }

  /** The names are listed in the order in which they first appear in the rows. */
  lemma CategoryFilterOptionsOrder(rows: seq<TransactionWithCategory>, i: nat, k: nat)
    requires 1 <= i < k < |CategoryFilterOptions(rows)|
    ensures FirstIndex(CategoryNames(rows), CategoryFilterOptions(rows)[i])
          < FirstIndex(CategoryNames(rows), CategoryFilterOptions(rows)[k])
  {
    DistinctOrderAfter(All, CategoryNames(rows), i, k);
  }

  /** The list screen's three selections. */
  class TransactionFilterState {
    var time: string
    var kind: string
    var category: string

    function Settings(): FilterSettings
      reads this
    {
      FilterSettings(time, kind, category)
    }

    /** Whether the "Clear All Filters" link is shown. */
    predicate HasActiveFilter()
      reads this
    {
      time != All || kind != All || category != All
    }

    constructor()
      ensures Settings() == FilterSettings(All, All, All)
      ensures !HasActiveFilter()
    {
      time, kind, category := All, All, All;
    }

    method SelectTime(option: string)
      modifies this
      ensures time == option && kind == old(kind) && category == old(category)
    {
      time := option;
    }

    method SelectKind(option: string)
      modifies this
      ensures kind == option && time == old(time) && category == old(category)
    {
      kind := option;
    }

    method SelectCategory(option: string)
      modifies this
      ensures category == option && time == old(time) && kind == old(kind)
    {
      category := option;
    }

    /** "Clear All Filters": every selection back to "All", so every row is shown. */
    method ClearAll()
      modifies this
      ensures Settings() == FilterSettings(All, All, All)
      ensures !HasActiveFilter()
      ensures forall all: seq<TransactionWithCategory>, parse: DateParser, clock: Clock ::
        Filter(all, Selected(Settings(), parse, clock)) == all
    {
      time, kind, category := All, All, All;
      forall all: seq<TransactionWithCategory>, parse: DateParser, clock: Clock
        ensures Filter(all, Selected(Settings(), parse, clock)) == all
      {
        NoFilterKeepsAll(all, parse, clock);
      }
    }
  }

  // ---------------------------------------------------------------------------
  // The dashboard's recent list

  const DashboardFilterOptions: seq<string> := ["1 day", "7 days"]
  const DashboardDefault: string := "7 days"

  /** "1 day" looks back one day; "7 days" and anything else, seven. */
  function DashboardDays(filter: string): int {
    if filter == "1 day" then 1 else 7
  }

  /** How many rows the dashboard shows: 20 in landscape or on a foldable, else 10. */
  function RecentLimit(wide: bool): nat {
    if wide then 20 else 10
  }

  /** The dashboard's window, sorted latest-first, before the cap. */
  function RecentWindow(all: seq<TransactionWithCategory>, filter: string, parse: DateParser, today: Date): seq<TransactionWithCategory> {
    LatestFirst(Filter(all, InWindow(parse, today - DashboardDays(filter))), parse)
  }

  /** The dashboard's `filteredTransactions`: the window, latest first, capped by `take`. */
  function Recent(all: seq<TransactionWithCategory>, filter: string, parse: DateParser, today: Date, wide: bool)
    : seq<TransactionWithCategory>
  {
    var sorted := RecentWindow(all, filter, parse, today);
    if |sorted| <= RecentLimit(wide) then sorted else sorted[..RecentLimit(wide)]
  }

  /**
   * The dashboard shows a prefix of the sorted window, as long as the cap
   * allows; every row it leaves out is no later than every row it shows.
   */
  lemma RecentSpec(all: seq<TransactionWithCategory>, filter: string, parse: DateParser, today: Date, wide: bool)
    ensures var sorted, r := RecentWindow(all, filter, parse, today), Recent(all, filter, parse, today, wide);
      && |r| == (if |sorted| < RecentLimit(wide) then |sorted| else RecentLimit(wide))
      && r == sorted[..|r|]
      && SortedDesc(r, DateKey(parse), DateLeq)
      && (forall i, k :: 0 <= i < |r| <= k < |sorted| ==> DateLeq(DateKey(parse)(sorted[k]), DateKey(parse)(r[i])))
  {
    var window := Filter(all, InWindow(parse, today - DashboardDays(filter)));
    var sorted, r := RecentWindow(all, filter, parse, today), Recent(all, filter, parse, today, wide);
    LatestFirstSpec(window, parse, None);
    assert r == sorted[..|r|];
    TakeSorted(sorted, |r|, DateKey(parse), DateLeq);
  }

  /** Every row the dashboard shows is one of the rows, dated inside the window. */
  lemma RecentMembers(all: seq<TransactionWithCategory>, filter: string, parse: DateParser, today: Date, wide: bool)
    ensures forall j :: j in Recent(all, filter, parse, today, wide) ==>
      j in all && parse(j.transaction.date).Some? && parse(j.transaction.date).value >= today - DashboardDays(filter)
  {
    var window := Filter(all, InWindow(parse, today - DashboardDays(filter)));
    var sorted, r := RecentWindow(all, filter, parse, today), Recent(all, filter, parse, today, wide);
    LatestFirstSpec(window, parse, None);
    forall j | j in r
      ensures j in all && parse(j.transaction.date).Some? && parse(j.transaction.date).value >= today - DashboardDays(filter)
    {
      assert j in sorted;
      assert j in multiset(window);
    }
  }

  /** Two rows two days apart: "1 day" shows only the later one, "7 days" both, latest first. */
  lemma RecentExample(a: TransactionWithCategory, b: TransactionWithCategory, parse: DateParser)
    requires parse(a.transaction.date) == Some(10) && parse(b.transaction.date) == Some(12)
    ensures Recent([a, b], "1 day", parse, 12, false) == [b]
    ensures Recent([a, b], "7 days", parse, 12, false) == [b, a]
  {
    var w1 := InWindow(parse, 11);
    assert Filter([a, b], w1) == [b] by {
      assert [a, b][1..] == [b] && [b][1..] == [];
    }
    assert LatestFirst([b], parse) == [b] by {
      assert [b][1..] == [];
    }
    var w7 := InWindow(parse, 5);
    assert Filter([a, b], w7) == [a, b] by {
      assert [a, b][1..] == [b] && [b][1..] == [];
    }
    assert LatestFirst([a, b], parse) == [b, a] by {
      assert [a, b][1..] == [b] && [b][1..] == [];
      assert LatestFirst([b], parse) == [b];
      assert InsertDesc(a, [b], DateKey(parse), DateLeq) == [b] + InsertDesc(a, [], DateKey(parse), DateLeq);
    }
  }
}
