/**
 * The persisted records: a ledger entry (`Transaction`), a category
 * (`CategoryEntity`) and the read-only join of the two. Amounts are exact
 * reals; the sign carries the direction (positive income, negative expense).
 * Dates are text in the "dd MM yyyy" layout, compared and sliced as text by
 * the store.
 */
module Records {
  import opened Text

  /** Room's marker for "no id yet; let the store generate one". */
  const Unassigned: int := 0

  /** `transactionType`: 0 = income, anything else (1 in practice) = expense. */
  const IncomeType: int := 0
  const ExpenseType: int := 1

  datatype Transaction = Transaction(
    id: int,
    category: int,
    title: string,
    transactionType: int,
    time: string,
    amount: real,
    date: string,
    note: string)

  datatype CategoryEntity = CategoryEntity(
    id: int,
    name: string,
    iconName: string,
    colorValue: int,
    isCustom: bool)

  /** A transaction paired with the category row its `category` field names. */
  datatype TransactionWithCategory = TransactionWithCategory(
    transaction: Transaction,
    category: CategoryEntity)

  /** Primary keys, as functions so tables of either record can share code. */
  function TransactionKey(t: Transaction): int { t.id }
  function CategoryKey(c: CategoryEntity): int { c.id }

  /** A category as the constructor with defaults builds it: `id = 0`, `isCustom = false`. */
  function NewCategory(name: string, iconName: string, colorValue: int): CategoryEntity {
    CategoryEntity(Unassigned, name, iconName, colorValue, false)
  }

  /** A transaction as the constructor with defaults builds it: `id = 0`. */
  function NewTransaction(category: int, title: string, transactionType: int, time: string,
                          amount: real, date: string, note: string): Transaction
  {
    Transaction(Unassigned, category, title, transactionType, time, amount, date, note)
  }

  predicate IsJoinOf(j: TransactionWithCategory, categories: seq<CategoryEntity>) {
    j.category in categories && j.category.id == j.transaction.category
  }

  // ---------------------------------------------------------------------------
  // Packed colours

  const TwoTo32: int := 0x1_0000_0000
  const TwoTo63: int := 0x8000_0000_0000_0000
  const TwoTo64: int := 0x1_0000_0000_0000_0000

  /** Reinterprets an unsigned 64-bit value as Kotlin's signed `Long`. */
  function ToLong(u: int): int
    requires 0 <= u < TwoTo64
  {
    if u < 0x8000_0000_0000_0000 then u else u - 0x1_0000_0000_0000_0000
  }

  /** The unsigned 64-bit value a `Long` stands for. */
  function ToULong(v: int): int {
    if v < 0 then v + 0x1_0000_0000_0000_0000 else v
  }

  /** `toLong` lands in the signed range, agrees modulo 2^64, and is undone by `ToULong`. */
  lemma ToLongSpec(u: int)
    requires 0 <= u < TwoTo64
    ensures -TwoTo63 <= ToLong(u) < TwoTo63
    ensures (ToLong(u) - u) % TwoTo64 == 0
    ensures ToULong(ToLong(u)) == u
  {
  }

  /**
   * `Color(argb).value.toLong()` for an sRGB colour: the 32-bit ARGB word
   * sits in the upper half of the packed value, the lower half is zero.
   */
  function SrgbColorValue(argb: int): int
    requires 0 <= argb < TwoTo32
  {
    ToLong(argb * 0x1_0000_0000)
  }

  /** The packed value is a signed 64-bit number whose lower 32 bits are zero and whose upper 32 bits are the ARGB word. */
  lemma SrgbColorValueSpec(argb: int)
    requires 0 <= argb < TwoTo32
    ensures -TwoTo63 <= SrgbColorValue(argb) < TwoTo63
    ensures ToULong(SrgbColorValue(argb)) % TwoTo32 == 0
    ensures ToULong(SrgbColorValue(argb)) / TwoTo32 == argb
  {
    ToLongSpec(argb * 0x1_0000_0000);
  }

  /** Different colours pack to different values. */
  lemma SrgbColorValueInjective(a: int, b: int)
    requires 0 <= a < TwoTo32 && 0 <= b < TwoTo32
    requires SrgbColorValue(a) == SrgbColorValue(b)
    ensures a == b
  {
    SrgbColorValueSpec(a);
    SrgbColorValueSpec(b);
  }

  // ---------------------------------------------------------------------------
  // getRandomDate

  /**
   * `getRandomDate()` with its two draws as inputs: `Random.nextInt(1, 28)`
   * and `Random.nextInt(1, 12)` have exclusive upper bounds, so the day is in
   * 1..27 and the month in 1..11. The text is "$day/$MM/2025".
   */
  function RandomDate(day: int, month: int): (r: string)
    requires 1 <= day < 28 && 1 <= month < 12
    ensures |r| == |NatToString(day)| + 8
    ensures r[|r| - 5..] == "/2025"
  {
    NatToString(day) + "/" + Format02(month) + "/" + "2025"
  }

  /**
   * The layout of `getRandomDate()`: the day unpadded (one or two digits),
   * then '/', the month as exactly two digits, '/', and the year 2025.
   * Reading the fields back gives the draws.
   */
  lemma RandomDateFields(day: int, month: int)
    requires 1 <= day < 28 && 1 <= month < 12
    ensures var r, k := RandomDate(day, month), |NatToString(day)|;
      && (k == 1 <==> day < 10) && (k == 2 <==> day >= 10)
      && AllDigits(r[..k]) && DigitsValue(r[..k]) == day
      && r[k] == '/'
      && AllDigits(r[k + 1..k + 3]) && DigitsValue(r[k + 1..k + 3]) == month
      && r[k + 3] == '/'
      && r[k + 4..] == "2025"
  {
    var r, k := RandomDate(day, month), |NatToString(day)|;
    assert r[..k] == NatToString(day);
    assert r[k + 1..k + 3] == Format02(month);
    NatToStringRoundTrip(day);
  }

  /**
   * `getRandomDate()` does not produce the store's "dd MM yyyy" layout: the
   * ledger layout has a space at index 2, this text never does.
   */
  lemma RandomDateIsNotLedgerLayout(day: int, month: int)
    requires 1 <= day < 28 && 1 <= month < 12
    ensures RandomDate(day, month)[2] != ' '
  {
    RandomDateFields(day, month);
  }

  // ---------------------------------------------------------------------------
  // The fixed-width date token

  /** The "dd MM yyyy" token for a day, month and four-digit year. */
  function DateText(day: int, month: int, year: int): (r: string)
    requires 0 <= day < 100 && 0 <= month < 100 && 1000 <= year < 10000
    ensures |r| == 10 && r[2] == ' ' && r[5] == ' '
  {
    Format02(day) + " " + Format02(month) + " " + NatToString(year)
  }
}
