/**
 * `CategoryRepository`: a thin layer over the category table that also
 * seeds the eight built-in categories into an empty table.
 */
module Registry {
  import opened Wrappers
  import opened Seqs
  import opened Tables
  import opened Records
  import opened Queries
  import opened Store

  /** The built-in categories, in seeding order, as `Color(0xAARRGGBB).value.toLong()`. */
  function DefaultCategories(): (r: seq<CategoryEntity>)
    ensures |r| == 8
    ensures forall c :: c in r ==> c.id == Unassigned && !c.isCustom
  {
    [ NewCategory("Food", "restaurant", SrgbColorValue(0xFFFF5722)),
      NewCategory("Transport", "directions_car", SrgbColorValue(0xFF2196F3)),
      NewCategory("Shopping", "shopping_cart", SrgbColorValue(0xFF4CAF50)),
      NewCategory("Bills", "electric_bolt", SrgbColorValue(0xFFFF9800)),
      NewCategory("Entertainment", "movie", SrgbColorValue(0xFF9C27B0)),
      NewCategory("Health", "local_hospital", SrgbColorValue(0xFFF44336)),
      NewCategory("Education", "school", SrgbColorValue(0xFF607D8B)),
      NewCategory("Other", "category", SrgbColorValue(0xFF795548)) ]
  }

  /** The default names, in seeding order. */
  lemma DefaultCategoryNames()
    ensures var d := DefaultCategories();
      && d[0].name == "Food" && d[1].name == "Transport" && d[2].name == "Shopping" && d[3].name == "Bills"
      && d[4].name == "Entertainment" && d[5].name == "Health" && d[6].name == "Education" && d[7].name == "Other"
  {
  }

  /** No two defaults share a name or an icon. */
  lemma DefaultCategoriesDistinct()
    ensures var d := DefaultCategories();
      forall i, j :: 0 <= i < j < |d| ==> d[i].name != d[j].name && d[i].iconName != d[j].iconName
  {
  }

  /** `cs` as the table holds them after inserting them in order above counter `base`. */
  function Stamped(cs: seq<CategoryEntity>, base: int): (r: seq<CategoryEntity>)
    ensures |r| == |cs|
    ensures forall i :: 0 <= i < |cs| ==> r[i] == cs[i].(id := base + i + 1)
  {
    if cs == [] then [] else [cs[0].(id := base + 1)] + Stamped(cs[1..], base + 1)
  }

  lemma StampedSnoc(cs: seq<CategoryEntity>, i: nat, base: int)
    requires i < |cs|
    ensures Stamped(cs[..i + 1], base) == Stamped(cs[..i], base) + [cs[i].(id := base + i + 1)]
  {
    var a, b := Stamped(cs[..i + 1], base), Stamped(cs[..i], base) + [cs[i].(id := base + i + 1)];
    assert |a| == |b|;
    forall k | 0 <= k < |a| ensures a[k] == b[k] {
      if k < i { assert cs[..i + 1][k] == cs[..i][k]; }
    }
  }

  class CategoryRepository {
    const categoryDao: LedgerStore

    constructor(categoryDao: LedgerStore)
      ensures this.categoryDao == categoryDao
    {
      this.categoryDao := categoryDao;
    }

    /** `getAllCategories`: every category row, custom ones first. */
    function GetAllCategories(): (r: seq<CategoryEntity>)
      reads categoryDao
      ensures multiset(r) == multiset(categoryDao.categories)
      ensures forall i, j :: 0 <= i < j < |r| && r[j].isCustom ==> r[i].isCustom
    {
      AllCategoriesSpec(categoryDao.categories);
      categoryDao.GetAllCategories()
    }

    /** `getCategoryByName`. */
    function GetCategoryByName(name: string): (r: Option<CategoryEntity>)
      reads categoryDao
      ensures r.Some? ==> r.value in categoryDao.categories && r.value.name == name
      ensures r.None? <==> forall c :: c in categoryDao.categories ==> c.name != name
    {
      categoryDao.GetCategoryByName(name)
    }

    /** `insertCategory`: the DAO's insert; `ok` is false when it aborts. */
    method InsertCategory(category: CategoryEntity) returns (ok: bool)
      requires categoryDao.Valid()
      modifies categoryDao
      ensures categoryDao.Valid()
      ensures ok <==> category.id == Unassigned || !HasKey(old(categoryDao.categories), category.id, CategoryKey)
      ensures ok ==> var id := old(categoryDao.CategoryIdFor(category.id));
        && categoryDao.categories == Upsert(old(categoryDao.categories), category.(id := id), CategoryKey)
        && category.(id := id) in categoryDao.categories
        && categoryDao.categorySeq == Max(old(categoryDao.categorySeq), id)
      ensures ok && category.id == Unassigned ==>
        categoryDao.categories == old(categoryDao.categories) + [category.(id := old(categoryDao.categorySeq) + 1)]
        && categoryDao.categorySeq == old(categoryDao.categorySeq) + 1
      ensures !ok ==> categoryDao.categories == old(categoryDao.categories) && categoryDao.categorySeq == old(categoryDao.categorySeq)
      ensures categoryDao.transactions == old(categoryDao.transactions)
      ensures categoryDao.transactionSeq == old(categoryDao.transactionSeq)
    {
      ok := categoryDao.InsertCategory(category);
    }

    /** `deleteCategory`: removes the row with the category's id. */
    method DeleteCategory(category: CategoryEntity)
      requires categoryDao.Valid()
      modifies categoryDao
      ensures categoryDao.Valid()
      ensures forall c :: c in categoryDao.categories <==> c in old(categoryDao.categories) && c.id != category.id
      ensures categoryDao.categorySeq == old(categoryDao.categorySeq)
      ensures categoryDao.transactions == old(categoryDao.transactions)
      ensures categoryDao.transactionSeq == old(categoryDao.transactionSeq)
    {
      categoryDao.DeleteCategory(category);
    }

    /**
     * `initializeDefaultCategories`: an empty table receives the eight
     * defaults in order, with consecutive fresh ids; a table with any row is
     * left alone. Running it again therefore changes nothing.
     */
    method InitializeDefaultCategories()
      requires categoryDao.Valid()
      modifies categoryDao
      ensures categoryDao.Valid()
      ensures old(categoryDao.categories) != [] ==> unchanged(categoryDao)
      ensures old(categoryDao.categories) == [] ==>
        categoryDao.categories == Stamped(DefaultCategories(), old(categoryDao.categorySeq))
        && categoryDao.categorySeq == old(categoryDao.categorySeq) + 8
      ensures categoryDao.transactions == old(categoryDao.transactions)
      ensures categoryDao.transactionSeq == old(categoryDao.transactionSeq)
    {
      var existing := GetAllCategories();
      if existing == [] {
        assert categoryDao.categories == [] by {
          assert |multiset(categoryDao.categories)| == 0;
        }
        InsertAll(DefaultCategories());
      }
    }

    /** `insertCategory` on a row without an id: it goes last under the next id. */
    method InsertNew(category: CategoryEntity)
      requires categoryDao.Valid() && category.id == Unassigned
      modifies categoryDao
      ensures categoryDao.Valid()
      ensures categoryDao.categories == old(categoryDao.categories) + [category.(id := old(categoryDao.categorySeq) + 1)]
      ensures categoryDao.categorySeq == old(categoryDao.categorySeq) + 1
      ensures categoryDao.transactions == old(categoryDao.transactions)
      ensures categoryDao.transactionSeq == old(categoryDao.transactionSeq)
    {
      var ok := InsertCategory(category);
    }

    /** The `forEach { insertCategory(it) }` of the seeding: rows without ids, inserted in order. */
    method InsertAll(cs: seq<CategoryEntity>)
      requires categoryDao.Valid()
      requires forall c :: c in cs ==> c.id == Unassigned
      modifies categoryDao
      ensures categoryDao.Valid()
      ensures categoryDao.categories == old(categoryDao.categories) + Stamped(cs, old(categoryDao.categorySeq))
      ensures categoryDao.categorySeq == old(categoryDao.categorySeq) + |cs|
      ensures categoryDao.transactions == old(categoryDao.transactions)
      ensures categoryDao.transactionSeq == old(categoryDao.transactionSeq)
    {
      var start := categoryDao.categories;
      var base := categoryDao.categorySeq;
      for i := 0 to |cs|
        invariant categoryDao.Valid()
        invariant categoryDao.categories == start + Stamped(cs[..i], base)
        invariant categoryDao.categorySeq == base + i
        invariant categoryDao.transactions == old(categoryDao.transactions)
        invariant categoryDao.transactionSeq == old(categoryDao.transactionSeq)
      {
        var c := cs[i];
        assert c in cs;
        var before := categoryDao.categories;
        InsertNew(c);
        ghost var row := c.(id := base + i + 1);
        assert categoryDao.categories == before + [row];
        StampedSnoc(cs, i, base);
        assert start + Stamped(cs[..i + 1], base) == before + [row];
      }
      assert cs[..|cs|] == cs;
    }
  }
}
