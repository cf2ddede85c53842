/**
 * `CategoryViewModel`: the category list the screens observe, refreshed
 * from the repository after every change.
 *
 * Each operation takes `fault`, which stands for the repository call
 * throwing (a database error); the view model catches and logs it, so a
 * fault leaves the observed list as it was.
 */
module CategoryScreen {
  import opened Records
  import opened Queries
  import opened Store
  import opened Registry

  class CategoryViewModel {
    const categoryRepository: CategoryRepository
    /** The `categories` state flow. */
    var categories: seq<CategoryEntity>
    /** The `isLoading` live data. */
    var isLoading: bool

    /** The `init` block: seeds the defaults, then loads the list. */
    constructor(categoryRepository: CategoryRepository, fault: bool)
      requires categoryRepository.categoryDao.Valid()
      modifies categoryRepository.categoryDao
      ensures this.categoryRepository == categoryRepository
      ensures categoryRepository.categoryDao.Valid()
      ensures !isLoading
      ensures fault ==> categories == [] && unchanged(categoryRepository.categoryDao)
      ensures !fault && old(categoryRepository.categoryDao.categories) == [] ==>
        categoryRepository.categoryDao.categories == Stamped(DefaultCategories(), old(categoryRepository.categoryDao.categorySeq))
      ensures !fault && old(categoryRepository.categoryDao.categories) != [] ==>
        unchanged(categoryRepository.categoryDao)
      ensures !fault ==> categories == AllCategories(categoryRepository.categoryDao.categories)
    {
      this.categoryRepository := categoryRepository;
      categories := [];
      isLoading := false;
      new;
      InitializeCategories(fault);
    }

    method InitializeCategories(fault: bool)
      requires categoryRepository.categoryDao.Valid()
      modifies this, categoryRepository.categoryDao
      ensures categoryRepository.categoryDao.Valid()
      ensures !isLoading
      ensures fault ==> categories == old(categories) && unchanged(categoryRepository.categoryDao)
      ensures !fault && old(categoryRepository.categoryDao.categories) == [] ==>
        categoryRepository.categoryDao.categories == Stamped(DefaultCategories(), old(categoryRepository.categoryDao.categorySeq))
      ensures !fault && old(categoryRepository.categoryDao.categories) != [] ==>
        unchanged(categoryRepository.categoryDao)
      ensures !fault ==> categories == AllCategories(categoryRepository.categoryDao.categories)
    {
      isLoading := true;
      if !fault {
        categoryRepository.InitializeDefaultCategories();
        LoadCategories(false);
      }
      isLoading := false;
    }

    /** `loadCategories`: the list becomes the table's rows, custom categories first. */
    method LoadCategories(fault: bool)
      modifies this
      ensures fault ==> categories == old(categories)
      ensures !fault ==> categories == AllCategories(categoryRepository.categoryDao.categories)
      ensures !fault ==> multiset(categories) == multiset(categoryRepository.categoryDao.categories)
      ensures isLoading == old(isLoading)
    {
      if !fault {
        categories := categoryRepository.GetAllCategories();
      }
    }

    /**
     * `addCategory`: stores a custom category under a fresh id and reloads;
     * the new row is in the list, ahead of every built-in category.
     */
    method AddCategory(name: string, iconName: string, colorValue: int, fault: bool)
      requires categoryRepository.categoryDao.Valid()
      modifies this, categoryRepository.categoryDao
      ensures categoryRepository.categoryDao.Valid()
      ensures fault ==> categories == old(categories) && unchanged(categoryRepository.categoryDao)
      ensures !fault ==> var added := CategoryEntity(old(categoryRepository.categoryDao.categorySeq) + 1, name, iconName, colorValue, true);
        && categoryRepository.categoryDao.categories == old(categoryRepository.categoryDao.categories) + [added]
        && categories == AllCategories(categoryRepository.categoryDao.categories)
        && added in categories
      ensures categoryRepository.categoryDao.transactions == old(categoryRepository.categoryDao.transactions)
      ensures isLoading == old(isLoading)
    {
      if !fault {
        var category := NewCategory(name, iconName, colorValue).(isCustom := true);
        categoryRepository.InsertNew(category);
        ghost var dao := categoryRepository.categoryDao;
        ghost var added := category.(id := old(dao.categorySeq) + 1);
        assert dao.categories[|dao.categories| - 1] == added;
        LoadCategories(false);
        AllCategoriesMembers(dao.categories, added);
      }
    }

    /** `deleteCategory`: drops the row with the category's id and reloads. */
    method DeleteCategory(category: CategoryEntity, fault: bool)
      requires categoryRepository.categoryDao.Valid()
      modifies this, categoryRepository.categoryDao
      ensures categoryRepository.categoryDao.Valid()
      ensures fault ==> categories == old(categories) && unchanged(categoryRepository.categoryDao)
      ensures !fault ==> forall c :: c in categoryRepository.categoryDao.categories <==>
        c in old(categoryRepository.categoryDao.categories) && c.id != category.id
      ensures !fault ==> categories == AllCategories(categoryRepository.categoryDao.categories)
      ensures !fault ==> forall c :: c in categories ==> c.id != category.id
      ensures categoryRepository.categoryDao.transactions == old(categoryRepository.categoryDao.transactions)
      ensures isLoading == old(isLoading)
    {
      if !fault {
        categoryRepository.DeleteCategory(category);
        LoadCategories(false);
        forall c | c in categories ensures c.id != category.id {
          AllCategoriesMembers(categoryRepository.categoryDao.categories, c);
        }
      }
    }
  }
}
