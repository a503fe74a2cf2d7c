/** The category seeding script: on an empty category table it inserts the
    default public categories, and on any other table it does nothing. */
module InitDb {
  import opened Common
  import opened Repository
  import opened Entities
  import CategorySchemas

  /** The default categories, as (name, description) pairs in insertion order. */
  const DefaultCategories: seq<(string, string)> := [
      ("Food",
       "Expenses for groceries, dining out, snacks, and beverages."),
      ("Transport",
       "Expenses for public transportation, fuel, car maintenance, and parking."),
      ("Health",
       "Expenses for medical bills, medications, health insurance, and wellness."),
      ("Housing",
       "Expenses for rent, mortgage, property taxes, and home maintenance."),
      ("Utilities",
       "Expenses for electricity, water, gas, and internet bills."),
      ("Entertainment",
       "Expenses for movies, concerts, sports events, and recreational activities."),
      ("Education",
       "Expenses for tuition, books, courses, and school supplies."),
      ("Insurance",
       "Expenses for various insurance premiums such as health, auto, home, and life insurance."),
      ("Clothing",
       "Expenses for apparel, footwear, and accessories."),
      ("Personal Care",
       "Expenses for grooming, toiletries, haircuts, and beauty products."),
      ("Subscriptions",
       "Expenses for magazine, newspaper, streaming services, and other subscriptions."),
      ("Gifts",
       "Expenses for gifts for family, friends, and special occasions."),
      ("Charity",
       "Expenses for donations to charitable organizations and causes."),
      ("Travel",
       "Expenses for flights, hotels, vacation packages, and travel-related costs."),
      ("Dining Out",
       "Expenses for eating out at restaurants and cafes."),
      ("Fitness",
       "Expenses for gym memberships, fitness classes, and sports equipment."),
      ("Childcare",
       "Expenses for daycare, babysitting, and child-related activities."),
      ("Pets",
       "Expenses for pet food, veterinary care, grooming, and pet supplies."),
      ("Loans",
       "Expenses for loan repayments, including student loans, personal loans, and credit cards."),
      ("Savings",
       "Money set aside for savings, investments, and emergency funds."),
      ("Business Expenses",
       "Expenses related to running a business, including office supplies and services."),
      ("Miscellaneous",
       "Expenses that don't fit into other categories, including unforeseen costs."),
      ("Home Improvement",
       "Expenses for home renovation and improvement projects."),
      ("Alcohol & Tobacco",
       "Expenses for alcoholic beverages and tobacco products."),
      ("Hobbies",
       "Expenses for hobbies, crafts, and leisure activities.")
    ]

  /** The category the `i`-th default pair becomes: public, with a description. */
  function DefaultCategory(i: nat): Category
    requires i < |DefaultCategories|
  {
    Category(DefaultCategories[i].0, Some(DefaultCategories[i].1), None)
  }

  /** The rows the first `n` default categories take when keys are handed out
      from `start`. */
  function SeedPrefix(start: nat, n: nat): (r: map<nat, Category>)
    requires n <= |DefaultCategories|
    ensures forall id :: id in r <==> start <= id < start + n
    ensures forall id :: id in r ==> r[id] == DefaultCategory(id - start)
  {
    map id: nat | start <= id < start + n && InKeyRange(start, n, id) :: DefaultCategory(id - start)
  }

  function SeedRows(start: nat): map<nat, Category> {
    SeedPrefix(start, |DefaultCategories|)
  }

  /** The category table after seeding: keys and the next key to hand out. */
  function Seeded(rows: map<nat, Category>, nextId: nat): (map<nat, Category>, nat) {
    if rows == map[] then (SeedRows(nextId), nextId + |DefaultCategories|) else (rows, nextId)
  }

  /** `add_default_categories`: when the table holds no category, insert the
      defaults in order; otherwise leave it alone. */
  method AddDefaultCategories(categories: Table<Category>)
    requires categories.Valid()
    modifies categories
    ensures categories.Valid()
    ensures (categories.rows, categories.nextId) == Seeded(old(categories.rows), old(categories.nextId))
  {
    if categories.rows != map[] {
      return;
    }
    var start := categories.nextId;
    for i := 0 to |DefaultCategories|
      invariant categories.Valid() && categories.nextId == start + i
      invariant categories.rows == SeedPrefix(start, i)
    {
      var (name, description) := DefaultCategories[i];
      var _ := categories.Save(Category(name, Some(description), None));
    }
  }

  /** Seeding an empty table adds exactly 25 categories, all public. */
  lemma SeedAddsTwentyFive(start: nat)
    ensures |SeedRows(start)| == 25
    ensures forall id :: id in SeedRows(start) ==> SeedRows(start)[id].userId == None
  {
    KeyRangeSize(start, |DefaultCategories|);
    assert SeedRows(start).Keys == KeyRange(start, |DefaultCategories|);
  }

  /** Seeding a table that holds any category changes nothing. */
  lemma SeedSkipsNonEmpty(rows: map<nat, Category>, nextId: nat)
    requires rows != map[]
    ensures Seeded(rows, nextId) == (rows, nextId)
  {
  }

  /** Seeding twice leaves the table as seeding once does. */
  lemma SeedIdempotent(rows: map<nat, Category>, nextId: nat)
    ensures Seeded(Seeded(rows, nextId).0, Seeded(rows, nextId).1) == Seeded(rows, nextId)
  {
    if rows == map[] {
      assert nextId in SeedRows(nextId);
    }
  }

  /** No two default categories share a name. */
  lemma DefaultNamesDistinct()
    ensures forall i, j :: 0 <= i < j < |DefaultCategories| ==> DefaultCategories[i].0 != DefaultCategories[j].0
  {
  }

  /** The defaults are outside the bounds a user-created category must meet:
      two names are longer than 16 characters, so they are refused even
      without a description, and all descriptions but two are longer than 50. */
  lemma DefaultsExceedInputBounds()
    ensures |DefaultCategories[20].0| > CategorySchemas.MaxCategoryName
    ensures |DefaultCategories[23].0| > CategorySchemas.MaxCategoryName
    ensures !CategorySchemas.CategoryFieldsValid(DefaultCategories[20].0, None)
    ensures !CategorySchemas.CategoryFieldsValid(DefaultCategories[23].0, None)
    ensures forall i :: 0 <= i < |DefaultCategories| ==>
              (|DefaultCategories[i].1| > CategorySchemas.MaxCategoryDescription <==> i != 8 && i != 14)
  {
  }
}
