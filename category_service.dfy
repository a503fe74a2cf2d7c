/** Categories scoped to their owner: a quota of five per user kept through the
    user's `categoriesCount`, visibility "public or mine", owner-only deletion. */
module CategoryService {
  import opened Common
  import opened Repository
  import opened Entities
  import opened CategorySchemas

  const MaxCategoriesCount: nat := 5
  const MaxCategoriesDetail: string := "Max categories reached"
  const CategoryNotFoundDetail: string := "Category not found or invalid for this user"

  /** A category a user may see and file records under: public or their own. */
  predicate VisibleTo(c: Category, userId: nat) {
    c.userId.None? || c.userId == Some(userId)
  }

  /** The keys of the categories the user owns. */
  function OwnedBy(cats: map<nat, Category>, userId: nat): set<nat> {
    set id | id in cats && cats[id].userId == Some(userId)
  }

  /** Every user's counter equals the number of categories they own, which
      is within the quota. */
  ghost predicate CountersMatch(users: map<nat, User>, cats: map<nat, Category>) {
    forall u :: u in users ==> users[u].categoriesCount == |OwnedBy(cats, u)| <= MaxCategoriesCount
  }

  /** Some record is filed under the category: the foreign key on
      `records.category_id` refers to it. */
  predicate ReferencedBy(records: map<nat, Record>, categoryId: int) {
    exists rid :: rid in records && records[rid].categoryId == categoryId
  }

  /** Every record's category exists: the foreign key holds. */
  ghost predicate CategoriesResolve(records: map<nat, Record>, cats: map<nat, Category>) {
    forall rid :: rid in records ==> records[rid].categoryId in cats
  }

  /** Removing a category no record refers to keeps the foreign key. */
  lemma RemoveUnreferencedKeepsResolve(records: map<nat, Record>, cats: map<nat, Category>, id: nat)
    requires CategoriesResolve(records, cats) && !ReferencedBy(records, id)
    ensures CategoriesResolve(records, cats - {id})
  {
    forall rid | rid in records ensures records[rid].categoryId in cats - {id} {
      assert records[rid].categoryId != id;
    }
  }

  lemma {:induction false} OwnedByAfterInsert(cats: map<nat, Category>, id: nat, c: Category, u: nat)
    requires id !in cats
    ensures |OwnedBy(cats[id := c], u)| == |OwnedBy(cats, u)| + (if c.userId == Some(u) then 1 else 0)
  {
    if c.userId == Some(u) {
      assert OwnedBy(cats[id := c], u) == OwnedBy(cats, u) + {id};
    } else {
      assert OwnedBy(cats[id := c], u) == OwnedBy(cats, u);
    }
  }

  lemma {:induction false} OwnedByAfterRemove(cats: map<nat, Category>, id: nat, u: nat)
    requires id in cats
    ensures |OwnedBy(cats - {id}, u)| == |OwnedBy(cats, u)| - (if cats[id].userId == Some(u) then 1 else 0)
  {
    if cats[id].userId == Some(u) {
      assert OwnedBy(cats, u) == OwnedBy(cats - {id}, u) + {id};
    } else {
      assert OwnedBy(cats - {id}, u) == OwnedBy(cats, u);
    }
  }

  /** A create under the quota keeps every counter equal to the owned count. */
  lemma CreateKeepsCounters(users: map<nat, User>, cats: map<nat, Category>, userId: nat, id: nat, c: Category)
    requires CountersMatch(users, cats) && userId in users && id !in cats
    requires users[userId].categoriesCount < MaxCategoriesCount && c.userId == Some(userId)
    ensures CountersMatch(users[userId := users[userId].(categoriesCount := users[userId].categoriesCount + 1)],
                          cats[id := c])
  {
    forall u | u in users { OwnedByAfterInsert(cats, id, c, u); }
  }

  /** Deleting one of the user's categories keeps every counter equal to the
      owned count. */
  lemma DeleteKeepsCounters(users: map<nat, User>, cats: map<nat, Category>, userId: nat, id: nat)
    requires CountersMatch(users, cats) && userId in users && id in cats
    requires cats[id].userId == Some(userId)
    ensures CountersMatch(users[userId := users[userId].(categoriesCount := users[userId].categoriesCount - 1)],
                          cats - {id})
  {
    forall u | u in users { OwnedByAfterRemove(cats, id, u); }
  }

  /** The service acting for one authenticated user, whose row is
      `users.rows[userId]`.  The records table is read by the database when a
      delete checks the foreign key. */
  class CategoryService {
    const users: Table<User>
    const categories: Table<Category>
    const records: Table<Record>
    const userId: nat
    const maxCategoriesCount: nat

    ghost predicate Valid()
      reads this, users, categories
    {
      users.Valid() && categories.Valid() && userId in users.rows && maxCategoriesCount == MaxCategoriesCount
    }

    constructor (users: Table<User>, categories: Table<Category>, records: Table<Record>, userId: nat)
      requires users.Valid() && categories.Valid() && userId in users.rows
      ensures Valid()
      ensures this.users == users && this.categories == categories && this.records == records
      ensures this.userId == userId
    {
      this.users := users;
      this.categories := categories;
      this.records := records;
      this.userId := userId;
      this.maxCategoriesCount := MaxCategoriesCount;
    }

    function Count(): int
      reads this, users
      requires userId in users.rows
    {
      users.rows[userId].categoriesCount
    }

    /** `create_category`: refuse at the quota; otherwise count one more and
        store a category owned by the user. */
    method CreateCategory(data: CategoryIn) returns (r: Result<Row<Category>>)
      requires Valid()
      modifies users, categories
      ensures Valid()
      ensures old(Count()) >= MaxCategoriesCount ==>
                r == Err(Forbidden(MaxCategoriesDetail)) && unchanged(users) && unchanged(categories)
      ensures old(Count()) < MaxCategoriesCount ==>
                && r.Ok?
                && r.value.value == Category(data.name, data.description, Some(userId))
                && r.value.id !in old(categories.rows)
                && categories.rows == old(categories.rows)[r.value.id := r.value.value]
                && categories.nextId == old(categories.nextId) + 1
                && users.rows == old(users.rows)[userId := old(users.rows[userId]).(categoriesCount := old(Count()) + 1)]
                && users.nextId == old(users.nextId)
      ensures CountersMatch(old(users.rows), old(categories.rows)) ==> CountersMatch(users.rows, categories.rows)
    {
      var user := users.rows[userId];
      if user.categoriesCount >= maxCategoriesCount {
        return Err(Forbidden(MaxCategoriesDetail));
      }
      ghost var cats0, users0 := categories.rows, users.rows;
      users.rows := users.rows[userId := user.(categoriesCount := user.categoriesCount + 1)];
      var created := categories.Save(Category(data.name, data.description, Some(userId)));
      if CountersMatch(users0, cats0) {
        CreateKeepsCounters(users0, cats0, userId, created.id, created.value);
      }
      r := Ok(created);
    }

    /** `get_categories`: the public categories and the user's own. */
    function GetCategories(): (r: map<nat, Category>)
      reads this, categories
      ensures forall id :: id in r <==> id in categories.rows && VisibleTo(categories.rows[id], userId)
      ensures forall id :: id in r ==> r[id] == categories.rows[id]
    {
      categories.GetAll(c => VisibleTo(c, userId))
    }

    /** `_validate_category`: the category when it exists and the user owns
        it; a public category never qualifies. */
    function ValidateCategory(categoryId: int): (r: Result<Category>)
      reads this, categories
      ensures r.Ok? <==> categoryId in categories.rows && categories.rows[categoryId].userId == Some(userId)
      ensures r.Ok? ==> r.value == categories.rows[categoryId]
      ensures r.Err? ==> r.error == NotFound(CategoryNotFoundDetail)
    {
      match categories.GetById(categoryId)
      case Some(c) => if c.userId != Some(userId) then Err(NotFound(CategoryNotFoundDetail)) else Ok(c)
      case None => Err(NotFound(CategoryNotFoundDetail))
    }

    /** `delete_category`: only the owner deletes, counting one fewer; the
        missing `delete_instance` of the repository removes the row.  The
        database refuses to delete a category a record is filed under, and
        the rollback undoes the whole transaction. */
    method DeleteCategory(categoryId: int) returns (r: Result<Row<Category>>)
      requires Valid()
      modifies users, categories
      ensures Valid()
      ensures old(ValidateCategory(categoryId)).Err? ==>
                r == Err(NotFound(CategoryNotFoundDetail)) && unchanged(users) && unchanged(categories)
      ensures old(ValidateCategory(categoryId)).Ok? && ReferencedBy(records.rows, categoryId) ==>
                r == Err(DatabaseFailure(DatabaseErrorDetail)) && unchanged(users) && unchanged(categories)
      ensures old(ValidateCategory(categoryId)).Ok? && !ReferencedBy(records.rows, categoryId) ==>
                && r == Ok(Row(categoryId as nat, old(categories.rows[categoryId])))
                && categories.rows == old(categories.rows) - {categoryId as nat}
                && categories.nextId == old(categories.nextId)
                && users.rows == old(users.rows)[userId := old(users.rows[userId]).(categoriesCount := old(Count()) - 1)]
                && users.nextId == old(users.nextId)
      ensures CountersMatch(old(users.rows), old(categories.rows)) ==> CountersMatch(users.rows, categories.rows)
      ensures CategoriesResolve(records.rows, old(categories.rows)) ==> CategoriesResolve(records.rows, categories.rows)
    {
      var validated := ValidateCategory(categoryId);
      if validated.Err? {
        return Err(validated.error);
      }
      if ReferencedBy(records.rows, categoryId) {
        return Err(DatabaseFailure(DatabaseErrorDetail));
      }
      var user := users.rows[userId];
      ghost var cats0, users0 := categories.rows, users.rows;
      users.rows := users.rows[userId := user.(categoriesCount := user.categoriesCount - 1)];
      var removed := categories.DeleteById(categoryId);
      if CountersMatch(users0, cats0) {
        DeleteKeepsCounters(users0, cats0, userId, categoryId as nat);
      }
      if CategoriesResolve(records.rows, cats0) {
        RemoveUnreferencedKeepsResolve(records.rows, cats0, categoryId as nat);
      }
      r := Ok(Row(categoryId as nat, validated.value));
    }
  }

  /** Five creates fill the quota and the sixth is refused. */
  method SixthCategoryForbidden() returns (r: Result<Row<Category>>)
    ensures r == Err(Forbidden(MaxCategoriesDetail))
  {
    var users := new Table<User>();
    var categories := new Table<Category>();
    var records := new Table<Record>();
    var user := users.Save(User("User Name", "testuser@ex.com", "hash", 0, 0, 0));
    var service := new CategoryService(users, categories, records, user.id);
    var data := CategoryIn("Category", None);
    var i := 0;
    while i < 5
      invariant 0 <= i <= 5
      invariant service.Valid() && service.users == users && service.categories == categories
      invariant service.Count() == i
    {
      r := service.CreateCategory(data);
      i := i + 1;
    }
    r := service.CreateCategory(data);
  }

  /** Deleting one's category twice: the first succeeds and brings the
      counter back to zero, the second is NotFound. */
  method DeleteTwiceNotFound() returns (first: Result<Row<Category>>, second: Result<Row<Category>>, count: int)
    ensures first.Ok? && count == 0
    ensures second == Err(NotFound(CategoryNotFoundDetail))
  {
    var users := new Table<User>();
    var categories := new Table<Category>();
    var records := new Table<Record>();
    var user := users.Save(User("User Name", "testuser@ex.com", "hash", 0, 0, 0));
    var service := new CategoryService(users, categories, records, user.id);
    var created := service.CreateCategory(CategoryIn("Category 1", None));
    first := service.DeleteCategory(created.value.id);
    count := service.Count();
    second := service.DeleteCategory(created.value.id);
  }

  /** A category a record is filed under cannot be deleted: the database
      refuses, and the category and the counter stay as they were. */
  method FiledCategoryKept() returns (r: Result<Row<Category>>, kept: bool, count: int)
    ensures r == Err(DatabaseFailure(DatabaseErrorDetail)) && kept && count == 1
  {
    var users := new Table<User>();
    var categories := new Table<Category>();
    var records := new Table<Record>();
    var user := users.Save(User("User Name", "testuser@ex.com", "hash", 0, 0, 0));
    var service := new CategoryService(users, categories, records, user.id);
    var created := service.CreateCategory(CategoryIn("Category 1", None));
    var filed := records.Save(Record(100, user.id, "Test", 0, created.value.id));
    assert records.rows[filed.id].categoryId == created.value.id;
    r := service.DeleteCategory(created.value.id);
    kept := created.value.id in categories.rows;
    count := service.Count();
  }
}
