/** Records scoped to their owner: a record may only be filed under a
    category the user can see, only its owner deletes it, and a user lists
    only their own records. */
module RecordService {
  import opened Common
  import opened Repository
  import opened Entities
  import opened RecordSchemas
  import CategoryService

  const RecordNotFoundDetail: string := "Record not found"
  const CannotDeleteRecordDetail: string := "You cannot delete this record"

  /** A stored record with the category its `categoryId` loads (None when no
      category has that key). */
  datatype RecordView = RecordView(id: nat, record: Record, category: Option<Category>)

  /** The listing query: the user filter and whether it is ordered by date,
      newest first. */
  datatype RecordQuery = RecordQuery(userId: nat, newestFirst: bool)

  /** `_apply_sorting_if_valid`: every `sort` value selects the date ordering,
      but the ordered statement only rebinds the parameter, so what the
      caller holds afterwards is its own statement, unchanged. */
  function ApplySortingIfValid(stmt: RecordQuery, sort: string): (callerStmt: RecordQuery)
    ensures callerStmt == stmt
  {
    var ordered := stmt.(newestFirst := true);
    stmt
  }

  class RecordService {
    const categories: Table<Category>
    const records: Table<Record>
    const userId: nat

    ghost predicate Valid()
      reads this, records
    {
      records.Valid()
    }

    constructor (categories: Table<Category>, records: Table<Record>, userId: nat)
      requires records.Valid()
      ensures this.categories == categories && this.records == records && this.userId == userId
      ensures Valid()
    {
      this.categories := categories;
      this.records := records;
      this.userId := userId;
    }

    /** `_validate_category`: the category when it exists and is public or the
        user's own. */
    function ValidateCategory(categoryId: int): (r: Result<Category>)
      reads this, categories
      ensures r.Ok? <==> categoryId in categories.rows
                          && CategoryService.VisibleTo(categories.rows[categoryId], userId)
      ensures r.Ok? ==> r.value == categories.rows[categoryId]
      ensures r.Err? ==> r.error == NotFound(CategoryService.CategoryNotFoundDetail)
    {
      match categories.GetById(categoryId)
      case Some(c) =>
        if c.userId.Some? && c.userId != Some(userId) then Err(NotFound(CategoryService.CategoryNotFoundDetail))
        else Ok(c)
      case None => Err(NotFound(CategoryService.CategoryNotFoundDetail))
    }

    /** `create_record`: store a record owned by the user with the request's
        fields, and return it with its category attached. */
    method CreateRecord(data: RecordIn) returns (r: Result<RecordView>)
      requires Valid()
      modifies records
      ensures Valid()
      ensures ValidateCategory(data.categoryId).Err? ==>
                r == Err(NotFound(CategoryService.CategoryNotFoundDetail)) && unchanged(records)
      ensures ValidateCategory(data.categoryId).Ok? ==>
                && r.Ok?
                && r.value.record == Record(data.amount, userId, data.description, data.date, data.categoryId)
                && r.value.category == Some(categories.rows[data.categoryId])
                && r.value.id !in old(records.rows)
                && records.rows == old(records.rows)[r.value.id := r.value.record]
                && records.nextId == old(records.nextId) + 1
      ensures CategoryService.CategoriesResolve(old(records.rows), categories.rows) ==>
                CategoryService.CategoriesResolve(records.rows, categories.rows)
    {
      var category := ValidateCategory(data.categoryId);
      if category.Err? {
        return Err(category.error);
      }
      var created := records.Save(Record(data.amount, userId, data.description, data.date, data.categoryId));
      r := Ok(RecordView(created.id, created.value, Some(category.value)));
    }

    /** `delete_record`: NotFound when absent, Unauthorized when someone
        else's, otherwise removed and returned. */
    method DeleteRecord(recordId: int) returns (r: Result<Row<Record>>)
      requires Valid()
      modifies records
      ensures Valid()
      ensures recordId !in old(records.rows) ==>
                r == Err(NotFound(RecordNotFoundDetail)) && unchanged(records)
      ensures recordId in old(records.rows) && old(records.rows[recordId]).userId != userId ==>
                r == Err(Unauthorized(CannotDeleteRecordDetail)) && unchanged(records)
      ensures recordId in old(records.rows) && old(records.rows[recordId]).userId == userId ==>
                && r == Ok(Row(recordId as nat, old(records.rows[recordId])))
                && records.rows == old(records.rows) - {recordId as nat}
                && records.nextId == old(records.nextId)
      ensures CategoryService.CategoriesResolve(old(records.rows), categories.rows) ==>
                CategoryService.CategoriesResolve(records.rows, categories.rows)
    {
      var found := records.GetById(recordId);
      if found.None? {
        return Err(NotFound(RecordNotFoundDetail));
      }
      if found.value.userId != userId {
        return Err(Unauthorized(CannotDeleteRecordDetail));
      }
      var deleted := records.DeleteById(recordId);
      r := Ok(Row(recordId as nat, deleted.value));
    }

    /** The rows a listing statement selects, with each record's category
        joined in. */
    function RunQuery(stmt: RecordQuery): (r: map<nat, RecordView>)
      reads this, records, categories
      ensures forall id :: id in r <==> id in records.rows && records.rows[id].userId == stmt.userId
      ensures forall id :: id in r ==>
                r[id] == RecordView(id, records.rows[id], categories.GetById(records.rows[id].categoryId))
    {
      var selected := records.GetAll((rec: Record) => rec.userId == stmt.userId);
      map id | id in selected :: RecordView(id, selected[id], categories.GetById(selected[id].categoryId))
    }

    /** `get_user_records`: the user's records, each with its category. */
    function GetUserRecords(sort: Option<string>): (r: map<nat, RecordView>)
      reads this, records, categories
      ensures forall id :: id in r <==> id in records.rows && records.rows[id].userId == userId
      ensures forall id :: id in r ==> r[id].record == records.rows[id]
      ensures forall id :: id in r ==> r[id].category == categories.GetById(records.rows[id].categoryId)
    {
      var stmt := RecordQuery(userId, false);
      var stmt' := if sort.Some? && sort.value != "" then ApplySortingIfValid(stmt, sort.value) else stmt;
      RunQuery(stmt')
    }

    /** The `sort` argument changes nothing. */
    lemma SortIgnored(a: Option<string>, b: Option<string>)
      ensures GetUserRecords(a) == GetUserRecords(b)
    {
    }
  }

  /** Deleting someone else's record is refused and the record stays; its
      owner can then delete it, after which their listing no longer has it. */
  method ForeignDeleteRefused() returns (refused: Result<Row<Record>>, deleted: Result<Row<Record>>, listedAfter: bool)
    ensures refused == Err(Unauthorized(CannotDeleteRecordDetail))
    ensures deleted.Ok? && !listedAfter
  {
    var categories := new Table<Category>();
    var records := new Table<Record>();
    var category := categories.Save(Category("Food", None, None));
    var alice := new RecordService(categories, records, 1);
    var bob := new RecordService(categories, records, 2);
    var created := bob.CreateRecord(RecordIn(100, "Test", 0, category.id));
    refused := alice.DeleteRecord(created.value.id);
    assert created.value.id in records.rows;
    deleted := bob.DeleteRecord(created.value.id);
    listedAfter := created.value.id in bob.GetUserRecords(None);
  }
}
