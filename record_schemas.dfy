/** Request and response shapes of records, with the field constraints of
    `RecordIn`. */
module RecordSchemas {
  import opened Common
  import opened Entities

  const MaxRecordDescription: nat := 30

  const AmountDetail: string := "Input should be greater than 0"
  const RecordDescriptionDetail: string := "String should have at most 30 characters"

  /** A validated record request; timestamps are modelled as integers. */
  datatype RecordIn = RecordIn(amount: int, description: string, date: int, categoryId: int)

  /** Building a `RecordIn`: `amount` must be a (strict) integer above zero and
      `description` at most 30 characters long.  The first failing field is
      reported. */
  function NewRecordIn(amount: int, description: string, date: int, categoryId: int): (r: Result<RecordIn>)
    ensures r.Ok? <==> amount > 0 && |description| <= MaxRecordDescription
    ensures r.Ok? ==> r.value == RecordIn(amount, description, date, categoryId)
    ensures amount <= 0 ==> r == Err(Invalid(AmountDetail))
    ensures amount > 0 && |description| > MaxRecordDescription ==> r == Err(Invalid(RecordDescriptionDetail))
  {
    if amount <= 0 then Err(Invalid(AmountDetail))
    else if |description| > MaxRecordDescription then Err(Invalid(RecordDescriptionDetail))
    else Ok(RecordIn(amount, description, date, categoryId))
  }

  /** The record schema's boundary cases: amount 0 and a 31-character
      description are refused, amount 1 with 30 characters is accepted. */
  lemma RecordInBoundaries(date: int, categoryId: int)
    ensures NewRecordIn(0, "Test", date, categoryId).Err?
    ensures NewRecordIn(1, seq(31, _ => 'a'), date, categoryId).Err?
    ensures NewRecordIn(1, seq(30, _ => 'a'), date, categoryId).Ok?
  {
  }

  /** The category embedded in a record response. */
  datatype CategoryOut = CategoryOut(id: int, name: string, description: Option<string>)

  datatype RecordOut = RecordOut(id: nat, amount: int, description: string, date: int)

  datatype RecordWithCategoryOut =
    RecordWithCategoryOut(id: nat, amount: int, description: string, date: int, category: CategoryOut)

  /** `RecordOut` carries the record's own fields and no category. */
  function ToRecordOut(id: nat, r: Record): (o: RecordOut)
    ensures o.id == id && o.amount == r.amount && o.description == r.description && o.date == r.date
  {
    RecordOut(id, r.amount, r.description, r.date)
  }

  /** `RecordWithCategoryOut` embeds the category the record is filed under. */
  function ToRecordWithCategoryOut(id: nat, r: Record, c: Category): (o: RecordWithCategoryOut)
    ensures o.id == id && o.amount == r.amount && o.description == r.description && o.date == r.date
    ensures o.category == CategoryOut(r.categoryId, c.name, c.description)
  {
    RecordWithCategoryOut(id, r.amount, r.description, r.date, CategoryOut(r.categoryId, c.name, c.description))
  }
}
