/** Request and response shapes of categories with their length bounds. */
module CategorySchemas {
  import opened Common

  const MinCategoryName: nat := 3
  const MaxCategoryName: nat := 16
  const MaxCategoryDescription: nat := 50

  const NameTooShortDetail: string := "String should have at least 3 characters"
  const NameTooLongDetail: string := "String should have at most 16 characters"
  const CategoryDescriptionDetail: string := "String should have at most 50 characters"

  datatype CategoryIn = CategoryIn(name: string, description: Option<string>)

  datatype CategoryOut = CategoryOut(id: int, name: string, description: Option<string>)

  /** The bounds shared by `CategoryIn` and `CategoryOut`: a name of 3 to 16
      characters and, when present, a description of at most 50. */
  predicate CategoryFieldsValid(name: string, description: Option<string>) {
    && MinCategoryName <= |name| <= MaxCategoryName
    && (description.Some? ==> |description.value| <= MaxCategoryDescription)
  }

  function CheckCategoryFields(name: string, description: Option<string>): (r: Option<Error>)
    ensures r.None? <==> CategoryFieldsValid(name, description)
  {
    if |name| < MinCategoryName then Some(Invalid(NameTooShortDetail))
    else if |name| > MaxCategoryName then Some(Invalid(NameTooLongDetail))
    else if description.Some? && |description.value| > MaxCategoryDescription then Some(Invalid(CategoryDescriptionDetail))
    else None
  }

  /** Building a `CategoryIn`; the description defaults to None. */
  function NewCategoryIn(name: string, description: Option<string> := None): (r: Result<CategoryIn>)
    ensures r.Ok? <==> CategoryFieldsValid(name, description)
    ensures r.Ok? ==> r.value == CategoryIn(name, description)
    ensures r.Err? ==> r.error.Invalid?
  {
    match CheckCategoryFields(name, description)
    case Some(e) => Err(e)
    case None => Ok(CategoryIn(name, description))
  }

  /** Building a `CategoryOut`, under the same bounds. */
  function NewCategoryOut(id: int, name: string, description: Option<string> := None): (r: Result<CategoryOut>)
    ensures r.Ok? <==> CategoryFieldsValid(name, description)
    ensures r.Ok? ==> r.value == CategoryOut(id, name, description)
    ensures r.Err? ==> r.error.Invalid?
  {
    match CheckCategoryFields(name, description)
    case Some(e) => Err(e)
    case None => Ok(CategoryOut(id, name, description))
  }

  /** The name bounds at their edges, and the default description. */
  lemma CategoryInBoundaries()
    ensures NewCategoryIn("ab").Err? && NewCategoryIn("abc") == Ok(CategoryIn("abc", None))
    ensures NewCategoryIn(seq(16, _ => 'x')).Ok? && NewCategoryIn(seq(17, _ => 'x')).Err?
    ensures NewCategoryIn("Food", Some(seq(51, _ => 'd'))).Err?
  {
  }
}
