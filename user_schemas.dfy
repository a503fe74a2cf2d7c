/** Request and response shapes of users. */
module UserSchemas {
  import opened Common
  import opened Repository
  import opened Entities
  import opened CustomTypes

  const MaxUserName: nat := 20
  const UserNameDetail: string := "String should have at most 20 characters"

  /** A registration request: name, email and a plain-text password. */
  datatype UserIn = UserIn(name: string, email: string, password: string)

  /** What is returned about a user: everything but the password. */
  datatype UserOut = UserOut(id: nat, name: string, email: string, createdAt: int, updatedAt: int, categoriesCount: int)

  /** A profile edit: only the name. */
  datatype UserUpdate = UserUpdate(name: string) {
    /** Iterating the model yields its single `(field, value)` pair. */
    function AsData(): (d: Data)
      ensures d.Model? && d.items == [("name", Some(StrV(name)))]
    {
      Model([("name", Some(StrV(name)))])
    }
  }

  /** Building a `UserIn`: a name of at most 20 characters and a password the
      `Password` type accepts. */
  function NewUserIn(name: string, email: string, password: string): (r: Result<UserIn>)
    ensures r.Ok? <==> |name| <= MaxUserName && StrongPassword(password)
    ensures r.Ok? ==> r.value == UserIn(name, email, password)
    ensures |name| <= MaxUserName && !StrongPassword(password) ==> r == Err(Invalid(PasswordErrorDetail))
  {
    if |name| > MaxUserName then Err(Invalid(UserNameDetail))
    else match ValidatePassword(password)
      case Err(e) => Err(e)
      case Ok(p) => Ok(UserIn(name, email, p))
  }

  function NewUserUpdate(name: string): (r: Result<UserUpdate>)
    ensures r.Ok? <==> |name| <= MaxUserName
    ensures r.Ok? ==> r.value.name == name
  {
    if |name| > MaxUserName then Err(Invalid(UserNameDetail)) else Ok(UserUpdate(name))
  }

  function ToUserOut(id: nat, u: User): (o: UserOut)
    ensures o.id == id && o.name == u.name && o.email == u.email
    ensures o.createdAt == u.createdAt && o.updatedAt == u.updatedAt && o.categoriesCount == u.categoriesCount
  {
    UserOut(id, u.name, u.email, u.createdAt, u.updatedAt, u.categoriesCount)
  }

  /** The response never depends on the stored password. */
  lemma UserOutHidesPassword(id: nat, u: User, otherHash: string)
    ensures ToUserOut(id, u) == ToUserOut(id, u.(password := otherHash))
  {
  }

  /** The registration of the route tests is refused with the short password
      "Pass" and accepted with "Pass12345". */
  lemma UserInExamples()
    ensures NewUserIn("User Name", "testuser@example.com", "Pass") == Err(Invalid(PasswordErrorDetail))
    ensures NewUserIn("User Name", "testuser@example.com", "Pass12345").Ok?
  {
    PasswordExamples();
  }
}
