/** Registration with unique emails, and profile edits allowed only on
    oneself. */
module UserService {
  import opened Common
  import opened Repository
  import opened Entities
  import opened UserSchemas

  const EmailInUseDetail: string := "Email already in use"
  const CannotUpdateUserDetail: string := "You cannot update this user"

  /** Some stored user has this email. */
  ghost predicate EmailTaken(users: map<nat, User>, email: string) {
    exists id :: id in users && users[id].email == email
  }

  /** The user row a registration creates: the password goes through the
      model's hashing write hook, both timestamps take the column default and
      the category counter starts at zero. */
  function NewUser(data: UserIn, hash: string -> string, defaultTime: int): (u: User)
    ensures u.name == data.name && u.email == data.email && u.password == hash(data.password)
    ensures u.createdAt == defaultTime && u.updatedAt == defaultTime && u.categoriesCount == 0
  {
    User(data.name, data.email, hash(data.password), defaultTime, defaultTime, 0)
  }

  /** Adding a user whose email is not taken keeps emails unique. */
  lemma {:induction false} InsertKeepsEmailsUnique(users: map<nat, User>, id: nat, u: User)
    requires EmailsUnique(users) && id !in users && !EmailTaken(users, u.email)
    ensures EmailsUnique(users[id := u])
  {
    assert forall x :: x in users ==> users[x].email != u.email;
  }

  class UserService {
    const users: Table<User>
    /** The password hash applied by the user model's write hook. */
    const hash: string -> string
    /** The value of the timestamp columns' default. */
    const defaultTime: int

    constructor (users: Table<User>, hash: string -> string, defaultTime: int)
      ensures this.users == users && this.hash == hash && this.defaultTime == defaultTime
    {
      this.users := users;
      this.hash := hash;
      this.defaultTime := defaultTime;
    }

    /** `email_in_use`: whether a stored user has this email. */
    method EmailInUse(email: string) returns (r: bool)
      ensures r <==> EmailTaken(users.rows, email)
    {
      var user := users.GetByEmail(email, UserEmail);
      r := user.Some?;
    }

    /** `create_user`: refuse a taken email, otherwise store the new user. */
    method CreateUser(data: UserIn) returns (r: Result<Row<User>>)
      requires users.Valid()
      modifies users
      ensures users.Valid()
      ensures EmailTaken(old(users.rows), data.email) ==>
                r == Err(BadRequest(EmailInUseDetail)) && unchanged(users)
      ensures !EmailTaken(old(users.rows), data.email) ==>
                && r.Ok?
                && r.value.value == NewUser(data, hash, defaultTime)
                && r.value.id !in old(users.rows)
                && users.rows == old(users.rows)[r.value.id := r.value.value]
                && users.nextId == old(users.nextId) + 1
      ensures EmailsUnique(old(users.rows)) ==> EmailsUnique(users.rows)
    {
      var user := NewUser(data, hash, defaultTime);
      var inUse := EmailInUse(user.email);
      if inUse {
        return Err(BadRequest(EmailInUseDetail));
      }
      ghost var users0 := users.rows;
      var created := users.Save(user);
      if EmailsUnique(users0) {
        InsertKeepsEmailsUnique(users0, created.id, user);
      }
      r := Ok(created);
    }

    /** `update_user`: only the current user may be updated, and only the
        fields the patch carries change: with `UserUpdate`, the name. */
    method UpdateUser(userId: int, currentUserId: nat, data: UserUpdate) returns (r: Result<Row<User>>)
      requires users.Valid() && currentUserId in users.rows
      modifies users
      ensures users.Valid()
      ensures userId != currentUserId ==>
                r == Err(Unauthorized(CannotUpdateUserDetail)) && unchanged(users)
      ensures userId == currentUserId ==>
                && r == Ok(Row(currentUserId, old(users.rows[currentUserId]).(name := data.name)))
                && users.rows == old(users.rows)[currentUserId := r.value.value]
                && users.nextId == old(users.nextId)
      ensures EmailsUnique(old(users.rows)) ==> EmailsUnique(users.rows)
    {
      if userId != currentUserId {
        return Err(Unauthorized(CannotUpdateUserDetail));
      }
      PatchNameOnly(hash, users.rows[currentUserId], data.name);
      var updated := users.Update(currentUserId, data.AsData(), UserSchema(hash));
      r := Ok(Row(currentUserId, updated.value));
    }
  }

  /** Registering the same email twice: the second attempt is refused. */
  method DuplicateEmailRefused(hash: string -> string) returns (first: Result<Row<User>>, second: Result<Row<User>>)
    ensures first.Ok? && second == Err(BadRequest(EmailInUseDetail))
  {
    var users := new Table<User>();
    var service := new UserService(users, hash, 0);
    var data := UserIn("User Name", "testuser@example.com", "Pass12345");
    first := service.CreateUser(data);
    second := service.CreateUser(data);
  }
}
