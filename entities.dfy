/** The three persisted entities (users, categories, records) and the user
    model's attribute interface.  Primary keys are the keys of the tables that
    hold them, so the datatypes carry no id of their own. */
module Entities {
  import opened Common
  import opened Repository

  /** A user row.  `password` always holds a hash; `createdAt` and `updatedAt`
      are timestamps; `categoriesCount` is the number of categories the user
      has created and not deleted. */
  datatype User = User(
    name: string,
    email: string,
    password: string,
    createdAt: int,
    updatedAt: int,
    categoriesCount: int)

  /** A category; `userId == None` makes it public, visible to every user. */
  datatype Category = Category(name: string, description: Option<string>, userId: Option<nat>)

  /** A spending record, owned by `userId` and filed under `categoryId`. */
  datatype Record = Record(amount: int, userId: nat, description: string, date: int, categoryId: int)

  function UserEmail(u: User): string { u.email }

  /** No two users share an email address (the unique index on `users.email`). */
  ghost predicate EmailsUnique(users: map<nat, User>) {
    forall a, b :: a in users && b in users && users[a].email == users[b].email ==> a == b
  }

  /** The attributes a user instance has and a patch may assign. */
  const UserAttributes: set<string> :=
    {"name", "email", "password", "created_at", "updated_at", "categories_count"}

  /** `setattr` on a user.  Assigning the password goes through the model's
      write hook, which stores `hash` of the plain text. */
  function SetUserAttr(hash: string -> string, u: User, field: string, v: Value): User {
    match v
    case StrV(s) =>
      if field == "name" then u.(name := s)
      else if field == "email" then u.(email := s)
      else if field == "password" then u.(password := hash(s))
      else u
    case IntV(i) =>
      if field == "created_at" then u.(createdAt := i)
      else if field == "updated_at" then u.(updatedAt := i)
      else if field == "categories_count" then u.(categoriesCount := i)
      else u
  }

  /** `getattr` on a user. */
  function GetUserAttr(u: User, field: string): Option<Value> {
    if field == "name" then Some(StrV(u.name))
    else if field == "email" then Some(StrV(u.email))
    else if field == "password" then Some(StrV(u.password))
    else if field == "created_at" then Some(IntV(u.createdAt))
    else if field == "updated_at" then Some(IntV(u.updatedAt))
    else if field == "categories_count" then Some(IntV(u.categoriesCount))
    else None
  }

  function UserSchema(hash: string -> string): Schema<User> {
    Schema(f => f in UserAttributes, (u, f, v) => SetUserAttr(hash, u, f, v), GetUserAttr)
  }

  /** Assigning one user attribute never disturbs another. */
  lemma UserSchemaLawful(hash: string -> string)
    ensures Lawful(UserSchema(hash))
  {
    var m := UserSchema(hash);
    forall u: User, f: string, g: string, v: Value | f != g
      ensures m.getAttr(m.setAttr(u, f, v), g) == m.getAttr(u, g)
    {
      assert m.setAttr(u, f, v) == SetUserAttr(hash, u, f, v);
    }
  }

  /** A patch that writes only the name changes the name and nothing else. */
  lemma {:induction false} PatchNameOnly(hash: string -> string, u: User, name: string)
    ensures Patch(UserSchema(hash), u, [("name", Some(StrV(name)))]) == u.(name := name)
  {
    var m := UserSchema(hash);
    var items: seq<Item> := [("name", Some(StrV(name)))];
    assert items[..0] == [];
    assert Writes(m, items[0]);
  }
}
