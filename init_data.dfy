/** The admin seeding script: get-or-create the admin user, then file twenty
    randomly generated records for them under existing categories.  Each
    random draw is an arbitrary choice within the bounds the script draws
    from. */
module InitData {
  import opened Common
  import opened Repository
  import opened Entities
  import opened RecordSchemas
  import CustomTypes

  const AdminName: string := "Admin"
  const AdminEmail: string := "admin@admin.org"
  const AdminPassword: string := "Pass12345"
  const AdminRecordCount: nat := 20
  const MinDescriptionLength: nat := 10
  const MaxDescriptionLength: nat := 30
  const MinAmount: int := 1
  const MaxAmount: int := 1000
  /** The IndexError `random.choice` raises on an empty sequence. */
  const EmptyChoiceDetail: string := "Cannot choose from an empty sequence"

  /** The admin user the script builds; the password goes through the model's
      hashing write hook. */
  function AdminUser(hash: string -> string, defaultTime: int): User {
    User(AdminName, AdminEmail, hash(AdminPassword), defaultTime, defaultTime, 0)
  }

  /** `create_admin_user`: the stored user with the admin email if there is
      one, without any insert; otherwise the newly inserted admin. */
  method CreateAdminUser(users: Table<User>, hash: string -> string, defaultTime: int) returns (admin: Row<User>)
    requires users.Valid()
    modifies users
    ensures users.Valid()
    ensures admin.id in users.rows && users.rows[admin.id] == admin.value
    ensures admin.value.email == AdminEmail
    ensures (exists id :: id in old(users.rows) && old(users.rows)[id].email == AdminEmail) ==>
              admin.id in old(users.rows) && unchanged(users)
    ensures (forall id :: id in old(users.rows) ==> old(users.rows)[id].email != AdminEmail) ==>
              && admin.value == AdminUser(hash, defaultTime)
              && admin.id !in old(users.rows)
              && users.rows == old(users.rows)[admin.id := admin.value]
  {
    var user := AdminUser(hash, defaultTime);
    var existing := users.GetByEmail(user.email, UserEmail);
    if existing.Some? {
      return existing.value;
    }
    admin := users.Save(user);
  }

  /** A record the script may generate for the admin: an amount in
      [1, 1000], a description of 10 to 30 ASCII letters, an existing
      category and the admin as owner. */
  predicate AdminRecord(r: Record, adminId: nat, categories: map<nat, Category>, now: int) {
    && r.userId == adminId
    && MinAmount <= r.amount <= MaxAmount
    && MinDescriptionLength <= |r.description| <= MaxDescriptionLength
    && (forall k :: 0 <= k < |r.description| ==> CustomTypes.IsLetter(r.description[k]))
    && r.categoryId in categories
    && r.date == now
  }

  /** `''.join(random.choice(string.ascii_letters) for _ in range(length))`. */
  method RandomLetters(length: nat) returns (s: string)
    ensures |s| == length
    ensures forall k :: 0 <= k < |s| ==> CustomTypes.IsLetter(s[k])
  {
    s := "";
    for i := 0 to length
      invariant |s| == i
      invariant forall k :: 0 <= k < |s| ==> CustomTypes.IsLetter(s[k])
    {
      assert CustomTypes.IsLetter('a');
      var c :| CustomTypes.IsLetter(c);
      s := s + [c];
    }
  }

  /** `add_admin_records`: with no category to choose from the draw fails and
      nothing is added; otherwise twenty admin records are inserted under the
      next twenty keys and every earlier record stays as it was. */
  method AddAdminRecords(categories: Table<Category>, records: Table<Record>, adminId: nat, now: int)
    returns (r: Result<()>)
    requires records.Valid()
    modifies records
    ensures records.Valid()
    ensures categories.rows == map[] ==> r == Err(IndexFailure(EmptyChoiceDetail)) && unchanged(records)
    ensures categories.rows != map[] ==>
              && r == Ok(())
              && records.nextId == old(records.nextId) + AdminRecordCount
              && records.rows.Keys == old(records.rows.Keys) + KeyRange(old(records.nextId), AdminRecordCount)
              && (forall id :: id in old(records.rows) ==> records.rows[id] == old(records.rows[id]))
              && (forall id :: InKeyRange(old(records.nextId), AdminRecordCount, id) ==>
                    AdminRecord(records.rows[id], adminId, categories.rows, now))
  {
    if categories.rows == map[] {
      return Err(IndexFailure(EmptyChoiceDetail));
    }
    var start := records.nextId;
    for i := 0 to AdminRecordCount
      invariant records.Valid() && records.nextId == start + i
      invariant records.rows.Keys == old(records.rows.Keys) + KeyRange(start, i)
      invariant forall id :: id in old(records.rows) ==> records.rows[id] == old(records.rows[id])
      invariant forall id :: InKeyRange(start, i, id) ==> AdminRecord(records.rows[id], adminId, categories.rows, now)
    {
      var length :| MinDescriptionLength <= length <= MaxDescriptionLength;
      var description := RandomLetters(length);
      var categoryId :| categoryId in categories.rows;
      var amount :| MinAmount <= amount <= MaxAmount;
      var saved := records.Save(Record(amount, adminId, description, now, categoryId));
      assert KeyRange(start, i + 1) == KeyRange(start, i) + {saved.id};
    }
    r := Ok(());
  }

  /** Every generated record would pass the record request schema: its
      amount is positive and its description within 30 characters. */
  lemma AdminRecordIsValidInput(rec: Record, adminId: nat, categories: map<nat, Category>, now: int)
    requires AdminRecord(rec, adminId, categories, now)
    ensures NewRecordIn(rec.amount, rec.description, rec.date, rec.categoryId)
              == Ok(RecordIn(rec.amount, rec.description, rec.date, rec.categoryId))
  {
  }

  /** Seeding the admin twice inserts one user: the second run finds the
      first one's admin. */
  method AdminSeededOnce(hash: string -> string) returns (first: Row<User>, second: Row<User>, count: nat)
    ensures first == second && count == 1
  {
    var users := new Table<User>();
    first := CreateAdminUser(users, hash, 0);
    second := CreateAdminUser(users, hash, 0);
    assert users.rows.Keys == {first.id};
    count := |users.rows|;
  }
}
