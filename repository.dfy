/** The generic asynchronous CRUD repository, as operations on one table of a
    sequential store.  A table maps primary keys to rows and hands out keys
    from an auto-increment counter, as the database sequence does. */
module Repository {
  import opened Common

  /** A value a patch can carry for one attribute. */
  datatype Value = IntV(i: int) | StrV(s: string)

  /** One `(field, value)` pair of patch data; `None` is Python's None. */
  type Item = (string, Option<Value>)

  /** What `update_instance_fields` may be handed: a dict, a pydantic model
      (iterating it yields its `(field, value)` pairs), or anything else, named
      by its Python type. */
  datatype Data =
    | Dict(items: seq<Item>)
    | Model(items: seq<Item>)
    | Other(typeName: string)

  /** The reflective interface of an ORM model class: which attributes it has
      (`hasattr`), how one is assigned (`setattr`, including any write hook the
      class declares) and how one is read back (`getattr`). */
  datatype Schema<!T> = Schema(
    hasAttr: string -> bool,
    setAttr: (T, string, Value) -> T,
    getAttr: (T, string) -> Option<Value>)

  /** Assigning one attribute leaves every other attribute as it was. */
  ghost predicate Lawful<T(!new)>(m: Schema<T>) {
    forall x: T, f: string, g: string, v: Value ::
      f != g ==> m.getAttr(m.setAttr(x, f, v), g) == m.getAttr(x, g)
  }

  /** The patch writes this item: the model has the field and the value is not None. */
  predicate Writes<T>(m: Schema<T>, item: Item) {
    m.hasAttr(item.0) && item.1.Some?
  }

  function ApplyItem<T>(m: Schema<T>, x: T, item: Item): T {
    if Writes(m, item) then m.setAttr(x, item.0, item.1.value) else x
  }

  /** The instance after the items have been applied in order. */
  function Patch<T>(m: Schema<T>, x: T, items: seq<Item>): T
    decreases |items|
  {
    if items == [] then x
    else ApplyItem(m, Patch(m, x, items[..|items| - 1]), items[|items| - 1])
  }

  /** An attribute that no writing item names keeps its old value. */
  lemma {:induction false} PatchKeepsUnwritten<T(!new)>(m: Schema<T>, x: T, items: seq<Item>, g: string)
    requires Lawful(m)
    requires forall k :: 0 <= k < |items| && Writes(m, items[k]) ==> items[k].0 != g
    ensures m.getAttr(Patch(m, x, items), g) == m.getAttr(x, g)
  {
    if items != [] {
      var init := items[..|items| - 1];
      forall k | 0 <= k < |init| && Writes(m, init[k]) ensures init[k].0 != g {
        assert init[k] == items[k];
      }
      PatchKeepsUnwritten(m, x, init, g);
    }
  }

  /** Data none of whose items is written leaves the instance as it was. */
  lemma {:induction false} PatchWithoutWrites<T>(m: Schema<T>, x: T, items: seq<Item>)
    requires forall k :: 0 <= k < |items| ==> !Writes(m, items[k])
    ensures Patch(m, x, items) == x
  {
    if items != [] {
      var init := items[..|items| - 1];
      forall k | 0 <= k < |init| ensures !Writes(m, init[k]) {
        assert init[k] == items[k];
      }
      PatchWithoutWrites(m, x, init);
    }
  }

  /** Items that are not written can be dropped from the data: only the
      present, non-None fields matter. */
  lemma {:induction false} PatchSkipsUnwritten<T>(m: Schema<T>, x: T, items: seq<Item>, item: Item)
    requires !Writes(m, item)
    ensures Patch(m, x, items + [item]) == Patch(m, x, items)
  {
    assert (items + [item])[..|items|] == items;
  }

  function TypeErrorDetail(typeName: string): string {
    "Invalid data type: " + typeName + ". Expected dict or BaseModel."
  }

  /** `update_instance_fields`: assign every field the model has whose new
      value is not None; anything that is neither a dict nor a model is a
      TypeError. */
  method UpdateInstanceFields<T>(instance: T, data: Data, m: Schema<T>) returns (r: Result<T>)
    ensures data.Other? ==> r == Err(TypeFailure(TypeErrorDetail(data.typeName)))
    ensures !data.Other? ==> r == Ok(Patch(m, instance, data.items))
  {
    if data.Other? {
      return Err(TypeFailure(TypeErrorDetail(data.typeName)));
    }
    var items := data.items;
    var x := instance;
    var i := 0;
    while i < |items|
      invariant 0 <= i <= |items|
      invariant x == Patch(m, instance, items[..i])
    {
      assert items[..i + 1][..i] == items[..i];
      var (field, value) := items[i];
      if m.hasAttr(field) && value.Some? {
        x := m.setAttr(x, field, value.value);
      }
      i := i + 1;
    }
    assert items[..|items|] == items;
    r := Ok(x);
  }

  /** The key `id` is one of the `n` keys a table hands out from `start`, one per save. */
  predicate InKeyRange(start: nat, n: nat, id: nat) {
    start <= id < start + n
  }

  function KeyRange(start: nat, n: nat): set<nat> {
    set id: nat | start <= id < start + n && InKeyRange(start, n, id)
  }

  /** There are `n` keys from `start` up to, not including, `start + n`. */
  lemma {:induction false} KeyRangeSize(start: nat, n: nat)
    ensures |KeyRange(start, n)| == n
  {
    if n > 0 {
      KeyRangeSize(start, n - 1);
      assert KeyRange(start, n) == KeyRange(start, n - 1) + {start + n - 1};
    }
  }

  /** One table of the store, the repository bound to one model class. */
  class Table<T> {
    var rows: map<nat, T>
    var nextId: nat

    ghost predicate Valid()
      reads this
    {
      0 < nextId && forall id :: id in rows ==> id < nextId
    }

    constructor ()
      ensures Valid() && rows == map[] && nextId == 1
    {
      rows := map[];
      nextId := 1;
    }

    /** `save`: insert the instance; the refreshed instance carries the key
        the sequence generated. */
    method Save(instance: T) returns (saved: Row<T>)
      requires Valid()
      modifies this
      ensures Valid() && nextId == old(nextId) + 1
      ensures saved == Row(old(nextId), instance) && saved.id !in old(rows)
      ensures rows == old(rows)[saved.id := instance]
    {
      saved := Row(nextId, instance);
      rows := rows[nextId := instance];
      nextId := nextId + 1;
    }

    /** `get_all(stmt)`: the rows the statement's filter selects. */
    function GetAll(where: T -> bool): (r: map<nat, T>)
      reads this
      ensures r.Keys <= rows.Keys
      ensures forall id :: id in rows ==> (id in r <==> where(rows[id]))
      ensures forall id :: id in r ==> r[id] == rows[id]
    {
      map id | id in rows && where(rows[id]) :: rows[id]
    }

    /** `get_by_id`: the row stored under the key, None when there is none. */
    function GetById(pk: int): (r: Option<T>)
      reads this
      ensures r.Some? <==> pk in rows
      ensures r.Some? ==> r.value == rows[pk]
    {
      if pk in rows then Some(rows[pk]) else None
    }

    /** `delete_by_id`: remove the row with that key and return it. */
    method DeleteById(pk: int) returns (r: Option<T>)
      requires Valid()
      modifies this
      ensures Valid() && nextId == old(nextId)
      ensures pk !in old(rows) ==> r == None && rows == old(rows)
      ensures pk in old(rows) ==> r == Some(old(rows)[pk]) && rows == old(rows) - {pk}
    {
      r := GetById(pk);
      if r.None? {
        return;
      }
      rows := rows - {pk};
    }

    /** `update`: patch the stored instance and write it back; a TypeError
        leaves the table untouched. */
    method Update(pk: nat, data: Data, m: Schema<T>) returns (r: Result<T>)
      requires Valid() && pk in rows
      modifies this
      ensures Valid() && nextId == old(nextId)
      ensures data.Other? ==> r == Err(TypeFailure(TypeErrorDetail(data.typeName))) && rows == old(rows)
      ensures !data.Other? ==> r == Ok(Patch(m, old(rows)[pk], data.items))
      ensures r.Ok? ==> rows == old(rows)[pk := r.value]
    {
      r := UpdateInstanceFields(rows[pk], data, m);
      if r.Ok? {
        rows := rows[pk := r.value];
      }
    }

    /** `update_by_id`: None without any change when the key is absent,
        otherwise `update` on the row found. */
    method UpdateById(pk: int, data: Data, m: Schema<T>) returns (r: Result<Option<T>>)
      requires Valid()
      modifies this
      ensures Valid() && nextId == old(nextId)
      ensures pk !in old(rows) ==> r == Ok(None) && rows == old(rows)
      ensures pk in old(rows) && data.Other? ==>
                r == Err(TypeFailure(TypeErrorDetail(data.typeName))) && rows == old(rows)
      ensures pk in old(rows) && !data.Other? ==>
                r == Ok(Some(Patch(m, old(rows)[pk], data.items))) && rows == old(rows)[pk := r.value.value]
    {
      var found := GetById(pk);
      if found.None? {
        return Ok(None);
      }
      var updated := Update(pk, data, m);
      if updated.Err? {
        return Err(updated.error);
      }
      r := Ok(Some(updated.value));
    }

    /** `get_by_email`: a row whose email column (`emailOf`) equals the
        address, None when there is none. */
    method GetByEmail(email: string, emailOf: T -> string) returns (r: Option<Row<T>>)
      ensures r.None? <==> forall id :: id in rows ==> emailOf(rows[id]) != email
      ensures r.Some? ==> r.value.id in rows && rows[r.value.id] == r.value.value
      ensures r.Some? ==> emailOf(r.value.value) == email
    {
      if id :| id in rows && emailOf(rows[id]) == email {
        r := Some(Row(id, rows[id]));
      } else {
        r := None;
      }
    }

    /** `delete_by_email`: remove a row with that email and return it. */
    method DeleteByEmail(email: string, emailOf: T -> string) returns (r: Option<Row<T>>)
      requires Valid()
      modifies this
      ensures Valid() && nextId == old(nextId)
      ensures r.None? <==> forall id :: id in old(rows) ==> emailOf(old(rows)[id]) != email
      ensures r.None? ==> rows == old(rows)
      ensures r.Some? ==> r.value.id in old(rows) && old(rows)[r.value.id] == r.value.value
      ensures r.Some? ==> emailOf(r.value.value) == email && rows == old(rows) - {r.value.id}
    {
      r := GetByEmail(email, emailOf);
      if r.None? {
        return;
      }
      rows := rows - {r.value.id};
    }
  }
}
