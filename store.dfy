/**
 * The hosted database as the front end sees it: the `items` table, the append-only
 * `transactions` table (the audit log), the `warehouses` table, the `app_users`
 * names and the object keys of the "item-photos" storage bucket. `Tables` is one
 * state of all of them as a value; `Db` is the mutable store the dialogs write to,
 * one table operation per method.
 */
module Store {
  import opened Options
  import opened Js

  type Id = string

  /** The item_type column. */
  datatype ItemType = Unit | Multiple

  /** The column values as the database stores them. */
  function ItemTypeName(t: ItemType): (name: string)
    ensures name == "единичный" || name == "множественный"
    ensures (name == "единичный") == (t == Unit)
  {
    match t
    case Unit => "единичный"
    case Multiple => "множественный"
  }

  /** A row of `items`. Quantities are whole numbers of the database's integer column. */
  datatype Item = Item(
    id: Id,
    name: string,
    model: Option<string>,
    category: string,
    warehouse: string,
    itemType: ItemType,
    quantity: int,
    criticalQuantity: Option<int>,
    location: Option<string>,
    notes: Option<string>,
    photos: seq<string>)

  /** The JSON `details` column of a transaction. */
  datatype Details =
    | NoDetails
    | Replenishment(newTotal: int, location: Option<string>)
    | WarehouseNamed(warehouseName: string)
    | WarehouseRenamed(oldName: string, newName: string)

  /** A row of `transactions`; columns a handler does not set are `None`. */
  datatype Transaction = Transaction(
    itemId: Option<Id>,
    userId: Id,
    action: string,
    quantity: int,
    purpose: Option<string>,
    warehouseReturned: Option<string>,
    locationDetails: Option<string>,
    itemName: Option<string>,
    categoryName: Option<string>,
    details: Details)

  /** The action values the dialogs write. */
  const ActionTaken: string := "взято"
  const ActionReturned: string := "возвращено"
  const ActionReplenished: string := "пополнено"
  const ActionWarehouseCreated: string := "склад создан"
  const ActionWarehouseRenamed: string := "склад изменен"
  const ActionWarehouseDeleted: string := "склад удален"

  /** The object passed to `.update(...)`: `None` leaves a column as it is. */
  datatype ItemUpdate = ItemUpdate(
    name: Option<string>,
    category: Option<string>,
    warehouse: Option<string>,
    itemType: Option<ItemType>,
    quantity: Option<int>,
    criticalQuantity: Option<Option<int>>,
    location: Option<Option<string>>,
    notes: Option<Option<string>>,
    photos: Option<seq<string>>)

  const NoChange: ItemUpdate := ItemUpdate(None, None, None, None, None, None, None, None, None)

  /** The row after an update: the columns named in `u` take its values, the others
      (and the id) keep theirs. */
  function Apply(item: Item, u: ItemUpdate): (r: Item)
    ensures r.id == item.id && r.model == item.model
  {
    item.(
      name := u.name.GetOr(item.name),
      category := u.category.GetOr(item.category),
      warehouse := u.warehouse.GetOr(item.warehouse),
      itemType := u.itemType.GetOr(item.itemType),
      quantity := u.quantity.GetOr(item.quantity),
      criticalQuantity := u.criticalQuantity.GetOr(item.criticalQuantity),
      location := u.location.GetOr(item.location),
      notes := u.notes.GetOr(item.notes),
      photos := u.photos.GetOr(item.photos))
  }

  /** One state of every table. */
  datatype Tables = Tables(
    items: map<Id, Item>,
    log: seq<Transaction>,
    warehouses: map<Id, string>,
    users: set<string>,
    objects: set<string>)
  {
    /** Every row of `items` is stored under its own id. */
    predicate Keyed()
    {
      forall id :: id in items ==> items[id].id == id
    }

    /** `insert` into transactions. */
    function Record(t: Transaction): Tables
    {
      this.(log := log + [t])
    }

    /** `update(u).eq("id", id)` on items; an id that matches no row changes nothing
        and is not an error. */
    function Update(id: Id, u: ItemUpdate): Tables
    {
      if id in items then this.(items := items[id := Apply(items[id], u)]) else this
    }

    function InsertItem(item: Item): Tables
    {
      this.(items := items[item.id := item])
    }

    function InsertWarehouse(id: Id, name: string): Tables
    {
      this.(warehouses := warehouses[id := name])
    }

    function RenameWarehouse(id: Id, name: string): Tables
    {
      if id in warehouses then this.(warehouses := warehouses[id := name]) else this
    }

    function DeleteWarehouse(id: Id): Tables
    {
      this.(warehouses := warehouses - {id})
    }

    function InsertUser(name: string): Tables
    {
      this.(users := users + {name})
    }

    function PutObject(key: string): Tables
    {
      this.(objects := objects + {key})
    }

    function RemoveObject(key: string): Tables
    {
      this.(objects := objects - {key})
    }

    /** One `upload` per key, in order. */
    function PutObjects(keys: seq<string>): (r: Tables)
      ensures r.items == items && r.log == log && r.warehouses == warehouses && r.users == users
      decreases |keys|
    {
      if keys == [] then this
      else PutObjects(keys[..|keys| - 1]).PutObject(keys[|keys| - 1])
    }
  }

  /** An item update after a log insert: the items as if the update ran alone, the
      log with the one entry more, the other tables as they were. */
  lemma RecordThenUpdate(t: Tables, e: Transaction, id: Id, u: ItemUpdate)
    ensures var r := t.Record(e).Update(id, u);
            r.items == t.Update(id, u).items && r.log == t.log + [e] &&
            r.warehouses == t.warehouses && r.users == t.users && r.objects == t.objects
  {
  }

  /** After a batch of uploads the bucket holds what it held and every key. */
  lemma {:induction false} PutObjectsContents(t: Tables, keys: seq<string>)
    ensures forall k :: k in t.PutObjects(keys).objects <==> k in t.objects || k in keys
    decreases |keys|
  {
    if keys != [] {
      var init := keys[..|keys| - 1];
      PutObjectsContents(t, init);
      assert keys == init + [keys[|keys| - 1]];
    }
  }

  /** How a submit handler ended: stopped by its own validation (with the message it
      shows), stopped by a failed request, or completed. */
  datatype Outcome = Rejected(message: string) | Failed | Done

  /** The tables, the dialog's form state and the outcome after a handler has run. */
  datatype Step<F> = Step(tables: Tables, form: F, outcome: Outcome)

  // ---------------------------------------------------------------------------
  // Normalisation shared by the dialogs
  // ---------------------------------------------------------------------------

  /** `item_type === "единичный" ? 1 : quantity`: a unit item always counts as one. */
  function UnitAdjusted(t: ItemType, q: int): (r: int)
    ensures t == Unit ==> r == 1
    ensures t == Multiple ==> r == q
  {
    if t == Unit then 1 else q
  }

  /** `s || null` for a string: the empty string becomes null. */
  function NullIfEmpty(s: string): (r: Option<string>)
    ensures r.None? <==> s == []
    ensures r.Some? ==> r.value == s
  {
    if s == [] then None else Some(s)
  }

  /** The critical_quantity column written by the add and edit dialogs: null for a
      unit item or an empty field, otherwise `parseInt` of the field (NaN is written
      as null). */
  function CriticalFromText(t: ItemType, text: string): (r: Option<int>)
    ensures t == Unit || text == [] ==> r.None?
    ensures t == Multiple && text != [] ==> r == ParseInt(text)
  {
    if t == Unit then None else if text == [] then None else ParseInt(text)
  }

  /** The required-field check of the add and edit dialogs: name, category and
      warehouse must be non-empty strings; whitespace counts as filled. */
  predicate RequiredFieldsPresent(name: string, category: string, warehouse: string)
  {
    name != [] && category != [] && warehouse != []
  }

  const MissingFields: string := "Заполните все обязательные поля"

  // ---------------------------------------------------------------------------
  // The mutable store
  // ---------------------------------------------------------------------------

  class Db {
    var items: map<Id, Item>
    var log: seq<Transaction>
    var warehouses: map<Id, string>
    var users: set<string>
    var objects: set<string>

    function Snapshot(): Tables
      reads this
    {
      Tables(items, log, warehouses, users, objects)
    }

    constructor ()
      ensures Snapshot() == Tables(map[], [], map[], {}, {})
    {
      items := map[];
      log := [];
      warehouses := map[];
      users := {};
      objects := {};
    }

    method Record(t: Transaction)
      modifies this
      ensures Snapshot() == old(Snapshot()).Record(t)
    {
      log := log + [t];
    }

    method Update(id: Id, u: ItemUpdate)
      modifies this
      ensures Snapshot() == old(Snapshot()).Update(id, u)
    {
      if id in items {
        items := items[id := Apply(items[id], u)];
      }
    }

    method InsertItem(item: Item)
      modifies this
      ensures Snapshot() == old(Snapshot()).InsertItem(item)
    {
      items := items[item.id := item];
    }

    method InsertWarehouse(id: Id, name: string)
      modifies this
      ensures Snapshot() == old(Snapshot()).InsertWarehouse(id, name)
    {
      warehouses := warehouses[id := name];
    }

    method RenameWarehouse(id: Id, name: string)
      modifies this
      ensures Snapshot() == old(Snapshot()).RenameWarehouse(id, name)
    {
      if id in warehouses {
        warehouses := warehouses[id := name];
      }
    }

    method DeleteWarehouse(id: Id)
      modifies this
      ensures Snapshot() == old(Snapshot()).DeleteWarehouse(id)
    {
      warehouses := warehouses - {id};
    }

    method InsertUser(name: string)
      modifies this
      ensures Snapshot() == old(Snapshot()).InsertUser(name)
    {
      users := users + {name};
    }

    method PutObject(key: string)
      modifies this
      ensures Snapshot() == old(Snapshot()).PutObject(key)
    {
      objects := objects + {key};
    }

    method RemoveObject(key: string)
      modifies this
      ensures Snapshot() == old(Snapshot()).RemoveObject(key)
    {
      objects := objects - {key};
    }
  }
}
