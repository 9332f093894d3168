/**
 * The add dialog: the three required fields are checked for the empty string, one
 * normalised row is inserted, and on success the form returns to its defaults. No
 * log entry is written.
 */
module AddItem {
  import opened Options
  import opened Js
  import opened Store

  /** The dialog's `formData`. */
  datatype NewItemForm = NewItemForm(
    name: string,
    category: string,
    warehouse: string,
    itemType: ItemType,
    quantity: int,
    criticalQuantity: string,
    notes: string)

  /** The defaults the form starts with and is reset to: a multiple item of quantity 1. */
  const DefaultNewItemForm: NewItemForm := NewItemForm("", "", "", Multiple, 1, "", "")

  /** The quantity field's change handler: `parseInt(value) || 1`. */
  function CreateQuantityInput(raw: string): (q: int)
    ensures ParseInt(raw).None? || ParseInt(raw) == Some(0) ==> q == 1
    ensures ParseInt(raw).Some? && ParseInt(raw).value != 0 ==> q == ParseInt(raw).value
    ensures q != 0
  {
    NumberInput(raw, 1)
  }

  /** The inserted row under the id the database assigns. The insert sets no model
      and no location, and the item starts without photos. */
  function NewItemRow(id: Id, f: NewItemForm): (item: Item)
    ensures item.id == id && item.name == f.name && item.category == f.category
    ensures item.warehouse == f.warehouse && item.itemType == f.itemType
    ensures f.itemType == Unit ==> item.quantity == 1 && item.criticalQuantity.None?
    ensures f.itemType == Multiple ==> item.quantity == f.quantity
    ensures item.criticalQuantity == CriticalFromText(f.itemType, f.criticalQuantity)
    ensures item.notes == NullIfEmpty(f.notes)
    ensures item.model.None? && item.location.None? && item.photos == []
  {
    Item(id, f.name, None, f.category, f.warehouse, f.itemType, UnitAdjusted(f.itemType, f.quantity),
         CriticalFromText(f.itemType, f.criticalQuantity), None, NullIfEmpty(f.notes), [])
  }

  /** The submit handler. `freshId` is the id the database generates; `insertOk` says
      whether the insert succeeds (an id already in use fails as a key conflict). */
  function Create(t: Tables, f: NewItemForm, freshId: Id, insertOk: bool): (s: Step<NewItemForm>)
    ensures !RequiredFieldsPresent(f.name, f.category, f.warehouse) ==> s == Step(t, f, Rejected(MissingFields))
    ensures s.tables == t || s.tables == t.InsertItem(NewItemRow(freshId, f))
    ensures s.tables.log == t.log
    ensures s.outcome == Done <==> RequiredFieldsPresent(f.name, f.category, f.warehouse) && insertOk && freshId !in t.items
    ensures s.outcome == Done ==>
              s.form == DefaultNewItemForm && s.tables.items == t.items[freshId := NewItemRow(freshId, f)]
    ensures s.outcome != Done ==> s.tables == t && s.form == f
    ensures t.Keyed() ==> s.tables.Keyed()
  {
    if !RequiredFieldsPresent(f.name, f.category, f.warehouse) then Step(t, f, Rejected(MissingFields))
    else if !insertOk || freshId in t.items then Step(t, f, Failed)
    else Step(t.InsertItem(NewItemRow(freshId, f)), DefaultNewItemForm, Done)
  }

  /** A completed create adds exactly one row and keeps every existing one. */
  lemma CreateAddsOneRow(t: Tables, f: NewItemForm, freshId: Id, insertOk: bool)
    ensures var s := Create(t, f, freshId, insertOk);
            s.outcome == Done ==>
              s.tables.items.Keys == t.items.Keys + {freshId} && freshId !in t.items &&
              forall id :: id in t.items ==> s.tables.items[id] == t.items[id]
  {
  }

  class AddItemDialog {
    var form: NewItemForm

    constructor ()
      ensures form == DefaultNewItemForm
    {
      form := DefaultNewItemForm;
    }

    /** Typing into the quantity field. */
    method SetQuantityInput(raw: string)
      modifies this
      ensures form == old(form).(quantity := CreateQuantityInput(raw))
    {
      form := form.(quantity := CreateQuantityInput(raw));
    }

    /** Any other field's change handler stores what was typed or chosen. */
    method SetForm(f: NewItemForm)
      modifies this
      ensures form == f
    {
      form := f;
    }

    /** `handleSubmit`: the insert, then the reset to the defaults. */
    method Submit(db: Db, freshId: Id, insertOk: bool) returns (outcome: Outcome)
      modifies this, db
      ensures Step(db.Snapshot(), form, outcome) == Create(old(db.Snapshot()), old(form), freshId, insertOk)
    {
      if !RequiredFieldsPresent(form.name, form.category, form.warehouse) {
        return Rejected(MissingFields);
      }
      if !insertOk || freshId in db.items {
        return Failed;
      }
      db.InsertItem(NewItemRow(freshId, form));
      form := DefaultNewItemForm;
      return Done;
    }
  }
}
