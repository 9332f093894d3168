/**
 * The edit dialog: the form is filled from the item when it opens, the three
 * required fields are checked for the empty string, and one update writes every
 * editable column, normalised for unit items. No log entry is written.
 */
module EditItem {
  import opened Options
  import opened Js
  import opened Store

  /** The dialog's `formData`. */
  datatype EditForm = EditForm(
    name: string,
    category: string,
    warehouse: string,
    itemType: ItemType,
    quantity: int,
    criticalQuantity: string,
    location: string,
    notes: string)

  /** The `formData` the dialog is created with, before it first opens. */
  const BlankEditForm: EditForm := EditForm("", "", "", Multiple, 1, "", "", "")

  /** `critical_quantity?.toString() || ""`: the numeral, or the empty field for null. */
  function CriticalText(c: Option<int>): (s: string)
    ensures s == [] <==> c.None?
    ensures c.Some? ==> ParseInt(s) == Some(c.value)
  {
    match c
    case None => ""
    case Some(v) =>
      ParseIntOfIntToString(v);
      IntToString(v)
  }

  /** The form as the open effect fills it from `item`. */
  function FormFromItem(item: Item): (f: EditForm)
    ensures f.name == item.name && f.category == item.category && f.warehouse == item.warehouse
    ensures f.itemType == item.itemType && f.quantity == item.quantity
    ensures f.criticalQuantity == [] <==> item.criticalQuantity.None?
    ensures item.criticalQuantity.Some? ==> ParseInt(f.criticalQuantity) == item.criticalQuantity
    ensures f.location == (if item.location.Some? then item.location.value else "")
    ensures f.notes == (if item.notes.Some? then item.notes.value else "")
  {
    EditForm(item.name, item.category, item.warehouse, item.itemType, item.quantity,
             CriticalText(item.criticalQuantity), item.location.GetOr(""), item.notes.GetOr(""))
  }

  /** The quantity field's change handler: `parseInt(value) || 0`. */
  function EditQuantityInput(raw: string): (q: int)
    ensures ParseInt(raw).None? ==> q == 0
    ensures ParseInt(raw).Some? ==> q == ParseInt(raw).value
  {
    NumberInput(raw, 0)
  }

  /** The object written by `.update(...)`: every editable column, a unit item
      forced to quantity 1 and no critical quantity, empty texts written as null. */
  function EditUpdate(f: EditForm): (u: ItemUpdate)
    ensures u.name == Some(f.name) && u.category == Some(f.category) && u.warehouse == Some(f.warehouse)
    ensures u.itemType == Some(f.itemType) && u.photos.None?
    ensures f.itemType == Unit ==> u.quantity == Some(1) && u.criticalQuantity == Some(None)
    ensures f.itemType == Multiple ==> u.quantity == Some(f.quantity)
    ensures u.criticalQuantity == Some(CriticalFromText(f.itemType, f.criticalQuantity))
    ensures u.location == Some(NullIfEmpty(f.location)) && u.notes == Some(NullIfEmpty(f.notes))
  {
    ItemUpdate(
      Some(f.name), Some(f.category), Some(f.warehouse), Some(f.itemType),
      Some(UnitAdjusted(f.itemType, f.quantity)),
      Some(CriticalFromText(f.itemType, f.criticalQuantity)),
      Some(NullIfEmpty(f.location)), Some(NullIfEmpty(f.notes)), None)
  }

  /** The submit handler; `updateOk` says whether the update succeeds. */
  function Edit(t: Tables, f: EditForm, item: Item, updateOk: bool): (s: Step<EditForm>)
    ensures !RequiredFieldsPresent(f.name, f.category, f.warehouse) ==> s == Step(t, f, Rejected(MissingFields))
    ensures s.tables == t || s.tables == t.Update(item.id, EditUpdate(f))
    ensures s.tables.log == t.log && s.form == f
    ensures s.outcome == Done <==> RequiredFieldsPresent(f.name, f.category, f.warehouse) && updateOk
    ensures s.outcome == Done ==> s.tables == t.Update(item.id, EditUpdate(f))
    ensures s.outcome != Done ==> s.tables == t
  {
    if !RequiredFieldsPresent(f.name, f.category, f.warehouse) then Step(t, f, Rejected(MissingFields))
    else if !updateOk then Step(t, f, Failed)
    else Step(t.Update(item.id, EditUpdate(f)), f, Done)
  }

  /** Opening the dialog on an item and saving it unchanged writes the item's own
      values back, when the item is already in the normal form the dialog writes: a
      multiple item, or a unit item of quantity 1 without critical quantity, and no
      empty-string location or notes. */
  lemma EditRoundTrip(item: Item)
    requires item.itemType == Multiple || (item.quantity == 1 && item.criticalQuantity.None?)
    requires item.location != Some("") && item.notes != Some("")
    ensures Apply(item, EditUpdate(FormFromItem(item))) == item
  {
    var f := FormFromItem(item);
    var r := Apply(item, EditUpdate(f));
    assert r.criticalQuantity == item.criticalQuantity by {
      match item.criticalQuantity
      case None =>
      case Some(v) =>
        if item.itemType == Multiple {
          ParseIntOfIntToString(v);
          assert f.criticalQuantity == IntToString(v);
        }
    }
  }

  /** Saving an unchanged form over a row that matches the snapshot leaves every
      table as it was. */
  lemma EditUnchangedIsNoOp(t: Tables, item: Item)
    requires item.id in t.items && t.items[item.id] == item
    requires item.itemType == Multiple || (item.quantity == 1 && item.criticalQuantity.None?)
    requires item.location != Some("") && item.notes != Some("")
    requires RequiredFieldsPresent(item.name, item.category, item.warehouse)
    ensures Edit(t, FormFromItem(item), item, true) == Step(t, FormFromItem(item), Done)
  {
    EditRoundTrip(item);
    assert t.items[item.id := item] == t.items;
  }

  /** Whatever the form held, a saved unit item has quantity 1 and no critical
      quantity. */
  lemma EditUnitNormalised(t: Tables, f: EditForm, item: Item, updateOk: bool)
    requires f.itemType == Unit && item.id in t.items
    ensures var s := Edit(t, f, item, updateOk);
            s.outcome == Done ==>
              s.tables.items[item.id].quantity == 1 && s.tables.items[item.id].criticalQuantity.None?
  {
  }

  class EditItemDialog {
    var form: EditForm

    constructor ()
      ensures form == BlankEditForm
    {
      form := BlankEditForm;
    }

    /** The effect that runs whenever the dialog opens. */
    method Open(item: Item)
      modifies this
      ensures form == FormFromItem(item)
    {
      form := FormFromItem(item);
    }

    /** Typing into the quantity field. */
    method SetQuantityInput(raw: string)
      modifies this
      ensures form == old(form).(quantity := EditQuantityInput(raw))
    {
      form := form.(quantity := EditQuantityInput(raw));
    }

    /** Any other field's change handler stores what was typed or chosen. */
    method SetForm(f: EditForm)
      modifies this
      ensures form == f
    {
      form := f;
    }

    /** `handleSubmit`. */
    method Submit(db: Db, item: Item, updateOk: bool) returns (outcome: Outcome)
      modifies db
      ensures Step(db.Snapshot(), form, outcome) == Edit(old(db.Snapshot()), form, item, updateOk)
    {
      if !RequiredFieldsPresent(form.name, form.category, form.warehouse) {
        return Rejected(MissingFields);
      }
      if !updateOk {
        return Failed;
      }
      db.Update(item.id, EditUpdate(form));
      return Done;
    }
  }
}
