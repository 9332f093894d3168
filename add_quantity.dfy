/**
 * The replenish dialog: a positive quantity is added to the caller's snapshot of any
 * item, the location is rewritten, and only then is the "пополнено" entry logged;
 * the outcome of that log insert is never looked at.
 */
module AddQuantity {
  import opened Options
  import opened Js
  import opened Store

  /** The dialog's `quantity`, `location` and `isEditingLocation` state. */
  datatype ReplenishForm = ReplenishForm(quantity: int, location: string, editingLocation: bool)

  /** The state the dialog is put in whenever it opens for `item`. */
  function OpenedForm(item: Item): (f: ReplenishForm)
    ensures f.quantity == 1 && !f.editingLocation
    ensures f.location == if item.location.Some? then item.location.value else ""
  {
    ReplenishForm(1, item.location.GetOr(""), false)
  }

  /** The state after a completed replenish. */
  const ClearedForm: ReplenishForm := ReplenishForm(1, "", false)

  const NotPositive: string := "Количество должно быть больше 0"

  /** The update: the snapshot's quantity plus `q`, whatever the item type, and the
      trimmed location or null. */
  function ReplenishUpdate(item: Item, q: int, location: Option<string>): (u: ItemUpdate)
    ensures Apply(item, u) == item.(quantity := item.quantity + q, location := location)
  {
    NoChange.(quantity := Some(item.quantity + q), location := Some(location))
  }

  /** The row logged after the update; `category` is what the read of the stored row
      gave. */
  function ReplenishEntry(item: Item, user: Id, q: int, category: Option<string>, location: Option<string>): (e: Transaction)
    ensures e.itemId == Some(item.id) && e.userId == user && e.action == ActionReplenished && e.quantity == q
    ensures e.itemName == Some(item.name) && e.categoryName == category
    ensures e.details == Replenishment(Apply(item, ReplenishUpdate(item, q, location)).quantity, location)
    ensures e.purpose.None? && e.warehouseReturned.None? && e.locationDetails.None?
  {
    Transaction(Some(item.id), user, ActionReplenished, q, None, None, None, Some(item.name), category,
                Replenishment(item.quantity + q, location))
  }

  /** `itemData?.category` after the read of the stored row: nothing when the read
      fails (`readOk` false; its error is never looked at) or the row is gone. */
  function StoredCategory(t: Tables, id: Id, readOk: bool): (c: Option<string>)
    ensures c.Some? <==> readOk && id in t.items
    ensures c.Some? ==> c.value == t.items[id].category
  {
    if readOk && id in t.items then Some(t.items[id].category) else None
  }

  /** The submit handler. `actor` as for the take dialog; `readOk` says whether the
      read of the stored row succeeds, `updateOk` whether the item update does and
      `logOk` whether the log insert does. */
  function Replenish(t: Tables, f: ReplenishForm, item: Item, actor: Option<Id>, readOk: bool, updateOk: bool, logOk: bool): (s: Step<ReplenishForm>)
    ensures f.quantity <= 0 ==> s == Step(t, f, Rejected(NotPositive))
    ensures actor.None? || !updateOk ==> s.tables == t
    ensures var u := ReplenishUpdate(item, f.quantity, NullIfEmpty(Trim(f.location)));
            s.tables.items == t.items || s.tables.items == t.Update(item.id, u).items
    ensures var u := ReplenishUpdate(item, f.quantity, NullIfEmpty(Trim(f.location)));
            s.tables.log != t.log ==> s.tables.items == t.Update(item.id, u).items
    ensures s.tables.log == t.log ||
            (actor.Some? &&
             s.tables.log == t.log + [ReplenishEntry(item, actor.value, f.quantity, StoredCategory(t, item.id, readOk), NullIfEmpty(Trim(f.location)))])
    ensures s.tables.warehouses == t.warehouses && s.tables.users == t.users && s.tables.objects == t.objects
    ensures s.outcome == Done <==> f.quantity > 0 && actor.Some? && updateOk
    ensures s.outcome == Done ==>
              s.form == ClearedForm &&
              s.tables.items == t.Update(item.id, ReplenishUpdate(item, f.quantity, NullIfEmpty(Trim(f.location)))).items
    ensures s.outcome == Done && logOk ==> |s.tables.log| == |t.log| + 1
    ensures s.outcome != Done ==> s.form == f
  {
    if f.quantity <= 0 then Step(t, f, Rejected(NotPositive))
    else if actor.None? then Step(t, f, Failed)
    else
      var category := StoredCategory(t, item.id, readOk);
      var location := NullIfEmpty(Trim(f.location));
      if !updateOk then Step(t, f, Failed)
      else
        var updated := t.Update(item.id, ReplenishUpdate(item, f.quantity, location));
        var logged := if logOk then updated.Record(ReplenishEntry(item, actor.value, f.quantity, category, location)) else updated;
        assert logged.items == updated.items && logged.warehouses == t.warehouses &&
               logged.users == t.users && logged.objects == t.objects;
        Step(logged, ClearedForm, Done)
  }

  /** A completed replenish stores the snapshot's quantity plus the amount for unit and
      multiple items alike, and the trimmed location (null when blank); the log entry,
      when written, carries the same new total. */
  lemma ReplenishTotals(t: Tables, f: ReplenishForm, item: Item, actor: Option<Id>, readOk: bool, updateOk: bool, logOk: bool)
    requires item.id in t.items
    ensures var s := Replenish(t, f, item, actor, readOk, updateOk, logOk);
            s.outcome == Done ==>
              item.id in s.tables.items &&
              s.tables.items[item.id].quantity == item.quantity + f.quantity &&
              s.tables.items[item.id].itemType == t.items[item.id].itemType &&
              s.tables.items[item.id].location == NullIfEmpty(Trim(f.location)) &&
              (logOk ==> s.tables.log[|t.log|].details == Replenishment(item.quantity + f.quantity, NullIfEmpty(Trim(f.location))))
  {
  }

  /** A failed log insert neither undoes nor blocks the replenish. */
  lemma ReplenishIgnoresLogFailure(t: Tables, f: ReplenishForm, item: Item, actor: Option<Id>, readOk: bool, updateOk: bool)
    ensures var withLog := Replenish(t, f, item, actor, readOk, updateOk, true);
            var withoutLog := Replenish(t, f, item, actor, readOk, updateOk, false);
            withLog.outcome == withoutLog.outcome &&
            withLog.tables.items == withoutLog.tables.items &&
            withoutLog.tables.log == t.log
  {
  }

  /** A failed read of the stored row neither blocks nor changes the update: the
      replenish goes ahead, and the entry it logs has no category. */
  lemma ReplenishIgnoresReadFailure(t: Tables, f: ReplenishForm, item: Item, actor: Option<Id>, updateOk: bool, logOk: bool)
    ensures var withRead := Replenish(t, f, item, actor, true, updateOk, logOk);
            var withoutRead := Replenish(t, f, item, actor, false, updateOk, logOk);
            withRead.outcome == withoutRead.outcome &&
            withRead.tables.items == withoutRead.tables.items &&
            withRead.form == withoutRead.form &&
            |withRead.tables.log| == |withoutRead.tables.log|
    ensures var s := Replenish(t, f, item, actor, false, updateOk, logOk);
            s.outcome == Done && logOk ==> s.tables.log[|t.log|].categoryName.None?
  {
  }

  class AddQuantityDialog {
    var quantity: int
    var location: string
    var editingLocation: bool

    function Form(): ReplenishForm
      reads this
    {
      ReplenishForm(quantity, location, editingLocation)
    }

    constructor (item: Item)
      ensures Form() == OpenedForm(item)
    {
      quantity := 1;
      location := item.location.GetOr("");
      editingLocation := false;
    }

    /** The effect that runs whenever the dialog opens. */
    method Open(item: Item)
      modifies this
      ensures Form() == OpenedForm(item)
    {
      location := item.location.GetOr("");
      editingLocation := false;
      quantity := 1;
    }

    /** Typing into the quantity field: `parseInt(digits) || 1`. */
    method SetQuantityInput(raw: string)
      modifies this
      ensures Form() == old(Form()).(quantity := DigitQuantity(raw))
    {
      quantity := DigitQuantity(raw);
    }

    method SetLocation(text: string)
      modifies this
      ensures Form() == old(Form()).(location := text)
    {
      location := text;
    }

    /** `handleSubmit`: read the category, update the item, then log. */
    method Submit(db: Db, item: Item, actor: Option<Id>, readOk: bool, updateOk: bool, logOk: bool) returns (outcome: Outcome)
      modifies this, db
      ensures Step(db.Snapshot(), Form(), outcome) == Replenish(old(db.Snapshot()), old(Form()), item, actor, readOk, updateOk, logOk)
    {
      if quantity <= 0 {
        return Rejected(NotPositive);
      }
      if actor.None? {
        return Failed;
      }
      var category := if readOk && item.id in db.items then Some(db.items[item.id].category) else None;
      if !updateOk {
        return Failed;
      }
      var newLocation := NullIfEmpty(Trim(location));
      db.Update(item.id, ReplenishUpdate(item, quantity, newLocation));
      if logOk {
        db.Record(ReplenishEntry(item, actor.value, quantity, category, newLocation));
      }
      quantity := 1;
      location := "";
      editingLocation := false;
      return Done;
    }
  }
}
