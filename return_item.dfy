/**
 * The dialog that returns an item to a warehouse: validation of the location text,
 * then the "возвращено" log entry, then one update that always overwrites warehouse
 * and location and, for a multiple item only, adds the returned quantity to the
 * caller's snapshot.
 */
module ReturnItem {
  import opened Options
  import opened Js
  import opened Store

  /** The dialog's `quantity`, `warehouse` and `locationDetails` state. */
  datatype ReturnForm = ReturnForm(quantity: int, warehouse: string, locationDetails: string)

  /** The state the dialog starts with for `item`. */
  function InitialReturnForm(item: Item): (f: ReturnForm)
    ensures f.quantity == 1 && f.warehouse == item.warehouse
    ensures f.locationDetails == if item.location.Some? then item.location.value else ""
  {
    ReturnForm(1, item.warehouse, item.location.GetOr(""))
  }

  /** The state after a completed return: the location field is cleared, not reset
      to the item's location. */
  function ResetReturnForm(item: Item): (f: ReturnForm)
    ensures f == InitialReturnForm(item).(locationDetails := "")
    ensures item.location.None? ==> f == InitialReturnForm(item)
  {
    ReturnForm(1, item.warehouse, "")
  }

  const NoLocation: string := "Укажите местоположение предмета на складе"

  /** The row inserted into transactions for a return. */
  function ReturnEntry(item: Item, user: Id, q: int, warehouse: string, location: string): (e: Transaction)
    ensures e.itemId == Some(item.id) && e.userId == user && e.action == ActionReturned && e.quantity == q
    ensures e.warehouseReturned == Some(warehouse) && e.locationDetails == Some(location)
    ensures e.purpose.None? && e.itemName.None? && e.categoryName.None? && e.details == NoDetails
  {
    Transaction(Some(item.id), user, ActionReturned, q, None, Some(warehouse), Some(location), None, None, NoDetails)
  }

  /** `updateData`: warehouse and location always, quantity only for a multiple item. */
  function ReturnUpdate(item: Item, warehouse: string, location: string, q: int): (u: ItemUpdate)
    ensures u.warehouse == Some(warehouse) && u.location == Some(Some(location))
    ensures u.quantity == if item.itemType == Multiple then Some(item.quantity + q) else None
    ensures u.name.None? && u.category.None? && u.itemType.None? && u.criticalQuantity.None?
    ensures u.notes.None? && u.photos.None?
  {
    var base := NoChange.(warehouse := Some(warehouse), location := Some(Some(location)));
    if item.itemType == Multiple then base.(quantity := Some(item.quantity + q)) else base
  }

  /** The submit handler; `actor`, `insertOk` and `updateOk` as for the take dialog. */
  function Return(t: Tables, f: ReturnForm, item: Item, actor: Option<Id>, insertOk: bool, updateOk: bool): (s: Step<ReturnForm>)
    ensures Trim(f.locationDetails) == [] ==> s == Step(t, f, Rejected(NoLocation))
    ensures actor.None? || !insertOk ==> s.tables == t
    ensures s.tables.warehouses == t.warehouses && s.tables.users == t.users && s.tables.objects == t.objects
    ensures s.outcome == Done <==> Trim(f.locationDetails) != [] && actor.Some? && insertOk && updateOk
    ensures s.outcome == Done ==>
              s.form == ResetReturnForm(item) && |s.tables.log| == |t.log| + 1 &&
              s.tables.items == t.Update(item.id, ReturnUpdate(item, f.warehouse, Trim(f.locationDetails), UnitAdjusted(item.itemType, f.quantity))).items
    ensures s.outcome != Done ==> s.form == f
  {
    if Trim(f.locationDetails) == [] then Step(t, f, Rejected(NoLocation))
    else
      var q := UnitAdjusted(item.itemType, f.quantity);
      var location := Trim(f.locationDetails);
      if actor.None? || !insertOk then Step(t, f, Failed)
      else
        var logged := t.Record(ReturnEntry(item, actor.value, q, f.warehouse, location));
        if !updateOk then Step(logged, f, Failed)
        else
          RecordThenUpdate(t, ReturnEntry(item, actor.value, q, f.warehouse, location), item.id, ReturnUpdate(item, f.warehouse, location, q));
          Step(logged.Update(item.id, ReturnUpdate(item, f.warehouse, location, q)), ResetReturnForm(item), Done)
  }

  /** What a return writes, whatever its outcome: at most the one log entry, and at
      most the one item update, written only after its entry. */
  lemma ReturnWrites(t: Tables, f: ReturnForm, item: Item, actor: Option<Id>, insertOk: bool, updateOk: bool)
    ensures var s := Return(t, f, item, actor, insertOk, updateOk);
            var q := UnitAdjusted(item.itemType, f.quantity);
            s.tables.log == t.log ||
            (actor.Some? && s.tables.log == t.log + [ReturnEntry(item, actor.value, q, f.warehouse, Trim(f.locationDetails))])
    ensures var s := Return(t, f, item, actor, insertOk, updateOk);
            var q := UnitAdjusted(item.itemType, f.quantity);
            s.tables.items == t.items ||
            s.tables.items == t.Update(item.id, ReturnUpdate(item, f.warehouse, Trim(f.locationDetails), q)).items
    ensures var s := Return(t, f, item, actor, insertOk, updateOk);
            s.tables.items != t.items ==> |s.tables.log| == |t.log| + 1
  {
    var s := Return(t, f, item, actor, insertOk, updateOk);
    var q := UnitAdjusted(item.itemType, f.quantity);
    var location := Trim(f.locationDetails);
    if location == [] || actor.None? || !insertOk {
      assert s.tables == t;
    } else {
      var e := ReturnEntry(item, actor.value, q, f.warehouse, location);
      if !updateOk {
        assert s.tables == t.Record(e);
      } else {
        RecordThenUpdate(t, e, item.id, ReturnUpdate(item, f.warehouse, location, q));
      }
    }
  }

  /** After a completed return the stored row has the chosen warehouse and the trimmed
      location whatever they were before; a multiple item has the snapshot's quantity
      plus the amount returned, a unit item keeps its stored quantity. */
  lemma ReturnOverwrites(t: Tables, f: ReturnForm, item: Item, actor: Option<Id>, insertOk: bool, updateOk: bool)
    requires item.id in t.items
    ensures var s := Return(t, f, item, actor, insertOk, updateOk);
            var old_ := t.items[item.id];
            s.outcome == Done ==>
              item.id in s.tables.items &&
              s.tables.items[item.id] ==
                old_.(warehouse := f.warehouse,
                      location := Some(Trim(f.locationDetails)),
                      quantity := if item.itemType == Multiple then item.quantity + f.quantity else old_.quantity)
  {
    var s := Return(t, f, item, actor, insertOk, updateOk);
    if s.outcome == Done {
      var u := ReturnUpdate(item, f.warehouse, Trim(f.locationDetails), UnitAdjusted(item.itemType, f.quantity));
      assert s.tables.items == t.Update(item.id, u).items;
      assert s.tables.items[item.id] == Apply(t.items[item.id], u);
    }
  }

  /** The log entry of a completed return is written with the returned quantity (one
      for a unit item), the chosen warehouse and the trimmed location text. */
  lemma ReturnLogEntry(t: Tables, f: ReturnForm, item: Item, actor: Option<Id>, insertOk: bool, updateOk: bool)
    ensures var s := Return(t, f, item, actor, insertOk, updateOk);
            s.outcome == Done ==>
              var e := s.tables.log[|t.log|];
              e.action == ActionReturned && e.itemId == Some(item.id) &&
              e.quantity == (if item.itemType == Unit then 1 else f.quantity) &&
              e.warehouseReturned == Some(f.warehouse) && e.locationDetails == Some(Trim(f.locationDetails)) &&
              e.locationDetails != Some([])
  {
  }

  class ReturnItemDialog {
    var quantity: int
    var warehouse: string
    var locationDetails: string

    function Form(): ReturnForm
      reads this
    {
      ReturnForm(quantity, warehouse, locationDetails)
    }

    constructor (item: Item)
      ensures Form() == InitialReturnForm(item)
    {
      quantity := 1;
      warehouse := item.warehouse;
      locationDetails := item.location.GetOr("");
    }

    /** Typing into the quantity field: `parseInt(digits) || 1`. */
    method SetQuantityInput(raw: string)
      modifies this
      ensures Form() == old(Form()).(quantity := DigitQuantity(raw))
    {
      quantity := DigitQuantity(raw);
    }

    method SetWarehouse(w: string)
      modifies this
      ensures Form() == old(Form()).(warehouse := w)
    {
      warehouse := w;
    }

    method SetLocationDetails(text: string)
      modifies this
      ensures Form() == old(Form()).(locationDetails := text)
    {
      locationDetails := text;
    }

    /** `handleSubmit`, in the handler's order; `updateData` is built up step by step. */
    method Submit(db: Db, item: Item, actor: Option<Id>, insertOk: bool, updateOk: bool) returns (outcome: Outcome)
      modifies this, db
      ensures Step(db.Snapshot(), Form(), outcome) == Return(old(db.Snapshot()), old(Form()), item, actor, insertOk, updateOk)
    {
      ghost var t0 := db.Snapshot();
      var location := Trim(locationDetails);
      if location == [] {
        return Rejected(NoLocation);
      }
      var actualQuantity := UnitAdjusted(item.itemType, quantity);
      if actor.None? || !insertOk {
        return Failed;
      }
      var entry := ReturnEntry(item, actor.value, actualQuantity, warehouse, location);
      db.Record(entry);
      var updateData := NoChange.(warehouse := Some(warehouse), location := Some(Some(location)));
      if item.itemType == Multiple {
        updateData := updateData.(quantity := Some(item.quantity + actualQuantity));
      }
      assert updateData == ReturnUpdate(item, warehouse, location, actualQuantity);
      if !updateOk {
        return Failed;
      }
      db.Update(item.id, updateData);
      quantity := 1;
      warehouse := item.warehouse;
      locationDetails := "";
      assert Form() == ResetReturnForm(item);
      assert db.Snapshot() == t0.Record(entry).Update(item.id, ReturnUpdate(item, old(warehouse), location, actualQuantity));
      return Done;
    }
  }
}
