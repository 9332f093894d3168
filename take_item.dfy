/**
 * The dialog that takes an item out of stock: validation of the purpose and of the
 * stock, then the "взято" log entry, then (for a multiple item only) the decrement
 * written from the caller's snapshot of the item, then the form reset.
 */
module TakeItem {
  import opened Options
  import opened Js
  import opened Store

  /** The dialog's `quantity` and `purpose` state. */
  datatype TakeForm = TakeForm(quantity: int, purpose: string)

  const InitialTakeForm: TakeForm := TakeForm(1, "")

  const NoPurpose: string := "Укажите назначение"
  const NotEnoughStock: string := "Недостаточно предметов на складе"

  /** The quantity field's change handler: the digits typed (empty or zero read as 1),
      raised to at least 1 and then capped at the stock on hand. */
  function TakeQuantityInput(raw: string, available: int): (q: int)
    ensures q <= available
    ensures available >= 1 ==> 1 <= q
    ensures q == if DigitQuantity(raw) <= available then DigitQuantity(raw) else available
  {
    var n := DigitQuantity(raw);
    var atLeastOne := if n > 1 then n else 1;
    if atLeastOne < available then atLeastOne else available
  }

  /** The row inserted into transactions for a take. */
  function TakeEntry(item: Item, user: Id, q: int, purpose: string): (e: Transaction)
    ensures e.itemId == Some(item.id) && e.userId == user && e.action == ActionTaken
    ensures e.quantity == q && e.purpose == Some(purpose)
    ensures e.warehouseReturned.None? && e.locationDetails.None? && e.itemName.None? && e.categoryName.None?
    ensures e.details == NoDetails
  {
    Transaction(Some(item.id), user, ActionTaken, q, Some(purpose), None, None, None, None, NoDetails)
  }

  /** The decrement written for a multiple item: computed from the snapshot `item`,
      not from the stored row. */
  function Decrement(item: Item, q: int): (u: ItemUpdate)
    ensures Apply(item, u) == item.(quantity := item.quantity - q)
  {
    NoChange.(quantity := Some(item.quantity - q))
  }

  /** The submit handler. `actor` is the app_users id of the signed-in user (`None`
      when there is no session or no profile); `insertOk` and `updateOk` say whether
      the log insert and the item update succeed. */
  function Take(t: Tables, f: TakeForm, item: Item, actor: Option<Id>, insertOk: bool, updateOk: bool): (s: Step<TakeForm>)
    ensures Trim(f.purpose) == [] ==> s == Step(t, f, Rejected(NoPurpose))
    ensures Trim(f.purpose) != [] && item.itemType == Multiple && f.quantity > item.quantity ==>
              s == Step(t, f, Rejected(NotEnoughStock))
    ensures actor.None? || !insertOk ==> s.tables == t
    ensures s.tables.warehouses == t.warehouses && s.tables.users == t.users && s.tables.objects == t.objects
    ensures s.outcome == Done <==>
              Trim(f.purpose) != [] && !(item.itemType == Multiple && f.quantity > item.quantity) &&
              actor.Some? && insertOk && (item.itemType == Unit || updateOk)
    ensures s.outcome == Done ==> s.form == InitialTakeForm && |s.tables.log| == |t.log| + 1
    ensures s.outcome == Done && item.itemType == Multiple ==>
              s.tables.items == t.Update(item.id, Decrement(item, f.quantity)).items
    ensures s.outcome != Done ==> s.form == f
  {
    if Trim(f.purpose) == [] then Step(t, f, Rejected(NoPurpose))
    else
      var q := UnitAdjusted(item.itemType, f.quantity);
      if item.itemType == Multiple && q > item.quantity then Step(t, f, Rejected(NotEnoughStock))
      else if actor.None? || !insertOk then Step(t, f, Failed)
      else
        var logged := t.Record(TakeEntry(item, actor.value, q, Trim(f.purpose)));
        if item.itemType == Unit then Step(logged, InitialTakeForm, Done)
        else if !updateOk then Step(logged, f, Failed)
        else
          assert q == f.quantity;
          RecordThenUpdate(t, TakeEntry(item, actor.value, q, Trim(f.purpose)), item.id, Decrement(item, q));
          Step(logged.Update(item.id, Decrement(item, q)), InitialTakeForm, Done)
  }

  /** What a take writes, whatever its outcome: at most the one log entry, and at
      most the one decrement, written only for a multiple item after its entry. */
  lemma TakeWrites(t: Tables, f: TakeForm, item: Item, actor: Option<Id>, insertOk: bool, updateOk: bool)
    ensures var s := Take(t, f, item, actor, insertOk, updateOk);
            s.tables.log == t.log ||
            (actor.Some? && s.tables.log == t.log + [TakeEntry(item, actor.value, UnitAdjusted(item.itemType, f.quantity), Trim(f.purpose))])
    ensures var s := Take(t, f, item, actor, insertOk, updateOk);
            s.tables.items == t.items || s.tables.items == t.Update(item.id, Decrement(item, f.quantity)).items
    ensures var s := Take(t, f, item, actor, insertOk, updateOk);
            s.tables.items != t.items ==> item.itemType == Multiple && |s.tables.log| == |t.log| + 1
  {
    var s := Take(t, f, item, actor, insertOk, updateOk);
    var q := UnitAdjusted(item.itemType, f.quantity);
    if Trim(f.purpose) == [] || (item.itemType == Multiple && q > item.quantity) || actor.None? || !insertOk {
      assert s.tables == t;
    } else {
      var e := TakeEntry(item, actor.value, q, Trim(f.purpose));
      if item.itemType == Unit || !updateOk {
        assert s.tables == t.Record(e);
      } else {
        RecordThenUpdate(t, e, item.id, Decrement(item, q));
      }
    }
  }

  /** A take of a unit item logs a quantity of one and never touches the item row. */
  lemma TakeUnitItem(t: Tables, f: TakeForm, item: Item, actor: Option<Id>, insertOk: bool, updateOk: bool)
    requires item.itemType == Unit
    ensures var s := Take(t, f, item, actor, insertOk, updateOk);
            s.tables.items == t.items &&
            (s.outcome == Done ==> s.tables.log[|t.log|].quantity == 1)
  {
  }

  /** A completed take of a multiple item leaves the stored row with the snapshot's
      quantity minus the amount taken, and every other column as stored. */
  lemma TakeMultipleItem(t: Tables, f: TakeForm, item: Item, actor: Option<Id>, insertOk: bool, updateOk: bool)
    requires item.itemType == Multiple && item.id in t.items
    ensures var s := Take(t, f, item, actor, insertOk, updateOk);
            s.outcome == Done ==>
              item.id in s.tables.items &&
              s.tables.items[item.id] == t.items[item.id].(quantity := item.quantity - f.quantity) &&
              0 <= s.tables.items[item.id].quantity
  {
    var s := Take(t, f, item, actor, insertOk, updateOk);
    if s.outcome == Done {
      var u := Decrement(item, f.quantity);
      assert s.tables.items == t.Update(item.id, u).items;
      assert s.tables.items[item.id] == Apply(t.items[item.id], u);
    }
  }

  /** A take of a multiple item whose quantity came from the quantity field, with stock
      on hand, always passes the stock check. */
  lemma TakeQuantityInputPassesStockCheck(raw: string, item: Item)
    requires item.quantity >= 1
    ensures 1 <= TakeQuantityInput(raw, item.quantity) <= item.quantity
  {
  }

  class TakeItemDialog {
    var quantity: int
    var purpose: string

    function Form(): TakeForm
      reads this
    {
      TakeForm(quantity, purpose)
    }

    constructor ()
      ensures Form() == InitialTakeForm
    {
      quantity := 1;
      purpose := "";
    }

    /** Typing into the quantity field. */
    method SetQuantityInput(raw: string, item: Item)
      modifies this
      ensures Form() == old(Form()).(quantity := TakeQuantityInput(raw, item.quantity))
    {
      quantity := TakeQuantityInput(raw, item.quantity);
    }

    /** Typing into the purpose field. */
    method SetPurpose(text: string)
      modifies this
      ensures Form() == old(Form()).(purpose := text)
    {
      purpose := text;
    }

    /** `handleSubmit`, one request at a time, in the handler's order. */
    method Submit(db: Db, item: Item, actor: Option<Id>, insertOk: bool, updateOk: bool) returns (outcome: Outcome)
      modifies this, db
      ensures Step(db.Snapshot(), Form(), outcome) == Take(old(db.Snapshot()), old(Form()), item, actor, insertOk, updateOk)
    {
      ghost var t0 := db.Snapshot();
      var text := Trim(purpose);
      if text == [] {
        return Rejected(NoPurpose);
      }
      var actualQuantity := UnitAdjusted(item.itemType, quantity);
      if item.itemType == Multiple && actualQuantity > item.quantity {
        return Rejected(NotEnoughStock);
      }
      if actor.None? || !insertOk {
        return Failed;
      }
      var entry := TakeEntry(item, actor.value, actualQuantity, text);
      db.Record(entry);
      if item.itemType == Multiple {
        if !updateOk {
          return Failed;
        }
        db.Update(item.id, Decrement(item, actualQuantity));
        assert db.Snapshot() == t0.Record(entry).Update(item.id, Decrement(item, actualQuantity));
      }
      quantity := 1;
      purpose := "";
      assert Form() == InitialTakeForm;
      return Done;
    }
  }
}
