/**
 * What an item card derives from an item and the log: the low-stock warning, the
 * enablement of the take button, and the result of the holder query, which is the
 * latest "взято" entry for the item. No holder is stored anywhere and returns are
 * not consulted. The card runs the query when the take button is clicked, before
 * the take is written, and displays the result it got then.
 */
module ItemCard {
  import opened Options
  import opened Store
  import opened TakeItem
  import opened ReturnItem

  /** `item.critical_quantity && item.quantity <= item.critical_quantity`: a critical
      quantity that is set and non-zero, and stock at or below it. */
  predicate IsLowStock(item: Item)
    ensures IsLowStock(item) ==> item.criticalQuantity.Some? && item.quantity <= item.criticalQuantity.value
    ensures item.criticalQuantity.Some? && item.criticalQuantity.value > 0 && item.quantity <= 0 ==> IsLowStock(item)
  {
    item.criticalQuantity.Some? && item.criticalQuantity.value != 0 &&
    item.quantity <= item.criticalQuantity.value
  }

  /** The take button is enabled unless the stock is exactly zero. */
  predicate TakeEnabled(item: Item)
    ensures item.quantity > 0 ==> TakeEnabled(item)
    ensures !TakeEnabled(item) ==> item.quantity == 0
  {
    item.quantity != 0
  }

  /** With no critical quantity, or a critical quantity of zero, there is never a
      warning, whatever the stock. */
  lemma NoThresholdNoWarning(item: Item, q: int)
    requires item.criticalQuantity.None? || item.criticalQuantity == Some(0)
    ensures !IsLowStock(item) && !IsLowStock(item.(quantity := q))
  {
  }

  /** A completed take of a multiple item whose stored row is the snapshot keeps a
      low-stock item low; taking all of it disables the take button. */
  lemma TakeKeepsLowStock(t: Tables, f: TakeForm, item: Item, actor: Option<Id>, insertOk: bool, updateOk: bool)
    requires item.itemType == Multiple && item.id in t.items && t.items[item.id] == item
    requires f.quantity >= 0
    ensures var s := Take(t, f, item, actor, insertOk, updateOk);
            s.outcome == Done ==>
              (IsLowStock(item) ==> IsLowStock(s.tables.items[item.id])) &&
              (f.quantity == item.quantity ==> !TakeEnabled(s.tables.items[item.id]))
  {
    TakeMultipleItem(t, f, item, actor, insertOk, updateOk);
  }

  /** `item_id` is the item and `action` is "взято". */
  predicate IsTakeOf(e: Transaction, id: Id)
    ensures e.action == ActionReturned || e.action == ActionReplenished ==> !IsTakeOf(e, id)
    ensures e.itemId.None? ==> !IsTakeOf(e, id)
  {
    e.itemId == Some(id) && e.action == ActionTaken
  }

  /** The position of the latest take of `id` in the log (the log is in insertion
      order, so the latest is the last). */
  function HolderIndex(log: seq<Transaction>, id: Id): (r: Option<nat>)
    ensures r.Some? ==> r.value < |log| && IsTakeOf(log[r.value], id)
    ensures r.Some? ==> forall k :: r.value < k < |log| ==> !IsTakeOf(log[k], id)
    ensures r.None? ==> forall k :: 0 <= k < |log| ==> !IsTakeOf(log[k], id)
    decreases |log|
  {
    if log == [] then None
    else if IsTakeOf(log[|log| - 1], id) then Some(|log| - 1)
    else HolderIndex(log[..|log| - 1], id)
  }

  /** What the holder query `fetchCurrentUser` returns: the latest take entry of the
      item, or none. */
  function CurrentHolder(log: seq<Transaction>, id: Id): (r: Option<Transaction>)
    ensures r.Some? ==> r.value in log && IsTakeOf(r.value, id)
    ensures r.None? <==> forall k :: 0 <= k < |log| ==> !IsTakeOf(log[k], id)
  {
    match HolderIndex(log, id)
    case None => None
    case Some(k) => Some(log[k])
  }

  /** Appending any entry that is not a take of the item (a return, say) leaves the
      holder query's result as it was. */
  lemma HolderIgnoresOtherEntries(log: seq<Transaction>, id: Id, e: Transaction)
    requires !IsTakeOf(e, id)
    ensures CurrentHolder(log + [e], id) == CurrentHolder(log, id)
  {
    assert (log + [e])[..|log|] == log;
  }

  /** Appending a take of the item makes it the holder query's result. */
  lemma HolderAfterTakeEntry(log: seq<Transaction>, id: Id, e: Transaction)
    requires IsTakeOf(e, id)
    ensures CurrentHolder(log + [e], id) == Some(e)
  {
  }

  /** After a completed take the holder query returns that take's entry; after a
      completed return it still returns the previous take. */
  lemma HolderAfterDialogs(t: Tables, item: Item, actor: Option<Id>, insertOk: bool, updateOk: bool,
                           tf: TakeForm, rf: ReturnForm)
    ensures var s := Take(t, tf, item, actor, insertOk, updateOk);
            s.outcome == Done ==>
              CurrentHolder(s.tables.log, item.id) ==
                Some(TakeEntry(item, actor.value, UnitAdjusted(item.itemType, tf.quantity), Js.Trim(tf.purpose)))
    ensures var s := Return(t, rf, item, actor, insertOk, updateOk);
            s.outcome == Done ==> CurrentHolder(s.tables.log, item.id) == CurrentHolder(t.log, item.id)
  {
    var s := Take(t, tf, item, actor, insertOk, updateOk);
    if s.outcome == Done {
      TakeWrites(t, tf, item, actor, insertOk, updateOk);
      var e := TakeEntry(item, actor.value, UnitAdjusted(item.itemType, tf.quantity), Js.Trim(tf.purpose));
      assert s.tables.log == t.log + [e];
      HolderAfterTakeEntry(t.log, item.id, e);
    }
    var r := Return(t, rf, item, actor, insertOk, updateOk);
    if r.outcome == Done {
      ReturnWrites(t, rf, item, actor, insertOk, updateOk);
      var e := ReturnEntry(item, actor.value, UnitAdjusted(item.itemType, rf.quantity), rf.warehouse, Js.Trim(rf.locationDetails));
      assert r.tables.log == t.log + [e];
      HolderIgnoresOtherEntries(t.log, item.id, e);
    }
  }
}
