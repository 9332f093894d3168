/**
 * The filter dialog: three checkbox lists (warehouses, categories, item types) held
 * by the parent as arrays of selected values, the toggle handlers that add or remove
 * a value, the "has active filters" flag that shows the reset button, and the reset.
 */
module FilterDialog {
  import opened Seqs
  import opened Store

  /** The three selected lists the dialog receives. */
  datatype Selections = Selections(warehouses: seq<string>, categories: seq<string>, itemTypes: seq<string>)

  /** What the reset handler hands back: nothing selected. */
  const Cleared: Selections := Selections([], [], [])

  /** The item-type checkboxes, in the order shown: the two item_type values. */
  const ItemTypeOptions: seq<string> := ["единичный", "множественный"]

  /** The checkbox values are exactly the column values of the two item types. */
  lemma ItemTypeOptionsAreColumnValues()
    ensures ItemTypeOptions == [ItemTypeName(Unit), ItemTypeName(Multiple)]
    ensures forall t: ItemType :: ItemTypeName(t) in ItemTypeOptions
  {
  }

  /** The reset button is shown when any list is non-empty. */
  predicate HasActiveFilters(s: Selections)
    ensures HasActiveFilters(s) <==> s != Cleared
  {
    |s.warehouses| > 0 || |s.categories| > 0 || |s.itemTypes| > 0
  }

  function ToggleWarehouse(s: Selections, w: string): (r: Selections)
    ensures r.warehouses == Toggle(s.warehouses, w)
    ensures (w in r.warehouses) <==> (w !in s.warehouses)
    ensures r.categories == s.categories && r.itemTypes == s.itemTypes
  {
    s.(warehouses := Toggle(s.warehouses, w))
  }

  function ToggleCategory(s: Selections, c: string): (r: Selections)
    ensures r.categories == Toggle(s.categories, c)
    ensures (c in r.categories) <==> (c !in s.categories)
    ensures r.warehouses == s.warehouses && r.itemTypes == s.itemTypes
  {
    s.(categories := Toggle(s.categories, c))
  }

  function ToggleItemType(s: Selections, t: string): (r: Selections)
    ensures r.itemTypes == Toggle(s.itemTypes, t)
    ensures (t in r.itemTypes) <==> (t !in s.itemTypes)
    ensures r.warehouses == s.warehouses && r.categories == s.categories
  {
    s.(itemTypes := Toggle(s.itemTypes, t))
  }

  /** Checking a box that was clear and clearing it again restores the selections. */
  lemma ToggleWarehouseTwice(s: Selections, w: string)
    requires w !in s.warehouses
    ensures ToggleWarehouse(ToggleWarehouse(s, w), w) == s
  {
    ToggleTwice(s.warehouses, w);
  }

  /** Checking any box makes a filter active; the reset makes none active. */
  lemma ActiveAfterCheckAndReset(s: Selections, w: string, c: string, t: string)
    ensures w !in s.warehouses ==> HasActiveFilters(ToggleWarehouse(s, w))
    ensures c !in s.categories ==> HasActiveFilters(ToggleCategory(s, c))
    ensures t !in s.itemTypes ==> HasActiveFilters(ToggleItemType(s, t))
    ensures !HasActiveFilters(Cleared)
  {
  }

  /** Clearing the last selected box of each list leaves no active filter. */
  lemma ClearingLastBox(s: Selections, w: string)
    requires s.warehouses == [w] && s.categories == [] && s.itemTypes == []
    ensures !HasActiveFilters(ToggleWarehouse(s, w))
  {
    var r := Toggle(s.warehouses, w);
    assert forall y :: y != w ==> multiset(r)[y] == 0;
  }
}
