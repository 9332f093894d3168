/**
 * The inventory page: the user's name split from the whitelist entry, the unique
 * categories of the loaded items, the search/filter/sort effect that computes the
 * visible list, the active-filter badge, the sort buttons and the display name
 * passed to each card.
 */
module InventoryPage {
  import opened Options
  import opened Js
  import opened Seqs
  import opened Store

  // ---------------------------------------------------------------------------
  // The user's name
  // ---------------------------------------------------------------------------

  datatype UserName = UserName(first: string, last: string)

  /** The whitelist name split on ' ': the first word is the last name and the rest,
      joined again with ' ', is the first name; a one-word name is all first name. */
  function SplitFullName(whitelistName: Option<string>): (n: UserName)
    ensures whitelistName.GetOr("") == [] ==> n == UserName("", "")
    ensures ' ' !in n.last
  {
    var full := whitelistName.GetOr("");
    if full == [] then UserName("", "")
    else
      var parts := Split(full, ' ');
      if |parts| > 1 then UserName(Join(parts[1..], ' '), parts[0])
      else UserName(full, "")
  }

  /** A name with a space comes back by writing the last name, a space and the first
      name; the last name is the part before the first space. */
  lemma SplitFullNameRejoins(full: string)
    requires ' ' in full
    ensures var n := SplitFullName(Some(full));
            n.last + " " + n.first == full && ' ' !in n.last
  {
    var parts := Split(full, ' ');
    JoinSplit(full, ' ');
    assert Join(parts, ' ') == parts[0] + [' '] + Join(parts[1..], ' ');
  }

  /** A one-word name is the first name with an empty last name; an absent or empty
      name gives two empty names. */
  lemma SplitFullNameOneWord(w: Option<string>)
    ensures w.GetOr("") == [] ==> SplitFullName(w) == UserName("", "")
    ensures w.Some? && w.value != [] && ' ' !in w.value ==> SplitFullName(w) == UserName(w.value, "")
  {
  }

  /** `${first} ${last}`.trim() || "Пользователь": the name handed to the cards. */
  function DisplayName(n: UserName): (r: string)
    ensures r != []
    ensures AllSpace(n.first + " " + n.last) ==> r == "Пользователь"
    ensures !AllSpace(n.first + " " + n.last) ==> r == Trim(n.first + " " + n.last)
  {
    var t := Trim(n.first + " " + n.last);
    if t == [] then "Пользователь" else t
  }

  /** A user without a whitelist name is shown as "Пользователь". */
  lemma DisplayNameWithoutName()
    ensures DisplayName(SplitFullName(None)) == "Пользователь"
  {
    assert AllSpace("" + " " + "");
  }

  // ---------------------------------------------------------------------------
  // Unique categories
  // ---------------------------------------------------------------------------

  function Categories(items: seq<Item>): (cs: seq<string>)
    ensures |cs| == |items| && forall i :: 0 <= i < |items| ==> cs[i] == items[i].category
  {
    seq(|items|, i requires 0 <= i < |items| => items[i].category)
  }

  /** `[...new Set(items.map(item => item.category))]`. */
  function UniqueCategories(items: seq<Item>): (u: seq<string>)
    ensures NoDuplicates(u)
    ensures forall c :: c in u <==> c in Categories(items)
  {
    Dedup(Categories(items))
  }

  /** Every item's category is listed exactly once, nothing else is listed, and the
      list is in the order in which the categories first occur. */
  lemma UniqueCategoriesSpec(items: seq<Item>)
    ensures var u := UniqueCategories(items);
            NoDuplicates(u) &&
            (forall i :: 0 <= i < |items| ==> items[i].category in u) &&
            (forall c :: c in u ==> exists i :: 0 <= i < |items| && items[i].category == c) &&
            (forall i, j :: 0 <= i < j < |u| ==>
               FirstIndex(Categories(items), u[i]) < FirstIndex(Categories(items), u[j]))
  {
    var cs := Categories(items);
    DedupFirstOccurrenceOrder(cs);
    forall c | c in UniqueCategories(items)
      ensures exists i :: 0 <= i < |items| && items[i].category == c
    {
      var i := FirstIndex(cs, c);
      assert items[i].category == c;
    }
  }

  // ---------------------------------------------------------------------------
  // Search, filters and sort
  // ---------------------------------------------------------------------------

  /** The page's selections: the search text and three single selections, each of
      which may be "all". */
  datatype Filters = Filters(search: string, warehouse: string, category: string, itemType: string)

  const All: string := "all"

  datatype SortOrder = Asc | Desc

  /** The case-insensitive substring search on name or model (`fold` is the case
      mapping of `toLowerCase`). */
  predicate SearchMatch(item: Item, query: string, fold: char -> char)
    ensures query == [] ==> SearchMatch(item, query, fold)
    ensures StartsWith(Lower(item.name, fold), Lower(query, fold)) ==> SearchMatch(item, query, fold)
  {
    Contains(Lower(item.name, fold), Lower(query, fold)) ||
    (item.model.Some? && item.model.value != [] && Contains(Lower(item.model.value, fold), Lower(query, fold)))
  }

  /** An item passes every filter that is switched on. */
  predicate Keep(item: Item, f: Filters, fold: char -> char)
    ensures f == Filters([], All, All, All) ==> Keep(item, f, fold)
    ensures Keep(item, f, fold) && f.warehouse != All ==> item.warehouse == f.warehouse
    ensures Keep(item, f, fold) && f.category != All ==> item.category == f.category
  {
    (f.search == [] || SearchMatch(item, f.search, fold)) &&
    (f.warehouse == All || item.warehouse == f.warehouse) &&
    (f.category == All || item.category == f.category) &&
    (f.itemType == All || ItemTypeName(item.itemType) == f.itemType)
  }

  function KeepFn(f: Filters, fold: char -> char): Item -> bool
  {
    (x: Item) => Keep(x, f, fold)
  }

  /** The items that pass the filters, in their loaded order. */
  function Matching(items: seq<Item>, f: Filters, fold: char -> char): (m: seq<Item>)
    ensures |m| <= |items|
    ensures forall i :: 0 <= i < |m| ==> Keep(m[i], f, fold)
  {
    Select(items, KeepFn(f, fold))
  }

  /** The filtered list is a subsequence of the items; everything in it passes every
      filter, and every item that passes is in it as often as it is loaded. */
  lemma MatchingSpec(items: seq<Item>, f: Filters, fold: char -> char)
    ensures var m := Matching(items, f, fold);
            IsSubsequence(m, items) &&
            (forall i :: 0 <= i < |m| ==> Keep(m[i], f, fold)) &&
            (forall x :: multiset(m)[x] == if Keep(x, f, fold) then multiset(items)[x] else 0)
  {
    SelectIsSubsequence(items, KeepFn(f, fold));
    SelectCount(items, KeepFn(f, fold));
  }

  /** With an empty search and every selection at "all", nothing is filtered out. */
  lemma NoFiltersKeepsAll(items: seq<Item>, f: Filters, fold: char -> char)
    requires f.search == [] && f.warehouse == All && f.category == All && f.itemType == All
    ensures Matching(items, f, fold) == items
  {
    SelectAll(items, KeepFn(f, fold));
  }

  /** `a` may precede `b` in the order. */
  predicate InOrder(a: Item, b: Item, order: SortOrder)
  {
    if order == Asc then a.quantity <= b.quantity else a.quantity >= b.quantity
  }

  predicate SortedBy(s: seq<Item>, order: SortOrder)
  {
    forall i, j :: 0 <= i < j < |s| ==> InOrder(s[i], s[j], order)
  }

  /** The comparator `aQty - bQty` (or `bQty - aQty`) is negative: `a` goes first. */
  predicate Before(a: Item, b: Item, order: SortOrder)
  {
    if order == Asc then a.quantity < b.quantity else a.quantity > b.quantity
  }

  /** A sorted list stays sorted when an element that everything may precede is
      appended. */
  lemma AppendSorted(a: seq<Item>, y: Item, order: SortOrder)
    requires SortedBy(a, order)
    requires forall z :: z in a ==> InOrder(z, y, order)
    ensures SortedBy(a + [y], order)
  {
    forall i, j | 0 <= i < j < |a| + 1
      ensures InOrder((a + [y])[i], (a + [y])[j], order)
    {
      if j == |a| {
        assert (a + [y])[i] == a[i] && a[i] in a;
      }
    }
  }

  /** In a sorted list, everything may precede the last element. */
  lemma BoundedByLast(s: seq<Item>, order: SortOrder)
    requires SortedBy(s, order) && s != []
    ensures forall z :: z in s ==> InOrder(z, s[|s| - 1], order)
  {
    forall z | z in s
      ensures InOrder(z, s[|s| - 1], order)
    {
      var k :| 0 <= k < |s| && s[k] == z;
      if k == |s| - 1 {
        assert InOrder(z, z, order);
      }
    }
  }

  /** A bound on every element of `a` and on `x` bounds every element of a list
      holding the elements of `a` and `x`. */
  lemma BoundedPermutation(r: seq<Item>, a: seq<Item>, x: Item, y: Item, order: SortOrder)
    requires multiset(r) == multiset(a) + multiset{x}
    requires forall z :: z in a ==> InOrder(z, y, order)
    requires InOrder(x, y, order)
    ensures forall z :: z in r ==> InOrder(z, y, order)
  {
    forall z | z in r
      ensures InOrder(z, y, order)
    {
      assert z in multiset(r);
      if z != x {
        assert z in multiset(a);
      }
    }
  }

  /** Insert `x` into a sorted list after every element it does not strictly precede. */
  function InsertByQuantity(x: Item, s: seq<Item>, order: SortOrder): (r: seq<Item>)
    requires SortedBy(s, order)
    ensures SortedBy(r, order)
    ensures multiset(r) == multiset(s) + multiset{x}
    decreases |s|
  {
    if s == [] then [x]
    else
      var init := s[..|s| - 1];
      var last := s[|s| - 1];
      assert s == init + [last];
      BoundedByLast(s, order);
      if Before(x, last, order) then
        var r0 := InsertByQuantity(x, init, order);
        BoundedPermutation(r0, init, x, last, order);
        AppendSorted(r0, last, order);
        r0 + [last]
      else
        assert InOrder(last, x, order);
        AppendSorted(s, x, order);
        s + [x]
  }

  /** `[...filtered].sort(...)` by quantity: a stable insertion sort. */
  function SortByQuantity(s: seq<Item>, order: SortOrder): (r: seq<Item>)
    ensures SortedBy(r, order)
    ensures multiset(r) == multiset(s)
    decreases |s|
  {
    if s == [] then []
    else
      var init := s[..|s| - 1];
      assert s == init + [s[|s| - 1]];
      InsertByQuantity(s[|s| - 1], SortByQuantity(init, order), order)
  }

  /** One `filter` reassignment of the effect, switched on or off by `active`. */
  lemma FilterStep(items: seq<Item>, prev: seq<Item>, kPrev: Item -> bool, active: bool, p: Item -> bool, kNext: Item -> bool)
    requires prev == Select(items, kPrev)
    requires forall x :: kNext(x) == (kPrev(x) && (!active || p(x)))
    ensures (if active then Select(prev, p) else prev) == Select(items, kNext)
  {
    if active {
      SelectSelect(items, kPrev, p, kNext);
    } else {
      SelectSame(items, kPrev, kNext);
    }
  }

  /** The filter effect: successive reassignments of `filtered`, then the sort. */
  method ApplyFilters(items: seq<Item>, f: Filters, sort: Option<SortOrder>, fold: char -> char) returns (filtered: seq<Item>)
    ensures sort.None? ==> filtered == Matching(items, f, fold)
    ensures sort.Some? ==> multiset(filtered) == multiset(Matching(items, f, fold)) && SortedBy(filtered, sort.value)
    ensures |filtered| <= |items|
  {
    var k0 := (x: Item) => true;
    SelectAll(items, k0);
    filtered := items;

    var k1 := (x: Item) => f.search == [] || SearchMatch(x, f.search, fold);
    var p1 := (x: Item) => SearchMatch(x, f.search, fold);
    FilterStep(items, filtered, k0, f.search != [], p1, k1);
    if f.search != [] {
      filtered := Select(filtered, p1);
    }

    var k2 := (x: Item) => k1(x) && (f.warehouse == All || x.warehouse == f.warehouse);
    var p2 := (x: Item) => x.warehouse == f.warehouse;
    FilterStep(items, filtered, k1, f.warehouse != All, p2, k2);
    if f.warehouse != All {
      filtered := Select(filtered, p2);
    }

    var k3 := (x: Item) => k2(x) && (f.category == All || x.category == f.category);
    var p3 := (x: Item) => x.category == f.category;
    FilterStep(items, filtered, k2, f.category != All, p3, k3);
    if f.category != All {
      filtered := Select(filtered, p3);
    }

    var k4 := (x: Item) => k3(x) && (f.itemType == All || ItemTypeName(x.itemType) == f.itemType);
    var p4 := (x: Item) => ItemTypeName(x.itemType) == f.itemType;
    FilterStep(items, filtered, k3, f.itemType != All, p4, k4);
    if f.itemType != All {
      filtered := Select(filtered, p4);
    }

    SelectSame(items, k4, KeepFn(f, fold));
    assert filtered == Matching(items, f, fold);
    if sort.Some? {
      filtered := SortByQuantity(filtered, sort.value);
      assert |filtered| == |multiset(filtered)|;
    }
  }

  /** With no search, no filters and no sort, the page shows the items as loaded. */
  method ShowAllWithoutFilters(items: seq<Item>, fold: char -> char) returns (filtered: seq<Item>)
    ensures filtered == items
  {
    var f := Filters([], All, All, All);
    filtered := ApplyFilters(items, f, None, fold);
    NoFiltersKeepsAll(items, f, fold);
  }

  // ---------------------------------------------------------------------------
  // The badge and the sort buttons
  // ---------------------------------------------------------------------------

  /** The number on the filter button: one for each selection that is not "all". */
  function ActiveFilterCount(f: Filters): (n: int)
    ensures 0 <= n <= 3
    ensures n == 0 <==> f.warehouse == All && f.category == All && f.itemType == All
    ensures n == 3 <==> f.warehouse != All && f.category != All && f.itemType != All
  {
    (if f.warehouse != All then 1 else 0) +
    (if f.category != All then 1 else 0) +
    (if f.itemType != All then 1 else 0)
  }

  /** A sort button: its own order when another (or none) is active, none when its own is. */
  function ToggleSort(current: Option<SortOrder>, order: SortOrder): (r: Option<SortOrder>)
    ensures r == Some(order) <==> current != Some(order)
    ensures r.None? <==> current == Some(order)
  {
    if current == Some(order) then None else Some(order)
  }

  /** Pressing the same sort button twice from no sort returns to no sort; from the
      other order it ends at no sort too. */
  lemma ToggleSortTwice(current: Option<SortOrder>, order: SortOrder)
    ensures ToggleSort(ToggleSort(current, order), order) == (if current == Some(order) then Some(order) else None)
  {
  }
}
