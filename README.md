# storage-buddy-bot inventory core, modelled in Dafny

storage-buddy-bot is a small warehouse inventory app that runs inside Telegram. Its
front end sits over a hosted Postgres database with four tables: `items`, the
append-only `transactions` journal, `warehouses` and `app_users`. It also uses an
"item-photos" storage bucket. A separate Telegram relay service
(`telegram-service/server.js`) forwards a CSV export or a text message to the Telegram
Bot API.

This project models what the front end's dialogs and pages decide and write:

- take, return and replenish an item, each with its journal entry;
- create and edit items; create, rename and delete warehouses; log in;
- upload and delete photos and step through them;
- the search, filter and sort pipeline of the inventory page;
- the filter checkboxes, the multi-select, the autocomplete and the category picker;
- the labels of the journal page;
- the relay's validation and its mapping of Telegram's replies to HTTP responses.

Layout:
- `Store` holds the tables, both as a value (`Tables`) and as the mutable store the
  dialogs write to (`Db`).
- Each dialog is one module with two halves:
  - a pure function from the tables, the form state and the outcome of each request
    to the next tables, form state and `Outcome` (`Rejected` with the message shown,
    `Failed`, or `Done`);
  - a class holding the form's fields, whose `Submit`-style method performs the writes
    one at a time, in the handler's order, and is proved equal to that function.
- Every database write takes a boolean parameter saying whether it succeeds.
- The acting user is an `Option<Id>`: `None` means there is no session or no profile row.
- `Js` models the JavaScript built-ins the handlers rely on: `trim`, `parseInt`,
  `split`, `String(n)`, `toLowerCase`, `startsWith` and `includes`.
- `Seqs` holds the sequence operations: `filter`, the checkbox toggle, de-duplication
  through a `Set`, and removal by index.
- Quantities are `int`, not `nat`. The database column is a plain integer, and the
  add and edit dialogs' `parseInt(...) || n` accepts negative input. The return and
  replenish dialogs' digit-only inputs always give at least 1. The take dialog caps
  its input at the stock, so it can give 0 or less when the snapshot's stock is below 1.

## Model

| member | source | states |
|---|---|---|
| Js.Trim | src/components/TakeItemDialog.tsx:38 | the trimmed text is no longer than the input; it is empty exactly when the input is all whitespace, otherwise it neither starts nor ends with whitespace |
| Js.TrimSlice | src/components/TakeItemDialog.tsx:38 | the trimmed text is a slice of the input with only whitespace before it and only whitespace after it |
| Js.TrimIdempotent | src/components/CategorySelect.tsx:47-48 | trimming an already trimmed value changes nothing |
| Js.StripNonDigits | src/components/TakeItemDialog.tsx:126 | `replace(/[^0-9]/g, '')` is exactly the digits of the input, in order (the input filtered by `IsDigit`); a string of digits is left as it is |
| Js.ParseInt | src/components/AddItemDialog.tsx:145 | `parseInt` of an empty or all-whitespace string is NaN |
| Js.ParseIntDigits | src/components/AddItemDialog.tsx:145 | a non-empty string of digits parses to its decimal value |
| Js.ParseIntStopsAtNonDigit | src/components/AddItemDialog.tsx:145 | parsing stops at the first non-digit after the leading digits, so "12abc" gives 12 |
| Js.ParseIntSkipsSpace | src/components/EditItemDialog.tsx:170 | leading whitespace does not change what `parseInt` reads |
| Js.ParseIntNegative | src/components/EditItemDialog.tsx:170 | a minus sign followed by digits parses to the negated value |
| Js.ParseIntOfIntToString | src/components/EditItemDialog.tsx:54 | `parseInt(String(i))` gives back `i` for every integer, negative ones included |
| Js.ParseIntOfNegativeToString | src/components/EditItemDialog.tsx:54 | `parseInt(String(i))` gives back `i` for a negative integer, minus sign and all |
| Js.DigitQuantity | src/components/ReturnItemDialog.tsx:133-136 | the digit-only quantity field always yields at least 1 |
| Js.DigitQuantityValue | src/components/ReturnItemDialog.tsx:133-136 | the digit-only quantity field yields the value of the digits typed, or 1 when there are none or they spell zero |
| Js.DigitQuantityOfNumeral | src/components/AddQuantityDialog.tsx:131-134 | typing the numeral of a positive number into a digit-only field yields that number |
| Js.NumberInput | src/components/AddItemDialog.tsx:145 | `parseInt(raw) \|\| fallback`: the fallback for input that is NaN or parses to 0, and the parsed value otherwise |
| Js.NumberInputOfNumeral | src/components/EditItemDialog.tsx:170 | typing the numeral of a non-zero integer into a number field yields that integer |
| Js.JoinSplit | src/pages/Inventory.tsx:81-84 | joining the pieces of `split(c)` with `c` gives back the original string |
| Js.SplitJoin | src/pages/Inventory.tsx:81-84 | splitting a join of pieces free of `c` gives back the pieces |
| Js.Split | src/pages/Inventory.tsx:81-82 | `split(c)` gives at least one piece, exactly one when `c` does not occur, and no piece contains `c` |
| Js.LastPiece | src/components/PhotoDialog.tsx:55 | `split(c).pop()` contains no `c`, and is the whole string when `c` does not occur |
| Js.Lower | src/pages/Inventory.tsx:191-192 | `toLowerCase` maps each character by the case mapping and keeps the length |
| Js.StartsWith | src/components/PhotoDialog.tsx:43 | a string that starts with `p` is `p` followed by the rest |
| Js.Contains | src/pages/Inventory.tsx:191-192 | `includes(t)` needs `t` no longer than the string, and holds whenever the string starts with `t` |
| Js.LastPieceAfter | src/components/PhotoDialog.tsx:55 | `split('.').pop()` of `a + "." + b` is `b` when `b` has no dot |
| Js.SplitOn | src/components/PhotoDialog.tsx:112-113 | splitting on a separator gives one part exactly when the separator does not occur |
| Seqs.Select | src/pages/Inventory.tsx:190-205 | `filter` keeps only elements that pass, and never more elements than it was given |
| Seqs.SelectCount | src/pages/Inventory.tsx:190-205 | `filter` keeps every element that passes as often as it occurs, and no other |
| Seqs.SelectIsSubsequence | src/pages/Inventory.tsx:190-205 | a filtered list is a subsequence of the original |
| Seqs.SelectSelect | src/pages/Inventory.tsx:187-206 | two successive filters are one filter by the conjunction |
| Seqs.Toggle | src/components/FilterDialog.tsx:33-39 | toggling a selected value removes every occurrence of it (`filter`), toggling an unselected one appends it at the end; either way its membership flips |
| Seqs.ToggleKeepsOthers | src/components/FilterDialog.tsx:33-55 | toggling never changes the other elements or their order |
| Seqs.ToggleTwice | src/components/FilterDialog.tsx:33-39 | toggling an absent value twice restores the list |
| Seqs.RemoveAt | src/components/PhotoDialog.tsx:126 | `filter((_, i) => i !== index)` removes exactly the element at the index and shifts the rest down |
| Seqs.RemoveAtMultiset | src/components/PhotoDialog.tsx:126 | removal by index takes away exactly one copy of that element |
| Seqs.Dedup | src/components/CategorySelect.tsx:32 | `[...new Set(xs)]` has no duplicates and the same members as `xs` |
| Seqs.DedupFirstOccurrenceOrder | src/pages/Inventory.tsx:178 | it lists the values in the order of their first occurrence |
| Store.ItemTypeName | src/components/AddItemDialog.tsx:25 | the two item types are stored as "единичный" and "множественный" |
| Store.UnitAdjusted | src/components/TakeItemDialog.tsx:43 | a unit item always counts as quantity 1; a multiple item uses the typed quantity |
| Store.NullIfEmpty | src/components/AddItemDialog.tsx:49 | `s \|\| null`: null exactly for the empty string |
| Store.CriticalFromText | src/components/EditItemDialog.tsx:80 | the critical quantity is null for a unit item or an empty field, and otherwise the parsed number |
| Store.PutObjectsContents | src/components/PhotoDialog.tsx:59-61 | after a series of uploads, the bucket holds the old objects and exactly the uploaded keys besides |
| TakeItem.TakeQuantityInput | src/components/TakeItemDialog.tsx:125-128 | the take quantity field is capped at the stock, and is at least 1 when there is stock |
| TakeItem.TakeQuantityInputPassesStockCheck | src/components/TakeItemDialog.tsx:45-48 | a quantity that came from the field never fails the stock check |
| TakeItem.TakeEntry | src/components/TakeItemDialog.tsx:66-75 | the take entry names the item, the user, "взято", the quantity and the purpose, and nothing else |
| TakeItem.Decrement | src/components/TakeItemDialog.tsx:80-84 | applied to the snapshot, the decrement changes only the quantity, to the snapshot's minus the amount |
| TakeItem.Take | src/components/TakeItemDialog.tsx:35-100 | a blank purpose or, for a multiple item, a quantity above the snapshot's stock is rejected with no write; no user or a failed log insert writes nothing; a take completes exactly when every check and write succeeds (the update only for a multiple item), and then the log holds one more entry, a multiple item is decremented from the snapshot and the form resets; otherwise the form is kept |
| TakeItem.TakeWrites | src/components/TakeItemDialog.tsx:66-87 | whatever the outcome, the log gains at most the one "взято" entry with the trimmed purpose, and the items change only by the snapshot decrement of a multiple item, written after that entry |
| TakeItem.TakeUnitItem | src/components/TakeItemDialog.tsx:43-87 | a take of a unit item logs quantity 1 and never touches the item row |
| TakeItem.TakeMultipleItem | src/components/TakeItemDialog.tsx:80-84 | a completed take of a multiple item stores the snapshot's quantity minus the amount, never below zero, and every other column as it was |
| TakeItem.TakeItemDialog.Submit | src/components/TakeItemDialog.tsx:35-100 | the handler's sequence of writes has exactly the effect of `Take` |
| ReturnItem.InitialReturnForm | src/components/ReturnItemDialog.tsx:34-36 | the dialog starts with quantity 1, the item's warehouse and the item's location or "" |
| ReturnItem.ResetReturnForm | src/components/ReturnItemDialog.tsx:106-108 | after a return the form is the initial one with the location cleared |
| ReturnItem.ReturnEntry | src/components/ReturnItemDialog.tsx:72-81 | the return entry names the item, the user, "возвращено", the quantity, the warehouse and the location, and nothing else |
| ReturnItem.ReturnUpdate | src/components/ReturnItemDialog.tsx:86-94 | `updateData` always sets warehouse and location, and sets quantity only for a multiple item |
| ReturnItem.Return | src/components/ReturnItemDialog.tsx:45-115 | a blank location is rejected with no write; no user or a failed log insert writes nothing; a return completes exactly when both writes succeed, and then the log holds one more entry, the item has the return update and the form resets with the location cleared; otherwise the form is kept |
| ReturnItem.ReturnWrites | src/components/ReturnItemDialog.tsx:72-101 | whatever the outcome, the log gains at most the one "возвращено" entry, and the items change only by the return update, written after that entry |
| ReturnItem.ReturnOverwrites | src/components/ReturnItemDialog.tsx:86-94 | a completed return overwrites warehouse and location whatever they were; a multiple item gets the snapshot's quantity plus the amount, a unit item keeps its quantity |
| ReturnItem.ReturnLogEntry | src/components/ReturnItemDialog.tsx:72-81 | the entry carries the amount (1 for a unit item), the chosen warehouse and the trimmed, non-empty location |
| ReturnItem.ReturnItemDialog.Submit | src/components/ReturnItemDialog.tsx:45-115 | the handler's writes have exactly the effect of `Return` |
| AddQuantity.OpenedForm | src/components/AddQuantityDialog.tsx:32-38 | opening the dialog sets the quantity to 1 and the location to the item's location or "" |
| AddQuantity.ReplenishUpdate | src/components/AddQuantityDialog.tsx:78-84 | applied to the snapshot, the update changes only quantity and location: the snapshot's quantity plus the amount, and the given location |
| AddQuantity.ReplenishEntry | src/components/AddQuantityDialog.tsx:89-100 | the entry names the item, the user, "пополнено", the amount, the item's name and the category the read gave, with the new total the update wrote |
| AddQuantity.StoredCategory | src/components/AddQuantityDialog.tsx:71-75 | `itemData?.category`: the stored row's category when the read succeeds and the row exists, otherwise null |
| AddQuantity.Replenish | src/components/AddQuantityDialog.tsx:46-114 | a quantity of 0 or less is rejected with no write; otherwise the item is updated before the log, and the log entry, carrying the stored category when the read succeeds, is written only after a successful update |
| AddQuantity.ReplenishTotals | src/components/AddQuantityDialog.tsx:78-100 | a completed replenish stores the snapshot's quantity plus the amount for either item type, and the trimmed location or null; the log's `new_total` agrees |
| AddQuantity.ReplenishIgnoresLogFailure | src/components/AddQuantityDialog.tsx:89-100 | a failed log insert neither undoes nor blocks the replenish |
| AddQuantity.ReplenishIgnoresReadFailure | src/components/AddQuantityDialog.tsx:71-95 | a failed read of the stored row neither blocks nor changes the update, and the entry then logged has a null category |
| AddQuantity.AddQuantityDialog.Submit | src/components/AddQuantityDialog.tsx:46-114 | the handler's writes have exactly the effect of `Replenish` |
| EditItem.CriticalText | src/components/EditItemDialog.tsx:54 | the critical field is empty exactly for null, and otherwise parses back to the number |
| EditItem.FormFromItem | src/components/EditItemDialog.tsx:46-58 | the form holds the item's columns; the critical field is empty exactly for null and otherwise parses back to the number; a null location or notes is "" |
| EditItem.EditQuantityInput | src/components/EditItemDialog.tsx:170 | the edit quantity field maps unparsable input to 0 |
| EditItem.EditUpdate | src/components/EditItemDialog.tsx:74-83 | a unit item is written with quantity 1 and no critical quantity; empty location and notes are written as null |
| EditItem.Edit | src/components/EditItemDialog.tsx:61-97 | an empty name, category or warehouse (the empty string, not blank text) is rejected with no update; otherwise one update and no log entry |
| EditItem.EditRoundTrip | src/components/EditItemDialog.tsx:46-58 | filling the form from an item in normal form and writing it back reproduces the item |
| EditItem.EditUnchangedIsNoOp | src/components/EditItemDialog.tsx:46-84 | saving an unchanged form over a row that matches the snapshot changes no table |
| EditItem.EditUnitNormalised | src/components/EditItemDialog.tsx:79-80 | a saved unit item has quantity 1 and no critical quantity whatever the form held |
| EditItem.EditItemDialog.Submit | src/components/EditItemDialog.tsx:61-97 | the handler's write has exactly the effect of `Edit` |
| AddItem.CreateQuantityInput | src/components/AddItemDialog.tsx:145 | the create quantity field gives 1 for input that is NaN or parses to 0, the parsed value otherwise, and never 0 |
| AddItem.NewItemRow | src/components/AddItemDialog.tsx:42-50 | the inserted row: a unit item has quantity 1 and no critical quantity, empty notes are null, and there are no photos |
| AddItem.Create | src/components/AddItemDialog.tsx:31-72 | missing required fields insert nothing; a completed create adds the row, writes no log entry and resets the form to its defaults |
| AddItem.CreateAddsOneRow | src/components/AddItemDialog.tsx:42-50 | a completed create adds exactly one row and keeps every other row |
| AddItem.AddItemDialog.Submit | src/components/AddItemDialog.tsx:31-72 | the handler's write has exactly the effect of `Create` |
| ItemCard.NoThresholdNoWarning | src/components/ItemCard.tsx:50 | with no critical quantity, or one of zero, there is never a low-stock warning, whatever the stock |
| ItemCard.IsLowStock | src/components/ItemCard.tsx:50 | a warning needs a critical quantity and stock at or below it; a positive critical quantity with no stock always warns |
| ItemCard.TakeEnabled | src/components/ItemCard.tsx:139 | the take button is enabled for positive stock and disabled only at exactly zero |
| ItemCard.TakeKeepsLowStock | src/components/ItemCard.tsx:50 | a completed take keeps a low-stock item low; taking all of it disables the take button |
| ItemCard.HolderIndex | src/components/ItemCard.tsx:52-64 | the position of the latest "взято" entry of the item, with no later one; none when there is no such entry |
| ItemCard.IsTakeOf | src/components/ItemCard.tsx:60-61 | a return or replenish entry, or an entry without an item, is never a take of the item |
| ItemCard.CurrentHolder | src/components/ItemCard.tsx:52-64 | the holder query (`fetchCurrentUser`) returns a take entry of the item from the log, and returns none exactly when the log has no take of the item |
| ItemCard.HolderIgnoresOtherEntries | src/components/ItemCard.tsx:60-61 | an entry that is not a take of the item, such as a return, does not change what the holder query returns |
| ItemCard.HolderAfterTakeEntry | src/components/ItemCard.tsx:60-62 | a new take entry of the item becomes what the holder query returns |
| ItemCard.HolderAfterDialogs | src/components/ItemCard.tsx:52-64 | after a completed take the holder query returns that take's entry; after a completed return it still returns the previous take |
| InventoryPage.SplitFullNameRejoins | src/pages/Inventory.tsx:79-85 | for a name with a space, last name + " " + first name is the original, and the last name has no space |
| InventoryPage.SplitFullNameOneWord | src/pages/Inventory.tsx:86-92 | a one-word name is all first name; an absent or empty name gives two empty names |
| InventoryPage.SplitFullName | src/pages/Inventory.tsx:79-92 | an absent or empty name gives two empty names, and the last name never contains a space |
| InventoryPage.DisplayName | src/pages/Inventory.tsx:313 | the name shown is never empty: the trimmed "first last", or "Пользователь" when that is blank |
| InventoryPage.DisplayNameWithoutName | src/pages/Inventory.tsx:89-92 | a user with no whitelist name is shown as "Пользователь" |
| InventoryPage.Categories | src/pages/Inventory.tsx:178 | the category column of the loaded rows, in order |
| InventoryPage.UniqueCategories | src/pages/Inventory.tsx:178 | the unique categories have no duplicates and are exactly the categories of the loaded rows |
| InventoryPage.UniqueCategoriesSpec | src/pages/Inventory.tsx:178 | every item's category is listed exactly once, nothing else is, in first-occurrence order |
| InventoryPage.SearchMatch | src/pages/Inventory.tsx:190-193 | an empty query matches every item, and so does a query the lower-cased name starts with |
| InventoryPage.Keep | src/pages/Inventory.tsx:189-206 | with no search and every selection at "all" an item is kept; a kept item has the selected warehouse and category when those are not "all" |
| InventoryPage.Matching | src/pages/Inventory.tsx:186-206 | the filtered list is no longer than the items and everything in it passes every filter |
| InventoryPage.MatchingSpec | src/pages/Inventory.tsx:186-206 | the filtered list is a subsequence of the items; every kept item passes the search and every selection other than "all"; every passing item is kept |
| InventoryPage.NoFiltersKeepsAll | src/pages/Inventory.tsx:186-218 | with an empty search and every selection at "all", nothing is filtered out |
| InventoryPage.InsertByQuantity | src/pages/Inventory.tsx:209-215 | inserting into a list sorted by quantity keeps it sorted and adds exactly that item |
| InventoryPage.SortByQuantity | src/pages/Inventory.tsx:209-215 | the sort gives a permutation ordered non-decreasing (asc) or non-increasing (desc) by quantity |
| InventoryPage.FilterStep | src/pages/Inventory.tsx:196-206 | one more conditional `filter` step keeps the list equal to a single filter by all conditions so far |
| InventoryPage.ApplyFilters | src/pages/Inventory.tsx:186-218 | the effect's result: exactly the matching items when there is no sort, and a sorted permutation of them when there is one |
| InventoryPage.ShowAllWithoutFilters | src/pages/Inventory.tsx:186-218 | with no search, no filters and no sort the page shows the loaded items unchanged |
| InventoryPage.ActiveFilterCount | src/pages/Inventory.tsx:275-278 | the badge count is in 0..3; it is 0 exactly when all selections are "all", and 3 exactly when none is |
| InventoryPage.ToggleSort | src/pages/Inventory.tsx:292-301 | a sort button selects its order unless that order is already on, which clears the sort |
| InventoryPage.ToggleSortTwice | src/pages/Inventory.tsx:292-301 | pressing a sort button twice clears the sort, or restores it when that order was on |
| FilterDialog.ItemTypeOptionsAreColumnValues | src/components/FilterDialog.tsx:110 | the item-type options are exactly the two stored item-type values |
| FilterDialog.HasActiveFilters | src/components/FilterDialog.tsx:31 | the reset button is shown exactly when the selections are not all empty |
| FilterDialog.ToggleWarehouse | src/components/FilterDialog.tsx:33-39 | the warehouse list is `Seqs.Toggle` of the old one (every copy removed, or the value appended at the end), so the warehouse flips its membership; the other two lists are untouched |
| FilterDialog.ToggleCategory | src/components/FilterDialog.tsx:41-47 | the category list is `Seqs.Toggle` of the old one, so the category flips its membership; the other two lists are untouched |
| FilterDialog.ToggleItemType | src/components/FilterDialog.tsx:49-55 | the item-type list is `Seqs.Toggle` of the old one, so the item type flips its membership; the other two lists are untouched |
| FilterDialog.ToggleWarehouseTwice | src/components/FilterDialog.tsx:33-39 | checking a clear box and clearing it again restores the selections |
| FilterDialog.ActiveAfterCheckAndReset | src/components/FilterDialog.tsx:31 | checking any box makes a filter active, and the reset leaves none active |
| FilterDialog.ClearingLastBox | src/components/FilterDialog.tsx:31-39 | clearing the only checked box leaves no active filter |
| MultiSelect.HandleToggle | src/components/ui/multi-select.tsx:27-32 | the handler is the checkbox toggle: the value flips its membership, and every other selected value keeps its place |
| MultiSelect.DisplayText | src/components/ui/multi-select.tsx:23-36 | for an empty selection the placeholder passed in, or "Выберите..." when none is passed; otherwise "Выбрано: " followed by the count |
| MultiSelect.DisplayTextCount | src/components/ui/multi-select.tsx:34-36 | the number after "Выбрано: " reads back as the number of selected values |
| Autocomplete.FirstExtension | src/components/AutocompleteInput.tsx:33-36 | the result is empty or a candidate that extends the value without being equal to it, ignoring case; when one exists it is the first |
| Autocomplete.Suggestion | src/components/AutocompleteInput.tsx:31-40 | there is no suggestion for an empty value; a suggestion is a candidate that extends the value |
| Autocomplete.SuggestionIsLonger | src/components/AutocompleteInput.tsx:33-36 | a suggestion is always longer than the value |
| Autocomplete.HandleKey | src/components/AutocompleteInput.tsx:51-58 | Tab or ArrowRight with a suggestion accepts it and clears it; any other key changes nothing |
| Autocomplete.Overlay | src/components/AutocompleteInput.tsx:72-76 | the overlay is the suggestion without its first `value.length` characters, and nothing when either is empty |
| Autocomplete.OverlayCompletes | src/components/AutocompleteInput.tsx:72-76 | the typed value followed by the overlay spells the suggestion, when the case matches |
| CategorySelect.CategoryOptions | src/components/CategorySelect.tsx:31-33 | the options have no duplicates, cover exactly the fetched categories, and follow first occurrence |
| CategorySelect.HandleSelect | src/components/CategorySelect.tsx:40-44 | the chosen category is reported unchanged and the popover and custom input close |
| CategorySelect.CustomSubmit | src/components/CategorySelect.tsx:46-53 | a blank custom value does nothing; otherwise the trimmed value is reported and the input is cleared and closed |
| CategorySelect.CustomSubmitNormalises | src/components/CategorySelect.tsx:46-53 | submitting the reported value again reports the same thing |
| CategorySelect.Cancel | src/components/CategorySelect.tsx:130-133 | cancelling closes the custom input and discards its text |
| TransactionLog.Reverse | src/pages/TransactionLog.tsx:52 | the elements in reverse order |
| TransactionLog.Recent | src/pages/TransactionLog.tsx:45-53 | the page lists at most 100 entries, newest first |
| TransactionLog.RecentStartsWithLatest | src/pages/TransactionLog.tsx:52-53 | the entry just written is at the top of the page |
| TransactionLog.ActionText | src/pages/TransactionLog.tsx:77-88 | "взять", "вернуть" and "пополнить" get a label with the quantity; any other action is shown as it is |
| TransactionLog.DialogActionsShownVerbatim | src/pages/TransactionLog.tsx:77-101 | the actions the dialogs write ("взято", "возвращено", "пополнено") are shown verbatim and grey, without their quantity |
| TransactionLog.LoggedActionText | src/pages/TransactionLog.tsx:77-88 | the label as intended: the three written actions get the quantity labels |
| TransactionLog.LoggedActionTextShowsQuantity | src/pages/TransactionLog.tsx:77-88 | with the written action words, each label contains its quantity and the three labels differ |
| TransactionLog.LoggedActionColor | src/pages/TransactionLog.tsx:90-101 | the colour as intended: yellow, green and blue exactly for the three written actions, grey for the rest |
| TransactionLog.ActionColor | src/pages/TransactionLog.tsx:90-101 | yellow, green and blue exactly for the three recognised actions, grey for the rest |
| TransactionLog.Label | src/pages/TransactionLog.tsx:142 | `name \|\| fallback`: a missing or empty user name or item name is shown as its fallback ("Неизвестный пользователь", "Удаленный предмет"), any other as it is, and the label is never empty |
| Login.SignIn | src/pages/Login.tsx:16-51 | a blank name is rejected with no write; a failed lookup counts as "not found"; the trimmed name is inserted only when it is not found, and only a failed insert then fails the sign-in; on success the session holds the trimmed name, which is then a user |
| Login.Register | src/pages/Login.tsx:28-41 | after the blank check: a name found by a successful lookup signs in with no write; otherwise the name is inserted, and the sign-in fails, writing nothing, exactly when that insert fails |
| Login.SignInFailedLookup | src/pages/Login.tsx:28-39 | a registered name whose lookup fails goes to the insert: the sign-in fails when that insert fails, and succeeds with no new user when it succeeds |
| Login.SignInTwice | src/pages/Login.tsx:28-41 | signing in twice with the same name creates one user record: the second sign-in writes nothing, and succeeds whenever its lookup does |
| Login.LoginPage.Submit | src/pages/Login.tsx:16-51 | the handler's lookup, insert and session write have exactly the effect of `SignIn` |
| PhotoDialog.AcceptableBounds | src/components/PhotoDialog.tsx:43-52 | a 5 MiB image is accepted, one byte more is not, and a non-image is not |
| PhotoDialog.Acceptable | src/components/PhotoDialog.tsx:43-52 | an accepted file has a type starting with "image/" and is at most 5 MiB |
| PhotoDialog.StorageKey | src/components/PhotoDialog.tsx:55-56 | the key starts with the item id and a slash, and keeps the file name's last dot-separated piece as its extension |
| PhotoDialog.StoredIndices | src/components/PhotoDialog.tsx:39-79 | the files that end up stored, in file order, every one of them |
| PhotoDialog.KeysUpToIndices | src/components/PhotoDialog.tsx:39-79 | the keys uploaded are those of the stored files, in the same order |
| PhotoDialog.KeysUpToEmpty | src/components/PhotoDialog.tsx:81 | no key at all exactly when no file is stored |
| PhotoDialog.UrlsOf | src/components/PhotoDialog.tsx:74-78 | one public URL per key, in order |
| PhotoDialog.PublicUrl | src/components/PhotoDialog.tsx:74-78 | the public URL is the base address, then "/item-photos/", then the key |
| PhotoDialog.UploadedUrlsSpec | src/components/PhotoDialog.tsx:39-79 | skipped and failed files leave no URL and do not stop the loop; the URLs keep file order and are no more than the files |
| PhotoDialog.Upload | src/components/PhotoDialog.tsx:30-105 | the photos become the old ones followed by the uploaded URLs, written only when at least one upload succeeded |
| PhotoDialog.UploadFailureKeepsObjects | src/components/PhotoDialog.tsx:85-90 | a failed item update leaves the uploaded objects in the bucket and the item unchanged |
| PhotoDialog.StoragePath | src/components/PhotoDialog.tsx:112-116 | there is a path exactly when `split('/item-photos/')` gives two parts, and it is the second part; it is then the URL's tail after that segment and holds no further one |
| PhotoDialog.StoragePathOfPublicUrl | src/components/PhotoDialog.tsx:112-116 | the path read back from a public URL is the key it was made from |
| PhotoDialog.Clamp | src/components/PhotoDialog.tsx:136-138 | an index past the end of a non-empty list moves back to the last photo; otherwise it stays |
| PhotoDialog.DeletePhoto | src/components/PhotoDialog.tsx:107-145 | an unsplittable URL or a failed removal writes nothing; a completed delete removes the object, then exactly the photo at the index, and keeps the index on a photo |
| PhotoDialog.DeletePhotoEffect | src/components/PhotoDialog.tsx:119-135 | a completed delete keeps the other photos in order; a failed update after the removal leaves the item pointing at a removed object |
| PhotoDialog.RemoveAtIsSubsequence | src/components/PhotoDialog.tsx:126 | removing one photo leaves a subsequence |
| PhotoDialog.Next | src/components/PhotoDialog.tsx:147-149 | the next index stays in range and wraps from the last photo to the first |
| PhotoDialog.Prev | src/components/PhotoDialog.tsx:151-153 | the previous index stays in range and wraps from the first photo to the last |
| PhotoDialog.NextPrevInverse | src/components/PhotoDialog.tsx:147-153 | next and previous undo each other |
| PhotoDialog.PhotoDialogState.UploadEach | src/components/PhotoDialog.tsx:37-79 | the upload loop collects exactly the URLs of the stored files and uploads exactly their keys |
| PhotoDialog.PhotoDialogState.HandleFileSelect | src/components/PhotoDialog.tsx:30-105 | the handler has exactly the effect of `Upload` and keeps the index valid |
| PhotoDialog.PhotoDialogState.HandleDeletePhoto | src/components/PhotoDialog.tsx:107-145 | the handler has exactly the effect of `DeletePhoto` and keeps the index valid |
| PhotoDialog.PhotoDialogState.NextPhoto | src/components/PhotoDialog.tsx:147-149 | the index moves to `Next` and stays valid |
| PhotoDialog.PhotoDialogState.PrevPhoto | src/components/PhotoDialog.tsx:151-153 | the index moves to `Prev` and stays valid |
| PhotoDialog.PhotoDialogState.ShowPhoto | src/components/PhotoDialog.tsx:215-221 | a thumbnail button shows that photo: the index becomes it, the photos are unchanged and the index stays valid |
| WarehouseSelect.WarehouseEntry | src/components/WarehouseSelect.tsx:110-118 | a warehouse journal row has no item, quantity 0 and the warehouse name as item name |
| WarehouseSelect.HandleSelect | src/components/WarehouseSelect.tsx:72-75 | the chosen warehouse becomes the value and the popover closes |
| WarehouseSelect.OpenCreate | src/components/WarehouseSelect.tsx:239-243 | the create dialog opens with an empty name |
| WarehouseSelect.OpenEdit | src/components/WarehouseSelect.tsx:245-249 | the edit dialog opens on the warehouse, with its current name in the field |
| WarehouseSelect.Create | src/components/WarehouseSelect.tsx:77-129 | a blank name is rejected with no write; a completed create inserts the trimmed name, logs "склад создан" with quantity 0, and selects the trimmed name |
| WarehouseSelect.Update | src/components/WarehouseSelect.tsx:131-188 | a rename writes the trimmed name without an emptiness check and logs "склад изменен" with old and new name; the selection follows only if it was the old name |
| WarehouseSelect.RenameToBlank | src/components/WarehouseSelect.tsx:148-153 | renaming to blank text goes through and stores the empty name |
| WarehouseSelect.Delete | src/components/WarehouseSelect.tsx:190-237 | the "склад удален" entry is written before the delete; the warehouse goes only when the delete succeeds |
| WarehouseSelect.DeleteLogsEvenIfDeleteFails | src/components/WarehouseSelect.tsx:209-229 | a failed delete still leaves its journal entry, and the warehouse in place |
| WarehouseSelect.WarehouseChangesKeepItems | src/components/WarehouseSelect.tsx:191 | deleting or renaming a warehouse leaves every item, and the warehouse it names, untouched |
| WarehouseSelect.WarehouseSelector.CreateWarehouse | src/components/WarehouseSelect.tsx:77-129 | the handler's writes have exactly the effect of `Create` |
| WarehouseSelect.WarehouseSelector.InsertAndSelect | src/components/WarehouseSelect.tsx:97-123 | the writes of a create that passed its checks: the insert, then the journal row when its insert succeeds, then the new name selected and the dialog closed |
| WarehouseSelect.WarehouseSelector.UpdateWarehouse | src/components/WarehouseSelect.tsx:131-188 | the handler's writes have exactly the effect of `Update` |
| WarehouseSelect.WarehouseSelector.RenameAndFollow | src/components/WarehouseSelect.tsx:148-182 | the writes of a rename that passed its checks: the update, then the journal row when its insert succeeds, then the selection follows the new name only if it was the old one |
| WarehouseSelect.WarehouseSelector.DeleteWarehouse | src/components/WarehouseSelect.tsx:190-237 | the handler's writes have exactly the effect of `Delete` |
| Relay.Truthy | telegram-service/server.js:34 | a value is falsy exactly when it is undefined, null, false, 0 or the empty string |
| Relay.ToJsString | telegram-service/server.js:45 | `chatId.toString()`: a string is itself, and a number's text parses back to the number |
| Relay.DocumentParts | telegram-service/server.js:44-54 | the multipart body is the chat id as text, the CSV as a file under the given name, and the fixed caption, in that order |
| Relay.MapUpstream | telegram-service/server.js:66-90 | a thrown error is 500 with its message; a reply whose `ok` is falsy is 500 with "Telegram API error: " and the description or "Unknown error"; otherwise 200 echoing the reply; 200 exactly for an ok reply |
| Relay.SendFile | telegram-service/server.js:29-91 | a falsy chatId, csvData or fileName is 400 with the missing-parameters error and nothing is sent; a non-string csvData, then a non-string fileName, is 500 with the message Node throws and nothing is sent; otherwise the document is sent and the reply is mapped |
| Relay.ParseMode | telegram-service/server.js:96 | parseMode defaults to "HTML" only when it is undefined |
| Relay.SendMessageHandler | telegram-service/server.js:94-147 | a falsy chatId or text is 400 and nothing is sent; otherwise the message is sent with the parse mode and the reply is mapped |
| Relay.Handle | telegram-service/server.js:20-164 | a body the parser rejects is 500 "Internal server error"; GET and HEAD on the health check are 200; the two POST routes are their handlers; anything else is 404 "Endpoint not found" |
| Relay.SentOnlyWhenValid | telegram-service/server.js:33-39 | Telegram is called only from a forwarding route whose required fields are present, and every non-200 answer is an error |
| Relay.SuccessEchoesReply | telegram-service/server.js:78-82 | a success reports exactly the reply Telegram gave |
| Relay.NumericChatId | telegram-service/server.js:45 | a numeric chat id reaches Telegram as its decimal numeral |

## Left out

- The hosted database is a set of in-memory tables. Authentication sessions, the whitelist RPC, realtime channels and the `fetchWarehouses`/`fetchItems` reloads are policy of the hosted service and are not modelled. Each write's success is a parameter.
- Concurrency is not modelled. Two dialogs writing the same item's quantity from their snapshots can lose an update, and the model runs handlers one at a time.
- src/components/DeleteItemDialog.tsx is not part of this model. Its point is a parallel log write and delete followed by an optimistic refresh.
- The edge function supabase/functions/send-telegram-file/index.ts, the hooks in src/hooks/, ManufacturerSelect.tsx and vite-env.d.ts are not part of this model. They are a second fetch wrapper, browser and Telegram SDK calls, a fetch and a list, and type declarations.
- Rendering is not modelled: JSX, toasts, console output, focus and scroll timers, and the date formatting of the journal, which uses `Intl`.
- Every `confirm` dialog is taken as answered yes.
- The relay's multipart encoding and HTTP transport are not modelled, and neither is its exit when the bot token is missing (telegram-service/server.js:10-13). CORS is also left out.
- Js.Lower: `toLowerCase` is a per-character case mapping passed in as a parameter. Unicode case rules that change a string's length are not modelled.
- PhotoDialog.PublicUrl and PhotoDialog.StoragePathOfPublicUrl: the URL is the key appended as it is. The storage client percent-encodes the URL (`encodeURI`), so a key with spaces or non-ASCII characters does not come back unchanged. That happens when the item id or the file's extension holds such characters.
- Js.ParseInt: decimal numerals only. It does not model "0x" prefixes, or the floating-point rounding of numerals beyond 2^53.
- InventoryPage.ApplyFilters: states that the sorted list is an ordered permutation of the matching items. It does not state that items of equal quantity keep their order, although `Array.prototype.sort` is stable.
- ItemCard.HolderIndex and TransactionLog.Recent: take the journal's insertion order as its `created_at` order.
- TransactionLog.Recent and CategorySelect.CategoryOptions: the journal read and the category read are taken to succeed. A failed journal read shows an error and keeps the list, and a failed category read keeps the previous options.
- Login.SignIn: whether inserting a name that is already registered succeeds depends on the database's constraints, so it is the `insertOk` parameter. Users are a set, so a successful insert of such a name adds no second record.
- ItemCard.CurrentHolder: the card runs the holder query only when the take button is clicked, before the take is written, and keeps that result until the next click; which result the card displays at a given moment is not modelled.
- Relay.Handle: routes match the path exactly. Express also matches routes case-insensitively and with a trailing slash. A HEAD request to the health check gets the GET route's response; that Node sends no body for it is transport and is not modelled.
- Relay.SendFile: treats every non-string `csvData` as making `Buffer.from` throw, and every non-string `fileName` as making `path.basename` throw inside `append`. Arrays and array-like objects, which `Buffer.from` accepts, are not distinguished. The thrown messages are parameters. The file name Telegram sees is `path.basename` of `fileName`; the model passes `fileName` itself.
- Relay.ToJsString: turns any object or array into "[object Object]". An array's own `toString` is not modelled. Numbers are integers, written by `String(n)` in positional notation; the exponent notation JavaScript uses from 1e21 up in magnitude, and a non-integer JSON chat id, are not modelled.
- The inventory page passes single selections to the filter dialog, while the dialog's props expect lists. Each file is modelled in its own terms.

## Findings

| source | as written | input that shows it | evidently intended | confidence | as-written member | corrected member |
|---|---|---|---|---|---|---|
| src/pages/TransactionLog.tsx:77-101 | `getActionText` and `getActionColor` match "взять", "вернуть" and "пополнить", but the take, return and replenish dialogs write "взято", "возвращено" and "пополнено" (src/components/TakeItemDialog.tsx:72, src/components/ReturnItemDialog.tsx:77, src/components/AddQuantityDialog.tsx:92) | a journal entry with action "взято" and quantity 3 is shown as "взято", in grey, with no quantity | the entry is shown as "Взял (3 шт.)" in yellow, and likewise for returns and replenishments | medium, not executed | TransactionLog.DialogActionsShownVerbatim | TransactionLog.LoggedActionTextShowsQuantity |
