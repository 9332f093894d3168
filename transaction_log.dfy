/**
 * The journal page: the latest hundred log entries, newest first, each shown with a
 * label for its action, a colour for its action, the user's name and the item's name.
 */
module TransactionLog {
  import opened Options
  import opened Js
  import opened Store

  const PageSize: nat := 100

  /** The elements of `s` in reverse order. */
  function Reverse<T>(s: seq<T>): (r: seq<T>)
    ensures |r| == |s|
    ensures forall i :: 0 <= i < |s| ==> r[i] == s[|s| - 1 - i]
  {
    if s == [] then [] else [s[|s| - 1]] + Reverse(s[..|s| - 1])
  }

  /** `order("created_at", { ascending: false }).limit(100)`, for a log kept in
      insertion order. */
  function Recent(log: seq<Transaction>): (r: seq<Transaction>)
    ensures |r| == if |log| < PageSize then |log| else PageSize
    ensures forall i :: 0 <= i < |r| ==> r[i] == log[|log| - 1 - i]
  {
    var n := if |log| < PageSize then |log| else PageSize;
    Reverse(log[|log| - n..])
  }

  /** The page starts with the entry just written. */
  lemma RecentStartsWithLatest(log: seq<Transaction>, e: Transaction)
    ensures Recent(log + [e])[0] == e
    ensures |log| < PageSize ==> |Recent(log + [e])| == |log| + 1
  {
  }

  /** The action keys the page recognises. */
  const TakeKey: string := "взять"
  const ReturnKey: string := "вернуть"
  const ReplenishKey: string := "пополнить"

  /** `getActionText`. */
  function ActionText(action: string, quantity: int): (r: string)
    ensures action == TakeKey ==> r == "Взял (" + IntToString(quantity) + " шт.)"
    ensures action == ReturnKey ==> r == "Вернул (" + IntToString(quantity) + " шт.)"
    ensures action == ReplenishKey ==> r == "Пополнил (+" + IntToString(quantity) + " шт.)"
    ensures action != TakeKey && action != ReturnKey && action != ReplenishKey ==> r == action
  {
    if action == TakeKey then "Взял (" + IntToString(quantity) + " шт.)"
    else if action == ReturnKey then "Вернул (" + IntToString(quantity) + " шт.)"
    else if action == ReplenishKey then "Пополнил (+" + IntToString(quantity) + " шт.)"
    else action
  }

  /** The entries the dialogs write are not among the recognised keys: the page
      shows their action word as it is, without the quantity. */
  lemma DialogActionsShownVerbatim(q: int)
    ensures ActionText(ActionTaken, q) == ActionTaken
    ensures ActionText(ActionReturned, q) == ActionReturned
    ensures ActionText(ActionReplenished, q) == ActionReplenished
    ensures ActionColor(ActionTaken) == Grey && ActionColor(ActionReturned) == Grey &&
            ActionColor(ActionReplenished) == Grey
  {
  }

  /** The label with the action words the dialogs write. */
  function LoggedActionText(action: string, quantity: int): (r: string)
    ensures action == ActionTaken ==> r == ActionText(TakeKey, quantity)
    ensures action == ActionReturned ==> r == ActionText(ReturnKey, quantity)
    ensures action == ActionReplenished ==> r == ActionText(ReplenishKey, quantity)
    ensures action != ActionTaken && action != ActionReturned && action != ActionReplenished ==> r == action
  {
    if action == ActionTaken then ActionText(TakeKey, quantity)
    else if action == ActionReturned then ActionText(ReturnKey, quantity)
    else if action == ActionReplenished then ActionText(ReplenishKey, quantity)
    else action
  }

  /** With the written action words, each dialog's entry is labelled with its
      quantity, and the three labels can be told apart by their first letter. */
  lemma LoggedActionTextShowsQuantity(q: int)
    ensures OccursAt(LoggedActionText(ActionTaken, q), IntToString(q), |"Взял ("|)
    ensures OccursAt(LoggedActionText(ActionReturned, q), IntToString(q), |"Вернул ("|)
    ensures OccursAt(LoggedActionText(ActionReplenished, q), IntToString(q), |"Пополнил (+"|)
    ensures LoggedActionText(ActionTaken, q) != LoggedActionText(ActionReturned, q)
    ensures LoggedActionText(ActionReturned, q) != LoggedActionText(ActionReplenished, q)
    ensures LoggedActionText(ActionTaken, q) != LoggedActionText(ActionReplenished, q)
  {
    var n := IntToString(q);
    var a := LoggedActionText(ActionTaken, q);
    var b := LoggedActionText(ActionReturned, q);
    var c := LoggedActionText(ActionReplenished, q);
    assert a[..|"Взял ("|] == "Взял (";
    assert b[..|"Вернул ("|] == "Вернул (";
    assert c[..|"Пополнил (+"|] == "Пополнил (+";
    assert a[|"Взял ("|..|"Взял ("| + |n|] == n;
    assert b[|"Вернул ("|..|"Вернул ("| + |n|] == n;
    assert c[|"Пополнил (+"|..|"Пополнил (+"| + |n|] == n;
    assert a[1] != b[1];
    assert b[0] != c[0];
    assert a[0] != c[0];
  }

  const Yellow: string := "text-yellow-600 bg-yellow-50 border-yellow-200"
  const Green: string := "text-green-600 bg-green-50 border-green-200"
  const Blue: string := "text-blue-600 bg-blue-50 border-blue-200"
  const Grey: string := "text-gray-600 bg-gray-50 border-gray-200"

  /** `getActionColor`. */
  function ActionColor(action: string): (r: string)
    ensures r in {Yellow, Green, Blue, Grey}
    ensures r == Yellow <==> action == TakeKey
    ensures r == Green <==> action == ReturnKey
    ensures r == Blue <==> action == ReplenishKey
  {
    if action == TakeKey then Yellow
    else if action == ReturnKey then Green
    else if action == ReplenishKey then Blue
    else Grey
  }

  /** The colour with the action words the dialogs write. */
  function LoggedActionColor(action: string): (r: string)
    ensures r == Yellow <==> action == ActionTaken
    ensures r == Green <==> action == ActionReturned
    ensures r == Blue <==> action == ActionReplenished
    ensures r == Grey <==> action != ActionTaken && action != ActionReturned && action != ActionReplenished
  {
    if action == ActionTaken then ActionColor(TakeKey)
    else if action == ActionReturned then ActionColor(ReturnKey)
    else if action == ActionReplenished then ActionColor(ReplenishKey)
    else Grey
  }

  /** `name || fallback` on a joined column that may be missing: the name, or the
      fallback when there is none or it is empty. */
  function Label(name: Option<string>, fallback: string): (r: string)
    ensures name.Some? && name.value != [] ==> r == name.value
    ensures name.None? || name.value == [] ==> r == fallback
    ensures fallback != [] ==> r != []
  {
    if name.Some? && name.value != [] then name.value else fallback
  }

  /** Shown for an entry without a user name. */
  const UnknownUser: string := "Неизвестный пользователь"

  /** Shown for an entry whose item row is gone. */
  const DeletedItem: string := "Удаленный предмет"
}
