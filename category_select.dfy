/**
 * The category picker: the options are the distinct categories of the stored rows,
 * choosing one reports it unchanged, and the "new category" input reports its
 * trimmed text, unless that is blank.
 */
module CategorySelect {
  import opened Options
  import opened Js
  import opened Seqs

  /** `[...new Set(data.map(item => item.category))]` over the fetched rows. */
  function CategoryOptions(rows: seq<string>): (r: seq<string>)
    ensures NoDuplicates(r)
    ensures forall c :: c in r <==> c in rows
    ensures forall i, j :: 0 <= i < j < |r| ==> FirstIndex(rows, r[i]) < FirstIndex(rows, r[j])
  {
    DedupFirstOccurrenceOrder(rows);
    Dedup(rows)
  }

  /** The picker's `open`, `customValue` and `showCustomInput` state. */
  datatype PickerState = PickerState(open: bool, customValue: string, showCustomInput: bool)

  const InitialPicker: PickerState := PickerState(false, "", false)

  /** What a handler reports to the parent (`onChange`), and the state after it. */
  datatype Picked = Picked(changedTo: Option<string>, state: PickerState)

  /** `handleSelect`: the chosen category is reported as it is, and the popover and
      the custom input close. */
  function HandleSelect(s: PickerState, category: string): (r: Picked)
    ensures r.changedTo == Some(category)
    ensures !r.state.open && !r.state.showCustomInput && r.state.customValue == s.customValue
  {
    Picked(Some(category), s.(open := false, showCustomInput := false))
  }

  /** `handleCustomSubmit`: a blank entry does nothing; otherwise its trimmed text is
      reported and the input is cleared and closed. */
  function CustomSubmit(s: PickerState): (r: Picked)
    ensures AllSpace(s.customValue) ==> r == Picked(None, s)
    ensures !AllSpace(s.customValue) ==>
              r.changedTo == Some(Trim(s.customValue)) && r.state == PickerState(false, "", false)
  {
    var v := Trim(s.customValue);
    if v != [] then Picked(Some(v), PickerState(false, "", false)) else Picked(None, s)
  }

  /** A reported custom category is its own trim: typing the reported text and
      submitting it again has the same effect. */
  lemma CustomSubmitNormalises(s: PickerState)
    requires !AllSpace(s.customValue)
    ensures CustomSubmit(s.(customValue := Trim(s.customValue))) == CustomSubmit(s)
  {
    var v := Trim(s.customValue);
    TrimIdempotent(s.customValue);
    assert v != [];
  }

  /** The cancel button: the input closes and its text is discarded. */
  function Cancel(s: PickerState): (r: PickerState)
    ensures !r.showCustomInput && r.customValue == "" && r.open == s.open
  {
    s.(showCustomInput := false, customValue := "")
  }
}
