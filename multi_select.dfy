/**
 * The multi-select control: the toggle handler and the trigger's label, which shows
 * the number of selected options or the placeholder.
 */
module MultiSelect {
  import opened Options
  import opened Js
  import opened Seqs

  /** The placeholder used when the caller passes none. */
  const DefaultPlaceholder: string := "Выберите..."

  /** `handleToggle`: remove the value when selected, append it otherwise. */
  function HandleToggle(selected: seq<string>, value: string): (r: seq<string>)
    ensures r == Toggle(selected, value)
    ensures (value in r) <==> (value !in selected)
    ensures Without(r, value) == Without(selected, value)
  {
    ToggleKeepsOthers(selected, value);
    Toggle(selected, value)
  }

  const CountPrefix: string := "Выбрано: "

  /** `displayText`; `placeholder` is the prop, `None` when the caller leaves it out. */
  function DisplayText(selected: seq<string>, placeholder: Option<string>): (r: string)
    ensures |selected| == 0 && placeholder.Some? ==> r == placeholder.value
    ensures |selected| == 0 && placeholder.None? ==> r == DefaultPlaceholder
    ensures |selected| > 0 ==> StartsWith(r, CountPrefix)
  {
    if |selected| > 0 then CountPrefix + NatToString(|selected|)
    else if placeholder.Some? then placeholder.value
    else DefaultPlaceholder
  }

  /** The label of a non-empty selection reads back as the number selected. */
  lemma DisplayTextCount(selected: seq<string>, placeholder: Option<string>)
    requires |selected| > 0
    ensures var r := DisplayText(selected, placeholder);
            AllDigits(r[|CountPrefix|..]) && DecimalValue(r[|CountPrefix|..]) == |selected|
  {
    var r := DisplayText(selected, placeholder);
    assert r[|CountPrefix|..] == NatToString(|selected|);
    NatToStringValue(|selected|);
  }
}
