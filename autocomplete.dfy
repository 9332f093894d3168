/**
 * The autocomplete input: the suggestion is the first candidate that extends what was
 * typed (ignoring case) without being equal to it; Tab or ArrowRight accepts it, and
 * the overlay shows the suggestion's untyped rest.
 */
module Autocomplete {
  import opened Options
  import opened Js

  /** `s.toLowerCase().startsWith(value.toLowerCase()) && s.toLowerCase() !== value.toLowerCase()`. */
  predicate Extends(s: string, value: string, fold: char -> char)
  {
    StartsWith(Lower(s, fold), Lower(value, fold)) && Lower(s, fold) != Lower(value, fold)
  }

  /** `suggestions.find(...) || ""`: the first candidate that extends the value. */
  function FirstExtension(value: string, suggestions: seq<string>, fold: char -> char): (r: string)
    ensures r == [] || exists i :: 0 <= i < |suggestions| && suggestions[i] == r && Extends(r, value, fold)
    ensures (exists i :: 0 <= i < |suggestions| && Extends(suggestions[i], value, fold)) ==>
              exists i :: 0 <= i < |suggestions| && suggestions[i] == r && Extends(r, value, fold) &&
                          forall k :: 0 <= k < i ==> !Extends(suggestions[k], value, fold)
  {
    if suggestions == [] then ""
    else if Extends(suggestions[0], value, fold) then suggestions[0]
    else
      var r := FirstExtension(value, suggestions[1..], fold);
      assert forall i :: 0 <= i < |suggestions| - 1 ==> suggestions[1..][i] == suggestions[i + 1];
      if exists i :: 0 <= i < |suggestions| && Extends(suggestions[i], value, fold) then
        var i :| 0 <= i < |suggestions| && Extends(suggestions[i], value, fold);
        assert Extends(suggestions[1..][i - 1], value, fold);
        var j :| 0 <= j < |suggestions| - 1 && suggestions[1..][j] == r && Extends(r, value, fold) &&
                 forall k :: 0 <= k < j ==> !Extends(suggestions[1..][k], value, fold);
        assert forall k :: 0 <= k < j + 1 ==> !Extends(suggestions[k], value, fold) by {
          forall k | 0 <= k < j + 1
            ensures !Extends(suggestions[k], value, fold)
          {
            if k > 0 {
              assert suggestions[k] == suggestions[1..][k - 1];
            }
          }
        }
        r
      else
        r
  }

  /** The suggestion effect: nothing for an empty value or an empty candidate list. */
  function Suggestion(value: string, suggestions: seq<string>, fold: char -> char): (r: string)
    ensures value == [] ==> r == []
    ensures r != [] ==> r in suggestions && Extends(r, value, fold)
  {
    if value != [] && |suggestions| > 0 then FirstExtension(value, suggestions, fold) else ""
  }

  /** A suggestion always has more characters than the value it extends. */
  lemma SuggestionIsLonger(value: string, suggestions: seq<string>, fold: char -> char)
    requires Suggestion(value, suggestions, fold) != []
    ensures |Suggestion(value, suggestions, fold)| > |value|
  {
    var r := Suggestion(value, suggestions, fold);
    assert Lower(r, fold)[..|Lower(value, fold)|] == Lower(value, fold);
  }

  /** The value the input reports and the suggestion after a key press. */
  datatype KeyResult = KeyResult(changedTo: Option<string>, suggestion: string)

  /** `handleKeyDown`: Tab or ArrowRight with a suggestion reports it as the new value
      and clears the suggestion; any other key changes nothing. */
  function HandleKey(key: string, suggestion: string): (r: KeyResult)
    ensures (key == "Tab" || key == "ArrowRight") && suggestion != [] ==>
              r == KeyResult(Some(suggestion), "")
    ensures !((key == "Tab" || key == "ArrowRight") && suggestion != []) ==>
              r == KeyResult(None, suggestion)
  {
    if (key == "Tab" || key == "ArrowRight") && suggestion != [] then KeyResult(Some(suggestion), "")
    else KeyResult(None, suggestion)
  }

  /** The grey overlay: shown only when both the suggestion and the value are
      non-empty, it is `suggestion.slice(value.length)`. */
  function Overlay(value: string, suggestion: string): (r: string)
    ensures suggestion == [] || value == [] ==> r == []
    ensures |value| <= |suggestion| && value != [] ==> r == suggestion[|value|..]
  {
    if suggestion != [] && value != [] then
      if |value| <= |suggestion| then suggestion[|value|..] else ""
    else ""
  }

  /** Typed text followed by its overlay spells the suggestion, when the value is
      already in the suggestion's case. */
  lemma OverlayCompletes(value: string, suggestions: seq<string>, fold: char -> char)
    requires Suggestion(value, suggestions, fold) != []
    requires StartsWith(Suggestion(value, suggestions, fold), value)
    ensures value + Overlay(value, Suggestion(value, suggestions, fold)) == Suggestion(value, suggestions, fold)
  {
    SuggestionIsLonger(value, suggestions, fold);
    var s := Suggestion(value, suggestions, fold);
    assert s == s[..|value|] + s[|value|..];
  }
}
