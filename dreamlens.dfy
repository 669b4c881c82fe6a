/** The prototype dream form of src/components/DreamLens/DreamLens.tsx. */
module DreamLens {
  import opened DreamLensTypes

  /** The keys of its `selectedOptions` object, which always lists them in this order (lines 8-12). */
  datatype FormKey = CustomKey | Suggested1 | Suggested2

  /** The entries `Object.entries(selectedOptions)` produces. */
  function Entries(custom: bool, suggested1: bool, suggested2: bool): seq<(FormKey, bool)> {
    [(CustomKey, custom), (Suggested1, suggested1), (Suggested2, suggested2)]
  }

  /** `parseInt(key.slice(-1))`: the number the key ends in. */
  function KeyNumber(key: FormKey): nat
    requires key != CustomKey
  {
    if key == Suggested1 then 1 else 2
  }

  /** The lookup an entry performs is in range: a ticked suggestion key names an existing suggestion. */
  predicate InRange(entry: (FormKey, bool), suggestions: seq<string>) {
    entry.1 && entry.0 != CustomKey ==> KeyNumber(entry.0) <= |suggestions|
  }

  /** Every entry's lookup is in range. */
  predicate AllInRange(entries: seq<(FormKey, bool)>, suggestions: seq<string>)
    decreases |entries|
  {
    entries == [] || (InRange(entries[0], suggestions) && AllInRange(entries[1..], suggestions))
  }

  /** What one entry contributes: its suggestion when it is ticked and is not 'custom'. */
  function Contribution(entry: (FormKey, bool), suggestions: seq<string>): seq<string>
    requires InRange(entry, suggestions)
  {
    if entry.1 && entry.0 != CustomKey then [suggestions[KeyNumber(entry.0) - 1]] else []
  }

  /**
   * `selectedSuggestions` (lines 44-46): the checked entries other than
   * 'custom', each mapped to `suggestions[K - 1]`.
   */
  function SelectedSuggestions(entries: seq<(FormKey, bool)>, suggestions: seq<string>): (r: seq<string>)
    requires AllInRange(entries, suggestions)
    ensures |r| <= |entries|
    ensures forall x :: x in r ==> x in suggestions
    decreases |entries|
  {
    if entries == [] then []
    else Contribution(entries[0], suggestions) + SelectedSuggestions(entries[1..], suggestions)
  }

  /**
   * With the form's fixed key order the selection is the first suggestion
   * when its box is checked, then the second when its box is checked; the
   * custom box never contributes.
   */
  lemma SelectedSuggestionsInKeyOrder(custom: bool, suggested1: bool, suggested2: bool, suggestions: seq<string>)
    requires (suggested1 ==> |suggestions| >= 1) && (suggested2 ==> |suggestions| >= 2)
    ensures AllInRange(Entries(custom, suggested1, suggested2), suggestions)
    ensures SelectedSuggestions(Entries(custom, suggested1, suggested2), suggestions)
            == (if suggested1 then [suggestions[0]] else []) + (if suggested2 then [suggestions[1]] else [])
  {
    var tail := [(Suggested1, suggested1), (Suggested2, suggested2)];
    assert Entries(custom, suggested1, suggested2) == [(CustomKey, custom)] + tail;
    SuggestionEntries(suggested1, suggested2, suggestions);
    SelectedSuggestionsCons((CustomKey, custom), tail, suggestions);
  }

  /** The two suggestion entries select the ticked suggestions in order. */
  lemma SuggestionEntries(suggested1: bool, suggested2: bool, suggestions: seq<string>)
    requires (suggested1 ==> |suggestions| >= 1) && (suggested2 ==> |suggestions| >= 2)
    ensures AllInRange([(Suggested1, suggested1), (Suggested2, suggested2)], suggestions)
    ensures SelectedSuggestions([(Suggested1, suggested1), (Suggested2, suggested2)], suggestions)
            == (if suggested1 then [suggestions[0]] else []) + (if suggested2 then [suggestions[1]] else [])
  {
    var last := [(Suggested2, suggested2)];
    assert [(Suggested1, suggested1), (Suggested2, suggested2)] == [(Suggested1, suggested1)] + last;
    LastSuggestionEntry(suggested2, suggestions);
    SelectedSuggestionsCons((Suggested1, suggested1), last, suggestions);
  }

  lemma LastSuggestionEntry(suggested2: bool, suggestions: seq<string>)
    requires suggested2 ==> |suggestions| >= 2
    ensures AllInRange([(Suggested2, suggested2)], suggestions)
    ensures SelectedSuggestions([(Suggested2, suggested2)], suggestions) == if suggested2 then [suggestions[1]] else []
  {
    assert [(Suggested2, suggested2)] == [(Suggested2, suggested2)] + [];
    SelectedSuggestionsCons((Suggested2, suggested2), [], suggestions);
  }

  /** Selection distributes over the first entry. */
  lemma SelectedSuggestionsCons(entry: (FormKey, bool), rest: seq<(FormKey, bool)>, suggestions: seq<string>)
    requires InRange(entry, suggestions) && AllInRange(rest, suggestions)
    ensures AllInRange([entry] + rest, suggestions)
    ensures SelectedSuggestions([entry] + rest, suggestions)
            == Contribution(entry, suggestions) + SelectedSuggestions(rest, suggestions)
  {
    assert ([entry] + rest)[1..] == rest;
  }

  /** The two placeholder suggestions for a dream (lines 29-32). */
  function SuggestionsFor(input: string): (s: seq<string>)
    ensures |s| == 2
    ensures s[0] != s[1]
  {
    var first := input + "을(를) 위한 첫 번째 제안사항입니다.";
    var second := input + "을(를) 위한 두 번째 제안사항입니다.";
    assert first[|input| + 8] == '첫' && second[|input| + 8] == '두';
    [first, second]
  }

  class DreamLensForm {
    var input: string
    var suggestions: seq<string>
    var customText: string
    var custom: bool
    var suggested1: bool
    var suggested2: bool

    /** The suggestions are absent or exactly two, and no box can be ticked before they appear. */
    predicate Valid()
      reads this
    {
      (|suggestions| == 0 || |suggestions| == 2)
      && (suggestions == [] ==> !custom && !suggested1 && !suggested2)
    }

    /** The initial state (lines 5-12). */
    constructor ()
      ensures Valid()
      ensures input == "" && suggestions == [] && customText == ""
      ensures !custom && !suggested1 && !suggested2
    {
      input := "";
      suggestions := [];
      customText := "";
      custom := false;
      suggested1 := false;
      suggested2 := false;
    }

    /** The dream field (line 59). */
    method SetInput(text: string)
      modifies this`input
      ensures input == text
    {
      input := text;
    }

    /** `handleKeyDown` (lines 14-37): Enter fills in the two suggestions for the current input; other keys do nothing. */
    method HandleKeyDown(key: string)
      requires Valid()
      modifies this`suggestions
      ensures Valid()
      ensures key == "Enter" ==> suggestions == SuggestionsFor(input)
      ensures key != "Enter" ==> suggestions == old(suggestions)
    {
      if key == "Enter" {
        suggestions := SuggestionsFor(input);
      }
    }

    /** The custom box (lines 74-78), shown once there are suggestions. */
    method SetCustomChecked(checked: bool)
      requires Valid() && suggestions != []
      modifies this`custom
      ensures Valid() && custom == checked
    {
      custom := checked;
    }

    /** The box of suggestion `number` (lines 112-116), shown once there are suggestions. */
    method SetSuggestionChecked(number: nat, checked: bool)
      requires Valid() && suggestions != [] && 1 <= number <= |suggestions|
      modifies this`suggested1, this`suggested2
      ensures Valid()
      ensures number == 1 ==> suggested1 == checked && suggested2 == old(suggested2)
      ensures number == 2 ==> suggested2 == checked && suggested1 == old(suggested1)
    {
      if number == 1 {
        suggested1 := checked;
      } else {
        suggested2 := checked;
      }
    }

    /** The custom text field (line 100). */
    method SetCustomText(text: string)
      modifies this`customText
      ensures customText == text
    {
      customText := text;
    }

    /**
     * The `formData` of `handleSubmit` (lines 39-49): the typed custom text
     * only when its box is ticked, and the ticked suggestions in key order.
     */
    method HandleSubmit() returns (formData: FormData)
      requires Valid()
      ensures formData.dream == input
      ensures formData.customText == (if custom then customText else "")
      ensures formData.selectedSuggestions
              == (if suggested1 then [suggestions[0]] else []) + (if suggested2 then [suggestions[1]] else [])
    {
      var entries := Entries(custom, suggested1, suggested2);
      SelectedSuggestionsInKeyOrder(custom, suggested1, suggested2, suggestions);
      formData := FormData(input, if custom then customText else "", SelectedSuggestions(entries, suggestions));
    }
  }
}
