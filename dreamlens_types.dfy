/** The shapes of src/components/DreamLens/types.ts that the DreamLens editor and viewer exchange. */
module DreamLensTypes {
  import opened JsCore

  /** A key of `selectedOptions`: 'custom', or `action${index}` for the job action at `index`. */
  datatype OptionKey = Custom | Action(index: nat)

  /**
   * `selectedOptions` as `Object.entries` lists it.  None of its keys is an
   * array index, so entries come in insertion order, and an update of an
   * existing key keeps that key's position.
   */
  type SelectedOptions = seq<(OptionKey, bool)>

  /** The data the editor submits and the viewer renders. */
  datatype FormData = FormData(dream: string, customText: string, selectedSuggestions: seq<string>)

  /** The editor state handed back to the caller so that editing can resume (`jobTitle` and `jobActions` are optional). */
  datatype EditorState = EditorState(
    input: string,
    suggestions: seq<string>,
    customText: string,
    selectedOptions: SelectedOptions,
    jobTitle: Option<string>,
    jobActions: Option<seq<string>>)

  /** The keys of `selectedOptions`, in entry order. */
  function Keys(options: SelectedOptions): (ks: seq<OptionKey>)
    ensures |ks| == |options|
  {
    if options == [] then [] else [options[0].0] + Keys(options[1..])
  }

  /** `selectedOptions[key]`, with `None` for `undefined`. */
  function Lookup(options: SelectedOptions, key: OptionKey): (v: Option<bool>)
    ensures v.None? <==> key !in Keys(options)
  {
    if options == [] then None
    else if options[0].0 == key then Some(options[0].1)
    else Lookup(options[1..], key)
  }

  /**
   * `{ ...prev, [key]: checked }`: the key now maps to `checked`, every other
   * key keeps its value, and the key order is kept, with a new key appended.
   */
  function SetOption(options: SelectedOptions, key: OptionKey, checked: bool): (r: SelectedOptions)
    ensures Lookup(r, key) == Some(checked)
    ensures forall k :: k != key ==> Lookup(r, k) == Lookup(options, k)
    ensures Keys(r) == if key in Keys(options) then Keys(options) else Keys(options) + [key]
  {
    if options == [] then [(key, checked)]
    else if options[0].0 == key then [(key, checked)] + options[1..]
    else [options[0]] + SetOption(options[1..], key, checked)
  }

  /** An object has each key once. */
  predicate DistinctKeys(options: SelectedOptions) {
    var ks := Keys(options);
    forall i, j :: 0 <= i < j < |ks| ==> ks[i] != ks[j]
  }

  /** Setting an option keeps every key unique. */
  lemma SetOptionKeepsKeysDistinct(options: SelectedOptions, key: OptionKey, checked: bool)
    requires DistinctKeys(options)
    ensures DistinctKeys(SetOption(options, key, checked))
  {
  }
}
