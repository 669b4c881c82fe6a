/** The job-title editor of src/components/DreamLens/DreamLensEditor.tsx. */
module DreamLensEditor {
  import opened JsCore
  import opened DreamLensTypes

  const EnterJobTitle: string := "직업을 입력해주세요."
  const FetchFailed: string := "직업 관련 행동을 가져오는데 실패했습니다."
  const SelectOneAction: string := "최소한 하나의 행동을 선택해주세요."
  /** The longest title accepted, in UTF-16 code units (line 20). */
  const MaxTitleLength: nat := 10

  /**
   * The text one checked entry stands for (lines 76-82): the custom text for
   * 'custom', the job action at the key's index for `action${index}`
   * (`None` for `undefined`, past the end of the list).
   */
  function ActionText(key: OptionKey, customText: string, jobActions: seq<string>): Option<string> {
    match key
    case Custom => Some(customText)
    case Action(i) => if i < |jobActions| then Some(jobActions[i]) else None
  }

  /** `Boolean(action)` for the mapped entry. */
  predicate Kept(action: Option<string>) {
    action.Some? && action.value != ""
  }

  /**
   * `selectedActions` (lines 74-83): keep the checked entries, map each to its
   * text, and drop the empty and undefined ones, in entry order.
   */
  function SelectedActions(options: SelectedOptions, customText: string, jobActions: seq<string>): (r: seq<string>)
    ensures |r| <= |options|
    ensures forall i :: 0 <= i < |r| ==> r[i] != ""
    decreases |options|
  {
    if options == [] then []
    else
      var action := ActionText(options[0].0, customText, jobActions);
      (if options[0].1 && Kept(action) then [action.value] else [])
      + SelectedActions(options[1..], customText, jobActions)
  }

  /** One entry contributes its text exactly when it is checked and the text is neither empty nor undefined. */
  lemma SelectedActionsSingle(entry: (OptionKey, bool), customText: string, jobActions: seq<string>)
    ensures var action := ActionText(entry.0, customText, jobActions);
      SelectedActions([entry], customText, jobActions) == if entry.1 && Kept(action) then [action.value] else []
  {
    assert [entry][1..] == [];
  }

  /**
   * The selection of two runs of entries is the selection of the first run
   * followed by that of the second: entry order, and every checked entry, is
   * kept, duplicates included.
   */
  lemma {:induction false} SelectedActionsAppend(a: SelectedOptions, b: SelectedOptions, customText: string, jobActions: seq<string>)
    ensures SelectedActions(a + b, customText, jobActions) ==
      SelectedActions(a, customText, jobActions) + SelectedActions(b, customText, jobActions)
    decreases |a|
  {
    if a == [] {
      assert a + b == b;
    } else {
      assert (a + b)[0] == a[0] && (a + b)[1..] == a[1..] + b;
      SelectedActionsAppend(a[1..], b, customText, jobActions);
    }
  }

  /** Checked actions come out in entry order and each as often as it is checked: `["b", "a"]` stays `["b", "a"]`, and `["a", "a"]` keeps both. */
  lemma SelectedActionsExamples()
    ensures SelectedActions([(Action(0), true), (Action(1), true)], "", ["b", "a"]) == ["b", "a"]
    ensures SelectedActions([(Action(0), true), (Action(1), true)], "", ["a", "a"]) == ["a", "a"]
  {
    var o: SelectedOptions := [(Action(0), true), (Action(1), true)];
    assert o == [o[0]] + [o[1]];
    SelectedActionsAppend([o[0]], [o[1]], "", ["b", "a"]);
    SelectedActionsAppend([o[0]], [o[1]], "", ["a", "a"]);
    SelectedActionsSingle(o[0], "", ["b", "a"]);
    SelectedActionsSingle(o[1], "", ["b", "a"]);
    SelectedActionsSingle(o[0], "", ["a", "a"]);
    SelectedActionsSingle(o[1], "", ["a", "a"]);
  }

  /** A text is selected exactly when some checked entry maps to it and it is not empty. */
  lemma {:induction false} SelectedActionsMembers(options: SelectedOptions, customText: string, jobActions: seq<string>, x: string)
    ensures x in SelectedActions(options, customText, jobActions) <==>
              x != "" && exists k :: 0 <= k < |options| && options[k].1 && ActionText(options[k].0, customText, jobActions) == Some(x)
    decreases |options|
  {
    if options != [] {
      SelectedActionsMembers(options[1..], customText, jobActions, x);
      var tail := options[1..];
      if exists k :: 0 <= k < |tail| && tail[k].1 && ActionText(tail[k].0, customText, jobActions) == Some(x) {
        var k :| 0 <= k < |tail| && tail[k].1 && ActionText(tail[k].0, customText, jobActions) == Some(x);
        assert options[k + 1] == tail[k];
      }
      if exists k :: 0 <= k < |options| && options[k].1 && ActionText(options[k].0, customText, jobActions) == Some(x) {
        var k :| 0 <= k < |options| && options[k].1 && ActionText(options[k].0, customText, jobActions) == Some(x);
        if k > 0 {
          assert tail[k - 1] == options[k];
        }
      }
    }
  }

  /** Nothing is selected exactly when no checked entry maps to a non-empty text: the case `handleSubmit` refuses. */
  lemma {:induction false} SelectedActionsEmpty(options: SelectedOptions, customText: string, jobActions: seq<string>)
    ensures SelectedActions(options, customText, jobActions) == [] <==>
              forall k :: 0 <= k < |options| && options[k].1 ==> !Kept(ActionText(options[k].0, customText, jobActions))
    decreases |options|
  {
    if options != [] {
      SelectedActionsEmpty(options[1..], customText, jobActions);
      var tail := options[1..];
      assert forall k :: 1 <= k < |options| ==> options[k] == tail[k - 1];
    }
  }

  /** Checking the custom box with a non-empty text, as the only checked entry, submits that text alone. */
  lemma CustomOnly(customText: string, jobActions: seq<string>)
    requires customText != ""
    ensures SelectedActions([(Custom, true)], customText, jobActions) == [customText]
    ensures SelectedActions([(Custom, false)], customText, jobActions) == []
  {
  }

  class Editor {
    var customText: string
    var selectedOptions: SelectedOptions
    var jobTitle: string
    var jobActions: seq<string>
    var isLoadingActions: bool
    var error: Option<string>

    /** A JavaScript object never holds a key twice. */
    predicate Valid()
      reads this
    {
      DistinctKeys(selectedOptions)
    }

    /** The state is seeded from `initialState` (lines 11-16); an absent title or action list starts empty. */
    constructor (initial: EditorState)
      requires DistinctKeys(initial.selectedOptions)
      ensures Valid()
      ensures customText == initial.customText && selectedOptions == initial.selectedOptions
      ensures jobTitle == initial.jobTitle.GetOr("") && jobActions == initial.jobActions.GetOr([])
      ensures !isLoadingActions && error == None
    {
      customText := initial.customText;
      selectedOptions := initial.selectedOptions;
      jobTitle := initial.jobTitle.GetOr("");
      jobActions := initial.jobActions.GetOr([]);
      isLoadingActions := false;
      error := None;
    }

    /**
     * `handleJobTitleChange` (lines 18-28): a title of at most ten code units
     * is taken and everything derived from the old title is reset; a longer
     * one is ignored.
     */
    method HandleJobTitleChange(value: string)
      requires Valid()
      modifies this
      ensures Valid()
      ensures Utf16Length(value) <= MaxTitleLength ==>
                jobTitle == value && jobActions == [] && selectedOptions == [] && customText == "" && error == None
                && isLoadingActions == old(isLoadingActions)
      ensures Utf16Length(value) > MaxTitleLength ==>
                jobTitle == old(jobTitle) && jobActions == old(jobActions) && selectedOptions == old(selectedOptions)
                && customText == old(customText) && error == old(error) && isLoadingActions == old(isLoadingActions)
    {
      if Utf16Length(value) <= MaxTitleLength {
        jobTitle := value;
        jobActions := [];
        selectedOptions := [];
        customText := "";
        error := None;
      }
    }

    /**
     * The synchronous part of `fetchJobActions` (lines 36-43): a blank title
     * only sets the error; otherwise loading starts, the error clears, and
     * the request is sent (`started`).
     */
    method BeginFetch() returns (started: bool)
      requires Valid()
      modifies this`error, this`isLoadingActions
      ensures Valid()
      ensures started <==> !IsBlank(jobTitle)
      ensures !started ==> error == Some(EnterJobTitle) && isLoadingActions == old(isLoadingActions)
      ensures started ==> error == None && isLoadingActions
    {
      if IsBlank(jobTitle) {
        error := Some(EnterJobTitle);
        return false;
      }
      isLoadingActions := true;
      error := None;
      return true;
    }

    /**
     * The rest of `fetchJobActions` (lines 45-68), once the request settles:
     * `Some(actions)` for a successful reply, `None` for a failed request or
     * an unreadable body.  Loading stops either way.
     */
    method CompleteFetch(reply: Option<seq<string>>)
      requires Valid()
      modifies this`jobActions, this`selectedOptions, this`customText, this`error, this`isLoadingActions
      ensures Valid()
      ensures !isLoadingActions
      ensures reply.Some? ==> jobActions == reply.value && selectedOptions == [] && customText == "" && error == old(error)
      ensures reply.None? ==> error == Some(FetchFailed) && jobActions == old(jobActions)
                              && selectedOptions == old(selectedOptions) && customText == old(customText)
    {
      if reply.Some? {
        jobActions := reply.value;
        selectedOptions := [];
        customText := "";
      } else {
        error := Some(FetchFailed);
      }
      isLoadingActions := false;
    }

    /** The checkbox of job action `index` (lines 152-157). */
    method SetActionChecked(index: nat, checked: bool)
      requires Valid()
      modifies this`selectedOptions
      ensures Valid()
      ensures selectedOptions == SetOption(old(selectedOptions), Action(index), checked)
      ensures Lookup(selectedOptions, Action(index)) == Some(checked)
    {
      SetOptionKeepsKeysDistinct(selectedOptions, Action(index), checked);
      selectedOptions := SetOption(selectedOptions, Action(index), checked);
    }

    /** The custom checkbox (lines 181-186). */
    method SetCustomChecked(checked: bool)
      requires Valid()
      modifies this`selectedOptions
      ensures Valid()
      ensures selectedOptions == SetOption(old(selectedOptions), Custom, checked)
      ensures Lookup(selectedOptions, Custom) == Some(checked)
    {
      SetOptionKeepsKeysDistinct(selectedOptions, Custom, checked);
      selectedOptions := SetOption(selectedOptions, Custom, checked);
    }

    /** The custom text field (line 207). */
    method SetCustomText(text: string)
      modifies this`customText
      ensures customText == text
    {
      customText := text;
    }

    /**
     * `handleSubmit` (lines 71-106): the alert's message when nothing is
     * selected; otherwise the form data and the state passed to `onSubmit`.
     * Nothing in the editor changes.
     */
    method HandleSubmit() returns (submitted: Result<(FormData, EditorState), string>)
      ensures var actions := SelectedActions(selectedOptions, customText, jobActions);
              (submitted.Failure? <==> actions == [])
              && (submitted.Failure? ==> submitted.error == SelectOneAction)
              && (submitted.Success? ==>
                    submitted.value.0 == FormData(jobTitle, "", actions)
                    && submitted.value.1 == EditorState(jobTitle, actions, customText, selectedOptions, Some(jobTitle), Some(jobActions)))
    {
      var selectedActions := SelectedActions(selectedOptions, customText, jobActions);
      if |selectedActions| == 0 {
        return Failure(SelectOneAction);
      }
      var formData := FormData(jobTitle, "", selectedActions);
      var currentState := EditorState(jobTitle, selectedActions, customText, selectedOptions, Some(jobTitle), Some(jobActions));
      return Success((formData, currentState));
    }
  }
}
