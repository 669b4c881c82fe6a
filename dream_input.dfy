/** The three-field dream form of src/components/DreamLens/DreamInput.tsx. */
module DreamInput {
  import opened JsCore

  class DreamInputForm {
    /** The `initialDream`, `initialFuture` and `initialAction` props the form last saw. */
    var initialDream: string
    var initialFuture: string
    var initialAction: string
    var dream: string
    var future: string
    var action: string

    /** Lines 11-14: absent props default to '', and each field starts from its prop. */
    constructor (dreamProp: string, futureProp: string, actionProp: string)
      ensures initialDream == dreamProp && initialFuture == futureProp && initialAction == actionProp
      ensures dream == dreamProp && future == futureProp && action == actionProp
    {
      initialDream, initialFuture, initialAction := dreamProp, futureProp, actionProp;
      dream, future, action := dreamProp, futureProp, actionProp;
    }

    /**
     * A re-render with the given props.  The effect of lines 16-20 runs only
     * when one of them changed, and then resets all three fields to them.
     */
    method ReceiveProps(dreamProp: string, futureProp: string, actionProp: string)
      modifies this
      ensures initialDream == dreamProp && initialFuture == futureProp && initialAction == actionProp
      ensures (dreamProp, futureProp, actionProp) != old((initialDream, initialFuture, initialAction)) ==>
                dream == dreamProp && future == futureProp && action == actionProp
      ensures (dreamProp, futureProp, actionProp) == old((initialDream, initialFuture, initialAction)) ==>
                dream == old(dream) && future == old(future) && action == old(action)
    {
      if (dreamProp, futureProp, actionProp) != (initialDream, initialFuture, initialAction) {
        dream, future, action := dreamProp, futureProp, actionProp;
      }
      initialDream, initialFuture, initialAction := dreamProp, futureProp, actionProp;
    }

    method SetDream(text: string)
      modifies this`dream
      ensures dream == text
    {
      dream := text;
    }

    method SetFuture(text: string)
      modifies this`future
      ensures future == text
    {
      future := text;
    }

    method SetAction(text: string)
      modifies this`action
      ensures action == text
    {
      action := text;
    }

    /**
     * `handleSubmit` (lines 22-30): with all three fields non-empty (spaces
     * count; nothing is trimmed) `onConfirm` receives them and the fields are
     * cleared; otherwise nothing happens.
     */
    method HandleSubmit() returns (confirmed: Option<(string, string, string)>)
      modifies this`dream, this`future, this`action
      ensures old(dream) != "" && old(future) != "" && old(action) != "" ==>
                confirmed == Some((old(dream), old(future), old(action))) && dream == "" && future == "" && action == ""
      ensures !(old(dream) != "" && old(future) != "" && old(action) != "") ==>
                confirmed == None && dream == old(dream) && future == old(future) && action == old(action)
    {
      if dream != "" && future != "" && action != "" {
        confirmed := Some((dream, future, action));
        dream, future, action := "", "", "";
      } else {
        confirmed := None;
      }
    }
  }
}
