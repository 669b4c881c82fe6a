# LifeSpoiler front end: a Dafny model of its logic

LifeSpoiler is a React application with two services. PixStory turns a set of
uploaded photos into a captioned story. DreamLens turns a job title into a
"future self" picture book. This project models the logic under the
rendering, each source file in its own form:

- **Utilities as functions with proved properties.**
  - The rate-limited parallel runner of `src/utils/async.ts` is modelled twice. A pure `Launch` function describes what each task sees. A `RateLimitedRun` class runs the same steps imperatively over a results array.
  - The Korean particle rule of `src/utils/attatchParticle.ts`, stated against the Unicode Hangul syllable layout.
  - The placeholder-text picker of `src/utils/textGenerator.ts`, with JavaScript's truncating `%`.
  - The pure parts of `src/utils/openai.ts`:
    - data-URL payload extraction;
    - the caption corpus;
    - the job-actions response check;
    - the DALL·E data URL and revised prompt;
    - the `catch` blocks that wrap every error.
- **Components as classes.** Each component whose handlers update state becomes a class whose fields are that state (`App`, `DreamLensEditor`, `DreamLens`, `DreamInput`, the two story dialogs, `APIKeyManager`, `FlipBook`). Each handler is a method with a `modifies` frame, and its `ensures` gives the new state.
- **Rendering as functions.** What `PixStorySection` and `DreamLensViewer` render becomes functions over the data they receive.
- **Drag-end reorder.** The reorder of `ImageUploadList` is an array method proved equal to a splice specification. The result is proved to be a permutation and to put the dragged image at its target index.

JavaScript semantics are modelled explicitly where they matter:

- `%` truncates toward zero (`JsCore.JsRem`).
- `length` and `charCodeAt` count UTF-16 code units (`JsCore.Utf16`).
- `trim` removes JavaScript whitespace.
- `split`, `indexOf` and `join` work on whole separators.
- `Object.entries` lists array-index keys (integers below 2³² − 1) in ascending order and other keys in insertion order.
- `Boolean(x)` follows JavaScript truthiness.

## Model

| member | source | states |
|---|---|---|
| RateLimit.DelayNeeded | src/utils/async.ts:15-17 | the wait is never negative; it is zero iff `delayMs` has already passed since `lastCallTime`; otherwise it is exactly the time until `delayMs` will have passed, and never more than `delayMs` |
| RateLimit.FirstTaskDoesNotWait | src/utils/async.ts:10 | with `lastCallTime` starting at 0, a first task whose clock reads at least `delayMs` does not wait |
| RateLimit.DispatchTime | src/utils/async.ts:19-23 | the line-23 reading is never before the task's wait ran out, and, the wait being non-negative, never before its line-15 reading |
| RateLimit.LastAfterLaunch | src/utils/async.ts:15-23 | `lastCallTime` after the synchronous launch of the given tasks; `LaunchStep` and `LastAfterLaunchBounds` state how it moves |
| RateLimit.Launch | src/utils/async.ts:13-21 | the synchronous launch yields one view per task |
| RateLimit.LaunchPrefix | src/utils/async.ts:13-21 | launching the first k tasks sees exactly what the first k tasks of the full launch see: later tasks cannot affect earlier ones |
| RateLimit.LaunchAt | src/utils/async.ts:15-17 | task i reads its own line-15 clock value and the `lastCallTime` left by tasks 0..i-1, and computes its wait from those |
| RateLimit.LaunchStep | src/utils/async.ts:15-23 | launching task i appends what it saw to the launch; `lastCallTime`, through `LastAfterLaunch`, becomes the task's second (line-23) reading exactly when it needs no wait, and stays otherwise |
| RateLimit.PerTaskSpacing | src/utils/async.ts:19-24 | every task calls the processor at least `delayMs` after the `lastCallTime` it read, and not before it started |
| RateLimit.FirstTaskView | src/utils/async.ts:10 | the first task reads 0 and needs no wait once the clock has passed `delayMs` |
| RateLimit.LastAfterLaunchBounds | src/utils/async.ts:23 | during the launch `LastAfterLaunch` only moves forward, and it is 0 or the line-23 reading of some task |
| RateLimit.SynchronousDispatchesSpaced | src/utils/async.ts:15-24 | two tasks that both dispatch without waiting call the processor at least `delayMs` apart |
| RateLimit.WaitingTasksMayCoincide | src/utils/async.ts:15-24 | counterexample to spacing between waiting tasks: delay 300 and three tasks at clock 1000 dispatch at 1000, 1300 and 1300 |
| RateLimit.SecondReadingIsTheStamp | src/utils/async.ts:15-23 | the next task measures from the line-23 reading: task 0 reads 1000 and stamps 1001, so task 1, reading 1300, waits 1 ms |
| RateLimit.FirstRejection | src/utils/async.ts:28 | no rejection is reported iff every promise in the settle order fulfils; a reported reason belongs to some rejected promise |
| RateLimit.FirstRejectionStep | src/utils/async.ts:28 | with no rejection among the first k settlements, one is seen after k+1 exactly when promise k+1 rejects, with its reason |
| RateLimit.FirstRejectionPersists | src/utils/async.ts:28 | once a rejection is seen, later settlements do not change the reported reason |
| RateLimit.AllFulfilledIffNoRejection | src/utils/async.ts:28 | for a settle order covering every promise: no rejection is reported iff every promise fulfils |
| RateLimit.PromiseAll | src/utils/async.ts:28 | what `await Promise.all(...)` yields: the first rejection in settle order, or every value in index order; `PromiseAllOutcome` and `SettleOrderIrrelevant` state its properties |
| RateLimit.PromiseAllOutcome | src/utils/async.ts:28-29 | `PromiseAll` succeeds iff every processor call succeeds; result i is then the value for item i; otherwise the reason is that of a rejected call |
| RateLimit.SettleOrderIrrelevant | src/utils/async.ts:28-29 | a successful `PromiseAll` does not depend on the order in which the promises settle |
| RateLimit.Outcomes | src/utils/async.ts:24 | outcome i is the processor applied to item i with its original index i |
| RateLimit.LaunchStateStep | src/utils/async.ts:15-24 | from the state after tasks 0..i-1, running task i's synchronous part gives the state after tasks 0..i: its view appended, and the stamp and `lastCallTime` set to its line-23 reading iff it needed no wait |
| RateLimit.RateLimitedRun.constructor | src/utils/async.ts:10 | a fresh run: `lastCallTime` is 0 and nothing has been launched, dispatched or called |
| RateLimit.RateLimitedRun.Start | src/utils/async.ts:15-17 | the next task, in index order, records the clock, the `lastCallTime` it read and its computed wait; no shared state changes |
| RateLimit.RateLimitedRun.Dispatch | src/utils/async.ts:23-24 | dispatching stamps `lastCallTime`, appends the task to the call order and fills its result slot and no other; the stamp is at least `delayMs` after what the task read |
| RateLimit.RateLimitedRun.LaunchTask | src/utils/async.ts:15-24 | running task i's synchronous part extends the launched prefix by one task: its view is `Launch`'s, and it has dispatched at its line-23 reading iff it needed no wait |
| RateLimit.RateLimitedRun.LaunchAll | src/utils/async.ts:13-28 | after the loop over all tasks, the views equal `Launch`'s; exactly the tasks with no wait have dispatched, each at its line-23 reading |
| RateLimit.RateLimitedRun.FireTimers | src/utils/async.ts:19-24 | after the timers fire, every task has dispatched at `DispatchTime` of its view and lag |
| RateLimit.RateLimitedRun.SlotsHoldOutcomes | src/utils/async.ts:24 | once every task has dispatched, slot i holds the outcome of the processor on item i |
| RateLimit.RateLimitedRun.FirstRejected | src/utils/async.ts:28 | the walk over the settle order reports exactly `FirstRejection` of the outcomes |
| RateLimit.RateLimitedRun.Values | src/utils/async.ts:28-29 | with no rejection, the values read from the slots are, in index order, the fulfilled values of the items |
| RateLimit.RateLimitedRun.Collect | src/utils/async.ts:28-29 | the loop over the settle order returns exactly `PromiseAll` of the outcomes |
| RateLimit.ProcessInParallelWithRateLimit | src/utils/async.ts:5-30 | the whole call, with `delayMs` defaulting to 300: its result is `PromiseAll` of the outcomes; each task's view is `Launch`'s and each dispatch is spaced from what that task read; every item is processed exactly once |
| RateLimit.DefaultDelayRun | src/utils/async.ts:8 | called without a delay, the tasks compute their waits against 300 ms and each call is at least 300 ms after the `lastCallTime` its task read |
| Particle.Compose | src/utils/attatchParticle.ts:5 | every (leading, vowel, final) index triple names a precomposed syllable U+AC00..U+D7A3 |
| Particle.TIndex | src/utils/attatchParticle.ts:5 | the final-consonant index of a syllable is below 28 |
| Particle.HasFinalConsonant | src/utils/attatchParticle.ts:2-6 | the final-consonant test on the last UTF-16 code unit with the truncating `%`, an empty word counting as having one; `HasFinalConsonantRule`, `HangulFinalConsonant` and `ComposedFinalConsonant` state what it decides |
| Particle.HasFinalConsonantRule | src/utils/attatchParticle.ts:2-6 | for a non-empty word, the truncating-remainder test equals the Euclidean one on the last code unit |
| Particle.OnlyLastCharacterMatters | src/utils/attatchParticle.ts:3-4 | two words with the same last character get the same verdict |
| Particle.HangulFinalConsonant | src/utils/attatchParticle.ts:2-6 | for a word ending in a Hangul syllable, the verdict is exactly "its final-consonant index is not 0" |
| Particle.ComposedFinalConsonant | src/utils/attatchParticle.ts:2-6 | a word ending in the syllable composed from (l, v, t) has a final consonant iff t is not 0 |
| Particle.Examples | src/utils/attatchParticle.ts:2-6 | 가 has no final consonant; 각 has one; so does the empty word, through NaN |
| Particle.SubjectParticle | src/utils/attatchParticle.ts:9-11 | 이 iff the word has a final consonant, 가 otherwise |
| Particle.ObjectParticle | src/utils/attatchParticle.ts:14-16 | 을 iff the word has a final consonant, 를 otherwise |
| Particle.ParticlesAgree | src/utils/attatchParticle.ts:9-16 | the subject particle is 이 iff the object particle is 을 |
| TextGenerator.GeneratePlaceholderText | src/utils/textGenerator.ts:2-11 | `texts[index % 5]` with the truncating `%`, `None` for `undefined`; `PlaceholderDefinedness`, `PlaceholderIsOneOfTheTexts` and `PlaceholderIsPeriodic` state its values |
| TextGenerator.PlaceholderDefinedness | src/utils/textGenerator.ts:11 | a text exists iff the index is non-negative or a multiple of 5, and it is then `texts[index mod 5]` |
| TextGenerator.PlaceholderIsOneOfTheTexts | src/utils/textGenerator.ts:3-11 | every non-negative index yields one of the five texts |
| TextGenerator.PlaceholderIsPeriodic | src/utils/textGenerator.ts:11 | indices five apart give the same text |
| TextGenerator.PlaceholderExamples | src/utils/textGenerator.ts:3-11 | indices 0..4 give the texts in order; -1 gives `undefined`; -5 gives the first text |
| JsCore.JsRem | src/utils/attatchParticle.ts:5 | JavaScript's remainder lies strictly between -b and b; it is 0 or has the sign of the dividend; it agrees with the Euclidean remainder on non-negative dividends |
| JsCore.JsRemZeroIff | src/utils/attatchParticle.ts:5 | the truncating remainder is zero iff the Euclidean one is |
| JsCore.JsRemOfNatural | src/utils/textGenerator.ts:11 | on a non-negative dividend the two remainders agree |
| JsCore.Utf16 | src/utils/attatchParticle.ts:3-4 | a string has between one and two code units per character, and none iff it is empty |
| JsCore.Utf16LengthOfBmp | src/components/DreamLens/DreamLensEditor.tsx:20 | a string below U+10000 has as many code units as characters |
| JsCore.LastCodeUnit | src/utils/attatchParticle.ts:3-4 | `charCodeAt(length - 1)` is the last character itself below U+10000, and the low surrogate of that character otherwise |
| JsCore.Trim | src/components/Sidebar/APIKeyManager.tsx:16 | `s.trim()` as the start trim then the end trim; `TrimStartSuffix`, `TrimEndPrefix`, `TrimIdempotent` and `BlankIffAllWhitespace` state what it removes |
| JsCore.TrimStartSuffix | src/components/Sidebar/APIKeyManager.tsx:16 | the result is a suffix, does not start with whitespace, and only whitespace was removed |
| JsCore.TrimEndPrefix | src/components/Sidebar/APIKeyManager.tsx:16 | the result is a prefix, does not end with whitespace, and only whitespace was removed |
| JsCore.BlankIffAllWhitespace | src/components/Sidebar/APIKeyManager.tsx:15 | `!s.trim()` holds iff every character is whitespace |
| JsCore.TrimIdempotent | src/components/Sidebar/APIKeyManager.tsx:16 | a trimmed value neither starts nor ends with whitespace, and trimming it again changes nothing |
| JsCore.TrimOfTrimmed | src/components/Sidebar/APIKeyManager.tsx:16 | a string without whitespace at either end is its own trim |
| JsCore.StartsWith | src/utils/openai.ts:5 | `s.startsWith(prefix)`: the prefix is no longer than the string and equals its start |
| JsCore.IndexOf | src/utils/openai.ts:8 | the result is the first occurrence of the separator at or after `from`, or there is none |
| JsCore.Split | src/utils/openai.ts:8 | `s.split(sep)` for a non-empty separator: at least one piece; `SplitHead`, `SplitWithoutMatch` and `SplitJoin` state what the pieces are |
| JsCore.Join | src/utils/openai.ts:87 | `pieces.join(sep)`; `SplitJoin` proves that splitting on a one-character separator undoes it for pieces without that character |
| JsCore.SplitHead | src/utils/openai.ts:8 | the first piece of a split is exactly the string up to the first occurrence of the separator, or the whole string when it never occurs: a prefix, no occurrence starts inside it, and an occurrence follows it unless it is everything |
| JsCore.SplitWithoutMatch | src/utils/openai.ts:8 | a string without the separator splits into itself alone |
| JsCore.SplitJoin | src/utils/openai.ts:85-87 | joining pieces that lack the one-character separator, then splitting, gives the pieces back |
| JsCore.NatToString | src/utils/openai.ts:86 | `String(n)` is a non-empty string of decimal digits without leading zeros |
| JsCore.NatToStringRoundTrip | src/utils/openai.ts:86 | reading the decimal text back gives the number |
| JsCore.NatToStringInjective | src/utils/openai.ts:86 | distinct numbers have distinct texts |
| OpenAi.GetBase64FromDataUrl | src/utils/openai.ts:3-17 | every failure carries the one message of line 15; a string without the `data:image/` prefix or without a `base64,` marker fails; a success has the prefix and a non-empty payload |
| OpenAi.GetBase64Payload | src/utils/openai.ts:8-12 | the payload is exactly the text after the first marker up to the next marker, or to the end when there is no other; it contains no marker |
| OpenAi.GetBase64Fails | src/utils/openai.ts:8-11 | with prefix and marker present, extraction fails iff nothing follows the first marker, or another marker follows it at once |
| OpenAi.GetBase64RoundTrip | src/utils/openai.ts:3-17 | `data:image/<subtype>base64,<payload>` with comma-free parts gives the payload back |
| OpenAi.Base64PayloadRoundTrip | src/utils/openai.ts:3-17 | a non-empty text in the base64 alphabet behind the PNG prefix is extracted unchanged |
| OpenAi.Rethrow | src/utils/openai.ts:61-67 | the `catch` keeps every success and its value; every failure either carries the prefix or is the fallback |
| OpenAi.PrefixedIsNotFallback | src/utils/openai.ts:63-66 | a prefixed message never equals a fallback that does not start with the prefix |
| OpenAi.CaptionImageUrl | src/utils/openai.ts:47 | the request URL exists iff extraction succeeds, always declares JPEG, and otherwise fails with the extraction message |
| OpenAi.CaptionUrlIsAlwaysJpeg | src/utils/openai.ts:47 | whatever subtype the input names, the payload is relabelled as JPEG unchanged |
| OpenAi.GenerateImageCaption | src/utils/openai.ts:19-68 | a caption is returned iff the URL is built and the reply has non-empty content, and it is that content; every error is prefixed or the fallback |
| OpenAi.CaptionErrors | src/utils/openai.ts:56-66 | a bad data URL and an empty reply both surface with the prefix; the bare fallback appears iff the SDK throws a non-Error |
| OpenAi.LeastKeyExists | src/utils/openai.ts:85 | every non-empty key set has a least key |
| OpenAi.MinKey | src/utils/openai.ts:85 | the returned key is in the set and no key is smaller |
| OpenAi.SortedKeys | src/utils/openai.ts:85 | `Object.entries` on integer keys lists every key once, in strictly ascending order |
| OpenAi.CaptionLine | src/utils/openai.ts:86 | one corpus line: the key plus one in decimal, "번째 이미지: ", then the caption; `CaptionLineHasNoBreak` and `CaptionCorpusLines` state what it holds |
| OpenAi.CaptionCorpus | src/utils/openai.ts:85-87 | the caption lines in ascending key order, joined by line breaks; `CaptionCorpusLines` and `EmptyCorpus` state what it holds |
| OpenAi.CorpusLines | src/utils/openai.ts:85-86 | one line per caption |
| OpenAi.CaptionLineHasNoBreak | src/utils/openai.ts:86 | a corpus line contains a line break only if its caption does |
| OpenAi.CaptionCorpusLines | src/utils/openai.ts:85-87 | a corpus of break-free captions splits back into its lines, the i-th giving the i-th smallest key plus one and that key's caption |
| OpenAi.EmptyCorpus | src/utils/openai.ts:85-87 | no captions give the empty corpus |
| OpenAi.GeneratePixStoryNovel | src/utils/openai.ts:70-133 | the story is returned iff the reply to the request built from the corpus has non-empty content, and it is that content; every error is prefixed or the fallback |
| OpenAi.NovelErrors | src/utils/openai.ts:121-131 | an empty reply surfaces with the prefix; the bare fallback appears iff the SDK throws a non-Error |
| OpenAi.IsJobActionsResponse | src/utils/openai.ts:186 | the condition the parsed value must meet: an object with a truthy `job_title` and a non-empty `actions` array; `ValidateJobActions` and `JobActionsShapeExamples` use it |
| OpenAi.ValidateJobActions | src/utils/openai.ts:186-188 | the parsed value passes iff it has a truthy `job_title` and a non-empty `actions` array; `null` raises the TypeError of the property read; any other failure raises the format message |
| OpenAi.GenerateJobActions | src/utils/openai.ts:135-198 | the parsed reply is returned iff the content is non-empty, parses and has the checked shape; every error is prefixed or the fallback |
| OpenAi.JobActionsRejectsBadShape | src/utils/openai.ts:186-188 | a reply that parses to a non-null value of the wrong shape fails with the prefixed format message |
| OpenAi.JobActionsShapeExamples | src/utils/openai.ts:186 | an empty title, an empty actions array or a non-array `actions` is rejected; a title with one action passes |
| OpenAi.JobActionsErrors | src/utils/openai.ts:179-197 | an empty reply surfaces with the prefix; the bare fallback appears iff the SDK throws a non-Error |
| OpenAi.DallePrompt | src/utils/openai.ts:213 | the sent prompt is the caller's prompt followed by the fixed quality sentence |
| OpenAi.RevisedPromptOr | src/utils/openai.ts:230 | the result is the caller's prompt when the revision is missing or empty, and otherwise the non-empty revision |
| OpenAi.GenerateDalle3Image | src/utils/openai.ts:200-239 | an image is returned iff the reply has a first datum with non-empty base64 data; its URL is a PNG data URL; every error is prefixed or the fallback |
| OpenAi.DalleImageRoundTrip | src/utils/openai.ts:226-231 | the returned URL gives the model's base64 text back through the extractor of lines 3-17; the revised prompt is the model's when non-empty, else the caller's |
| OpenAi.DalleErrors | src/utils/openai.ts:221-237 | a missing or empty image surfaces with the prefix; the bare fallback appears iff the SDK throws a non-Error |
| ImageUploadList.IndexOfItem | src/components/ImageUploadList.tsx:45-46 | `indexOf` gives the first position holding the id, or -1 iff it is absent |
| ImageUploadList.SpliceStart | src/components/ImageUploadList.tsx:49-50 | the normalised splice position lies within the list and is the start itself when that is in range |
| ImageUploadList.SpliceRemove | src/components/ImageUploadList.tsx:49 | `splice(start, 1)`: the element at the normalised start is removed, if there is one; `MultisetWithout` states what is removed |
| ImageUploadList.SpliceInsert | src/components/ImageUploadList.tsx:50 | `splice(start, 0, x)`: `x` goes before the normalised start; `WithoutInserted` states that removing it again gives the list back |
| ImageUploadList.DragEnd | src/components/ImageUploadList.tsx:41-54 | what `onReorder` receives, or `None` when nothing was dropped on or the image was dropped on itself; `NoReorderWithoutMove`, `DragEndIsPermutation`, `DragEndPosition` and `HandleDragEnd` state its properties |
| ImageUploadList.RemoveAt | src/components/ImageUploadList.tsx:48-49 | the shifting loop leaves the array holding the list without the element at the start |
| ImageUploadList.InsertAt | src/components/ImageUploadList.tsx:50 | the shifting loop leaves the array holding the list with the element inserted at the start |
| ImageUploadList.HandleDragEnd | src/components/ImageUploadList.tsx:41-54 | the array-based handler yields exactly the splice specification `DragEnd`: no call without a move, else the re-spliced copy |
| ImageUploadList.NoReorderWithoutMove | src/components/ImageUploadList.tsx:44 | `onReorder` is not called iff there is no drop target or the image was dropped on itself |
| ImageUploadList.MultisetWithout | src/components/ImageUploadList.tsx:49 | removing one position removes exactly that one occurrence |
| ImageUploadList.DragEndIsPermutation | src/components/ImageUploadList.tsx:45-52 | the reordered list has the same images, each as often as before |
| ImageUploadList.DragEndPosition | src/components/ImageUploadList.tsx:45-52 | the dragged image lands at the drop target's old index, and the other images keep their relative order |
| ImageUploadList.WithoutInserted | src/components/ImageUploadList.tsx:49-50 | removing an inserted element undoes the insertion |
| ImageUploadList.DragEndExamples | src/components/ImageUploadList.tsx:41-54 | in [a, b, c], moving a onto c gives [b, c, a], and moving c onto a gives [c, a, b] |
| App.TabView | src/App.tsx:10-11 | each tab opens the view of the same name: PixStory for the PixStory tab, DreamLens otherwise |
| App.FilterOutIndex | src/App.tsx:28 | `prev.filter((_, i) => i !== index)`; `FilterOutIndexRemoves` states that it drops exactly an in-range index and nothing otherwise |
| App.FilterOutIndexRemoves | src/App.tsx:28 | the filter removes exactly the element at an in-range index and changes nothing otherwise |
| App.AppState.constructor | src/App.tsx:14-17 | no images, the intro view, not editing, the PixStory tab |
| App.AppState.HandleImageUpload | src/App.tsx:19-21 | the new image is appended and the earlier ones are kept in order |
| App.AppState.HandleReorder | src/App.tsx:23-25 | the list becomes the given order |
| App.AppState.HandleImageDelete | src/App.tsx:27-29 | an in-range index removes that image alone; any other index changes nothing |
| App.AppState.HandleStartStory | src/App.tsx:31-34 | editing starts and the active tab's view opens |
| App.AppState.SetEditing | src/App.tsx:50 | the editing flag becomes the given value |
| App.AppState.OpenDreamLens | src/App.tsx:51 | the DreamLens view opens |
| App.AppState.OpenFlipBook | src/App.tsx:39 | the flip-book view opens |
| App.AppState.HeaderClick | src/App.tsx:67-71 | back to the intro with no images and not editing; the tab is kept |
| App.AppState.TabClick | src/App.tsx:90-93 | the tab changes and the intro shows |
| App.AppState.RenderContent | src/App.tsx:36-58 | the unknown-view branch is unreachable; the intro page iff the intro view, it shows the active tab; the PixStory page iff the PixStory view, it gets the images and the editing flag |
| App.StartFromIntro | src/App.tsx:31-34 | from a fresh app, a tab click then "start" shows the PixStory editor with no images, or DreamLens |
| DreamLensTypes.Keys | src/components/DreamLens/types.ts:1-4 | one key per entry |
| DreamLensTypes.Lookup | src/components/DreamLens/types.ts:1-4 | a key reads `undefined` iff it is not among the object's keys |
| DreamLensTypes.SetOption | src/components/DreamLens/DreamLensEditor.tsx:153-156 | the spread update maps the key to the new value and keeps every other key's value; key order is kept, and a new key is appended |
| DreamLensTypes.SetOptionKeepsKeysDistinct | src/components/DreamLens/DreamLensEditor.tsx:153-156 | the update never duplicates a key |
| DreamLensEditor.ActionText | src/components/DreamLens/DreamLensEditor.tsx:76-82 | the text of one checked entry: the custom text for 'custom', job action `i` for `action${i}`, undefined past the end of the list |
| DreamLensEditor.Kept | src/components/DreamLens/DreamLensEditor.tsx:83 | `.filter(action => action)`: defined and non-empty |
| DreamLensEditor.SelectedActions | src/components/DreamLens/DreamLensEditor.tsx:74-83 | at most one action per entry, never an empty one |
| DreamLensEditor.SelectedActionsSingle | src/components/DreamLens/DreamLensEditor.tsx:74-83 | one entry contributes its text exactly when it is checked and the text is defined and non-empty |
| DreamLensEditor.SelectedActionsAppend | src/components/DreamLens/DreamLensEditor.tsx:74-83 | the selection of two runs of entries is the first run's selection followed by the second's: entry order and every checked entry, duplicates included, are kept |
| DreamLensEditor.SelectedActionsExamples | src/components/DreamLens/DreamLensEditor.tsx:74-83 | with both actions checked, ["b", "a"] gives ["b", "a"] and ["a", "a"] gives ["a", "a"] |
| DreamLensEditor.SelectedActionsMembers | src/components/DreamLens/DreamLensEditor.tsx:74-83 | a text is selected iff it is non-empty and some checked entry maps to it |
| DreamLensEditor.SelectedActionsEmpty | src/components/DreamLens/DreamLensEditor.tsx:83-85 | the selection is empty iff no checked entry maps to a non-empty text |
| DreamLensEditor.CustomOnly | src/components/DreamLens/DreamLensEditor.tsx:77-78 | a checked custom entry with text selects that text alone; an unchecked one selects nothing |
| DreamLensEditor.Editor.constructor | src/components/DreamLens/DreamLensEditor.tsx:11-16 | the state is seeded from the initial editor state; a missing title or list starts empty; no error, not loading |
| DreamLensEditor.Editor.HandleJobTitleChange | src/components/DreamLens/DreamLensEditor.tsx:18-28 | a title of at most ten UTF-16 units is taken and the actions, selection, custom text and error reset; a longer one changes nothing |
| DreamLensEditor.Editor.BeginFetch | src/components/DreamLens/DreamLensEditor.tsx:36-43 | the request starts iff the title is not blank; a blank title only sets the prompt error; otherwise loading starts and the error clears |
| DreamLensEditor.Editor.CompleteFetch | src/components/DreamLens/DreamLensEditor.tsx:45-68 | a reply replaces the actions and clears the selection and custom text; a failure sets the fetch error and keeps the rest; loading stops either way |
| DreamLensEditor.Editor.SetActionChecked | src/components/DreamLens/DreamLensEditor.tsx:152-157 | that action's entry reads the new value and the keys stay distinct |
| DreamLensEditor.Editor.SetCustomChecked | src/components/DreamLens/DreamLensEditor.tsx:181-186 | the custom entry reads the new value and the keys stay distinct |
| DreamLensEditor.Editor.SetCustomText | src/components/DreamLens/DreamLensEditor.tsx:207 | the custom text becomes the typed text |
| DreamLensEditor.Editor.HandleSubmit | src/components/DreamLens/DreamLensEditor.tsx:71-106 | an empty selection gives the alert message; otherwise the form data carries the title and the selection, and the editor state returned is the current one |
| DreamLens.Entries | src/components/DreamLens/DreamLens.tsx:44 | `Object.entries(selectedOptions)` in insertion order: custom, then suggestion 1, then suggestion 2 |
| DreamLens.Contribution | src/components/DreamLens/DreamLens.tsx:45-46 | what one entry adds: the suggestion its key names when it is ticked and not custom, nothing otherwise; `SelectedSuggestionsInKeyOrder` states the result for all three entries |
| DreamLens.SelectedSuggestions | src/components/DreamLens/DreamLens.tsx:44-46 | never more suggestions than entries, each one of the offered suggestions |
| DreamLens.SelectedSuggestionsInKeyOrder | src/components/DreamLens/DreamLens.tsx:44-46 | the selection is the first suggestion if its box is ticked, then the second if its box is ticked; the custom box never contributes |
| DreamLens.SuggestionsFor | src/components/DreamLens/DreamLens.tsx:29-32 | two suggestions, different from each other |
| DreamLens.DreamLensForm.constructor | src/components/DreamLens/DreamLens.tsx:5-12 | nothing typed, no suggestions, no box ticked |
| DreamLens.DreamLensForm.SetInput | src/components/DreamLens/DreamLens.tsx:59 | the dream becomes the typed text |
| DreamLens.DreamLensForm.HandleKeyDown | src/components/DreamLens/DreamLens.tsx:14-37 | Enter sets the two suggestions for the current dream; other keys change nothing |
| DreamLens.DreamLensForm.SetCustomChecked | src/components/DreamLens/DreamLens.tsx:74-78 | the custom box takes the new value |
| DreamLens.DreamLensForm.SetSuggestionChecked | src/components/DreamLens/DreamLens.tsx:112-116 | the box of that suggestion takes the new value, and the other box keeps its value |
| DreamLens.DreamLensForm.SetCustomText | src/components/DreamLens/DreamLens.tsx:100 | the custom text becomes the typed text |
| DreamLens.DreamLensForm.HandleSubmit | src/components/DreamLens/DreamLens.tsx:39-49 | the form data has the dream, the custom text only when its box is ticked, and the ticked suggestions in key order |
| DreamLensViewer.GetParticle | src/components/DreamLens/DreamLensViewer.tsx:11-16 | the inline rule picks 이 or 가 |
| DreamLensViewer.GetParticleIsSubjectParticle | src/components/DreamLens/DreamLensViewer.tsx:11-16 | the inline copy agrees with `getSubjectParticle` on every word |
| DreamLensViewer.Header | src/components/DreamLens/DreamLensViewer.tsx:31 | the header starts with the dream, then has 이 plus the fixed tail iff the dream has a final consonant, and 가 plus the tail otherwise |
| DreamLensViewer.ContentBlocks | src/components/DreamLens/DreamLensViewer.tsx:37-66 | one card per selected suggestion, in order, then a custom card, last, iff the custom text is non-empty |
| ApiKeyManager.LastChars | src/components/Sidebar/APIKeyManager.tsx:135 | `slice(-n)` gives the last n characters, or the whole of a shorter string |
| ApiKeyManager.MaskedKey | src/components/Sidebar/APIKeyManager.tsx:135 | an unset key shows "Not set"; a set key shows eight bullets and then its last four characters |
| ApiKeyManager.MaskedKeyRevealsOnlyTheEnd | src/components/Sidebar/APIKeyManager.tsx:135 | the mask shows at most four characters, all from the end of the key |
| ApiKeyManager.MaskedKeyIsSet | src/components/Sidebar/APIKeyManager.tsx:135 | a stored key is never shown as "Not set" |
| ApiKeyManager.MaskedKeySameEnding | src/components/Sidebar/APIKeyManager.tsx:135 | keys with the same last four characters look the same |
| ApiKeyManager.NameDisplay | src/components/Sidebar/APIKeyManager.tsx:85 | the name, or "Not set" for the empty name |
| ApiKeyManager.ApiKeyManager.constructor | src/components/Sidebar/APIKeyManager.tsx:7-12 | editing starts exactly for an unset value; the drafts start as the stored values |
| ApiKeyManager.ApiKeyManager.SaveKey | src/components/Sidebar/APIKeyManager.tsx:14-19 | a non-blank draft is stored trimmed and editing ends; a blank one changes nothing |
| ApiKeyManager.ApiKeyManager.SaveName | src/components/Sidebar/APIKeyManager.tsx:21-26 | the same rule for the name |
| ApiKeyManager.ApiKeyManager.CancelKey | src/components/Sidebar/APIKeyManager.tsx:28-31 | the draft returns to the stored key and editing ends |
| ApiKeyManager.ApiKeyManager.CancelName | src/components/Sidebar/APIKeyManager.tsx:33-36 | the draft returns to the stored name and editing ends |
| ApiKeyManager.ApiKeyManager.EditKey | src/components/Sidebar/APIKeyManager.tsx:100 | key editing starts |
| ApiKeyManager.ApiKeyManager.EditName | src/components/Sidebar/APIKeyManager.tsx:50 | name editing starts |
| ApiKeyManager.ApiKeyManager.TypeKey | src/components/Sidebar/APIKeyManager.tsx:113 | the key draft becomes the typed text |
| ApiKeyManager.ApiKeyManager.TypeName | src/components/Sidebar/APIKeyManager.tsx:63 | the name draft becomes the typed text |
| FlipBook.FlipBookPlayer.constructor | src/components/FlipBook/FlipBook.tsx:9-10 | the first frame, paused |
| FlipBook.FlipBookPlayer.SetImages | src/components/FlipBook/FlipBook.tsx:8 | a new `images` prop replaces the frames; the cursor and the play state stay as they were |
| FlipBook.FlipBookPlayer.Tick | src/components/FlipBook/FlipBook.tsx:14-16 | the cursor advances by one and wraps from the last frame to the first, staying in range |
| FlipBook.FlipBookPlayer.SkipBack | src/components/FlipBook/FlipBook.tsx:36 | the cursor goes to the first frame |
| FlipBook.FlipBookPlayer.TogglePlaying | src/components/FlipBook/FlipBook.tsx:42 | playing and paused swap |
| FlipBook.FlipBookPlayer.SkipForward | src/components/FlipBook/FlipBook.tsx:48 | the cursor goes to the last frame, which is -1 for no frames |
| FlipBook.FlipBookPlayer.Slide | src/components/FlipBook/FlipBook.tsx:56-61 | the cursor takes the slider value, which is in range whenever there are frames |
| FlipBook.FlipBookPlayer.FrameLabel | src/components/FlipBook/FlipBook.tsx:67 | the one-based frame number, never negative, and the frame count |
| FlipBook.PlayThrough | src/components/FlipBook/FlipBook.tsx:14-16 | playing n frames from the first returns to the first after exactly n ticks |
| PixStorySection.Title | src/components/PixStory/PixStorySection.tsx:17 | "PixStory" without metadata; with it, the name, 의, the genre and 이야기 |
| PixStorySection.TitleWithMetadataIsNotDefault | src/components/PixStory/PixStorySection.tsx:17 | a story with metadata never shows the default heading, whatever its name and genre |
| PixStorySection.NovelParagraph | src/components/PixStory/PixStorySection.tsx:19-23 | the paragraph is shown iff the novel is non-empty, and then shows the novel |
| PixStorySection.CaptionShown | src/components/PixStory/PixStorySection.tsx:43 | the text is never empty: the image's caption once it is non-empty, the placeholder otherwise |
| PixStorySection.LayoutAt | src/components/PixStory/PixStorySection.tsx:30 | even indices lay out as `flex-row`, odd ones as `flex-row-reverse`; `SectionsAlternate` states that neighbours differ |
| PixStorySection.Sections | src/components/PixStory/PixStorySection.tsx:26-48 | one section per image, in order, with its alternating layout and its shown caption |
| PixStorySection.SectionsAlternate | src/components/PixStory/PixStorySection.tsx:29-31 | the first section is a plain row and neighbouring sections always have different layouts |
| PixStorySection.SectionsAlwaysHaveText | src/components/PixStory/PixStorySection.tsx:43 | every section shows some text, and any text other than the placeholder is one of the captions |
| CreatePixStoryModal.ChoiceLists | src/components/PixStory/CreatePixStoryModal.tsx:9-17 | five distinct genres and two distinct genders |
| CreatePixStoryModal.CreatePixStoryDialog.constructor | src/components/PixStory/CreatePixStoryModal.tsx:20-22 | no name, the first gender, the first genre |
| CreatePixStoryModal.CreatePixStoryDialog.SetCharacterName | src/components/PixStory/CreatePixStoryModal.tsx:55 | the name becomes the typed text |
| CreatePixStoryModal.CreatePixStoryDialog.SetGender | src/components/PixStory/CreatePixStoryModal.tsx:73 | the gender becomes the chosen one, still a listed gender |
| CreatePixStoryModal.CreatePixStoryDialog.SetGenre | src/components/PixStory/CreatePixStoryModal.tsx:89 | the genre becomes the chosen one, still a listed genre |
| CreatePixStoryModal.CreatePixStoryDialog.HandleSubmit | src/components/PixStory/CreatePixStoryModal.tsx:24-32 | a blank name only raises the alert; otherwise the untrimmed name, gender and genre are submitted and then the dialog closes; it closes iff it submits |
| CreateStoryModal.CreateStoryDialog.constructor | src/components/DreamLens/CreateStoryModal.tsx:13-14 | no name, the first genre |
| CreateStoryModal.CreateStoryDialog.SetUserName | src/components/DreamLens/CreateStoryModal.tsx:46 | the name becomes the typed text |
| CreateStoryModal.CreateStoryDialog.SetGenre | src/components/DreamLens/CreateStoryModal.tsx:59 | the genre becomes the chosen one, still a listed genre |
| CreateStoryModal.CreateStoryDialog.HandleSubmit | src/components/DreamLens/CreateStoryModal.tsx:16-23 | a blank name only raises the alert; otherwise the untrimmed name and the genre are submitted; the dialog never closes itself |
| DreamInput.DreamInputForm.constructor | src/components/DreamLens/DreamInput.tsx:11-14 | each field starts from its prop |
| DreamInput.DreamInputForm.ReceiveProps | src/components/DreamLens/DreamInput.tsx:16-20 | new props reset all three fields to them; unchanged props leave the edited fields alone |
| DreamInput.DreamInputForm.SetDream | src/components/DreamLens/DreamInput.tsx:39 | the dream field becomes the typed text |
| DreamInput.DreamInputForm.SetFuture | src/components/DreamLens/DreamInput.tsx:46 | the future field becomes the typed text |
| DreamInput.DreamInputForm.SetAction | src/components/DreamLens/DreamInput.tsx:53 | the action field becomes the typed text |
| DreamInput.DreamInputForm.HandleSubmit | src/components/DreamLens/DreamInput.tsx:22-30 | with all three fields non-empty (untrimmed), they are confirmed and cleared; otherwise nothing is confirmed and nothing changes |

## Left out

- The OpenAI SDK calls, `fetch`, `Date.now()`, `setTimeout` and `JSON.parse` are not modelled. Each SDK reply or fetch outcome and the parse result is a parameter. So is each of the two clock readings of every rate-limited task: the line-15 reading, and how far the line-23 reading lies past the end of the task's wait (later in the same synchronous step when it does not wait, the timer's lateness when it does). `console.error`, `alert` and the request wording are omitted; an alert appears only as its message, in the value a handler returns.
- Concurrency is not modelled. The rate-limited runner is a fixed sequence of events: the synchronous launch in index order, then the timers in index order, then settlement in a given order. When two timers fire in the other order, the model does not capture it. The dispatch times are the same either way.
- The code spaces each task only from the last call it saw, not from every earlier call. Waiting tasks can dispatch together, which `RateLimit.WaitingTasksMayCoincide` shows. The model therefore proves per-task spacing and the spacing of tasks that do not wait, and no spacing between consecutive calls.
- JsCore.NatToString gives the plain decimal text of every n. `String(n)` switches to exponent notation from 10²¹, so the model agrees with the code only below that; caption indices are far smaller.
- OpenAi.SortedKeys orders every integer key ascending. `Object.entries` does so only for array indices, below 2³² − 1; larger integer keys would come in insertion order.
- OpenAi.Json: numbers are integers only; floating point is not modelled.
- `generateJobActions`: if `actions` is not an array, it counts as a wrong shape. The code never checks that the actions are strings, and neither does the model: it returns the parsed value as it is.
- Rendering, styling, icons, dnd-kit sensors and collision detection, `FileReader`, image previews and the close buttons of the dialogs and of `DreamInput` (which only call `onClose`) are not modelled.
- The component files `PixStory.tsx`, `ImageInterplation.tsx` and `DreamDetail.tsx` and the intro components are not part of this model.
- DreamLensTypes.SelectedOptions: only the keys `custom` and `action<N>` are modelled, since the editor writes no others. The `selectedOptions` field of `FormData` is declared in `types.ts`, but the code never sets it, so the model omits it.
- CreateStoryModal.CreateStoryDialog.HandleSubmit submits `genre` as the code does, although `CreateStoryModalData` declares only `userName`.
- ApiKeyManager.LastChars counts characters, whereas `slice` counts UTF-16 code units. The two differ only for keys with characters above U+FFFF.
- JsCore.IsJsWhitespace lists the whitespace and line-terminator characters that `String.prototype.trim` removes by name. No Unicode database is consulted.
- DreamLens.DreamLensForm.HandleKeyDown does not reset the ticked boxes when Enter is pressed again, and neither does the code.
- FlipBook.FlipBookPlayer.Tick is modelled as one interval callback. Creating and clearing the interval when the play state or the frame count changes is not modelled.
