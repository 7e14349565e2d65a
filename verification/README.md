# To-do list state controller

A Dafny model of the state controller inside the `App` component of a
single-screen React Native to-do app (`App.tsx`). The app keeps a list of
text items. Each item belongs to one of two categories: Work or Travel. The
user can add, edit, check off and delete items. The list and the last-used
category are written to device storage after every change.

Without React and AsyncStorage, the component is a small state machine:

- `App.State` holds the five pieces of React state. These are the category
  flag `working`, the input box `text`, the collection `toDos` (a
  `map<string, ToDo>`), and the single edit slot `editKey`/`editValue`. It
  also holds `store`, the last values written under the storage keys
  `@toDos` and `@previousMode`.
- Each event handler is a pure function from `State` to `State`. This covers
  `addToDo`, `deleteToDo`, `handleCompleteState`, `onPressEdit`,
  `onChangeEditText`, `updateToDo`, `cancelUpdate`, `work`/`travel`,
  `onChangeText`, `loadToDos` and `loadPreviousMode`. The two handlers that
  throw on a missing item return `Result<State, Fault>` instead.
- `App.Step` maps each user gesture to its handler. `App.Run` replays a
  sequence of gestures and stops at the first handler that throws.
- `Render.RenderRows` is the list loop over `Object.keys(toDos)`. It keeps
  only the items of the active category and draws the item in the edit slot
  as an edit box.

Modules: `Wrappers` (Option, Result), `ToDos` (item, collection, visibility),
`Storage` (persisted snapshot, mode string codec), `App` (state and
handlers), `Render` (list rows), `AppProperties` (laws that relate several
handlers).

Behaviour of the code worth knowing:

- `updateToDo` throws when `editKey` names no item, because it assigns a
  field of `undefined` (App.tsx:142). It is modelled as
  `Failure(MissingItem(editKey))`.
- `handleCompleteState` throws on an absent key for the same reason
  (App.tsx:128). It is modelled as `Failure(MissingItem(key))`.
- The screen never sends those inputs. The checkbox is drawn only on a
  listed row, and Save only on the listed row of the edited key. So a session
  made of gestures that were on screen never throws (`Render.Drawn`,
  `ScreenSessionNeverThrows`). The throwing paths are reachable only by
  calling the handlers directly.
- `addToDo` refuses `""`, but `updateToDo` stores any draft, including `""`.
  Two lemmas show this: `AddKeepsTextsNonEmpty` and `UpdateCanEmptyText`.
- Deleting an absent key still writes the collection to storage.

## Model

| member | source | states |
|---|---|---|
| Storage.EncodeMode | App.tsx:60 | the stored mode string is never empty and reads back as the flag that was saved |
| Storage.DecodeMode | App.tsx:118 | only the exact string "true" reads back as Work; "false" reads back as Travel |
| Storage.SaveToDos | App.tsx:51-57 | after a save the snapshot is exactly the given collection and the mode key is untouched |
| Storage.SaveMode | App.tsx:58-64 | after a save the stored mode reads back as the saved flag and the collection key is untouched |
| ToDos.ListedUnderExactlyOne | App.tsx:190 | an item is listed under exactly one of the two categories, and a missing key under neither |
| App.Mount | App.tsx:31-35 | the initial state shows Work, with an empty input box, no items and no edit in progress |
| App.SwitchMode | App.tsx:42-49 | a category switch sets the flag, persists a mode that reads back as that flag, and changes neither the items nor the snapshot of the items |
| App.Travel | App.tsx:42-45 | Travel clears the flag and stores "false"; the items, their snapshot, the input box and the edit slot are unchanged |
| App.Work | App.tsx:46-49 | Work sets the flag and stores "true"; the items, their snapshot, the input box and the edit slot are unchanged |
| App.ChangeText | App.tsx:50 | typing replaces only the input box |
| App.LoadToDos | App.tsx:65-74 | a stored collection replaces the in-memory one; with nothing stored the state is unchanged |
| App.LoadPreviousMode | App.tsx:114-123 | a stored mode selects Work exactly when it is the encoding of true; with nothing stored the state is unchanged |
| App.Launch | App.tsx:37-40 | after launch the items are the stored ones (none if nothing stored), the category defaults to Work when no mode is stored, and input and edit slot are empty |
| App.AddToDo | App.tsx:75-87 | empty input changes nothing; otherwise the key maps to a new uncompleted item in the current category, every other key is unchanged, the key count grows by one exactly when the key was absent, the snapshot equals the new collection and the input is cleared |
| App.DeleteToDo | App.tsx:88-113 | a refused dialog changes nothing; a confirmed one removes exactly that key, keeps every other item, shrinks the count by one exactly when the key was present, and persists the result |
| App.HandleCompleteState | App.tsx:126-131 | succeeds exactly when the key has an item; then only that item's completed flag changes, to the requested value, and the collection is persisted; otherwise it fails naming the key |
| App.PressEdit | App.tsx:133-136 | opening an edit fills the single edit slot, replacing any previous one, and leaves the items untouched |
| App.ChangeEditText | App.tsx:139 | typing in the edit box replaces only the draft |
| App.UpdateToDo | App.tsx:140-149 | succeeds exactly when the edit slot names an item; then only that item's text becomes the draft, its category and flag are kept, the collection is persisted and the slot is cleared; otherwise it fails naming the key |
| App.CancelUpdate | App.tsx:150-153 | cancelling clears the edit slot and touches neither items nor storage |
| App.Step | App.tsx:160-239 | each gesture runs its handler; only the checkbox and the save button can throw, and only on a key with no item; only submitting text can add a key. The gesture model accepts more than the screen sends: `PressCheckbox` takes any flag, while App.tsx:207 always sends the negation of the item's flag, and `PressEditButton` takes any draft, while App.tsx:237 always sends the item's text. The checkbox is drawn only on a listed row (App.tsx:189-190, 205-207) and Save only on the listed row of the edited key (App.tsx:192, 199), so the throwing inputs are ones the screen never sends; `DrawnGestureSucceeds` proves this |
| App.Run | App.tsx:155-247 | a session without checkbox or save presses never throws, and it holds items only under its starting keys and the keys it submitted |
| Render.RowFor | App.tsx:192-244 | the row for the edited key is an edit box with the draft; any other key gets a row with its item's text and flag |
| Render.RowsMatch | App.tsx:189-230 | every drawn row is for a listed key of the active category and shows that item, or the draft for the edited key |
| Render.RowsComplete | App.tsx:189-190 | every key of the active category gets a row |
| Render.RowsOrdered | App.tsx:189 | rows come in the order of their keys in `Object.keys` |
| Render.RowsDistinct | App.tsx:189-191 | no key is drawn twice when the key order has no repeats |
| Render.RowsSound | App.tsx:189-192 | the rows are the visible keys of the key order, in that order, each showing its item or, for the edited key, the draft; no key is drawn twice when the order has no repeats |
| Render.RowsDependOnView | App.tsx:189-192 | the list depends only on the items, the category and the edit slot |
| Render.RenderRows | App.tsx:189-247 | the loop yields the reference rows: every visible key exactly once, in key order, each matching its item, and an edit box only for the edited key |
| AppProperties.DecodeModeOnlyTrue | App.tsx:118 | a stored string reads as Work if and only if it is the encoding of true |
| AppProperties.SaveThenLoadMode | App.tsx:114-123 | saving a category and reading it back yields that category and changes nothing else |
| AppProperties.StepPreservesSynced | App.tsx:75-153 | every handler that does not throw keeps the snapshot equal to the in-memory items and the stored mode equal to the category |
| AppProperties.RunPreservesSynced | App.tsx:75-153 | any gesture sequence that does not throw keeps memory and storage in agreement |
| AppProperties.DrawnGestureSucceeds | App.tsx:189-239 | a gesture the screen can send in a state (a checkbox, edit or delete button on a listed row not being edited, or the edit box, Save and Cancel on the listed edited row) never throws |
| AppProperties.ScreenSessionNeverThrows | App.tsx:155-247 | a session made only of gestures that were on screen when made runs to the end without throwing |
| AppProperties.LoadOrderIrrelevant | App.tsx:37-40 | the two loading effects give the same state in either order |
| AppProperties.LaunchIsSynced | App.tsx:37-40 | launching from any store leaves memory and storage in agreement |
| AppProperties.RestartRestores | App.tsx:65-74 | relaunching from a synced state's store restores its items and its category |
| AppProperties.SessionSurvivesRestart | App.tsx:37-40 | after any session that did not throw, a restart shows the same items in the same category |
| AppProperties.ToggleTwiceRestores | App.tsx:206-208 | pressing an item's checkbox twice restores the collection |
| AppProperties.CategoriesPartition | App.tsx:189-190 | every key is listed under exactly one category |
| AppProperties.SwitchAwayAndBack | App.tsx:42-49 | switching category away and back restores the items, the visible keys and the drawn rows |
| AppProperties.DeletedStaysDeleted | App.tsx:126-149 | after a confirmed delete, checking off or saving an edit of that key fails and cannot bring the item back |
| AppProperties.AddsGrowByOne | App.tsx:75-87 | adding non-empty texts under fresh distinct keys grows the collection by exactly one per entry, keeps earlier items, and stores each text as an uncompleted item |
| AppProperties.AddKeepsTextsNonEmpty | App.tsx:76 | adding never introduces an item with empty text |
| AppProperties.UpdateCanEmptyText | App.tsx:140-149 | saving an empty draft succeeds and leaves an item with empty text |
| AppProperties.BuyMilkScenario | App.tsx:75-131 | adding "Buy milk" gives one uncompleted Work item; checking it off marks it completed; a confirmed delete leaves no items |
| AppProperties.TravelHidesWorkItem | App.tsx:189-190 | a single Work item is hidden under Travel and listed again under Work |

## Left out

- Rendering and styling: the JSX tree, colours, icons and `StyleSheet`. Only the list filter and the edit-box choice are modelled, in `Render`.
- Asynchrony: `async`/`await` and the interleavings it allows are not modelled. For example, an item added before `loadToDos` resolves would be overwritten by the load. Each handler is one atomic step.
- Storage failures: a failed write or read is swallowed by the `try`/`catch`. The model assumes every write lands and every read returns what was last written.
- JSON: `JSON.stringify`/`JSON.parse` of the collection are library calls. The store holds the collection value itself, so a malformed payload cannot occur. The mode flag is modelled as the strings `"true"`/`"false"`.
- `Date.now()`: the timestamp key is a parameter of `AddToDo` and `SubmitText`.
- Confirmation dialogs: the `Platform.OS` branch, `window.confirm` and `Alert.alert` become the boolean `confirmed`.
- Aliasing: `handleCompleteState` and `updateToDo` mutate an item that the shallow copy shares with the previous state. The model gives only the resulting collection value.
- Key order: the iteration order of `Object.keys` is a parameter of `RenderRows`, not derived from JavaScript's property-order rules.
- Inherited properties: JavaScript keys such as `"constructor"` would resolve to prototype members. Map lookups do not model this. Keys produced by `Date.now()` are digit strings.
