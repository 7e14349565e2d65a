/** The state controller of the `App` component: the five pieces of React
    state plus the storage they are written to, and one pure function per
    event handler. Every handler copies the collection, changes at most one
    entry and writes the copy back. */
module App {
  import opened Wrappers
  import opened ToDos
  import opened Storage

  /** `working` is the active category (true = Work); `text` the input box;
      `editKey`/`editValue` the single edit slot ("" = no edit in progress). */
  datatype State = State(
    working: bool,
    text: string,
    toDos: ToDoList,
    editKey: string,
    editValue: string,
    store: Store)

  /** A handler threw: it looked up a key with no item and assigned a field
      of `undefined`. */
  datatype Fault = MissingItem(key: string)

  /** The input box, the category and the edit slot are as they were. */
  ghost predicate SameInputs(s: State, t: State)
  {
    t.working == s.working && t.text == s.text && t.editKey == s.editKey && t.editValue == s.editValue
  }

  /** The persisted collection is the in-memory one, and the mode key is untouched. */
  ghost predicate Persisted(s: State, t: State)
  {
    t.store.toDos == Some(t.toDos) && t.store.mode == s.store.mode
  }

  /** The state right after mounting, before the effects that read storage. */
  function Mount(store: Store): (s: State)
    ensures s.working && s.text == "" && s.toDos == map[]
    ensures s.editKey == "" && s.editValue == "" && s.store == store
  {
    State(true, "", map[], "", "", store)
  }

  /** `saveCurrentMode` together with `setWorking`: the two mode buttons. */
  function SwitchMode(s: State, b: bool): (r: State)
    ensures r.working == b
    ensures r.toDos == s.toDos && r.store.toDos == s.store.toDos
    ensures r.store.mode.Some? && DecodeMode(r.store.mode.value) == b
    ensures r.text == s.text && r.editKey == s.editKey && r.editValue == s.editValue
  {
    s.(working := b, store := SaveMode(s.store, b))
  }

  function Travel(s: State): (r: State)
    ensures !r.working && r.toDos == s.toDos
    ensures r.store.mode == Some("false")
    ensures r.store.toDos == s.store.toDos
    ensures r.text == s.text && r.editKey == s.editKey && r.editValue == s.editValue
  {
    SwitchMode(s, false)
  }

  function Work(s: State): (r: State)
    ensures r.working && r.toDos == s.toDos
    ensures r.store.mode == Some("true")
    ensures r.store.toDos == s.store.toDos
    ensures r.text == s.text && r.editKey == s.editKey && r.editValue == s.editValue
  {
    SwitchMode(s, true)
  }

  /** `onChangeText`: the input box follows what the user types. */
  function ChangeText(s: State, payload: string): (r: State)
    ensures r.text == payload
    ensures r.toDos == s.toDos && r.store == s.store
    ensures r.working == s.working && r.editKey == s.editKey && r.editValue == s.editValue
  {
    s.(text := payload)
  }

  /** `loadToDos`: a stored collection replaces the in-memory one; nothing
      stored leaves it as it is. */
  function LoadToDos(s: State): (r: State)
    ensures s.store.toDos.None? ==> r == s
    ensures s.store.toDos.Some? ==> r.toDos == s.store.toDos.value
    ensures r.store == s.store && SameInputs(s, r)
  {
    match s.store.toDos
    case None => s
    case Some(m) => s.(toDos := m)
  }

  /** `loadPreviousMode`: a stored mode string sets the category; nothing
      stored leaves it as it is. */
  function LoadPreviousMode(s: State): (r: State)
    ensures s.store.mode.None? ==> r == s
    ensures s.store.mode.Some? ==> (r.working <==> s.store.mode.value == EncodeMode(true))
    ensures r.toDos == s.toDos && r.store == s.store
    ensures r.text == s.text && r.editKey == s.editKey && r.editValue == s.editValue
  {
    match s.store.mode
    case None => s
    case Some(v) => s.(working := DecodeMode(v))
  }

  /** Mounting followed by the two loading effects. */
  function Launch(store: Store): (s: State)
    ensures store.toDos.Some? ==> s.toDos == store.toDos.value
    ensures store.toDos.None? ==> s.toDos == map[]
    ensures store.mode.None? ==> s.working
    ensures store.mode.Some? ==> s.working == DecodeMode(store.mode.value)
    ensures s.text == "" && s.editKey == "" && s.editValue == "" && s.store == store
  {
    LoadPreviousMode(LoadToDos(Mount(store)))
  }

  /** `addToDo`, with the timestamp `Date.now()` passed in as `key`. Empty
      input does nothing; otherwise the item is stored under `key` in the
      current category, replacing any item already there, the collection is
      persisted and the input box is cleared. */
  function AddToDo(s: State, key: string): (r: State)
    ensures s.text == "" ==> r == s
    ensures s.text != "" ==>
      && key in r.toDos
      && r.toDos[key] == ToDo(s.text, s.working, false)
      && SameExcept(s.toDos, r.toDos, key)
      && r.toDos.Keys == s.toDos.Keys + {key}
      && |r.toDos| == (if key in s.toDos then |s.toDos| else |s.toDos| + 1)
      && Persisted(s, r)
      && r.text == ""
      && r.working == s.working && r.editKey == s.editKey && r.editValue == s.editValue
  {
    if s.text == "" then s
    else
      var newToDos := s.toDos[key := ToDo(s.text, s.working, false)];
      s.(toDos := newToDos, store := SaveToDos(s.store, newToDos), text := "")
  }

  /** `deleteToDo` with the dialog's answer as `confirmed`. A refusal changes
      nothing; a confirmation removes exactly `key` (if present) and persists. */
  function DeleteToDo(s: State, key: string, confirmed: bool): (r: State)
    ensures !confirmed ==> r == s
    ensures confirmed ==>
      && key !in r.toDos
      && SameExcept(s.toDos, r.toDos, key)
      && r.toDos.Keys == s.toDos.Keys - {key}
      && |r.toDos| == (if key in s.toDos then |s.toDos| - 1 else |s.toDos|)
      && Persisted(s, r)
      && SameInputs(s, r)
    ensures confirmed && key !in s.toDos ==> r.toDos == s.toDos
  {
    if !confirmed then s
    else
      var newToDos := s.toDos - {key};
      s.(toDos := newToDos, store := SaveToDos(s.store, newToDos))
  }

  /** `handleCompleteState`: sets the completed flag of one item and persists.
      A key with no item throws. */
  function HandleCompleteState(s: State, key: string, changeTo: bool): (r: Result<State, Fault>)
    ensures r.Success? <==> key in s.toDos
    ensures r.Failure? ==> r.error == MissingItem(key)
    ensures r.Success? ==>
      && key in r.value.toDos
      && r.value.toDos[key].completed == changeTo
      && r.value.toDos[key].text == s.toDos[key].text
      && r.value.toDos[key].working == s.toDos[key].working
      && SameExcept(s.toDos, r.value.toDos, key)
      && r.value.toDos.Keys == s.toDos.Keys
      && Persisted(s, r.value)
      && SameInputs(s, r.value)
  {
    if key !in s.toDos then Failure(MissingItem(key))
    else
      var newToDos := s.toDos[key := s.toDos[key].(completed := changeTo)];
      Success(s.(toDos := newToDos, store := SaveToDos(s.store, newToDos)))
  }

  /** `onPressEdit`: opens the single edit slot on `key` with a draft. Any
      edit already in progress is abandoned. */
  function PressEdit(s: State, key: string, initValue: string): (r: State)
    ensures r.editKey == key && r.editValue == initValue
    ensures r.toDos == s.toDos && r.store == s.store
    ensures r.working == s.working && r.text == s.text
  {
    s.(editKey := key, editValue := initValue)
  }

  /** `onChangeEditText`: the draft follows what the user types. */
  function ChangeEditText(s: State, payload: string): (r: State)
    ensures r.editValue == payload
    ensures r.editKey == s.editKey && r.toDos == s.toDos && r.store == s.store
    ensures r.working == s.working && r.text == s.text
  {
    s.(editValue := payload)
  }

  /** `updateToDo`: writes the draft into the text of the item being edited,
      persists, and closes the edit slot. A slot naming no item throws. */
  function UpdateToDo(s: State): (r: Result<State, Fault>)
    ensures r.Success? <==> s.editKey in s.toDos
    ensures r.Failure? ==> r.error == MissingItem(s.editKey)
    ensures r.Success? ==>
      && s.editKey in r.value.toDos
      && r.value.toDos[s.editKey].text == s.editValue
      && r.value.toDos[s.editKey].working == s.toDos[s.editKey].working
      && r.value.toDos[s.editKey].completed == s.toDos[s.editKey].completed
      && SameExcept(s.toDos, r.value.toDos, s.editKey)
      && r.value.toDos.Keys == s.toDos.Keys
      && Persisted(s, r.value)
      && r.value.editKey == "" && r.value.editValue == ""
      && r.value.working == s.working && r.value.text == s.text
  {
    if s.editKey !in s.toDos then Failure(MissingItem(s.editKey))
    else
      var newToDos := s.toDos[s.editKey := s.toDos[s.editKey].(text := s.editValue)];
      Success(s.(toDos := newToDos, store := SaveToDos(s.store, newToDos), editKey := "", editValue := ""))
  }

  /** `cancelUpdate`: closes the edit slot, leaving the collection alone. */
  function CancelUpdate(s: State): (r: State)
    ensures r.editKey == "" && r.editValue == ""
    ensures r.toDos == s.toDos && r.store == s.store
    ensures r.working == s.working && r.text == s.text
  {
    s.(editKey := "", editValue := "")
  }

  /** The user gestures the screen wires to the handlers above. */
  datatype Event =
    | PressWork
    | PressTravel
    | TypeText(payload: string)
    | SubmitText(key: string)
    | PressDelete(key: string, confirmed: bool)
    | PressCheckbox(key: string, changeTo: bool)
    | PressEditButton(key: string, initValue: string)
    | TypeEditText(payload: string)
    | PressSave
    | PressCancel

  /** The keys a gesture may add an item under: only submitting text adds. */
  function AddedKey(e: Event): set<string>
  {
    if e.SubmitText? then {e.key} else {}
  }

  /** One gesture; a thrown handler ends the session. Only the checkbox and
      the save button can throw, and only on a key with no item; no gesture
      but submitting text adds a key. */
  function Step(s: State, e: Event): (r: Result<State, Fault>)
    ensures r.Failure? ==>
      || (e.PressCheckbox? && e.key !in s.toDos && r.error == MissingItem(e.key))
      || (e.PressSave? && s.editKey !in s.toDos && r.error == MissingItem(s.editKey))
    ensures !e.PressCheckbox? && !e.PressSave? ==> r.Success?
    ensures r.Success? ==> r.value.toDos.Keys <= s.toDos.Keys + AddedKey(e)
  {
    match e
    case PressWork => Success(Work(s))
    case PressTravel => Success(Travel(s))
    case TypeText(p) => Success(ChangeText(s, p))
    case SubmitText(k) => Success(AddToDo(s, k))
    case PressDelete(k, ok) => Success(DeleteToDo(s, k, ok))
    case PressCheckbox(k, b) => HandleCompleteState(s, k, b)
    case PressEditButton(k, v) => Success(PressEdit(s, k, v))
    case TypeEditText(p) => Success(ChangeEditText(s, p))
    case PressSave => UpdateToDo(s)
    case PressCancel => Success(CancelUpdate(s))
  }

  /** The keys a gesture sequence may add items under. */
  function AddedKeys(evs: seq<Event>): set<string>
  {
    set i | 0 <= i < |evs| && evs[i].SubmitText? :: evs[i].key
  }

  /** A sequence of gestures, stopping at the first fault. A session without
      checkbox or save presses never throws, and a session only ever holds
      items under its starting keys and the keys it submitted. */
  function Run(s: State, evs: seq<Event>): (r: Result<State, Fault>)
    ensures (forall i :: 0 <= i < |evs| ==> !evs[i].PressCheckbox? && !evs[i].PressSave?) ==> r.Success?
    ensures r.Success? ==> r.value.toDos.Keys <= s.toDos.Keys + AddedKeys(evs)
    decreases |evs|
  {
    if evs == [] then Success(s)
    else
      match Step(s, evs[0])
      case Failure(f) => Failure(f)
      case Success(t) => Run(t, evs[1..])
  }

  /** In-memory state and storage agree: relaunching from the store would
      rebuild the same collection and the same category. */
  ghost predicate Synced(s: State)
  {
    && (match s.store.toDos
        case None => s.toDos == map[]
        case Some(m) => s.toDos == m)
    && (match s.store.mode
        case None => s.working
        case Some(v) => s.working == DecodeMode(v))
  }
}
