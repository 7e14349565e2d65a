/** Properties that relate several handlers: the storage round trips, the
    toggle involution, the filter-only category switch and the add/delete
    frame laws over whole gesture sequences. */
module AppProperties {
  import opened Wrappers
  import opened ToDos
  import opened Storage
  import opened App
  import opened Render

  /** Only the encoding of Work reads back as Work; every other string,
      including garbage, reads back as Travel. */
  lemma DecodeModeOnlyTrue(v: string)
    ensures DecodeMode(v) <==> v == EncodeMode(true)
  {
  }

  /** Saving a category and reading it back yields that category. */
  lemma SaveThenLoadMode(s: State, b: bool)
    ensures LoadPreviousMode(SwitchMode(s, b)).working == b
    ensures LoadPreviousMode(SwitchMode(s, b)) == SwitchMode(s, b)
  {
  }

  /** Each handler that succeeds keeps memory and storage in agreement. */
  lemma StepPreservesSynced(s: State, e: Event)
    requires Synced(s)
    ensures Step(s, e).Success? ==> Synced(Step(s, e).value)
  {
  }

  /** Any gesture sequence that does not throw keeps memory and storage in
      agreement. */
  lemma {:induction false} RunPreservesSynced(s: State, evs: seq<Event>)
    requires Synced(s)
    ensures Run(s, evs).Success? ==> Synced(Run(s, evs).value)
    decreases |evs|
  {
    if evs != [] {
      StepPreservesSynced(s, evs[0]);
      match Step(s, evs[0])
      case Failure(_) =>
      case Success(t) => RunPreservesSynced(t, evs[1..]);
    }
  }

  /** The two loading effects touch different fields, so whichever of them
      resolves first, the launched state is the same. */
  lemma LoadOrderIrrelevant(s: State)
    ensures LoadToDos(LoadPreviousMode(s)) == LoadPreviousMode(LoadToDos(s))
  {
  }

  /** No gesture the screen can send throws: the failing inputs of the
      checkbox and Save handlers are never drawn. */
  lemma DrawnGestureSucceeds(s: State, e: Event)
    requires Drawn(s, e)
    ensures Step(s, e).Success?
  {
  }

  /** A session made only of gestures that were on screen never throws. */
  lemma {:induction false} ScreenSessionNeverThrows(s: State, evs: seq<Event>)
    requires DrawnSession(s, evs)
    ensures Run(s, evs).Success?
    decreases |evs|
  {
    if evs != [] {
      DrawnGestureSucceeds(s, evs[0]);
      RunFirstStep(s, evs);
      ScreenSessionNeverThrows(Step(s, evs[0]).value, evs[1..]);
    }
  }

  /** Launching from any store leaves memory and storage in agreement. */
  lemma LaunchIsSynced(store: Store)
    ensures Synced(Launch(store))
  {
  }

  /** Relaunching from the store of a synced state restores its collection
      and its category. */
  lemma RestartRestores(s: State)
    requires Synced(s)
    ensures Launch(s.store).toDos == s.toDos
    ensures Launch(s.store).working == s.working
  {
  }

  /** After any session that did not throw, a restart shows the same items
      in the same category. */
  lemma SessionSurvivesRestart(store: Store, evs: seq<Event>)
    ensures Run(Launch(store), evs).Success? ==>
      && Launch(Run(Launch(store), evs).value.store).toDos == Run(Launch(store), evs).value.toDos
      && Launch(Run(Launch(store), evs).value.store).working == Run(Launch(store), evs).value.working
  {
    LaunchIsSynced(store);
    RunPreservesSynced(Launch(store), evs);
    if Run(Launch(store), evs).Success? {
      RestartRestores(Run(Launch(store), evs).value);
    }
  }

  /** Pressing the checkbox twice (it sends the negation of the current flag)
      restores the collection. */
  lemma ToggleTwiceRestores(s: State, key: string)
    requires key in s.toDos
    ensures HandleCompleteState(s, key, !s.toDos[key].completed).Success?
    ensures
      var t := HandleCompleteState(s, key, !s.toDos[key].completed).value;
      && key in t.toDos
      && HandleCompleteState(t, key, !t.toDos[key].completed).Success?
      && HandleCompleteState(t, key, !t.toDos[key].completed).value.toDos == s.toDos
  {
    var t := HandleCompleteState(s, key, !s.toDos[key].completed).value;
    var u := HandleCompleteState(t, key, !t.toDos[key].completed).value;
    assert u.toDos[key] == s.toDos[key];
  }

  /** The two categories split the collection: every key is listed under
      exactly one of them. */
  lemma CategoriesPartition(m: ToDoList)
    ensures Visible(m, true) + Visible(m, false) == m.Keys
    ensures Visible(m, true) !! Visible(m, false)
  {
  }

  /** Switching category only changes what is listed: switching away and back
      restores the same collection, the same visible keys and the same rows. */
  lemma SwitchAwayAndBack(s: State, order: seq<string>)
    ensures SwitchMode(SwitchMode(s, !s.working), s.working).toDos == s.toDos
    ensures Visible(SwitchMode(SwitchMode(s, !s.working), s.working).toDos,
                    SwitchMode(SwitchMode(s, !s.working), s.working).working)
         == Visible(s.toDos, s.working)
    ensures Rows(order, SwitchMode(SwitchMode(s, !s.working), s.working)) == Rows(order, s)
  {
    RowsDependOnView(order, SwitchMode(SwitchMode(s, !s.working), s.working), s);
  }

  /** A deleted item stays deleted: checking it off or saving an edit of it
      throws instead of bringing it back. */
  lemma DeletedStaysDeleted(s: State, key: string, b: bool, draft: string)
    ensures HandleCompleteState(DeleteToDo(s, key, true), key, b) == Failure(MissingItem(key))
    ensures UpdateToDo(PressEdit(DeleteToDo(s, key, true), key, draft)) == Failure(MissingItem(key))
  {
  }

  /** One entry for `AddEvents`: the text typed and the timestamp at submission. */
  datatype Entry = Entry(text: string, key: string)

  /** Typing and submitting each entry in turn. */
  function AddEvents(entries: seq<Entry>): (evs: seq<Event>)
    ensures |evs| == 2 * |entries|
  {
    if entries == [] then []
    else [TypeText(entries[0].text), SubmitText(entries[0].key)] + AddEvents(entries[1..])
  }

  /** A session whose first gesture does not throw continues from the state
      that gesture leaves. */
  lemma RunFirstStep(s: State, evs: seq<Event>)
    requires evs != [] && Step(s, evs[0]).Success?
    ensures Run(s, evs) == Run(Step(s, evs[0]).value, evs[1..])
  {
  }

  /** Typing and submitting the first entry, then the rest. */
  lemma AddEventsUnfold(s: State, entries: seq<Entry>)
    requires entries != []
    ensures Run(s, AddEvents(entries))
         == Run(AddToDo(ChangeText(s, entries[0].text), entries[0].key), AddEvents(entries[1..]))
  {
    var evs := AddEvents(entries);
    assert evs[0] == TypeText(entries[0].text);
    assert evs[1..][0] == SubmitText(entries[0].key);
    assert evs[1..][1..] == AddEvents(entries[1..]);
    RunFirstStep(s, evs);
    RunFirstStep(ChangeText(s, entries[0].text), evs[1..]);
  }

  /** Adding non-empty texts under fresh, distinct keys grows the collection
      by exactly one per entry and keeps every earlier item. */
  lemma {:induction false} AddsGrowByOne(s: State, entries: seq<Entry>)
    requires forall i :: 0 <= i < |entries| ==> entries[i].text != ""
    requires forall i :: 0 <= i < |entries| ==> entries[i].key !in s.toDos
    requires forall i, j :: 0 <= i < j < |entries| ==> entries[i].key != entries[j].key
    ensures Run(s, AddEvents(entries)).Success?
    ensures |Run(s, AddEvents(entries)).value.toDos| == |s.toDos| + |entries|
    ensures forall k :: k in s.toDos ==>
      k in Run(s, AddEvents(entries)).value.toDos && Run(s, AddEvents(entries)).value.toDos[k] == s.toDos[k]
    ensures forall i :: 0 <= i < |entries| ==>
      && entries[i].key in Run(s, AddEvents(entries)).value.toDos
      && Run(s, AddEvents(entries)).value.toDos[entries[i].key].text == entries[i].text
      && !Run(s, AddEvents(entries)).value.toDos[entries[i].key].completed
    decreases |entries|
  {
    if entries != [] {
      var e := entries[0];
      var rest := entries[1..];
      var t := AddToDo(ChangeText(s, e.text), e.key);
      AddEventsUnfold(s, entries);
      forall i | 0 <= i < |rest| ensures rest[i].key !in t.toDos {
        assert rest[i] == entries[i + 1];
      }
      AddsGrowByOne(t, rest);
      var u := Run(t, AddEvents(rest)).value;
      forall i | 0 <= i < |entries|
        ensures entries[i].key in u.toDos && u.toDos[entries[i].key].text == entries[i].text
        ensures !u.toDos[entries[i].key].completed
      {
        if i > 0 {
          assert entries[i] == rest[i - 1];
        }
      }
    }
  }

  /** Adding keeps every text non-empty, since empty input is ignored. */
  lemma AddKeepsTextsNonEmpty(s: State, key: string)
    requires AllTextsNonEmpty(s.toDos)
    ensures AllTextsNonEmpty(AddToDo(s, key).toDos)
  {
  }

  /** Saving an edit does not check the draft, so an item can end up with
      empty text. */
  lemma UpdateCanEmptyText()
    ensures
      var s := State(true, "", map["1" := ToDo("a", true, false)], "1", "", EmptyStore);
      && AllTextsNonEmpty(s.toDos)
      && UpdateToDo(s).Success?
      && !AllTextsNonEmpty(UpdateToDo(s).value.toDos)
  {
    var s := State(true, "", map["1" := ToDo("a", true, false)], "1", "", EmptyStore);
    assert UpdateToDo(s).value.toDos["1"].text == "";
  }

  /** Add "Buy milk" in Work, check it off, delete it with confirmation. */
  lemma BuyMilkScenario()
    ensures
      var s0 := ChangeText(Launch(EmptyStore), "Buy milk");
      var s1 := AddToDo(s0, "1");
      && s1.toDos == map["1" := ToDo("Buy milk", true, false)]
      && HandleCompleteState(s1, "1", true).Success?
      && HandleCompleteState(s1, "1", true).value.toDos["1"].completed
      && DeleteToDo(HandleCompleteState(s1, "1", true).value, "1", true).toDos == map[]
  {
  }

  /** A Work item is hidden under Travel and listed again under Work. */
  lemma TravelHidesWorkItem(s: State, key: string)
    requires s.toDos == map[key := ToDo("Buy milk", true, false)]
    ensures Visible(Travel(s).toDos, Travel(s).working) == {}
    ensures Visible(Work(Travel(s)).toDos, Work(Travel(s)).working) == {key}
  {
  }
}
