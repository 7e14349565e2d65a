/** The list the screen draws: `Object.keys(toDos)` in the mapping's
    iteration order, keeping the items of the active category; the item in
    the edit slot is drawn as an edit box holding the draft. */
module Render {
  import opened ToDos
  import opened App

  datatype Row =
    | EditRow(key: string, draft: string)
    | ItemRow(key: string, text: string, completed: bool)

  /** `order` lists every key of `m` exactly once (what `Object.keys` gives). */
  ghost predicate Enumerates(order: seq<string>, m: ToDoList)
  {
    && (forall k :: k in m <==> k in order)
    && (forall i, j :: 0 <= i < j < |order| ==> order[i] != order[j])
  }

  /** The row for one visible key. */
  function RowFor(s: State, key: string): (r: Row)
    requires key in s.toDos
    ensures r.key == key
    ensures r.EditRow? <==> key == s.editKey
    ensures r.EditRow? ==> r.draft == s.editValue
    ensures r.ItemRow? ==> r.text == s.toDos[key].text && r.completed == s.toDos[key].completed
  {
    if s.editKey == key then EditRow(key, s.editValue)
    else ItemRow(key, s.toDos[key].text, s.toDos[key].completed)
  }

  /** Reference definition: the rows for a prefix of the key order. */
  ghost function Rows(order: seq<string>, s: State): seq<Row>
    decreases |order|
  {
    if order == [] then []
    else
      var k := order[|order| - 1];
      Rows(order[..|order| - 1], s)
        + (if IsVisible(s.toDos, k, s.working) then [RowFor(s, k)] else [])
  }

  /** What a row shows is what the state holds for its key. */
  ghost predicate RowMatches(s: State, r: Row)
  {
    && IsVisible(s.toDos, r.key, s.working)
    && (r.EditRow? <==> r.key == s.editKey)
    && (r.EditRow? ==> r.draft == s.editValue)
    && (r.ItemRow? ==> r.text == s.toDos[r.key].text && r.completed == s.toDos[r.key].completed)
  }

  /** Some row is drawn for key `k`. */
  ghost predicate HasRow(rows: seq<Row>, k: string)
  {
    exists i :: 0 <= i < |rows| && rows[i].key == k
  }

  /** Key `x` comes before key `y` in `order`. */
  ghost predicate InOrder(order: seq<string>, x: string, y: string)
  {
    exists a, b :: 0 <= a < b < |order| && order[a] == x && order[b] == y
  }

  /** Every row is for a key of `order` and shows what the state holds. */
  lemma {:induction false} RowsMatch(order: seq<string>, s: State)
    ensures forall i :: 0 <= i < |Rows(order, s)| ==>
      Rows(order, s)[i].key in order && RowMatches(s, Rows(order, s)[i])
    decreases |order|
  {
    if order != [] {
      var init := order[..|order| - 1];
      RowsMatch(init, s);
      var pre := Rows(init, s);
      var rows := Rows(order, s);
      forall i | 0 <= i < |rows|
        ensures rows[i].key in order && RowMatches(s, rows[i])
      {
        if i < |pre| {
          assert rows[i] == pre[i];
          assert pre[i].key in init;
        }
      }
    }
  }

  /** Every visible key of `order` gets a row. */
  lemma {:induction false} RowsComplete(order: seq<string>, s: State)
    ensures forall k :: k in order && IsVisible(s.toDos, k, s.working) ==>
      HasRow(Rows(order, s), k)
    decreases |order|
  {
    if order != [] {
      var init := order[..|order| - 1];
      var last := order[|order| - 1];
      RowsComplete(init, s);
      var pre := Rows(init, s);
      var rows := Rows(order, s);
      assert rows[..|pre|] == pre;
      forall k' | k' in order && IsVisible(s.toDos, k', s.working)
        ensures HasRow(Rows(order, s), k')
      {
        if k' == last {
          assert rows == pre + [RowFor(s, last)];
          assert rows[|rows| - 1].key == k';
          assert HasRow(rows, k');
        } else {
          assert k' in init by {
            var j :| 0 <= j < |order| && order[j] == k';
            assert j < |order| - 1;
            assert init[j] == k';
          }
          var i :| 0 <= i < |pre| && pre[i].key == k';
          assert rows[i] == pre[i];
          assert HasRow(rows, k');
        }
      }
    }
  }

  /** Rows come in the order of their keys in `order`. */
  lemma {:induction false} RowsOrdered(order: seq<string>, s: State)
    ensures forall i, j :: 0 <= i < j < |Rows(order, s)| ==>
      InOrder(order, Rows(order, s)[i].key, Rows(order, s)[j].key)
    decreases |order|
  {
    if order != [] {
      var init := order[..|order| - 1];
      RowsOrdered(init, s);
      RowsMatch(init, s);
      var pre := Rows(init, s);
      var rows := Rows(order, s);
      forall i, j | 0 <= i < j < |rows| ensures InOrder(order, rows[i].key, rows[j].key) {
        assert rows[i] == pre[i];
        if j < |pre| {
          assert rows[j] == pre[j];
          var a, b :| 0 <= a < b < |init| && init[a] == pre[i].key && init[b] == pre[j].key;
          assert order[a] == init[a] && order[b] == init[b];
        } else {
          assert pre[i].key in init;
          var a :| 0 <= a < |init| && init[a] == pre[i].key;
          assert order[a] == init[a];
          assert order[|order| - 1] == rows[j].key;
        }
      }
    }
  }

  /** No key is drawn twice when `order` has no repeats. */
  lemma {:induction false} RowsDistinct(order: seq<string>, s: State)
    requires forall i, j :: 0 <= i < j < |order| ==> order[i] != order[j]
    ensures forall i, j :: 0 <= i < j < |Rows(order, s)| ==> Rows(order, s)[i].key != Rows(order, s)[j].key
    decreases |order|
  {
    if order != [] {
      var init := order[..|order| - 1];
      var k := order[|order| - 1];
      assert forall i, j :: 0 <= i < j < |init| ==> init[i] != init[j] by {
        forall i, j | 0 <= i < j < |init| ensures init[i] != init[j] {
          assert init[i] == order[i] && init[j] == order[j];
        }
      }
      RowsDistinct(init, s);
      RowsMatch(init, s);
      var pre := Rows(init, s);
      var rows := Rows(order, s);
      assert k !in init;
      forall i, j | 0 <= i < j < |rows| ensures rows[i].key != rows[j].key {
        if j < |pre| {
          assert rows[i] == pre[i] && rows[j] == pre[j];
        } else {
          assert rows[i] == pre[i];
          assert pre[i].key in init;
          assert rows[j].key == k;
        }
      }
    }
  }

  /** The rows are exactly the visible keys of `order`, in order, each
      showing its item; no key is drawn twice when `order` has no repeats. */
  lemma RowsSound(order: seq<string>, s: State)
    ensures forall i :: 0 <= i < |Rows(order, s)| ==>
      Rows(order, s)[i].key in order && RowMatches(s, Rows(order, s)[i])
    ensures forall k :: k in order && IsVisible(s.toDos, k, s.working) ==>
      HasRow(Rows(order, s), k)
    ensures (forall i, j :: 0 <= i < j < |order| ==> order[i] != order[j]) ==>
      forall i, j :: 0 <= i < j < |Rows(order, s)| ==> Rows(order, s)[i].key != Rows(order, s)[j].key
    ensures forall i, j :: 0 <= i < j < |Rows(order, s)| ==> InOrder(order, Rows(order, s)[i].key, Rows(order, s)[j].key)
  {
    RowsMatch(order, s);
    RowsComplete(order, s);
    RowsOrdered(order, s);
    if forall i, j :: 0 <= i < j < |order| ==> order[i] != order[j] {
      RowsDistinct(order, s);
    }
  }

  /** The rows depend only on the collection, the category and the edit
      slot, not on the input box or storage. */
  lemma {:induction false} RowsDependOnView(order: seq<string>, s: State, t: State)
    requires s.toDos == t.toDos && s.working == t.working
    requires s.editKey == t.editKey && s.editValue == t.editValue
    ensures Rows(order, s) == Rows(order, t)
    decreases |order|
  {
    if order != [] {
      RowsDependOnView(order[..|order| - 1], s, t);
    }
  }

  /** The gestures the screen can send in state `s`. Checkbox, edit and
      delete buttons exist only on a listed row that is not being edited, and
      carry the negated flag and the item's text (App.tsx:205-239). The edit
      box, Save and Cancel exist only on the listed row of the edited key
      (App.tsx:192-200). */
  ghost predicate Drawn(s: State, e: Event)
  {
    match e
    case PressCheckbox(k, b) =>
      IsVisible(s.toDos, k, s.working) && k != s.editKey && b == !s.toDos[k].completed
    case PressEditButton(k, v) =>
      IsVisible(s.toDos, k, s.working) && k != s.editKey && v == s.toDos[k].text
    case PressDelete(k, _) =>
      IsVisible(s.toDos, k, s.working) && k != s.editKey
    case TypeEditText(_) => IsVisible(s.toDos, s.editKey, s.working)
    case PressSave => IsVisible(s.toDos, s.editKey, s.working)
    case PressCancel => IsVisible(s.toDos, s.editKey, s.working)
    case _ => true
  }

  /** Every gesture of the session was on screen when it was made. */
  ghost predicate DrawnSession(s: State, evs: seq<Event>)
    decreases |evs|
  {
    evs == [] ||
      (Drawn(s, evs[0]) && (Step(s, evs[0]).Success? ==> DrawnSession(Step(s, evs[0]).value, evs[1..])))
  }

  /** The rendering loop over `Object.keys(toDos)`. */
  method RenderRows(order: seq<string>, s: State) returns (rows: seq<Row>)
    requires Enumerates(order, s.toDos)
    ensures rows == Rows(order, s)
    ensures forall i :: 0 <= i < |rows| ==> RowMatches(s, rows[i])
    ensures forall k :: k in Visible(s.toDos, s.working) ==> HasRow(rows, k)
    ensures forall i, j :: 0 <= i < j < |rows| ==> rows[i].key != rows[j].key
    ensures forall i :: 0 <= i < |rows| && rows[i].EditRow? ==> rows[i].key == s.editKey
    ensures forall i, j :: 0 <= i < j < |rows| ==> InOrder(order, rows[i].key, rows[j].key)
  {
    rows := [];
    var n := 0;
    while n < |order|
      invariant n <= |order|
      invariant rows == Rows(order[..n], s)
    {
      var k := order[n];
      assert order[..n + 1][..n] == order[..n];
      if IsVisible(s.toDos, k, s.working) {
        rows := rows + [RowFor(s, k)];
      }
      n := n + 1;
    }
    assert order[..|order|] == order;
    RowsSound(order, s);
  }
}
