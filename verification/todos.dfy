/** The to-do items and the string-keyed collection that holds them (App.tsx,
    types `ToDo` and `ToDoList`). */
module ToDos {

  /** One item: its text, the category it was created in (true = Work,
      false = Travel) and whether it has been checked off. */
  datatype ToDo = ToDo(text: string, working: bool, completed: bool)

  /** The collection, keyed by the string form of the creation timestamp. */
  type ToDoList = map<string, ToDo>

  /** m' agrees with m on every key other than `key`: same presence, same item. */
  ghost predicate SameExcept(m: ToDoList, m': ToDoList, key: string)
  {
    forall k :: k != key ==> (k in m <==> k in m') && (k in m ==> m'[k] == m[k])
  }

  /** The item under `key` is listed while the screen shows category `working`. */
  predicate IsVisible(m: ToDoList, key: string, working: bool)
  {
    key in m && m[key].working == working
  }

  /** Every item is listed under exactly one category, and a missing key
      under none. */
  lemma ListedUnderExactlyOne(m: ToDoList, key: string, working: bool)
    ensures IsVisible(m, key, working) ==> !IsVisible(m, key, !working)
    ensures key in m ==> IsVisible(m, key, working) || IsVisible(m, key, !working)
    ensures key !in m ==> !IsVisible(m, key, working)
  {
  }

  /** The keys listed while the screen shows category `working`. */
  ghost function Visible(m: ToDoList, working: bool): set<string>
  {
    set k | k in m && IsVisible(m, k, working)
  }

  /** Every item has non-empty text. */
  ghost predicate AllTextsNonEmpty(m: ToDoList)
  {
    forall k :: k in m ==> m[k].text != ""
  }
}
