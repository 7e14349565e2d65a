/** The device storage as the controller sees it: the last collection written
    under "@toDos" and the last mode string written under "@previousMode". */
module Storage {
  import opened Wrappers
  import opened ToDos

  /** None means nothing was ever written under that key. */
  datatype Store = Store(toDos: Option<ToDoList>, mode: Option<string>)

  /** A store in which neither key has ever been written. */
  const EmptyStore: Store := Store(None, None)

  /** The string JSON.stringify produces for a boolean. */
  function EncodeMode(b: bool): (v: string)
    ensures DecodeMode(v) == b
    ensures v != ""
  {
    if b then "true" else "false"
  }

  /** How a stored mode string is read back: only "true" means Work. */
  function DecodeMode(v: string): (b: bool)
    ensures b ==> v == "true"
    ensures v == "false" ==> !b
  {
    v == "true"
  }

  /** Writes the whole collection, replacing the previous snapshot. */
  function SaveToDos(st: Store, m: ToDoList): (r: Store)
    ensures r.toDos == Some(m) && r.mode == st.mode
  {
    st.(toDos := Some(m))
  }

  /** Writes the encoded mode flag, replacing the previous one. */
  function SaveMode(st: Store, b: bool): (r: Store)
    ensures r.mode.Some? && DecodeMode(r.mode.value) == b
    ensures r.toDos == st.toDos
  {
    st.(mode := Some(EncodeMode(b)))
  }
}
