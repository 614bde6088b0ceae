/** What writes do to the data, column by column: the system without caches, stated apart from the code that
    saves. */
module Cacheless {
  import opened Values
  import opened Coherence

  datatype Data = Data(table: Table, nextId: int)

  /** A row as it is first stored: the value under its new id, stamped in the two time columns it may have. */
  function Inserted(value: Row, id: int, now: Value): Row {
    map c | c in value :: if c == "id" then Int(id) else if c == "created_at" || c == "updated_at" then now
      else value[c]
  }

  /** The value differs from the stored row in a column that an update writes. */
  predicate Differs(info: ModelInfo, stored: Row, value: Row) {
    exists c :: c in info.tracked && c != "id" && c != "updated_at" && c in value &&
      (c !in stored || stored[c] != value[c])
  }

  /** A row after an update: tracked columns as in the value, the others as they were, and stamped. */
  function Overwritten(info: ModelInfo, stored: Row, value: Row, now: Value): Row {
    map c | c in stored ::
      if c == "updated_at" then now else if c in info.tracked && c in value && c != "id" then value[c] else stored[c]
  }

  /** The value as its owner sees it after a save that wrote. */
  function Stamped(value: Row, now: Value): Row { map c | c in value :: if c == "updated_at" then now else value[c] }

  /** A value without an id adds a row under a new id; one with an id overwrites the row of that id if there is
      one and it differs; all other rows stay. */
  function Saved(info: ModelInfo, d: Data, value: Row, now: Value): Data {
    var id := GetID(value);
    if id == NO_ID then Data(d.table[Id(d.nextId) := Inserted(value, d.nextId, now)], d.nextId + 1)
    else if id in d.table && Differs(info, d.table[id], value) then
      d.(table := d.table[id := Overwritten(info, d.table[id], value, now)])
    else d
  }

  /** What the caller gets back. A row that is not there counts as the zero row. */
  function Echo(info: ModelInfo, d: Data, value: Row, now: Value): Row {
    var id := GetID(value);
    if id == NO_ID then Inserted(value, d.nextId, now)
    else if Differs(info, if id in d.table then d.table[id] else info.zero, value) then Stamped(value, now)
    else value
  }

  function SavedAll(info: ModelInfo, d: Data, items: seq<(Row, Value)>): Data
    decreases |items|
  {
    if items == [] then d else SavedAll(info, Saved(info, d, items[0].0, items[0].1), items[1..])
  }

  /** A value marked as deleted: only the flag and the time stamp differ. */
  function Flagged(value: Row, now: Value): Row {
    map c | c in value :: if c == "deleted" then Bool(true) else if c == "updated_at" then now else value[c]
  }

  /** Every value has the id of a stored row, and no two have the same. */
  predicate AreStored(t: Table, values: seq<Row>) {
    && (forall k :: 0 <= k < |values| ==> GetID(values[k]) != NO_ID && GetID(values[k]) in t)
    && (forall i, j :: 0 <= i < j < |values| ==> GetID(values[i]) != GetID(values[j]))
  }

  /** The rows of the other ids. */
  function Without(t: Table, values: seq<Row>): Table {
    map id | id in t && (forall k :: 0 <= k < |values| ==> GetID(values[k]) != id) :: t[id]
  }
}
