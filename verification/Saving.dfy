/** What saving and deleting do to the table and the caches, as functions, and why that is coherent. */
module Saving {
  import opened Values
  import opened CacheIndexing
  import opened Coherence
  import opened Invalidation
  import opened Cacheless

  const CREATED_AT := "created_at"
  const UPDATED_AT := "updated_at"

  function Stamp(info: ModelInfo, row: Row, column: Column, now: Value): Row {
    if column in info.columns then row[column := now] else row
  }

  function NewRow(info: ModelInfo, value: Row, id: Id, now: Value): Row {
    Stamp(info, Stamp(info, value, CREATED_AT, now), UPDATED_AT, now)[ID := Int(id.n)]
  }

  /** The columns an UPDATE would set, before the time stamp is added. */
  function ChangedFields(info: ModelInfo, original: Row, value: Row): map<Column, Value> {
    map c | c in info.tracked && c != ID && c != UPDATED_AT && c in value &&
      (c !in original || value[c] != original[c]) :: value[c]
  }

  /** Outcome of one save: the table, the next id, the row as the caller gets it back, and the write to
      be finalized in the caches, if anything was written. */
  datatype SaveOutcome = SaveOutcome(table: Table, nextId: int, row: Row, write: Option<Write>)

  function OriginalOf(w: World, t: Table, id: Id): Row { if id in t then t[id] else w.info.zero }

  function Create(w: World, t: Table, nextId: int, value: Row, now: Value): SaveOutcome {
    var row := NewRow(w.info, value, Id(nextId), now);
    SaveOutcome(t[Id(nextId) := row], nextId + 1, row, Some(Write(row, None, true, false)))
  }

  function Update(w: World, t: Table, nextId: int, value: Row, now: Value): SaveOutcome {
    var id := GetID(value);
    var original := OriginalOf(w, t, id);
    var changed := ChangedFields(w.info, original, value);
    if changed == map[] then SaveOutcome(t, nextId, value, None)
    else
      var row := Stamp(w.info, value, UPDATED_AT, now);
      var t' := if id in t then t[id := Stamp(w.info, t[id] + changed, UPDATED_AT, now)] else t;
      SaveOutcome(t', nextId, row, Some(Write(row, Some(original), false, false)))
  }

  function SaveRow(w: World, t: Table, nextId: int, value: Row, now: Value): SaveOutcome {
    if GetID(value) == NO_ID then Create(w, t, nextId, value, now) else Update(w, t, nextId, value, now)
  }

  // ---- The same, column by column. ----

  lemma NewRowIsInserted(info: ModelInfo, value: Row, id: Id, now: Value)
    requires WfRow(info, value)
    ensures NewRow(info, value, id, now) == Inserted(value, id.n, now)
  {
  }

  lemma StampIsStamped(info: ModelInfo, value: Row, now: Value)
    requires value.Keys == info.columns
    ensures Stamp(info, value, UPDATED_AT, now) == Stamped(value, now)
  {
  }

  lemma ChangedIffDiffers(info: ModelInfo, original: Row, value: Row)
    ensures ChangedFields(info, original, value) == map[] <==> !Differs(info, original, value)
  {
    var changed := ChangedFields(info, original, value);
    if Differs(info, original, value) {
      var c :| c in info.tracked && c != "id" && c != "updated_at" && c in value &&
        (c !in original || original[c] != value[c]);
      assert c in changed;
    } else {
      assert forall c :: c !in changed;
    }
  }

  lemma MergedIsOverwritten(info: ModelInfo, stored: Row, value: Row, now: Value)
    requires WfRow(info, stored) && WfRow(info, value) && info.tracked <= info.columns
    ensures Stamp(info, stored + ChangedFields(info, stored, value), UPDATED_AT, now) ==
      Overwritten(info, stored, value, now)
  {
    var changed := ChangedFields(info, stored, value);
    assert changed.Keys <= stored.Keys;
    assert forall c :: c in stored && c != UPDATED_AT && c in info.tracked && c != ID ==>
      (stored + changed)[c] == value[c];
  }

  /** A save does to the table, and returns, what the system without caches does. */
  lemma SaveRowIsSaved(w: World, t: Table, nextId: int, value: Row, now: Value)
    requires WfInfo(w.info) && WfTable(w.info, t) && WfRow(w.info, value)
    ensures var out, d := SaveRow(w, t, nextId, value, now), Data(t, nextId);
      Data(out.table, out.nextId) == Saved(w.info, d, value, now) && out.row == Echo(w.info, d, value, now)
  {
    var id := GetID(value);
    hide Stamp, ChangedFields, NewRow, Inserted, Overwritten, Stamped, Differs;
    if id == NO_ID {
      NewRowIsInserted(w.info, value, Id(nextId), now);
    } else {
      ChangedIffDiffers(w.info, OriginalOf(w, t, id), value);
      StampIsStamped(w.info, value, now);
      if id in t { MergedIsOverwritten(w.info, t[id], value, now); }
    }
  }

  lemma InsertedIsWf(info: ModelInfo, value: Row, id: int, now: Value)
    requires WfRow(info, value)
    ensures WfRow(info, Inserted(value, id, now)) && GetID(Inserted(value, id, now)) == Id(id)
  {
  }

  lemma OverwrittenIsWf(info: ModelInfo, stored: Row, value: Row, now: Value)
    requires WfRow(info, stored) && WfRow(info, value)
    ensures WfRow(info, Overwritten(info, stored, value, now)) &&
      GetID(Overwritten(info, stored, value, now)) == GetID(stored)
  {
  }

  lemma SavedKeepsWf(info: ModelInfo, d: Data, value: Row, now: Value)
    requires WfTable(info, d.table) && WfRow(info, value) && d.nextId > 0
    ensures WfTable(info, Saved(info, d, value, now).table) && Saved(info, d, value, now).nextId > 0
  {
    var id := GetID(value);
    InsertedIsWf(info, value, d.nextId, now);
    if id in d.table { OverwrittenIsWf(info, d.table[id], value, now); }
    hide WfRow, GetID, Inserted, Overwritten, Differs;
  }

  lemma {:induction false} SaveAllIsSavedAll(w: World, t: Table, nextId: int, items: seq<(Row, Value)>)
    requires WfInfo(w.info) && WfTable(w.info, t) && nextId > 0
    requires forall k :: 0 <= k < |items| ==> WfRow(w.info, items[k].0)
    ensures var out := SaveAll(w, t, nextId, items);
      Data(out.table, out.nextId) == SavedAll(w.info, Data(t, nextId), items)
    decreases |items|
  {
    hide SaveRow, Saved, WfTable, WfInfo;
    if items != [] {
      var first := SaveRow(w, t, nextId, items[0].0, items[0].1);
      SaveRowIsSaved(w, t, nextId, items[0].0, items[0].1);
      SavedKeepsWf(w.info, Data(t, nextId), items[0].0, items[0].1);
      SaveAllIsSavedAll(w, first.table, first.nextId, items[1..]);
    }
  }

  /** Caching the saved row and dropping the affected query entries. It does not look at the table. */
  ghost function Finalize(w: World, regs: Registry, c: Caches, x: Write): Caches {
    Caches(c.models[GetID(x.model) := Present(x.model)], c.queries - Dropped(w, regs, c.queries, x))
  }

  ghost function FinalizeDelete(w: World, regs: Registry, c: Caches, row: Row): Caches {
    Caches(c.models - {GetID(row)}, c.queries - Dropped(w, regs, c.queries, Write(row, Some(row), false, true)))
  }

  // ---- When a save is covered. ----

  /** Columns tagged `diff:"-"` are never written by an UPDATE; the value must not differ in them. */
  predicate SameUntracked(info: ModelInfo, stored: Row, value: Row) {
    forall c :: c in info.columns && c !in info.tracked && c != ID && c != UPDATED_AT ==>
      c in stored && c in value && stored[c] == value[c]
  }

  /** The hypotheses on one save: an update names an existing row, leaves the untracked columns alone, and
      does not make a row visible behind the back of KeepItemFields. */
  predicate SaveOk(w: World, t: Table, value: Row, now: Value) {
    var id := GetID(value);
    WfRow(w.info, value) &&
    (id != NO_ID ==>
      id in t &&
      (ChangedFields(w.info, t[id], value) != map[] ==>
        SameUntracked(w.info, t[id], value) && Covered(w, t[id], Stamp(w.info, value, UPDATED_AT, now))))
  }

  ghost predicate FreshId(t: Table, nextId: int) { nextId > 0 && forall id :: id in t ==> id.n < nextId }

  lemma StampKeepsWf(info: ModelInfo, row: Row, column: Column, now: Value)
    requires WfRow(info, row) && (column == CREATED_AT || column == UPDATED_AT)
    ensures WfRow(info, Stamp(info, row, column, now)) && GetID(Stamp(info, row, column, now)) == GetID(row)
  {
  }

  lemma NewRowIsWf(info: ModelInfo, value: Row, id: Id, now: Value)
    requires WfRow(info, value)
    ensures WfRow(info, NewRow(info, value, id, now)) && GetID(NewRow(info, value, id, now)) == id
  {
    StampKeepsWf(info, value, CREATED_AT, now);
    StampKeepsWf(info, Stamp(info, value, CREATED_AT, now), UPDATED_AT, now);
  }

  /** The row the UPDATE leaves in the table is the row that is cached, if the untracked columns agree. */
  lemma StoredIsSaved(info: ModelInfo, stored: Row, value: Row, now: Value)
    requires info.tracked <= info.columns && WfRow(info, stored) && WfRow(info, value) && GetID(stored) == GetID(value)
    ensures SameUntracked(info, stored, value) <==>
      Stamp(info, stored + ChangedFields(info, stored, value), UPDATED_AT, now) == Stamp(info, value, UPDATED_AT, now)
  {
    var changed := ChangedFields(info, stored, value);
    var merged := stored + changed;
    forall c | c in info.columns && c in info.tracked && c != ID && c != UPDATED_AT
      ensures merged[c] == value[c]
    {
      if stored[c] == value[c] { assert c !in changed; } else { assert c in changed; }
    }
    assert merged[ID] == value[ID];
    var a, b := Stamp(info, merged, UPDATED_AT, now), Stamp(info, value, UPDATED_AT, now);
    assert a.Keys == b.Keys == info.columns;
    if SameUntracked(info, stored, value) {
      assert forall c :: c in info.columns ==> a[c] == b[c];
    } else {
      var c :| c in info.columns && c !in info.tracked && c != ID && c != UPDATED_AT && stored[c] != value[c];
      assert a[c] == stored[c] && b[c] == value[c];
    }
  }

  /** A covered save that writes is one change of the table, and its write is the one finalized. */
  lemma SaveIsMutation(w: World, t: Table, nextId: int, value: Row, now: Value) returns (m: Mutation)
    requires WfInfo(w.info) && WfTable(w.info, t) && FreshId(t, nextId) && SaveOk(w, t, value, now)
    requires SaveRow(w, t, nextId, value, now).write.Some?
    ensures MutationOk(w, t, m) && !m.Remove?
    ensures WriteOf(m) == SaveRow(w, t, nextId, value, now).write.value &&
      Apply(t, m) == SaveRow(w, t, nextId, value, now).table
    ensures FreshId(Apply(t, m), SaveRow(w, t, nextId, value, now).nextId)
  {
    hide Covered, ChangedFields, Stamp, NewRow, SameUntracked;
    var id := GetID(value);
    if id == NO_ID {
      m := Insert(Id(nextId), NewRow(w.info, value, Id(nextId), now));
      NewRowIsWf(w.info, value, Id(nextId), now);
    } else {
      m := Replace(id, t[id], Stamp(w.info, value, UPDATED_AT, now));
      StampKeepsWf(w.info, value, UPDATED_AT, now);
      StoredIsSaved(w.info, t[id], value, now);
    }
  }

  lemma FinalizeModels(w: World, t: Table, models: map<Id, Cached>, m: Mutation)
    requires ModelsOk(t, models) && MutationOk(w, t, m)
    ensures !m.Remove? ==> ModelsOk(Apply(t, m), models[m.id := Present(m.row)])
    ensures m.Remove? ==> ModelsOk(Apply(t, m), models - {m.id})
  {
    hide WfRow, Covered;
  }

  /** Finalizing a change of the table keeps every cache coherent with the changed table. */
  lemma FinalizeKeepsCoherent(w: World, t: Table, c: Caches, regs: Registry, m: Mutation)
    requires Faithful(w) && Coherent(w, t, c, regs) && MutationOk(w, t, m)
    ensures !m.Remove? ==> Coherent(w, Apply(t, m), Finalize(w, regs, c, WriteOf(m)), regs)
    ensures m.Remove? ==> Coherent(w, Apply(t, m), FinalizeDelete(w, regs, c, m.row), regs)
  {
    hide Faithful, WfTable, ModelsOk, QueriesOk, RegistryOk, Dropped, Covered, WfRow;
    ApplyKeepsWf(w, t, m);
    FinalizeModels(w, t, c.models, m);
    WriteKeepsQueries(w, t, c.queries, regs, m);
    IdOfRow(w, t, m);
  }

  lemma IdOfRow(w: World, t: Table, m: Mutation)
    requires WfTable(w.info, t) && MutationOk(w, t, m)
    ensures GetID(m.row) == m.id
  {
  }

  /** After an update that writes, the model cache is right exactly when the row existed and its untracked
      columns were not altered: an update of a missing id caches a phantom. */
  lemma UpdateCachesStoredRow(w: World, t: Table, models: map<Id, Cached>, value: Row, now: Value, nextId: int)
    requires WfInfo(w.info) && WfTable(w.info, t) && ModelsOk(t, models) && WfRow(w.info, value) &&
      GetID(value) != NO_ID
    requires Update(w, t, nextId, value, now).write.Some?
    ensures var out := Update(w, t, nextId, value, now);
      ModelsOk(out.table, models[GetID(value) := Present(out.row)]) <==>
        GetID(value) in t && SameUntracked(w.info, t[GetID(value)], value)
  {
    hide ChangedFields, Stamp, SameUntracked, WfRow;
    var id, out := GetID(value), Update(w, t, nextId, value, now);
    var models' := models[id := Present(out.row)];
    assert models'[id] == Present(out.row);
    if id in t {
      StoredIsSaved(w.info, t[id], value, now);
      assert ModelOk(out.table, id, models'[id]) <==> SameUntracked(w.info, t[id], value);
    } else {
      assert !ModelOk(out.table, id, models'[id]);
    }
  }

  // ---- Batches. ----

  datatype BatchOutcome = BatchOutcome(table: Table, nextId: int, writes: seq<Write>)

  /** The statements of a transaction, in order; each value comes with the time it is saved at. */
  function SaveAll(w: World, t: Table, nextId: int, items: seq<(Row, Value)>): BatchOutcome
    decreases |items|
  {
    if items == [] then BatchOutcome(t, nextId, [])
    else
      var first := SaveRow(w, t, nextId, items[0].0, items[0].1);
      var rest := SaveAll(w, first.table, first.nextId, items[1..]);
      BatchOutcome(rest.table, rest.nextId, (if first.write.Some? then [first.write.value] else []) + rest.writes)
  }

  ghost function FinalizeAll(w: World, regs: Registry, c: Caches, writes: seq<Write>): Caches
    decreases |writes|
  {
    if writes == [] then c else FinalizeAll(w, regs, Finalize(w, regs, c, writes[0]), writes[1..])
  }

  predicate SaveAllOk(w: World, t: Table, nextId: int, items: seq<(Row, Value)>)
    decreases |items|
  {
    items == [] ||
    (SaveOk(w, t, items[0].0, items[0].1) &&
     var first := SaveRow(w, t, nextId, items[0].0, items[0].1); SaveAllOk(w, first.table, first.nextId, items[1..]))
  }

  /** The caches are finalized only after the commit, one write at a time, against a table that already
      holds every write; each step is coherent with the table as it stood after that statement. */
  lemma {:induction false} SaveAllKeepsCoherent(w: World, t: Table, nextId: int, c: Caches, regs: Registry,
          items: seq<(Row, Value)>)
    requires Faithful(w) && Coherent(w, t, c, regs) && FreshId(t, nextId) && SaveAllOk(w, t, nextId, items)
    ensures var out := SaveAll(w, t, nextId, items);
      Coherent(w, out.table, FinalizeAll(w, regs, c, out.writes), regs) && FreshId(out.table, out.nextId)
    decreases |items|
  {
    hide Faithful, QueriesOk, RegistryOk, ModelsOk, SaveOk, SaveRow, Finalize, FreshId, WfTable;
    if items != [] {
      FaithfulInfo(w);
      var first := SaveRow(w, t, nextId, items[0].0, items[0].1);
      var rest := SaveAll(w, first.table, first.nextId, items[1..]);
      if first.write.Some? {
        var m := SaveIsMutation(w, t, nextId, items[0].0, items[0].1);
        FinalizeKeepsCoherent(w, t, c, regs, m);
        var c' := Finalize(w, regs, c, first.write.value);
        SaveAllKeepsCoherent(w, first.table, first.nextId, c', regs, items[1..]);
        var writes := SaveAll(w, t, nextId, items).writes;
        assert writes[0] == first.write.value && writes[1..] == rest.writes;
      } else {
        NothingWritten(w, t, nextId, items[0].0, items[0].1);
        SaveAllKeepsCoherent(w, t, nextId, c, regs, items[1..]);
        assert [] + rest.writes == rest.writes;
      }
    }
  }

  lemma NothingWritten(w: World, t: Table, nextId: int, value: Row, now: Value)
    requires SaveRow(w, t, nextId, value, now).write.None?
    ensures SaveRow(w, t, nextId, value, now).table == t && SaveRow(w, t, nextId, value, now).nextId == nextId
  {
  }

  /** A DELETE that finds no row, or a value without an id, fails the whole transaction. */
  function DeleteAll(t: Table, values: seq<Row>): Option<Table> {
    if values == [] then Some(t)
    else if GetID(values[0]) !in t || GetID(values[0]) == NO_ID then None
    else DeleteAll(t - {GetID(values[0])}, values[1..])
  }

  /** A batch of deletes goes through exactly if the values are those of different stored rows, and removes these. */
  lemma {:induction false} DeleteAllIsWithout(t: Table, values: seq<Row>)
    ensures DeleteAll(t, values) == if AreStored(t, values) then Some(Without(t, values)) else None
    decreases |values|
  {
    if values == [] {
      assert Without(t, values) == t;
      return;
    }
    var id, rest := GetID(values[0]), values[1..];
    assert forall k :: 0 < k < |values| ==> rest[k - 1] == values[k];
    assert forall k :: 0 <= k < |rest| ==> rest[k] == values[k + 1];
    if id in t && id != NO_ID {
      DeleteAllIsWithout(t - {id}, rest);
      assert AreStored(t, values) <==> AreStored(t - {id}, rest);
      assert Without(t, values) == Without(t - {id}, rest);
    }
  }

  ghost function FinalizeDeleteAll(w: World, regs: Registry, c: Caches, values: seq<Row>): Caches
    decreases |values|
  {
    if values == [] then c else FinalizeDeleteAll(w, regs, FinalizeDelete(w, regs, c, values[0]), values[1..])
  }

  /** Each value passed to a delete is the stored row. */
  predicate DeleteAllOk(t: Table, values: seq<Row>) {
    forall k :: 0 <= k < |values| ==> GetID(values[k]) in t ==> t[GetID(values[k])] == values[k]
  }

  lemma {:induction false} DeleteAllKeepsCoherent(w: World, t: Table, c: Caches, regs: Registry, values: seq<Row>)
    requires Faithful(w) && Coherent(w, t, c, regs) && DeleteAllOk(t, values) && DeleteAll(t, values).Some?
    ensures Coherent(w, DeleteAll(t, values).value, FinalizeDeleteAll(w, regs, c, values), regs)
    ensures DeleteAll(t, values).value.Keys <= t.Keys
    decreases |values|
  {
    hide Faithful, QueriesOk, RegistryOk, ModelsOk, WfTable, FinalizeDelete;
    if values != [] {
      var row := values[0];
      var m := Remove(GetID(row), row);
      FinalizeKeepsCoherent(w, t, c, regs, m);
      assert forall k :: 0 <= k < |values[1..]| ==> values[1..][k] == values[k + 1];
      DeleteAllKeepsCoherent(w, Apply(t, m), FinalizeDelete(w, regs, c, row), regs, values[1..]);
    }
  }
}
