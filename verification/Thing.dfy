/** The ORM handle of one model: the database table, the caches, and the operations that change them. */
module ThingOrm {
  import opened Values
  import opened WhereParser
  import opened WhereSoftDelete
  import opened CacheIndexing
  import opened Coherence
  import opened Invalidation
  import opened InvalidationPhases
  import opened ModelCache
  import opened Paging
  import opened Saving
  import opened Cacheless

  /** Everything that changes, as a value: the table with its id counter, and the two caches. */
  datatype Store = Store(table: Table, nextId: int, caches: Caches)

  ghost predicate StoreOk(w: World, s: Store, regs: Registry) {
    Faithful(w) && Coherent(w, s.table, s.caches, regs) && FreshId(s.table, s.nextId)
  }

  /** Deleting entries of either cache, for whatever reason, keeps coherence. */
  lemma EvictionKeepsCoherent(w: World, t: Table, c: Caches, c': Caches, regs: Registry)
    requires Coherent(w, t, c, regs)
    requires forall id :: id in c'.models ==> id in c.models && c'.models[id] == c.models[id]
    requires forall k :: k in c'.queries ==> k in c.queries && c'.queries[k] == c.queries[k]
    ensures Coherent(w, t, c', regs)
  {
    hide EntryOk, ModelOk, WfTable, RegistryOk;
  }

  class Thing {
    const w: World
    const index: CacheIndex
    /** Whether the cache client tells the NoneResult marker apart from a broken entry. */
    const noneAware: bool
    var store: Store

    ghost predicate Valid()
      reads this, index
    {
      index.Valid() && StoreOk(w, store, index.regs)
    }

    /** What holds even when the caches hold anything at all: the index is well formed. */
    ghost predicate Sound()
      reads index
    {
      index.Valid() && Keyed(w, index.regs)
    }

    /** A fresh process over an existing table: empty caches, empty index. */
    constructor (w: World, valueText: Value -> string, noneAware: bool, table: Table, nextId: int)
      requires Faithful(w) && WfTable(w.info, table) && FreshId(table, nextId)
      ensures Valid() && fresh(index) && this.w == w && store == Store(table, nextId, Caches(map[], map[])) &&
        index.regs == map[]
    {
      this.w, this.noneAware := w, noneAware;
      index := new CacheIndex(valueText);
      store := Store(table, nextId, Caches(map[], map[]));
    }

    /** `ByIDs`: what the table holds for the ids. */
    method ByIDs(ids: seq<Id>) returns (r: map<Id, Row>)
      modifies this`store
      ensures store == old(store).(caches := store.caches) && store.caches.queries == old(store.caches.queries)
      ensures Within(r, ids)
      ensures old(Valid()) ==> Valid() && r == Restrict(store.table, ids)
    {
      hide Faithful, QueriesOk, RegistryOk, WfTable, ModelsOk, Restrict, FreshId, Within;
      var models, rows := FetchModelsByIDs(store.table, store.caches.models, noneAware, ids);
      store := store.(caches := store.caches.(models := models));
      r := rows;
    }

    /** Stores a query result and registers its key. */
    method CacheQuery(k: CacheKey, e: Entry)
      requires Sound() && k.table == w.info.tableName
      modifies this`store, index
      ensures Sound()
      ensures store == old(store).(caches := old(store.caches).(queries := old(store.caches.queries)[k := e]))
      ensures old(Valid()) && WfQuery(w, k.params) && EntryOk(w, store.table, k, e) ==> Valid()
    {
      hide EntryOk, ModelsOk, WfTable, Projects, WfQuery, FreshId, Agrees, Permutes;
      store := store.(caches := store.caches.(queries := store.caches.queries[k := e]));
      index.RegisterQuery(w.info.tableName, k, k.params);
    }

    /** The ids a list entry of the query would hold, read from the database and the model cache. */
    method LoadList(q: QueryParams) returns (ids: seq<Id>)
      modifies this`store
      ensures store == old(store).(caches := store.caches) && store.caches.queries == old(store.caches.queries)
      ensures |ids| <= LIST_LIMIT
      ensures old(Valid()) && WfQuery(w, q) ==> Valid() && ids == ListFill(w, store.table, q)
    {
      hide Faithful, QueriesOk, RegistryOk, WfTable, ModelsOk, ListFill, FreshId, WfQuery;
      var models;
      ids, models := FillList(w, store.table, store.caches.models, noneAware, q);
      store := store.(caches := store.caches.(models := models));
    }

    /** The exact number of visible rows, by scanning all of them. */
    method ScanCount(q: QueryParams) returns (count: nat)
      requires Valid()
      modifies this`store
      ensures Valid() && count == VisibleCount(w, store.table, q)
      ensures store == old(store).(caches := store.caches) && store.caches.queries == old(store.caches.queries)
    {
      hide Faithful, QueriesOk, RegistryOk, WfTable, ModelsOk, VisibleCount, FreshId;
      var models;
      count, models := CountByFullScan(w, store.table, store.caches.models, noneAware, q);
      store := store.(caches := store.caches.(models := models));
    }

    /** `finalizeSave`. */
    method FinalizeSave(x: Write)
      requires index.Valid() && RegistryOk(w, index.regs)
      modifies this`store
      ensures store == old(store).(caches := Finalize(w, index.regs, old(store.caches), x))
      ensures store.caches.models == old(store.caches.models)[GetID(x.model) := Present(x.model)]
      ensures store.caches.queries == old(store.caches.queries) - Dropped(w, index.regs, old(store.caches.queries), x)
    {
      hide Dropped, RegistryOk;
      store := store.(caches := store.caches.(models := store.caches.models[GetID(x.model) := Present(x.model)]));
      var rest := InvalidateAffectedQueryCaches(w, index, store.caches.queries, x);
      store := store.(caches := store.caches.(queries := rest));
    }

    /** The data behind the caches. */
    ghost function Contents(): Data
      reads this
    {
      Data(store.table, store.nextId)
    }

    /** `Save`: one insert or update, then the caches. The data change and the row comes back as without caches;
        the caches stay coherent under the conditions of `SaveOk`, and an update of a row that is not there
        caches a phantom. */
    method Save(value: Row, now: Value) returns (saved: Row)
      requires Valid() && WfRow(w.info, value)
      modifies this`store
      ensures Contents() == Saved(w.info, old(Contents()), value, now) &&
        saved == Echo(w.info, old(Contents()), value, now)
      ensures old(SaveOk(w, store.table, value, now)) ==> Valid()
      ensures GetID(value) != NO_ID && GetID(value) !in old(store.table) && Differs(w.info, w.info.zero, value)
        ==> !ModelsOk(store.table, store.caches.models)
    {
      hide Faithful, QueriesOk, ModelsOk, SaveOk, Finalize, RegistryOk, FreshId, WfTable, ChangedFields, Stamp;
      hide NewRow, WfRow, Saved, Echo, Differs, Projects;
      var id := GetID(value);
      ghost var before := store;
      if id == NO_ID {
        var row := NewRow(w.info, value, Id(store.nextId), now);
        store := store.(table := store.table[Id(store.nextId) := row], nextId := store.nextId + 1);
        FinalizeSave(Write(row, None, true, false));
        saved := row;
      } else {
        var found := ByIDs([id]);
        before := store;
        ReadOriginal(w, store.table, id, found);
        var original := if id in found then found[id] else w.info.zero;
        var changed := ChangedFields(w.info, original, value);
        ChangedIffDiffers(w.info, original, value);
        saved := value;
        if changed != map[] {
          saved := Stamp(w.info, value, UPDATED_AT, now);
          if id in store.table {
            store := store.(table := store.table[id := Stamp(w.info, store.table[id] + changed, UPDATED_AT, now)]);
          }
          FinalizeSave(Write(saved, Some(original), false, false));
        }
      }
      SavedStoreIs(w, before, index.regs, value, now);
      SavedIsCoherent(w, before, index.regs, value, now);
    }

    /** `SoftDelete`: a save with the deleted flag set. */
    method SoftDelete(value: Row, now: Value) returns (ok: bool)
      requires Valid() && WfRow(w.info, value)
      modifies this`store
      ensures ok == (GetID(value) != NO_ID)
      ensures !ok ==> store == old(store)
      ensures ok ==> Contents() == Saved(w.info, old(Contents()), Flagged(value, now), now)
      ensures ok && old(SaveOk(w, store.table, Flagged(value, now), now)) ==> Valid()
    {
      hide Valid, SaveOk, Saved, Flagged, SoftDeleted, WfRow;
      if GetID(value) == NO_ID { return false; }
      SoftDeletedIsFlagged(w.info, value, now);
      var _ := Save(SoftDeleted(w.info, value, now), now);
      ok := true;
    }

    /** `finalizeDelete`, also the cache part of `Delete`. */
    method DropDeleted(value: Row)
      requires index.Valid() && RegistryOk(w, index.regs)
      modifies this`store
      ensures store == old(store).(caches := FinalizeDelete(w, index.regs, old(store.caches), value))
      ensures store.caches.models == old(store.caches.models) - {GetID(value)}
      ensures store.caches.queries == old(store.caches.queries) -
        Dropped(w, index.regs, old(store.caches.queries), Write(value, Some(value), false, true))
    {
      hide Dropped, RegistryOk;
      store := store.(caches := store.caches.(models := store.caches.models - {GetID(value)}));
      var rest := InvalidateAffectedQueryCaches(w, index, store.caches.queries, Write(value, Some(value), false, true));
      store := store.(caches := store.caches.(queries := rest));
    }

    /** `Delete`: reports whether a row was there. */
    method Delete(value: Row) returns (found: bool)
      requires Valid()
      modifies this`store
      ensures found == (GetID(value) != NO_ID && GetID(value) in old(store.table))
      ensures store.table == if found then old(store.table) - {GetID(value)} else old(store.table)
      ensures store.nextId == old(store.nextId)
      ensures (found ==> old(store.table)[GetID(value)] == value) ==> Valid()
    {
      hide Faithful, QueriesOk, ModelsOk, RegistryOk, FinalizeDelete, WfTable;
      var id := GetID(value);
      if id == NO_ID { return false; }
      ghost var before := store;
      found := id in store.table;
      store := store.(table := store.table - {id});
      if !found {
        store := store.(caches := store.caches.(models := store.caches.models - {id}));
        assert store.table == before.table;
        EvictionKeepsCoherent(w, store.table, before.caches, store.caches, index.regs);
        return;
      }
      DropDeleted(value);
      if before.table[id] == value {
        FinalizeKeepsCoherent(w, before.table, before.caches, index.regs, Remove(id, value));
      }
    }

    /** `SaveMany`: all statements in one transaction, then the caches. `fault` is the statement (or, at the
        end, the commit) that fails, if any; then nothing has changed. */
    method SaveMany(items: seq<(Row, Value)>, fault: Option<nat>) returns (ok: bool)
      requires Valid() && forall k :: 0 <= k < |items| ==> WfRow(w.info, items[k].0)
      modifies this`store
      ensures ok == (items == [] || fault.None? || fault.value > |items|)
      ensures !ok ==> store == old(store)
      ensures ok ==> Contents() == SavedAll(w.info, old(Contents()), items)
      ensures ok && old(SaveAllOk(w, store.table, store.nextId, items)) ==> Valid()
    {
      hide Faithful, QueriesOk, ModelsOk, RegistryOk, FinalizeAll, FreshId, WfTable, SaveAll, SaveAllOk, WfRow;
      hide SavedAll, Projects;
      BatchIsSavedAll(w, store, index.regs, items);
      if items == [] {
        EmptyBatch(w, store.table, store.nextId);
        return true;
      }
      var done := RunStatements(w, store.table, store.nextId, items, fault);
      if done.None? || fault == Some(|items|) { return false; }
      store := store.(table := done.value.table, nextId := done.value.nextId);
      FinalizeWrites(done.value.writes);
      ok := true;
      if old(SaveAllOk(w, store.table, store.nextId, items)) {
        SaveAllKeepsCoherent(w, old(store.table), old(store.nextId), old(store.caches), index.regs, items);
      }
    }

    method FinalizeWrites(writes: seq<Write>)
      requires index.Valid() && RegistryOk(w, index.regs)
      modifies this`store
      ensures store == old(store).(caches := FinalizeAll(w, index.regs, old(store.caches), writes))
    {
      hide Finalize, RegistryOk;
      ghost var start := store;
      var i := 0;
      assert writes[0..] == writes;
      while i < |writes|
        invariant 0 <= i <= |writes| && store == start.(caches := store.caches)
        invariant FinalizeAll(w, index.regs, start.caches, writes) ==
          FinalizeAll(w, index.regs, store.caches, writes[i..])
      {
        assert writes[i..][1..] == writes[i + 1..];
        FinalizeSave(writes[i]);
        i := i + 1;
      }
    }

    /** `DeleteMany`: fails, and changes nothing, when a value has no id or no row, or when a statement or, at
        the end, the commit fails. */
    method DeleteMany(values: seq<Row>, fault: Option<nat>) returns (ok: bool)
      requires Valid()
      modifies this`store
      ensures ok ==
        (values == [] || (AreStored(old(store.table), values) && (fault.None? || fault.value > |values|)))
      ensures !ok ==> store == old(store)
      ensures ok ==> store.table == Without(old(store.table), values) && store.nextId == old(store.nextId)
      ensures ok && DeleteAllOk(old(store.table), values) ==> Valid()
    {
      hide Faithful, QueriesOk, ModelsOk, RegistryOk, FinalizeDelete, WfTable, AreStored, Without, Projects;
      DeleteAllIsWithout(store.table, values);
      if values == [] { return true; }
      var table := store.table;
      var i := 0;
      assert values[0..] == values;
      while i < |values|
        invariant 0 <= i <= |values| && store == old(store) && (fault.None? || fault.value >= i)
        invariant DeleteAll(store.table, values) == DeleteAll(table, values[i..])
      {
        var id := GetID(values[i]);
        if id == NO_ID || fault == Some(i) || id !in table { return false; }
        assert values[i..][1..] == values[i + 1..];
        table := table - {id};
        i := i + 1;
      }
      if fault == Some(|values|) { return false; }
      ghost var before := store;
      store := store.(table := table);
      i := 0;
      while i < |values|
        invariant 0 <= i <= |values| && store.table == table && store.nextId == before.nextId
        invariant FinalizeDeleteAll(w, index.regs, before.caches, values) ==
          FinalizeDeleteAll(w, index.regs, store.caches, values[i..])
      {
        assert values[i..][1..] == values[i + 1..];
        DropDeleted(values[i]);
        i := i + 1;
      }
      ok := true;
      if DeleteAllOk(before.table, values) {
        DeleteAllKeepsCoherent(w, before.table, before.caches, index.regs, values);
      }
    }

    /** `InvalidateQueryCaches`: no query entry of the table survives. */
    method InvalidateQueryCaches()
      requires Valid()
      modifies this`store
      ensures Valid() && store == old(store).(caches := old(store.caches).(queries := map[]))
    {
      hide Faithful, EntryOk, ModelsOk, WfTable, index.Valid, Projects;
      var keys := index.GetQueryKeysForTable(w.info.tableName);
      var rest := DeleteKeys(store.caches.queries, keys);
      assert rest == map[];
      store := store.(caches := store.caches.(queries := rest));
    }

    /** An entry of either cache expires, or is cleared by `ClearCacheByID`. */
    method Expire(ids: set<Id>, keys: set<CacheKey>)
      modifies this`store
      ensures store == old(store).(caches := Caches(old(store.caches.models) - ids, old(store.caches.queries) - keys))
      ensures old(Valid()) ==> Valid()
    {
      hide Faithful, QueriesOk, ModelsOk, RegistryOk, WfTable;
      ghost var before := store;
      store := store.(caches := Caches(store.caches.models - ids, store.caches.queries - keys));
      if old(Valid()) { EvictionKeepsCoherent(w, store.table, before.caches, store.caches, index.regs); }
    }

    /** The index part of the clean-up job, as one step: keys no longer in the store are deregistered, and
        none that is. */
    method CollectGarbage()
      requires Valid()
      modifies index
      ensures Valid() && index.regs == map k | k in old(index.regs) && k in store.caches.queries :: old(index.regs)[k]
    {
      hide Faithful, QueriesOk, ModelsOk, WfTable, Projects, WfQuery;
      var todo := index.GetAllRegisteredKeys();
      while todo != {}
        invariant index.Valid() && todo <= old(index.regs).Keys
        invariant index.regs == map k | k in old(index.regs) &&
          (k in todo || k in store.caches.queries) :: old(index.regs)[k]
      {
        var k :| k in todo;
        if k !in store.caches.queries { index.DeregisterQuery(k); }
        todo := todo - {k};
      }
    }
  }

  // ---- Proofs about the write operations. ----

  /** The statements of the transaction, up to the one that fails. */
  method RunStatements(w: World, t: Table, n: int, items: seq<(Row, Value)>, fault: Option<nat>)
    returns (done: Option<BatchOutcome>)
    ensures done == if fault.Some? && fault.value < |items| then None else Some(SaveAll(w, t, n, items))
  {
    hide SaveRow;
    var table, nextId, writes: seq<Write> := t, n, [];
    ghost var spec := SaveAll(w, t, n, items);
    assert items[0..] == items && [] + spec.writes == spec.writes;
    var i := 0;
    while i < |items|
      invariant 0 <= i <= |items| && (fault.Some? ==> fault.value >= i)
      invariant spec == After(writes, SaveAll(w, table, nextId, items[i..]))
    {
      if fault == Some(i) { return None; }
      var out := SaveRow(w, table, nextId, items[i].0, items[i].1);
      SaveAllSteps(w, table, nextId, items, i, writes);
      table, nextId := out.table, out.nextId;
      if out.write.Some? { writes := writes + [out.write.value]; }
      i := i + 1;
    }
    assert items[i..] == [] && writes + [] == writes;
    done := Some(BatchOutcome(table, nextId, writes));
  }

  lemma BatchIsSavedAll(w: World, s: Store, regs: Registry, items: seq<(Row, Value)>)
    requires StoreOk(w, s, regs) && forall k :: 0 <= k < |items| ==> WfRow(w.info, items[k].0)
    ensures var out := SaveAll(w, s.table, s.nextId, items);
      Data(out.table, out.nextId) == SavedAll(w.info, Data(s.table, s.nextId), items)
  {
    hide Faithful, QueriesOk, ModelsOk, RegistryOk, WfTable, WfRow, SaveAll, SavedAll;
    FaithfulInfo(w);
    SaveAllIsSavedAll(w, s.table, s.nextId, items);
  }

  lemma EmptyBatch(w: World, t: Table, n: int)
    ensures SaveAll(w, t, n, []) == BatchOutcome(t, n, [])
  {
  }

  function After(writes: seq<Write>, rest: BatchOutcome): BatchOutcome { rest.(writes := writes + rest.writes) }

  lemma SaveAllSteps(w: World, t: Table, nextId: int, items: seq<(Row, Value)>, i: nat, writes: seq<Write>)
    requires i < |items|
    ensures var out := SaveRow(w, t, nextId, items[i].0, items[i].1);
      After(writes, SaveAll(w, t, nextId, items[i..])) ==
      After(if out.write.Some? then writes + [out.write.value] else writes,
            SaveAll(w, out.table, out.nextId, items[i + 1..]))
  {
    hide SaveRow;
    var out := SaveRow(w, t, nextId, items[i].0, items[i].1);
    var rest := SaveAll(w, out.table, out.nextId, items[i + 1..]);
    assert items[i..][1..] == items[i + 1..];
    if out.write.Some? {
      assert writes + ([out.write.value] + rest.writes) == writes + [out.write.value] + rest.writes;
    } else {
      assert writes + ([] + rest.writes) == writes + rest.writes;
    }
  }

  lemma ReadOriginal(w: World, t: Table, id: Id, found: map<Id, Row>)
    requires found == Restrict(t, [id])
    ensures (if id in found then found[id] else w.info.zero) == OriginalOf(w, t, id)
    ensures id in found <==> id in t
  {
    assert id in [id];
  }

  ghost function SavedStore(w: World, s: Store, regs: Registry, value: Row, now: Value): Store {
    var out := SaveRow(w, s.table, s.nextId, value, now);
    Store(out.table, out.nextId, if out.write.Some? then Finalize(w, regs, s.caches, out.write.value) else s.caches)
  }

  /** The store after a save holds the data of the system without caches. */
  lemma SavedStoreIs(w: World, s: Store, regs: Registry, value: Row, now: Value)
    requires StoreOk(w, s, regs) && WfRow(w.info, value)
    ensures var s', d := SavedStore(w, s, regs, value, now), Data(s.table, s.nextId);
      Data(s'.table, s'.nextId) == Saved(w.info, d, value, now) &&
      SaveRow(w, s.table, s.nextId, value, now).row == Echo(w.info, d, value, now)
  {
    hide Faithful, QueriesOk, ModelsOk, RegistryOk, WfTable, WfRow, SaveRow, Finalize, Saved, Echo;
    FaithfulInfo(w);
    SaveRowIsSaved(w, s.table, s.nextId, value, now);
  }

  lemma CoveredSaveIsCoherent(w: World, s: Store, regs: Registry, value: Row, now: Value)
    requires StoreOk(w, s, regs) && SaveOk(w, s.table, value, now)
    ensures StoreOk(w, SavedStore(w, s, regs, value, now), regs)
  {
    hide Faithful, QueriesOk, ModelsOk, SaveOk, RegistryOk, FreshId, WfTable, SaveRow, Finalize, WfRow;
    FaithfulInfo(w);
    if SaveRow(w, s.table, s.nextId, value, now).write.Some? {
      var m := SaveIsMutation(w, s.table, s.nextId, value, now);
      FinalizeKeepsCoherent(w, s.table, s.caches, regs, m);
    } else {
      NothingWritten(w, s.table, s.nextId, value, now);
    }
  }

  /** An update of a row that is not there leaves a phantom in the model cache. */
  lemma PhantomIsCached(w: World, s: Store, regs: Registry, value: Row, now: Value)
    requires StoreOk(w, s, regs) && WfRow(w.info, value) && GetID(value) != NO_ID && GetID(value) !in s.table
    requires SaveRow(w, s.table, s.nextId, value, now).write.Some?
    ensures !ModelsOk(SavedStore(w, s, regs, value, now).table, SavedStore(w, s, regs, value, now).caches.models)
  {
    hide Faithful, QueriesOk, ModelsOk, RegistryOk, FreshId, WfTable, ChangedFields, Stamp, WfRow, Dropped;
    FaithfulInfo(w);
    UpdateCachesStoredRow(w, s.table, s.caches.models, value, now, s.nextId);
    StampKeepsWf(w.info, value, UPDATED_AT, now);
  }

  lemma SavedIsCoherent(w: World, s: Store, regs: Registry, value: Row, now: Value)
    requires StoreOk(w, s, regs) && WfRow(w.info, value)
    ensures SaveOk(w, s.table, value, now) ==> StoreOk(w, SavedStore(w, s, regs, value, now), regs)
    ensures GetID(value) != NO_ID && GetID(value) !in s.table && SaveRow(w, s.table, s.nextId, value, now).write.Some?
      ==> !ModelsOk(SavedStore(w, s, regs, value, now).table, SavedStore(w, s, regs, value, now).caches.models)
  {
    hide *;
    if SaveOk(w, s.table, value, now) { CoveredSaveIsCoherent(w, s, regs, value, now); }
    if GetID(value) != NO_ID && GetID(value) !in s.table && SaveRow(w, s.table, s.nextId, value, now).write.Some? {
      PhantomIsCached(w, s, regs, value, now);
    }
  }

  function SoftDeleted(info: ModelInfo, value: Row, now: Value): Row {
    Stamp(info, value[DELETED := Bool(true)], UPDATED_AT, now)
  }

  lemma SoftDeletedIsFlagged(info: ModelInfo, value: Row, now: Value)
    requires WfRow(info, value)
    ensures SoftDeleted(info, value, now) == Flagged(value, now)
    ensures WfRow(info, SoftDeleted(info, value, now)) && IsDeleted(SoftDeleted(info, value, now))
    ensures GetID(SoftDeleted(info, value, now)) == GetID(value)
  {
  }
}
