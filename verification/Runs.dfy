/** Whole runs: any sequence of operations, cache expiry and clean-up on the cached system, answered as a
    system without caches would answer. */
module Runs {
  import opened Values
  import opened WhereParser
  import opened CacheIndexing
  import opened Coherence
  import opened ModelCache
  import opened Paging
  import opened Saving
  import opened Cacheless
  import opened ThingOrm
  import opened Queries

  datatype Step =
    | Save(value: Row, now: Value)
    | SoftDelete(value: Row, now: Value)
    | Delete(value: Row)
    | SaveMany(items: seq<(Row, Value)>, fault: Option<nat>)
    | DeleteMany(values: seq<Row>, fault: Option<nat>)
    | ByIDs(ids: seq<Id>)
    | Fetch(query: QueryParams, offset: nat, limit: nat)
    | All(query: QueryParams)
    | First(query: QueryParams)
    | Count(query: QueryParams)
    | CountPrecise(query: QueryParams)
    | InvalidateQueryCaches
    | Expire(expiredIds: set<Id>, expiredKeys: set<CacheKey>)
    | CollectGarbage

  datatype Outcome =
    | Done(ok: bool)
    | SavedRow(row: Row)
    | Models(models: map<Id, Row>)
    | Rows(rows: seq<Row>)
    | Number(n: nat)

  // ---- The system without caches. ----

  /** What a step does to the data. */
  function Next(w: World, d: Data, s: Step): Data {
    match s
    case Save(value, now) => Saved(w.info, d, value, now)
    case SoftDelete(value, now) =>
      if GetID(value) == NO_ID then d else Saved(w.info, d, Flagged(value, now), now)
    case Delete(value) => d.(table := d.table - {GetID(value)})
    case SaveMany(items, fault) =>
      if fault.Some? && fault.value <= |items| then d
      else SavedAll(w.info, d, items)
    case DeleteMany(values, fault) =>
      if AreStored(d.table, values) && (fault.None? || fault.value > |values|)
      then d.(table := Without(d.table, values)) else d
    case _ => d
  }

  /** Every row returned is stored, kept by the model, and matches the query. */
  ghost predicate RowsAnswer(w: World, t: Table, q: QueryParams, rows: seq<Row>) {
    AllKept(w, t, q, rows) && AllMatch(w, q, rows)
  }

  /** What a step answers on the data. Under the default KeepItem this leaves one answer. */
  ghost predicate Answers(w: World, d: Data, s: Step, out: Outcome) {
    match s
    case Save(value, now) => out == SavedRow(Echo(w.info, d, value, now))
    case SoftDelete(value, _) => out == Done(GetID(value) != NO_ID)
    case Delete(value) => out == Done(GetID(value) in d.table)
    case SaveMany(items, fault) => out == Done(items == [] || fault.None? || fault.value > |items|)
    case DeleteMany(values, fault) =>
      out == Done(values == [] || (AreStored(d.table, values) && (fault.None? || fault.value > |values|)))
    case ByIDs(ids) => out == Models(Restrict(d.table, ids))
    case Fetch(q, offset, limit) =>
      out.Rows? && RowsAnswer(w, d.table, q, out.rows) && Pages(w, d.table, q, offset, limit, out.rows) &&
      (!w.info.customKeep ==> IsPage(w, d.table, q, offset, limit, out.rows))
    case All(q) =>
      out.Rows? && RowsAnswer(w, d.table, q, out.rows) && PagesAll(w, d.table, q, out.rows) &&
      (!w.info.customKeep ==> IsPage(w, d.table, q, 0, SqlCount(w, d.table, q), out.rows))
    case First(q) => exists row :: IsFirst(w, d.table, q, row) && out == Rows(if row.Some? then [row.value] else [])
    case Count(q) => out.Number? && CountOk(w, d.table, q, out.n)
    case CountPrecise(q) => out.Number? && PreciseOk(w, d.table, q, out.n)
    case _ => out == Done(true)
  }

  /** The hypotheses on a step, all of them about what the caller passes. */
  ghost predicate StepOk(w: World, d: Data, s: Step) {
    match s
    case Save(value, now) => SaveOk(w, d.table, value, now)
    case SoftDelete(value, now) =>
      WfRow(w.info, value) && (GetID(value) != NO_ID ==> SaveOk(w, d.table, Flagged(value, now), now))
    case Delete(value) => GetID(value) in d.table ==> d.table[GetID(value)] == value
    case SaveMany(items, _) =>
      (forall k :: 0 <= k < |items| ==> WfRow(w.info, items[k].0)) && SaveAllOk(w, d.table, d.nextId, items)
    case DeleteMany(values, _) => DeleteAllOk(d.table, values)
    case Fetch(q, _, _) => WfQuery(w, q)
    case All(q) => WfQuery(w, q)
    case First(q) => WfQuery(w, q)
    case Count(q) => WfQuery(w, q)
    case CountPrecise(q) => WfQuery(w, q)
    case _ => true
  }

  ghost predicate RunOk(w: World, d: Data, steps: seq<Step>)
    decreases |steps|
  {
    steps == [] || (StepOk(w, d, steps[0]) && RunOk(w, Next(w, d, steps[0]), steps[1..]))
  }

  ghost predicate RunAnswers(w: World, d: Data, steps: seq<Step>, outs: seq<Outcome>)
    decreases |steps|
  {
    |steps| == |outs| &&
    (steps == [] || (Answers(w, d, steps[0], outs[0]) && RunAnswers(w, Next(w, d, steps[0]), steps[1..], outs[1..])))
  }

  function After(w: World, d: Data, steps: seq<Step>): Data
    decreases |steps|
  {
    if steps == [] then d else After(w, Next(w, d, steps[0]), steps[1..])
  }

  /** Under the default KeepItem the answers of a run are determined: there is nothing a cache could show. */
  lemma AnswersAreUnique(w: World, d: Data, s: Step, a: Outcome, b: Outcome)
    requires !w.info.customKeep && Answers(w, d, s, a) && Answers(w, d, s, b)
    ensures a == b
  {
    hide Saved, Echo, Restrict, SqlCount, VisibleCount, AreStored, Result, RowsOf, RowsAnswer, Pages, PagesAll;
    hide ListFill;
  }

  lemma {:induction false} RunAnswersAreUnique(w: World, d: Data, steps: seq<Step>, a: seq<Outcome>, b: seq<Outcome>)
    requires !w.info.customKeep && RunAnswers(w, d, steps, a) && RunAnswers(w, d, steps, b)
    ensures a == b
    decreases |steps|
  {
    hide Answers, Next;
    if steps != [] {
      AnswersAreUnique(w, d, steps[0], a[0], b[0]);
      RunAnswersAreUnique(w, Next(w, d, steps[0]), steps[1..], a[1..], b[1..]);
      assert a == [a[0]] + a[1..] && b == [b[0]] + b[1..];
    }
  }

  // ---- The cached system. ----

  ghost function DataOf(thing: Thing): Data
    reads thing
  {
    thing.Contents()
  }

  /** Rows through a fresh query object. */
  method PerformRows(thing: Thing, s: Step) returns (out: Outcome)
    requires thing.Valid() && StepOk(thing.w, DataOf(thing), s) && (s.Fetch? || s.All? || s.First?)
    modifies thing`store, thing.index
    ensures thing.Valid() && DataOf(thing) == old(DataOf(thing)) && Answers(thing.w, DataOf(thing), s, out)
  {
    hide thing.Valid, thing.Sound, WfQuery, AllKept, Pages, PagesAll, IsFirst, ListFill, Answers, StepOk;
    ValidIsSound(thing);
    ghost var d := DataOf(thing);
    ReadIsCovered(thing.w, d, s);
    var result := new CachedResult(thing, s.query);
    assert result.Fresh();
    match s
    case Fetch(_, offset, limit) =>
      var rows := result.Fetch(offset, limit);
      FetchAnswers(thing.w, d, s.query, offset, limit, rows);
      out := Rows(rows);
    case All(_) =>
      var rows := result.All();
      AllAnswers(thing.w, d, s.query, rows);
      out := Rows(rows);
    case First(_) =>
      var row := result.First();
      FirstAnswers(thing.w, d, s.query, row);
      out := Rows(if row.Some? then [row.value] else []);
  }

  /** Counts through a fresh query object. */
  method PerformCount(thing: Thing, s: Step) returns (out: Outcome)
    requires thing.Valid() && StepOk(thing.w, DataOf(thing), s) && (s.Count? || s.CountPrecise?)
    modifies thing`store, thing.index
    ensures thing.Valid() && DataOf(thing) == old(DataOf(thing)) && Answers(thing.w, DataOf(thing), s, out)
  {
    hide thing.Valid, thing.Sound, WfQuery, CountOk, PreciseOk, ListFill, Answers, StepOk;
    ValidIsSound(thing);
    ghost var d := DataOf(thing);
    ReadIsCovered(thing.w, d, s);
    var result := new CachedResult(thing, s.query);
    assert result.Fresh();
    var n;
    if s.Count? { n := result.Count(); } else { n := result.CountPrecise(); }
    CountAnswers(thing.w, d, s, n);
    out := Number(n);
  }

  lemma ValidIsSound(thing: Thing)
    requires thing.Valid()
    ensures thing.Sound() && Faithful(thing.w) && WfTable(thing.w.info, thing.store.table)
  {
  }

  lemma ReadIsCovered(w: World, d: Data, s: Step)
    requires StepOk(w, d, s) && (s.Fetch? || s.All? || s.First? || s.Count? || s.CountPrecise?)
    ensures WfQuery(w, s.query)
  {
  }

  lemma FetchAnswers(w: World, d: Data, q: QueryParams, offset: nat, limit: nat, rows: seq<Row>)
    requires Faithful(w) && WfTable(w.info, d.table) && WfQuery(w, q)
    requires AllKept(w, d.table, q, rows) && Pages(w, d.table, q, offset, limit, rows)
    ensures Answers(w, d, Fetch(q, offset, limit), Rows(rows))
  {
    hide Faithful, WfTable, WfQuery, AllKept, Pages, AllMatch, IsPage;
    PagedRowsMatch(w, d.table, q, offset, limit, rows);
    if !w.info.customKeep { DefaultPages(w, d.table, q, offset, limit, rows); }
  }

  lemma AllAnswers(w: World, d: Data, q: QueryParams, rows: seq<Row>)
    requires Faithful(w) && WfTable(w.info, d.table) && WfQuery(w, q)
    requires AllKept(w, d.table, q, rows) && PagesAll(w, d.table, q, rows)
    ensures Answers(w, d, All(q), Rows(rows))
  {
    hide Faithful, WfTable, WfQuery, AllKept, Pages, AllMatch, IsPage, SqlCount, VisibleCount;
    var count: nat :| CountOk(w, d.table, q, count) && Pages(w, d.table, q, 0, count, rows);
    PagedRowsMatch(w, d.table, q, 0, count, rows);
    if !w.info.customKeep { DefaultPages(w, d.table, q, 0, count, rows); }
  }

  lemma FirstAnswers(w: World, d: Data, q: QueryParams, row: Option<Row>)
    requires IsFirst(w, d.table, q, row)
    ensures Answers(w, d, First(q), Rows(if row.Some? then [row.value] else []))
  {
    hide IsFirst;
  }

  lemma CountAnswers(w: World, d: Data, s: Step, n: nat)
    requires s.Count? || s.CountPrecise?
    requires if s.Count? then CountOk(w, d.table, s.query, n) else PreciseOk(w, d.table, s.query, n)
    ensures Answers(w, d, s, Number(n))
  {
    hide CountOk, PreciseOk;
  }

  method PerformSave(thing: Thing, s: Step) returns (out: Outcome)
    requires thing.Valid() && StepOk(thing.w, DataOf(thing), s) && (s.Save? || s.SoftDelete? || s.SaveMany?)
    modifies thing`store
    ensures thing.Valid() && DataOf(thing) == Next(thing.w, old(DataOf(thing)), s) &&
      Answers(thing.w, old(DataOf(thing)), s, out)
  {
    hide thing.Valid, Saved, Echo, SaveOk, SavedAll, SaveAllOk, WfRow, Flagged, FinalizeAll;
    match s
    case Save(value, now) =>
      SaveOkIsWf(thing.w, thing.store.table, value, now);
      var row := thing.Save(value, now);
      out := SavedRow(row);
    case SoftDelete(value, now) =>
      var ok := thing.SoftDelete(value, now);
      out := Done(ok);
    case SaveMany(items, fault) =>
      NothingSaved(thing.w.info, DataOf(thing));
      var ok := thing.SaveMany(items, fault);
      out := Done(ok);
  }

  lemma NothingSaved(info: ModelInfo, d: Data)
    ensures SavedAll(info, d, []) == d
  {
  }

  method PerformDelete(thing: Thing, s: Step) returns (out: Outcome)
    requires thing.Valid() && StepOk(thing.w, DataOf(thing), s) && (s.Delete? || s.DeleteMany?)
    modifies thing`store
    ensures thing.Valid() && DataOf(thing) == Next(thing.w, old(DataOf(thing)), s) &&
      Answers(thing.w, old(DataOf(thing)), s, out)
  {
    hide Faithful, QueriesOk, ModelsOk, RegistryOk, FreshId, WfRow, DeleteAllOk, Projects, Saved, Echo, SavedAll,
      RowsAnswer, CountOk, PreciseOk, WfQuery, AreStored;
    ghost var before := thing.store.table;
    match s
    case Delete(value) =>
      var ok := thing.Delete(value);
      assert !ok ==> before - {GetID(value)} == before;
      out := Done(ok);
    case DeleteMany(values, fault) =>
      var ok := thing.DeleteMany(values, fault);
      out := Done(ok);
  }

  /** One step of the cached system. */
  method Perform(thing: Thing, s: Step) returns (out: Outcome)
    requires thing.Valid() && StepOk(thing.w, DataOf(thing), s)
    modifies thing`store, thing.index
    ensures thing.Valid() && DataOf(thing) == Next(thing.w, old(DataOf(thing)), s) &&
      Answers(thing.w, old(DataOf(thing)), s, out)
  {
    hide thing.Valid, Saved, Echo, SaveOk, SavedAll, SaveAllOk, WfRow, Flagged, DeleteAllOk, AreStored, Without;
    hide WfQuery, IsPage, CountOk, VisibleCount, RowsAnswer, Pages, PagesAll, IsFirst, PreciseOk;
    out := Done(true);
    match s
    case Save(_, _) => out := PerformSave(thing, s);
    case SoftDelete(_, _) => out := PerformSave(thing, s);
    case SaveMany(_, _) => out := PerformSave(thing, s);
    case Delete(_) => out := PerformDelete(thing, s);
    case DeleteMany(_, _) => out := PerformDelete(thing, s);
    case ByIDs(ids) =>
      var models := thing.ByIDs(ids);
      out := Models(models);
    case InvalidateQueryCaches => thing.InvalidateQueryCaches();
    case Expire(ids, keys) => thing.Expire(ids, keys);
    case CollectGarbage => thing.CollectGarbage();
    case Count(_) => out := PerformCount(thing, s);
    case CountPrecise(_) => out := PerformCount(thing, s);
    case _ => out := PerformRows(thing, s);
  }

  lemma SaveOkIsWf(w: World, t: Table, value: Row, now: Value)
    requires SaveOk(w, t, value, now)
    ensures WfRow(w.info, value)
  {
  }

  /** Transparency over whole runs: the cached system gives the answers of the system without caches and
      leaves the same data, and every cache stays coherent. */
  method Run(thing: Thing, steps: seq<Step>) returns (outs: seq<Outcome>)
    requires thing.Valid() && RunOk(thing.w, DataOf(thing), steps)
    modifies thing`store, thing.index
    ensures thing.Valid() && DataOf(thing) == After(thing.w, old(DataOf(thing)), steps)
    ensures RunAnswers(thing.w, old(DataOf(thing)), steps, outs)
    decreases |steps|
  {
    hide Answers, Next, StepOk, thing.Valid;
    if steps == [] { return []; }
    var out := Perform(thing, steps[0]);
    var rest := Run(thing, steps[1..]);
    outs := [out] + rest;
    assert outs[1..] == rest;
  }

  /** The same, from empty caches over any table. */
  method RunFromStart(w: World, valueText: Value -> string, noneAware: bool, d: Data, steps: seq<Step>)
    returns (outs: seq<Outcome>)
    requires Faithful(w) && WfTable(w.info, d.table) && FreshId(d.table, d.nextId) && RunOk(w, d, steps)
    ensures RunAnswers(w, d, steps, outs)
  {
    var thing := new Thing(w, valueText, noneAware, d.table, d.nextId);
    outs := Run(thing, steps);
  }
}
