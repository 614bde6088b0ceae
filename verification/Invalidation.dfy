/** Which query-cache entries a write drops, and why the rest may stay. */
module Invalidation {
  import opened Values
  import opened WhereLexer
  import opened WhereParser
  import opened WhereMatch
  import opened WhereMeaning
  import opened WhereTruth
  import opened OrderClause
  import opened OrderFields
  import opened QueryDependencies
  import opened CacheIndexing
  import opened Coherence

  // ---- The decision, key by key. ----

  /** A write as the invalidation code sees it. `original` is missing for a create. */
  datatype Write = Write(model: Row, original: Option<Row>, isCreate: bool, isDelete: bool)

  function ChangedColumns(info: ModelInfo, model: Row, original: Option<Row>): set<Column> {
    set c | c in info.tracked &&
      (original.None? || c !in model || c !in original.value || model[c] != original.value[c])
  }

  function Changed(w: World, x: Write): set<Column> { ChangedColumns(w.info, x.model, x.original) }

  predicate KeepFieldChanged(w: World, x: Write) { Changed(w, x) * w.info.keepFields != {} }

  /** The columns whose queries are looked at: the changed ones, or all of them when membership may
      change for reasons other than the WHERE columns. */
  function CandidateColumns(w: World, x: Write): set<Column> {
    if x.isCreate || x.isDelete || !w.info.keep(x.model) || KeepFieldChanged(w, x) then w.info.tracked
      else Changed(w, x)
  }

  predicate OrderDependencyChanged(deps: QueryDeps, changed: set<Column>) {
    changed != {} && (deps.uncertainOrder || deps.orderFields * changed != {})
  }

  /** (needs add, needs remove) */
  function DetermineCacheAction(isCreate: bool, matchesOriginal: bool, matchesCurrent: bool, isKept: bool):
      (bool, bool) {
    if !isKept then (false, true)
    else if isCreate then (matchesCurrent, false)
    else (matchesCurrent && !matchesOriginal, !matchesCurrent && matchesOriginal)
  }

  /** Outcome of the gathering phase for one candidate key. */
  datatype Task = Nothing | DeleteNow | Update(needsAdd: bool, needsRemove: bool)

  function GatherTask(w: World, x: Write, isList: bool, deps: QueryDeps, current: MatchResult,
          original: MatchResult): Task {
    if current.MatchError? then DeleteNow
    else if x.isDelete then (if current.holds then Update(false, true) else Nothing)
    else if original.MatchError? then DeleteNow
    else
      var (add, remove) := DetermineCacheAction(x.isCreate, original.holds, current.holds, w.info.keep(x.model));
      var reordered := isList && !x.isCreate && original.holds && current.holds &&
        OrderDependencyChanged(deps, Changed(w, x));
      var remove' := remove || reordered || (KeepFieldChanged(w, x) && current.holds);
      if add || remove' then Update(add, remove') else Nothing
  }

  function MatchOriginal(w: World, q: QueryParams, x: Write): MatchResult {
    if x.isCreate || x.original.None? then Verdict(false) else MatchQuery(w, q, x.original.value)
  }

  function TaskFor(w: World, x: Write, k: CacheKey): Task {
    GatherTask(w, x, k.kind.ListKey?, BuildQueryDependencies(k.params, k.kind.ListKey?),
               MatchQuery(w, k.params, x.model), MatchOriginal(w, k.params, x))
  }

  /** A list that already holds the id of an added row is left alone. */
  predicate Deletes(task: Task, isList: bool, id: Id, cachedIds: seq<Id>) {
    match task
    case Nothing => false
    case DeleteNow => true
    case Update(add, remove) => if isList then (if add then id !in cachedIds else remove) else add || remove
  }

  function CachedIds(queries: map<CacheKey, Entry>, k: CacheKey): seq<Id> {
    if k in queries && queries[k].Ids? then queries[k].ids else []
  }

  predicate Drops(w: World, queries: map<CacheKey, Entry>, x: Write, k: CacheKey) {
    Deletes(TaskFor(w, x, k), k.kind.ListKey?, GetID(x.model), CachedIds(queries, k))
  }

  /** The keys a write deletes from the query cache. */
  ghost function Dropped(w: World, regs: Registry, queries: map<CacheKey, Entry>, x: Write): set<CacheKey> {
    if GetID(x.model) == NO_ID then {}
    else set k | k in SelectedKeys(regs, w.info.tableName, CandidateColumns(w, x)) && Drops(w, queries, x, k)
  }

  // ---- Writes as changes of the table. ----

  datatype Mutation =
    | Insert(id: Id, row: Row)
    | Replace(id: Id, prior: Row, row: Row)
    | Remove(id: Id, row: Row)

  function WriteOf(m: Mutation): Write {
    match m
    case Insert(_, row) => Write(row, None, true, false)
    case Replace(_, prior, row) => Write(row, Some(prior), false, false)
    case Remove(_, row) => Write(row, Some(row), false, true)
  }

  function Apply(t: Table, m: Mutation): Table {
    match m
    case Insert(id, row) => t[id := row]
    case Replace(id, _, row) => t[id := row]
    case Remove(id, _) => t - {id}
  }

  /** The guard under which selective invalidation is right for an update: the new row is hidden, or a
      declared KeepItem column changed, or the row's visibility is what it was. For a model with the
      default KeepItem it fails only for a plain restore of a soft-deleted row. */
  predicate Covered(w: World, prior: Row, row: Row) {
    || !w.info.keep(row)
    || KeepColumnDiffers(w.info, prior, row)
    || (IsDeleted(prior) == IsDeleted(row) && (IsDeleted(row) || w.info.keep(prior) == w.info.keep(row)))
  }

  predicate Differ(prior: Row, row: Row, c: Column) { c !in prior || c !in row || prior[c] != row[c] }

  /** A declared KeepItem column changed. */
  predicate KeepColumnDiffers(info: ModelInfo, prior: Row, row: Row) {
    exists c :: c in info.keepFields && c in info.tracked && Differ(prior, row, c)
  }

  lemma KeepColumnsCompared(info: ModelInfo, prior: Row, row: Row)
    ensures KeepColumnDiffers(info, prior, row) <==> ChangedColumns(info, row, Some(prior)) * info.keepFields != {}
  {
    forall c | c in info.keepFields && c in info.tracked && Differ(prior, row, c)
      ensures c in ChangedColumns(info, row, Some(prior)) * info.keepFields
    {
    }
    forall c | c in ChangedColumns(info, row, Some(prior)) * info.keepFields
      ensures c in info.keepFields && c in info.tracked && Differ(prior, row, c)
    {
    }
  }

  predicate MutationOk(w: World, t: Table, m: Mutation) {
    match m
    case Insert(id, row) => id.n > 0 && id !in t && WfRow(w.info, row) && GetID(row) == id
    case Replace(id, prior, row) => id in t && t[id] == prior && WfRow(w.info, row) && GetID(row) == id &&
      Covered(w, prior, row)
    case Remove(id, row) => id in t && t[id] == row
  }

  lemma ApplyKeepsWf(w: World, t: Table, m: Mutation)
    requires WfTable(w.info, t) && MutationOk(w, t, m)
    ensures WfTable(w.info, Apply(t, m))
  {
    hide WfRow, Covered;
  }

  // ---- Candidate selection is complete. ----

  lemma RootHasFields(node: Node)
    ensures Fields(node) != {}
  {
  }

  /** What it takes not to be selected. */
  lemma NotSelected(w: World, k: CacheKey, candidates: set<string>)
    requires WfInfo(w.info) && WfQuery(w, k.params) && candidates <= w.info.tracked
    requires !Selected(k, Registration(k.table, k.params), candidates)
    ensures ParseQuery(k.params).Root? && PredicateFields(ParseQuery(k.params)) * candidates == {}
    ensures k.kind.ListKey? ==>
      !ParseOrderFields(k.params.order).1 && ParseOrderFields(k.params.order).0 * candidates == {}
  {
    FieldsAreTracked(w, k.params);
    hide Tokenize, ParseTokens, LegacyFields, LegacyConditions, OrderParts, Sorts;
    var deps := BuildQueryDependencies(k.params, k.kind.ListKey?);
    assert UNCERTAIN !in deps.whereFields && !deps.uncertainOrder;
    assert forall f :: f in candidates ==> f != "" && f !in DependencyFields(deps) && f !in IndexFields(k.params);
    assert k.params.where != "";
  }

  /** The clause has a condition on the column, or the list is sorted on it. */
  predicate DependsOn(k: CacheKey, c: Column) {
    var p := ParseQuery(k.params);
    (p.Root? && Mentions(p.node, c)) || (k.kind.ListKey? && Sorts(k.params.order, c))
  }

  lemma DependencyMeans(k: CacheKey, c: Column)
    ensures var deps := BuildQueryDependencies(k.params, k.kind.ListKey?);
      var p := ParseQuery(k.params);
      !p.Invalid? ==>
        && (c in DependencyFields(deps) || c in IndexFields(k.params) <==>
          DependsOn(k, c) || (c == UNCERTAIN && k.kind.ListKey? && IsUnclear(k.params.order)))
        && (c == UNCERTAIN ==> (c in IndexFields(k.params) ==> c in DependencyFields(deps)))
  {
    hide ParseQuery, ParseOrderFields, Sorts, IsUnclear, Mentions, Fields, LegacyFields, LegacyConditions;
    var q, p := k.params, ParseQuery(k.params);
    OrderFieldsMean(q.order, c);
    BlankOrder(q.order);
    SortsOnNames(q.order, c);
    if p.Root? { FieldsMean(p.node, c); }
  }

  lemma SortsOnNames(order: string, c: string)
    ensures Sorts(order, c) ==> c != ""
  {
  }

  /** The candidates of a write: keys without a clause or whose clause or order is not understood, and those that
      depend on a candidate column, or on one named `*`. */
  lemma SelectedMeans(k: CacheKey, candidates: set<string>)
    ensures var q := k.params;
      Selected(k, Registration(k.table, q), candidates) <==>
        || q.where == "" || ParseQuery(q).Invalid? || (k.kind.ListKey? && IsUnclear(q.order))
        || exists c :: c in candidates + {UNCERTAIN} && DependsOn(k, c)
  {
    var q, reg := k.params, Registration(k.table, k.params);
    if ParseQuery(q).Invalid? {
      InvalidIsUncertain(k);
      return;
    }
    hide ParseQuery, BuildQueryDependencies, DependencyFields, IndexFields, DependsOn, IsUnclear;
    DependencyMeans(k, UNCERTAIN);
    forall c
      ensures c in DependencyFields(DepsOf(k, reg)) || c in IndexFields(q) <==>
        DependsOn(k, c) || (c == UNCERTAIN && k.kind.ListKey? && IsUnclear(q.order))
    {
      DependencyMeans(k, c);
    }
    assert forall c :: c in candidates + {UNCERTAIN} <==> c in candidates || c == UNCERTAIN;
  }

  lemma InvalidIsUncertain(k: CacheKey)
    requires ParseQuery(k.params).Invalid?
    ensures UNCERTAIN in DependencyFields(BuildQueryDependencies(k.params, k.kind.ListKey?))
  {
    hide ParseQuery, ParseOrderFields, IndexFields;
  }

  /** Outside the selected keys nothing a query answers can have changed. */
  lemma UnselectedUnaffected(w: World, t: Table, m: Mutation, k: CacheKey)
    requires Faithful(w) && WfTable(w.info, t) && MutationOk(w, t, m) && WfQuery(w, k.params)
    requires !Selected(k, Registration(k.table, k.params), CandidateColumns(w, WriteOf(m)))
    ensures SameMembers(w, t, Apply(t, m), k.params)
    ensures k.kind.ListKey? ==> SameOrder(w, t, Apply(t, m), k.params)
  {
    hide Selected, ParseQuery, ParseOrderFields, Sql, Match, OrderKey, WfQuery, Faithful, KeepColumnDiffers;
    var x, q := WriteOf(m), k.params;
    FaithfulInfo(w);
    NotSelected(w, k, CandidateColumns(w, x));
    var node := ParseQuery(q).node;
    RootHasFields(node);
    FieldsAreTracked(w, q);
    assert CandidateColumns(w, x) != w.info.tracked;
    var prior, row := m.prior, m.row;
    UntouchedAgree(w, prior, row, Fields(node));
    HoldsIsLocal(w, q, prior, row);
    if k.kind.ListKey? {
      UntouchedAgree(w, prior, row, ParseOrderFields(q.order).0);
      OrderKeyIsLocal(w.info, q.order, prior, row);
    }
    SqlSplits(w, q, prior);
    SqlSplits(w, q, row);
    KeepColumnsCompared(w.info, prior, row);
    OneRowSame(w, t, m.id, row, q);
  }

  lemma FaithfulInfo(w: World)
    requires Faithful(w)
    ensures WfInfo(w.info)
  {
  }

  /** Tracked columns that did not change agree. */
  lemma UntouchedAgree(w: World, prior: Row, row: Row, fields: set<Column>)
    requires WfRow(w.info, prior) && WfRow(w.info, row) && w.info.tracked <= w.info.columns
    requires fields <= w.info.tracked && fields * ChangedColumns(w.info, row, Some(prior)) == {}
    ensures AgreeOn(fields, prior, row)
  {
    forall c | c in fields ensures c in prior && c in row && prior[c] == row[c] {
      assert c !in fields * ChangedColumns(w.info, row, Some(prior));
    }
  }

  /** Replacing one row that matches, is kept and sorts as before changes nothing. */
  lemma OneRowSame(w: World, t: Table, id: Id, row: Row, q: QueryParams)
    requires id in t && Sql(w, q, t[id]) == Sql(w, q, row)
    requires Sql(w, q, row) ==> Kept(w, q, t[id]) == Kept(w, q, row)
    ensures SameMembers(w, t, t[id := row], q)
    ensures (Sql(w, q, row) ==> OrderKey(w.info, q.order, t[id]) == OrderKey(w.info, q.order, row)) ==>
      SameOrder(w, t, t[id := row], q)
  {
    hide Sql, Kept, OrderKey;
  }

  // ---- Selected keys that are not dropped. ----

  /** A row outside the SQL result, before and after, is none of the query's business. */
  lemma NoMatchSame(w: World, t: Table, m: Mutation, q: QueryParams)
    requires MutationOk(w, t, m)
    requires m.id in t ==> !Sql(w, q, t[m.id])
    requires !m.Remove? ==> !Sql(w, q, m.row)
    ensures SameMembers(w, t, Apply(t, m), q) && SameOrder(w, t, Apply(t, m), q)
  {
    hide Sql, Kept, OrderKey, WfRow, Covered;
  }

  lemma VerdictFalseExcludes(w: World, q: QueryParams, row: Row)
    requires Faithful(w) && WfQuery(w, q) && WfRow(w.info, row) && MatchQuery(w, q, row) == Verdict(false)
    ensures !Sql(w, q, row)
  {
    hide Sql, Holds, MatchQuery, WfQuery;
    SqlSplits(w, q, row);
    VerdictDecides(w, q, row);
  }

  /** An id that matches no row of the table is in no right list. */
  lemma NotListed(w: World, t: Table, k: CacheKey, e: Entry, id: Id)
    requires Faithful(w) && k.kind.ListKey? && EntryOk(w, t, k, e)
    requires id in t ==> !Sql(w, k.params, t[id])
    ensures e.Ids? && id !in e.ids
  {
    hide Sql, KeptOf, Result;
    var all := Result(w, t, k.params);
    ResultMembers(w, t, k.params);
    var reach := Take(FILL_REACH, all);
    assert Distinct(reach) && forall x :: x in reach ==> x in all;
    KeptOfMembers(w, t, k.params, reach);
  }

  /** The row matches before and after, no KeepItem column changed, and a list's order columns did not. */
  lemma StillMatches(w: World, t: Table, m: Mutation, k: CacheKey)
    requires Faithful(w) && WfTable(w.info, t) && MutationOk(w, t, m) && WfQuery(w, k.params) && m.Replace?
    requires w.info.keep(m.row) && !KeepFieldChanged(w, WriteOf(m))
    requires MatchQuery(w, k.params, m.prior) == MatchQuery(w, k.params, m.row) == Verdict(true)
    requires k.kind.ListKey? ==> !OrderDependencyChanged(BuildQueryDependencies(k.params, true), Changed(w, WriteOf(m)))
    ensures SameMembers(w, t, Apply(t, m), k.params)
    ensures k.kind.ListKey? ==> SameOrder(w, t, Apply(t, m), k.params)
  {
    hide ParseQuery, ParseOrderFields, Sql, Match, MatchQuery, OrderKey, WfQuery, ChangedColumns, Faithful, IndexFields,
      KeepColumnDiffers;
    var q, prior, row := k.params, m.prior, m.row;
    FaithfulInfo(w);
    VerdictDecides(w, q, prior);
    VerdictDecides(w, q, row);
    SqlSplits(w, q, prior);
    SqlSplits(w, q, row);
    KeepColumnsCompared(w.info, prior, row);
    if k.kind.ListKey? { OrderUnchanged(w, q, prior, row); }
    OneRowSame(w, t, m.id, row, q);
  }

  lemma OrderUnchanged(w: World, q: QueryParams, prior: Row, row: Row)
    requires WfInfo(w.info) && WfQuery(w, q) && WfRow(w.info, prior) && WfRow(w.info, row)
    requires !OrderDependencyChanged(BuildQueryDependencies(q, true), ChangedColumns(w.info, row, Some(prior)))
    ensures OrderKey(w.info, q.order, prior) == OrderKey(w.info, q.order, row)
  {
    FieldsAreTracked(w, q);
    hide ParseQuery, OrderParts, IndexFields, ChangedColumns, PredicateFields, OrderKey, Sorts;
    var (fields, uncertain) := ParseOrderFields(q.order);
    var deps := BuildQueryDependencies(q, true);
    OrderDepsAre(q);
    UntouchedAgree(w, prior, row, if uncertain then w.info.tracked else fields);
    OrderKeyIsLocal(w.info, q.order, prior, row);
  }

  lemma BlankOrder(order: string)
    ensures order == "" ==> ParseOrderFields(order) == ({}, false)
  {
  }

  ghost predicate Unaffected(w: World, t: Table, m: Mutation, k: CacheKey) {
    SameMembers(w, t, Apply(t, m), k.params) && (k.kind.ListKey? ==> SameOrder(w, t, Apply(t, m), k.params))
  }

  lemma MatchedOnlyAfter(w: World, t: Table, m: Mutation, k: CacheKey, e: Entry)
    requires Faithful(w) && WfTable(w.info, t) && MutationOk(w, t, m) && WfQuery(w, k.params) && EntryOk(w, t, k, e)
    requires m.Insert? || (m.Replace? && MatchQuery(w, k.params, m.prior) == Verdict(false))
    ensures k.kind.ListKey? ==> e.Ids? && m.id !in e.ids
  {
    hide Sql, MatchQuery, WfQuery, EntryOk, Covered, Faithful;
    if m.Replace? { VerdictFalseExcludes(w, k.params, m.prior); }
    if k.kind.ListKey? { NotListed(w, t, k, e, m.id); }
  }

  /** A candidate that the gathering and computing phases leave in the cache is still right. */
  lemma UndroppedUnaffected(w: World, t: Table, m: Mutation, queries: map<CacheKey, Entry>, k: CacheKey)
    requires Faithful(w) && WfTable(w.info, t) && MutationOk(w, t, m) && WfQuery(w, k.params)
    requires k in queries && EntryOk(w, t, k, queries[k]) && !Drops(w, queries, WriteOf(m), k)
    ensures Unaffected(w, t, m, k)
  {
    hide Sql, MatchQuery, WfQuery, EntryOk, Covered, Faithful, KeepFieldChanged, OrderDependencyChanged;
    hide BuildQueryDependencies, SameMembers, SameOrder;
    var x, q := WriteOf(m), k.params;
    var mc, mo := MatchQuery(w, q, x.model), MatchOriginal(w, q, x);
    if m.Insert? || (m.Replace? && mo == Verdict(false)) { MatchedOnlyAfter(w, t, m, k, queries[k]); }
    if m.Replace? && mc == mo == Verdict(true) {
      StillMatches(w, t, m, k);
    } else {
      assert mc == Verdict(false) && (m.Replace? ==> mo == Verdict(false));
      VerdictFalseExcludes(w, q, m.row);
      if m.Replace? { VerdictFalseExcludes(w, q, m.prior); }
      NoMatchSame(w, t, m, q);
    }
  }

  lemma RestUnaffected(w: World, t: Table, queries: map<CacheKey, Entry>, regs: Registry, m: Mutation, k: CacheKey)
    requires Faithful(w) && WfTable(w.info, t) && MutationOk(w, t, m) && RegistryOk(w, regs)
    requires k in queries && EntryOk(w, t, k, queries[k]) && k in regs && k !in Dropped(w, regs, queries, WriteOf(m))
    ensures Unaffected(w, t, m, k)
  {
    hide EntryOk, Drops, Selected, WfQuery, Faithful, WfRow, Covered, SameMembers, SameOrder, CandidateColumns;
    var x := WriteOf(m);
    assert regs[k] == Registration(k.table, k.params) && WfQuery(w, k.params);
    if Selected(k, regs[k], CandidateColumns(w, x)) {
      assert k in SelectedKeys(regs, w.info.tableName, CandidateColumns(w, x));
      UndroppedUnaffected(w, t, m, queries, k);
    } else {
      UnselectedUnaffected(w, t, m, k);
    }
  }

  /** Completeness for one write: every live key that is not dropped answers the new table, and is as
      exact as it was. */
  lemma WriteKeepsQueries(w: World, t: Table, queries: map<CacheKey, Entry>, regs: Registry, m: Mutation)
    requires Faithful(w) && WfTable(w.info, t) && MutationOk(w, t, m)
    requires QueriesOk(w, t, queries) && RegistryOk(w, regs) && queries.Keys <= regs.Keys
    ensures QueriesOk(w, Apply(t, m), queries - Dropped(w, regs, queries, WriteOf(m)))
    ensures QueriesExact(w, t, queries) ==>
      QueriesExact(w, Apply(t, m), queries - Dropped(w, regs, queries, WriteOf(m)))
  {
    hide EntryOk, EntryExact, Dropped, RegistryOk, Faithful, WfTable, MutationOk, SameMembers, SameOrder;
    var rest := queries - Dropped(w, regs, queries, WriteOf(m));
    forall k | k in rest
      ensures EntryOk(w, Apply(t, m), k, rest[k])
      ensures EntryExact(w, t, k, rest[k]) ==> EntryExact(w, Apply(t, m), k, rest[k])
    {
      RestUnaffected(w, t, queries, regs, m, k);
      EntryUnaffected(w, t, Apply(t, m), k, queries[k]);
    }
  }

  // ---- Nothing is dropped without need. ----

  /** A column the list is sorted on changed; any tracked one, if the clause is not understood. */
  predicate SortColumnDiffers(info: ModelInfo, order: string, prior: Row, row: Row) {
    exists c :: c in info.tracked && (IsUnclear(order) || Sorts(order, c)) && Differ(prior, row, c)
  }

  /** The row is hidden, or it joins or leaves the result, or it stays in it and a declared KeepItem column
      changed, or a column the list is sorted on. */
  predicate NeedsDrop(w: World, m: Mutation, k: CacheKey) {
    var q := k.params;
    match m
    case Insert(_, row) => !w.info.keep(row) || IsSatisfied(w, q, row)
    case Remove(_, row) => IsSatisfied(w, q, row)
    case Replace(_, prior, row) =>
      || !w.info.keep(row)
      || IsSatisfied(w, q, prior) != IsSatisfied(w, q, row)
      || (IsSatisfied(w, q, row) && (KeepColumnDiffers(w.info, prior, row) ||
        (k.kind.ListKey? && SortColumnDiffers(w.info, q.order, prior, row))))
  }

  /** Where the clause is decided on the rows before and after, a live key is dropped exactly if it has to be. */
  lemma DropsExactly(w: World, t: Table, queries: map<CacheKey, Entry>, regs: Registry, m: Mutation, k: CacheKey)
    requires Faithful(w) && WfTable(w.info, t) && MutationOk(w, t, m)
    requires RegistryOk(w, regs) && k in regs && k in queries && EntryOk(w, t, k, queries[k])
    requires IsDecided(w, k.params, m.row) && (m.Replace? ==> IsDecided(w, k.params, m.prior))
    ensures k in Dropped(w, regs, queries, WriteOf(m)) <==> NeedsDrop(w, m, k)
  {
    hide MatchQuery, WfQuery, EntryOk, Faithful, Selected, Covered, IsDecided, IsSatisfied, SortColumnDiffers,
      CandidateColumns, NeedsDrop, Drops;
    var x := WriteOf(m);
    assert WfQuery(w, k.params) && regs[k] == Registration(k.table, k.params);
    assert GetID(x.model) != NO_ID;
    OriginalMeans(w, m, k.params);
    QueryMeans(w, k.params, m.row);
    if !m.Remove? && MatchOriginal(w, k.params, x) == Verdict(false) { MatchedOnlyAfter(w, t, m, k, queries[k]); }
    DropRule(w, t, queries, m, k);
    if NeedsDrop(w, m, k) { NeededIsSelected(w, t, m, k); }
  }

  /** A column whose queries a write may concern: any tracked one if rows come, go or change visibility, else one
      that changed. */
  predicate IsCandidateColumn(w: World, m: Mutation, c: Column) {
    c in w.info.tracked &&
    (m.Replace? && w.info.keep(m.row) && !KeepColumnDiffers(w.info, m.prior, m.row) ==> Differ(m.prior, m.row, c))
  }

  /** A key without a clause, one that is not understood, or one that depends on such a column, or on one named `*`. */
  ghost predicate MayConcern(w: World, m: Mutation, k: CacheKey) {
    || k.params.where == "" || ParseQuery(k.params).Invalid? || (k.kind.ListKey? && IsUnclear(k.params.order))
    || DependsOn(k, "*")
    || exists c :: IsCandidateColumn(w, m, c) && DependsOn(k, c)
  }

  lemma CandidatesMean(w: World, m: Mutation, k: CacheKey)
    ensures Selected(k, Registration(k.table, k.params), CandidateColumns(w, WriteOf(m))) <==> MayConcern(w, m, k)
  {
    hide Selected, DependsOn, IsUnclear, ParseQuery, KeepColumnDiffers;
    var candidates := CandidateColumns(w, WriteOf(m));
    SelectedMeans(k, candidates);
    if m.Replace? { KeepColumnsCompared(w.info, m.prior, m.row); }
    forall c ensures c in candidates <==> IsCandidateColumn(w, m, c) { }
    assert UNCERTAIN in candidates + {UNCERTAIN};
    assert forall c :: c in candidates + {UNCERTAIN} <==> c in candidates || c == UNCERTAIN;
  }

  /** Where it is not decided on one of them, a key is dropped exactly if the write may concern it. */
  lemma UndecidedDropsConcerned(w: World, queries: map<CacheKey, Entry>, regs: Registry, m: Mutation, k: CacheKey)
    requires k in regs && regs[k] == Registration(w.info.tableName, k.params) && k.table == w.info.tableName
    requires GetID(m.row) != NO_ID
    requires !IsDecided(w, k.params, m.row) || (m.Replace? && !IsDecided(w, k.params, m.prior))
    ensures k in Dropped(w, regs, queries, WriteOf(m)) <==> MayConcern(w, m, k)
  {
    hide MatchQuery, Selected, CandidateColumns, IsDecided, IsSatisfied, BuildQueryDependencies, KeepFieldChanged,
      MayConcern;
    QueryMeans(w, k.params, m.row);
    if m.Replace? { QueryMeans(w, k.params, m.prior); }
    assert Drops(w, queries, WriteOf(m), k);
    CandidatesMean(w, m, k);
  }

  lemma OriginalMeans(w: World, m: Mutation, q: QueryParams)
    requires m.Replace? ==> IsDecided(w, q, m.prior)
    ensures m.Insert? ==> MatchOriginal(w, q, WriteOf(m)) == Verdict(false)
    ensures m.Replace? ==> MatchOriginal(w, q, WriteOf(m)) == Verdict(IsSatisfied(w, q, m.prior))
  {
    hide MatchQuery, IsDecided, IsSatisfied;
    if m.Replace? { QueryMeans(w, q, m.prior); }
  }

  lemma SortColumnsCompared(w: World, q: QueryParams, prior: Row, row: Row)
    requires WfQuery(w, q)
    ensures SortColumnDiffers(w.info, q.order, prior, row) <==>
      OrderDependencyChanged(BuildQueryDependencies(q, true), ChangedColumns(w.info, row, Some(prior)))
  {
    hide BuildQueryDependencies, ParseOrderFields, Sorts, IsUnclear, WfQuery;
    OrderDepsAre(q);
    OrderFieldsMean(q.order, "");
    FieldsAreTracked(w, q);
    var changed, fields := ChangedColumns(w.info, row, Some(prior)), ParseOrderFields(q.order).0;
    forall c ensures c in fields <==> Sorts(q.order, c) { OrderFieldsMean(q.order, c); }
    forall c | c in w.info.tracked ensures c in changed <==> Differ(prior, row, c) { }
    if SortColumnDiffers(w.info, q.order, prior, row) {
      var c :| c in w.info.tracked && (IsUnclear(q.order) || Sorts(q.order, c)) && Differ(prior, row, c);
      assert c in changed && (c in fields ==> c in fields * changed);
    }
    if c :| c in fields * changed { assert Sorts(q.order, c) && c in w.info.tracked; }
    if c :| c in changed { assert c in w.info.tracked; }
  }

  lemma DropRule(w: World, t: Table, queries: map<CacheKey, Entry>, m: Mutation, k: CacheKey)
    requires k in queries && WfQuery(w, k.params) && GetID(m.row) == m.id
    requires MatchQuery(w, k.params, m.row) == Verdict(IsSatisfied(w, k.params, m.row))
    requires m.Insert? ==> MatchOriginal(w, k.params, WriteOf(m)) == Verdict(false)
    requires m.Replace? ==> MatchOriginal(w, k.params, WriteOf(m)) == Verdict(IsSatisfied(w, k.params, m.prior))
    requires !m.Remove? && MatchOriginal(w, k.params, WriteOf(m)) == Verdict(false) && k.kind.ListKey? ==>
      queries[k].Ids? && m.id !in queries[k].ids
    ensures Drops(w, queries, WriteOf(m), k) <==> NeedsDrop(w, m, k)
  {
    hide MatchQuery, BuildQueryDependencies, OrderDependencyChanged, IsSatisfied, SortColumnDiffers, KeepColumnDiffers,
      ChangedColumns, WfQuery;
    if m.Replace? {
      KeepColumnsCompared(w.info, m.prior, m.row);
      SortColumnsCompared(w, k.params, m.prior, m.row);
    }
  }

  lemma NeededIsSelected(w: World, t: Table, m: Mutation, k: CacheKey)
    requires Faithful(w) && WfTable(w.info, t) && MutationOk(w, t, m) && WfQuery(w, k.params)
    requires IsDecided(w, k.params, m.row) && (m.Replace? ==> IsDecided(w, k.params, m.prior))
    requires NeedsDrop(w, m, k)
    ensures Selected(k, Registration(k.table, k.params), CandidateColumns(w, WriteOf(m)))
  {
    hide Selected, ParseQuery, ParseOrderFields, Match, OrderKey, WfQuery, Faithful, IsDecided, IsSatisfied,
      SortColumnDiffers, KeepColumnDiffers, ChangedColumns, MatchQuery;
    var x, q := WriteOf(m), k.params;
    var candidates := CandidateColumns(w, x);
    FaithfulInfo(w);
    FieldsAreTracked(w, q);
    if !Selected(k, Registration(k.table, k.params), candidates) {
      CandidatesAreTracked(w, x);
      NotSelected(w, k, candidates);
      RootHasFields(ParseQuery(q).node);
      assert candidates != w.info.tracked;
      KeepColumnsCompared(w.info, m.prior, m.row);
      UnselectedStays(w, q, m.prior, m.row);
      if k.kind.ListKey? { SortColumnsCompared(w, q, m.prior, m.row); OrderDepsAre(q); }
      assert false;
    }
  }

  lemma CandidatesAreTracked(w: World, x: Write)
    ensures CandidateColumns(w, x) <= w.info.tracked
  {
  }

  lemma UnselectedStays(w: World, q: QueryParams, prior: Row, row: Row)
    requires WfRow(w.info, prior) && WfRow(w.info, row) && w.info.tracked <= w.info.columns && ParseQuery(q).Root?
    requires Fields(ParseQuery(q).node) <= w.info.tracked
    requires Fields(ParseQuery(q).node) * ChangedColumns(w.info, row, Some(prior)) == {}
    requires IsDecided(w, q, prior) && IsDecided(w, q, row)
    ensures IsSatisfied(w, q, prior) == IsSatisfied(w, q, row)
  {
    hide ParseQuery, Match, IsStuck, IsTrue, Fields, ChangedColumns;
    var node := ParseQuery(q).node;
    UntouchedAgree(w, prior, row, Fields(node));
    MatchIsLocal(w.info.goFields, node, q.args, prior, row);
    MatchMeans(w.info.goFields, node, q.args, prior);
    MatchMeans(w.info.goFields, node, q.args, row);
  }

  lemma OrderDepsAre(q: QueryParams)
    ensures BuildQueryDependencies(q, true).orderFields == ParseOrderFields(q.order).0
    ensures BuildQueryDependencies(q, true).uncertainOrder == ParseOrderFields(q.order).1
  {
    hide OrderParts, IndexFields, ParseQuery;
    BlankOrder(q.order);
  }
}
