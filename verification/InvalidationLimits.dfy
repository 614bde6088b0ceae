/** Where selective invalidation stops being right: the exact guard for updates, with the failing family. */
module InvalidationLimits {
  import opened Values
  import opened Text
  import opened WhereParser
  import opened WhereMatch
  import opened QueryDependencies
  import opened CacheIndexing
  import opened Coherence
  import opened Invalidation

  /** The query behind `All()`. */
  const ALL_ROWS := QueryParams("", [], "", [], false)

  lemma AllRowsIsCovered(w: World)
    requires WfInfo(w.info)
    ensures WfQuery(w, ALL_ROWS) && ParseQuery(ALL_ROWS) == NoCondition
  {
    assert TrimSpace("") == "";
  }

  lemma AllRowsSql(w: World, row: Row)
    requires Faithful(w) && WfRow(w.info, row)
    ensures Sql(w, ALL_ROWS, row) == !IsDeleted(row)
  {
    hide Sql, WfQuery, ParseQuery;
    FaithfulInfo(w);
    AllRowsIsCovered(w);
    SqlSplits(w, ALL_ROWS, row);
  }

  // ---- Counts as sizes of sets. ----

  function Live(t: Table): set<Id> { set id | id in t && !IsDeleted(t[id]) }

  function LiveKept(w: World, t: Table): set<Id> { set id | id in t && !IsDeleted(t[id]) && w.info.keep(t[id]) }

  lemma AllRowsCounts(w: World, t: Table)
    requires Faithful(w) && WfTable(w.info, t)
    ensures SqlCount(w, t, ALL_ROWS) == |Live(t)| && VisibleCount(w, t, ALL_ROWS) == |LiveKept(w, t)|
  {
    hide Sql, KeptOf, Result, WfRow;
    var all := Result(w, t, ALL_ROWS);
    ResultMembers(w, t, ALL_ROWS);
    KeptOfMembers(w, t, ALL_ROWS, all);
    forall id | id in t ensures Sql(w, ALL_ROWS, t[id]) == !IsDeleted(t[id]) { AllRowsSql(w, t[id]); }
    var kept := KeptOf(w, t, ALL_ROWS, all);
    DistinctSize(all);
    DistinctSize(kept);
    assert forall id :: id in Elements(all) <==> id in all;
    assert forall id :: id in Elements(kept) <==> id in kept;
    assert forall id :: id in Elements(all) <==> id in Live(t);
    assert forall id :: id in Elements(kept) <==> id in LiveKept(w, t);
    assert Elements(all) == Live(t) && Elements(kept) == LiveKept(w, t);
  }

  /** An update as such: the row exists and keeps its id. */
  predicate IsUpdate(w: World, t: Table, m: Mutation) {
    m.Replace? && m.id in t && t[m.id] == m.prior && WfRow(w.info, m.row) && GetID(m.row) == m.id
  }

  /** Invalidation keeps every exact set of entries exact. */
  ghost predicate AlwaysCoherent(w: World, t: Table, m: Mutation) {
    forall queries: map<CacheKey, Entry>, regs: Registry ::
      QueriesExact(w, t, queries) && RegistryOk(w, regs) && queries.Keys <= regs.Keys
      ==> QueriesExact(w, Apply(t, m), queries - Dropped(w, regs, queries, WriteOf(m)))
  }

  /** An uncovered update makes the live count, or the visible count, of the whole table move by one. */
  lemma UncoveredMovesCounts(w: World, t: Table, m: Mutation)
    requires WfTable(w.info, t) && IsUpdate(w, t, m) && !Covered(w, m.prior, m.row)
    ensures IsDeleted(m.row) ==> |Live(Apply(t, m))| == |Live(t)| - 1
    ensures !IsDeleted(m.row) && (IsDeleted(m.prior) || !w.info.keep(m.prior)) ==>
      |LiveKept(w, Apply(t, m))| == |LiveKept(w, t)| + 1
    ensures !IsDeleted(m.row) ==> IsDeleted(m.prior) || !w.info.keep(m.prior)
  {
    hide WfRow, KeepColumnDiffers, IsDeleted;
    var t', id := Apply(t, m), m.id;
    if IsDeleted(m.row) {
      assert Live(t') == Live(t) - {id};
    } else {
      assert LiveKept(w, t') == LiveKept(w, t) + {id} && id !in LiveKept(w, t);
    }
  }

  lemma CountKeyStays(w: World, t: Table, m: Mutation, k: CacheKey, n: nat)
    requires Faithful(w) && WfTable(w.info, t) && IsUpdate(w, t, m) && !Covered(w, m.prior, m.row)
    requires k == CacheKey(CountKey, w.info.tableName, ALL_ROWS)
    ensures Dropped(w, map[k := Registration(k.table, k.params)], map[k := Num(n)], WriteOf(m)) == {}
  {
    hide WfRow, ChangedColumns, KeepColumnDiffers, Faithful, BuildQueryDependencies, SelectedKeys, Selected;
    FaithfulInfo(w);
    AllRowsIsCovered(w);
    var x := WriteOf(m);
    KeepColumnsCompared(w.info, m.prior, m.row);
    assert MatchQuery(w, ALL_ROWS, x.model) == Verdict(true) && MatchOriginal(w, ALL_ROWS, x) == Verdict(true);
    assert TaskFor(w, x, k) == Nothing;
    OnlySelected(map[k := Registration(k.table, k.params)], w.info.tableName, CandidateColumns(w, x));
  }

  lemma OnlySelected(regs: Registry, table: string, candidates: set<string>)
    ensures SelectedKeys(regs, table, candidates) <= regs.Keys
  {
  }

  /** What an exact count of the whole table is. */
  lemma AllRowsExact(w: World, t: Table, n: nat)
    requires Faithful(w) && WfTable(w.info, t)
    ensures EntryExact(w, t, CacheKey(CountKey, w.info.tableName, ALL_ROWS), Num(n)) <==>
      if w.info.customKeep then |LiveKept(w, t)| <= n <= |Live(t)| else n == |Live(t)|
  {
    hide Faithful, WfTable, SqlCount, VisibleCount, Live, LiveKept;
    AllRowsCounts(w, t);
    VisibleWithinSql(w, t);
  }

  /** The failing family: after any uncovered update some cached count of the table is stale. */
  lemma UncoveredGoesStale(w: World, t: Table, m: Mutation)
    requires Faithful(w) && WfTable(w.info, t) && IsUpdate(w, t, m) && !Covered(w, m.prior, m.row)
    ensures !AlwaysCoherent(w, t, m)
  {
    hide WfRow, Covered, Dropped, Faithful, WfQuery, Live, LiveKept, ParseQuery, EntryExact, IsDeleted;
    var t' := Apply(t, m);
    var k := CacheKey(CountKey, w.info.tableName, ALL_ROWS);
    var n := if IsDeleted(m.row) then |Live(t)| else |LiveKept(w, t)|;
    var queries, regs := map[k := Num(n)], map[k := Registration(k.table, k.params)];
    FaithfulInfo(w);
    AllRowsIsCovered(w);
    UpdatedIsWf(w, t, m);
    VisibleWithinSql(w, t);
    VisibleWithinSql(w, t');
    UncoveredMovesCounts(w, t, m);
    AllRowsExact(w, t, n);
    AllRowsExact(w, t', n);
    CountKeyStays(w, t, m, k, n);
    assert QueriesExact(w, t, queries);
    assert queries - Dropped(w, regs, queries, WriteOf(m)) == queries;
    assert !EntryExact(w, t', k, queries[k]);
  }

  lemma UpdatedIsWf(w: World, t: Table, m: Mutation)
    requires WfTable(w.info, t) && IsUpdate(w, t, m)
    ensures WfTable(w.info, Apply(t, m))
  {
  }

  /** Visible rows are among the live ones, and are all of them under the default KeepItem. */
  lemma VisibleWithinSql(w: World, t: Table)
    requires Faithful(w)
    ensures |LiveKept(w, t)| <= |Live(t)|
    ensures !w.info.customKeep ==> LiveKept(w, t) == Live(t)
  {
    hide IsDeleted;
    FaithfulInfo(w);
    SubsetSize(LiveKept(w, t), Live(t));
  }

  lemma SubsetSize(a: set<Id>, b: set<Id>)
    requires a <= b
    ensures |a| <= |b|
  {
    assert b == a + (b - a);
  }

  /** Selective invalidation is right for an update, whatever is cached, exactly when it is covered. */
  lemma UpdateIsCoherentIffCovered(w: World, t: Table, m: Mutation)
    requires Faithful(w) && WfTable(w.info, t) && IsUpdate(w, t, m)
    ensures AlwaysCoherent(w, t, m) <==> Covered(w, m.prior, m.row)
  {
    hide WfRow, Covered, Dropped, Faithful, RegistryOk, EntryOk;
    if Covered(w, m.prior, m.row) {
      forall queries: map<CacheKey, Entry>, regs: Registry
        | QueriesExact(w, t, queries) && RegistryOk(w, regs) && queries.Keys <= regs.Keys
        ensures QueriesExact(w, Apply(t, m), queries - Dropped(w, regs, queries, WriteOf(m)))
      {
        WriteKeepsQueries(w, t, queries, regs, m);
      }
    } else {
      UncoveredGoesStale(w, t, m);
    }
  }

  /** With the default KeepItem the one uncovered update is a restore that changes no declared column. */
  lemma DefaultCoverage(w: World, prior: Row, row: Row)
    requires Faithful(w) && !w.info.customKeep
    ensures Covered(w, prior, row) <==>
      !(IsDeleted(prior) && !IsDeleted(row) && !KeepColumnDiffers(w.info, prior, row))
  {
    hide KeepColumnDiffers;
    FaithfulInfo(w);
  }

  // ---- Where the matcher and the database disagree. ----

  function MatchingIds(w: World, t: Table, q: QueryParams): set<Id> { set id | id in t && Sql(w, q, t[id]) }

  lemma SqlCountIsSize(w: World, t: Table, q: QueryParams)
    requires Faithful(w)
    ensures SqlCount(w, t, q) == |MatchingIds(w, t, q)|
  {
    hide Sql, Result;
    var all := Result(w, t, q);
    ResultMembers(w, t, q);
    DistinctSize(all);
    assert forall id :: id in Elements(all) <==> id in all;
    assert Elements(all) == MatchingIds(w, t, q);
  }

  lemma MatchingAfter(w: World, t: Table, id: Id, row: Row, q: QueryParams)
    requires id in t
    ensures id in MatchingIds(w, t, q) <==> Sql(w, q, t[id])
    ensures MatchingIds(w, t[id := row], q) ==
      if Sql(w, q, row) then MatchingIds(w, t, q) + {id} else MatchingIds(w, t, q) - {id}
  {
    hide Sql;
  }

  /** An update changes the count of a query exactly when the row enters or leaves its result. */
  lemma CountChangesIff(w: World, t: Table, m: Mutation, q: QueryParams)
    requires Faithful(w) && IsUpdate(w, t, m)
    ensures SqlCount(w, Apply(t, m), q) == SqlCount(w, t, q) <==> Sql(w, q, m.prior) == Sql(w, q, m.row)
  {
    hide Sql, Faithful, SqlCount, WfRow, MatchingIds;
    SqlCountIsSize(w, t, q);
    SqlCountIsSize(w, Apply(t, m), q);
    MatchingAfter(w, t, m.id, m.row, q);
    var ids := MatchingIds(w, t, q);
    SizesDiffer(ids, m.id);
    assert m.id in ids ==> ids + {m.id} == ids;
    assert m.id !in ids ==> ids - {m.id} == ids;
  }

  lemma SizesDiffer(ids: set<Id>, id: Id)
    ensures id in ids ==> |ids - {id}| == |ids| - 1
    ensures id !in ids ==> |ids + {id}| == |ids| + 1
  {
  }

  /** The update leaves the row visible, changes no declared KeepItem column, and the clause has the same truth
      value before and after. */
  predicate Unnoticed(w: World, m: Mutation, q: QueryParams) {
    && m.Replace? && w.info.keep(m.row) && !KeepColumnDiffers(w.info, m.prior, m.row)
    && IsDecided(w, q, m.prior) && IsDecided(w, q, m.row) && IsSatisfied(w, q, m.prior) == IsSatisfied(w, q, m.row)
  }

  lemma UnnoticedKeepsCount(w: World, t: Table, m: Mutation, k: CacheKey, n: nat)
    requires IsUpdate(w, t, m) && Unnoticed(w, m, k.params) && k.kind == CountKey && k.table == w.info.tableName
    ensures Dropped(w, map[k := Registration(k.table, k.params)], map[k := Num(n)], WriteOf(m)) == {}
  {
    hide MatchQuery, Selected, SelectedKeys, KeepColumnDiffers, BuildQueryDependencies, WfRow, CandidateColumns,
      ChangedColumns, IsDecided, IsSatisfied;
    QueryMeans(w, k.params, m.prior);
    QueryMeans(w, k.params, m.row);
    KeepColumnsCompared(w.info, m.prior, m.row);
    assert TaskFor(w, WriteOf(m), k) == Nothing;
    OnlySelected(map[k := Registration(k.table, k.params)], w.info.tableName, CandidateColumns(w, WriteOf(m)));
  }

  /** Where the truth value does not change the cached count stays, and it is right exactly when the database
      sees no change either: that the two agree is needed of every query. */
  lemma KeptCountIsRightIff(w: World, t: Table, m: Mutation, q: QueryParams)
    requires Faithful(w) && IsUpdate(w, t, m) && Unnoticed(w, m, q)
    ensures var k := CacheKey(CountKey, w.info.tableName, q);
      var regs, queries := map[k := Registration(k.table, q)], map[k := Num(SqlCount(w, t, q))];
      Dropped(w, regs, queries, WriteOf(m)) == {}
    ensures SqlCount(w, Apply(t, m), q) == SqlCount(w, t, q) <==> Sql(w, q, m.prior) == Sql(w, q, m.row)
  {
    hide *;
    CountChangesIff(w, t, m, q);
    UnnoticedKeepsCount(w, t, m, CacheKey(CountKey, w.info.tableName, q), SqlCount(w, t, q));
  }
}
