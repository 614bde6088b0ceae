/** Queries: counting, paging, and the memo a query object keeps. */
module Queries {
  import opened Values
  import opened WhereParser
  import opened CacheIndexing
  import opened Coherence
  import opened ModelCache
  import opened Paging
  import opened Saving
  import opened ThingOrm

  /** What a query object remembers; it is not told about writes. */
  datatype Memo = Memo(cachedIDs: seq<Id>, cachedCount: nat, hasLoadedIDs: bool, hasLoadedCount: bool)

  const NO_MEMO := Memo([], 0, false, false)

  /** The memo, where filled, agrees with the table. True of a fresh query object. */
  predicate MemoOk(w: World, t: Table, q: QueryParams, m: Memo) {
    && (m.hasLoadedIDs ==> m.cachedIDs == ListFill(w, t, q))
    && (m.hasLoadedCount ==> CountOk(w, t, q, m.cachedCount))
  }

  lemma SqlCountCounts(w: World, t: Table, q: QueryParams)
    requires Faithful(w) && WfTable(w.info, t) && WfQuery(w, q)
    ensures CountOk(w, t, q, SqlCount(w, t, q)) && PreciseOk(w, t, q, VisibleCount(w, t, q))
  {
    hide Faithful, WfTable, WfQuery, SqlCount, VisibleCount;
    VisibleWithinSqlCount(w, t, q);
  }

  // ---- What a page is. ----

  /** The rows of `LIMIT limit OFFSET offset`. */
  ghost predicate IsPage(w: World, t: Table, q: QueryParams, offset: nat, limit: nat, rows: seq<Row>) {
    InTable(t, Page(Result(w, t, q), offset, limit)) && rows == RowsOf(t, Page(Result(w, t, q), offset, limit))
  }

  function Max(a: int, b: int): int { if a < b then b else a }

  /** The model keeps every row, stored or not. */
  predicate RowsKept(w: World, q: QueryParams, rows: seq<Row>) { forall k :: 0 <= k < |rows| ==> Kept(w, q, rows[k]) }

  /** Every row is a stored row that the model keeps. */
  predicate AllKept(w: World, t: Table, q: QueryParams, rows: seq<Row>) {
    RowsKept(w, q, rows) && forall k :: 0 <= k < |rows| ==> GetID(rows[k]) in t && t[GetID(rows[k])] == rows[k]
  }

  predicate AllMatch(w: World, q: QueryParams, rows: seq<Row>) { forall k :: 0 <= k < |rows| ==> Sql(w, q, rows[k]) }

  /** The ids of a page, up to position `end` of the SQL result: the slice of the list, then, past the list,
      the kept rows of the SQL result. Offsets into the two are the same numbers. */
  function PageIds(w: World, t: Table, q: QueryParams, offset: nat, limit: nat, end: nat): seq<Id> {
    var all, list := Result(w, t, q), ListFill(w, t, q);
    var start := Max(offset, |list|);
    Page(list, offset, limit) + KeptOf(w, t, q, Page(all, start, Max(end - start, 0)))
  }

  /** What `Fetch` returns, for any model: the slice of the list, continued in the SQL result until there are
      enough rows or the count is reached. */
  ghost predicate PagesTo(w: World, t: Table, q: QueryParams, offset: nat, limit: nat, rows: seq<Row>, end: nat) {
    var ids := PageIds(w, t, q, offset, limit, end);
    && |ids| <= limit && InTable(t, ids) && rows == RowsOf(t, ids)
    && (|rows| < limit ==> end >= VisibleCount(w, t, q) - Shortfall(w, t, q))
    && (ListFill(w, t, q) == [] ==> rows == [])
  }

  ghost predicate Pages(w: World, t: Table, q: QueryParams, offset: nat, limit: nat, rows: seq<Row>) {
    exists end: nat :: PagesTo(w, t, q, offset, limit, rows, end)
  }

  /** What `All` returns: a page from the start, as long as some right count. */
  ghost predicate PagesAll(w: World, t: Table, q: QueryParams, rows: seq<Row>) {
    exists count: nat :: CountOk(w, t, q, count) && Pages(w, t, q, 0, count, rows)
  }

  /** What `First` returns: the first visible row within reach. */
  predicate IsFirst(w: World, t: Table, q: QueryParams, row: Option<Row>) {
    var list := ListFill(w, t, q);
    if list == [] then row == None else list[0] in t && row == Some(t[list[0]])
  }

  lemma EmptyLimit(w: World, t: Table, q: QueryParams)
    ensures Pages(w, t, q, 0, 0, [])
  {
    hide Result, ListFill;
    assert KeptOf(w, t, q, []) == [];
    assert PagesTo(w, t, q, 0, 0, [], 0);
  }

  lemma FirstOfPage(w: World, t: Table, q: QueryParams, rows: seq<Row>)
    requires Pages(w, t, q, 0, 1, rows)
    ensures |rows| <= 1 && IsFirst(w, t, q, if |rows| == 0 then None else Some(rows[0]))
  {
    hide Result, ListFill, KeptOf;
    var end: nat :| PagesTo(w, t, q, 0, 1, rows, end);
    var ids := PageIds(w, t, q, 0, 1, end);
    if ListFill(w, t, q) != [] { assert ids[0] == ListFill(w, t, q)[0] && ids[0] in ids; }
  }

  lemma NoneKept(w: World, t: Table, q: QueryParams)
    ensures AllKept(w, t, q, [])
  {
  }

  lemma KeptExtends(w: World, t: Table, q: QueryParams, rows: seq<Row>, batch: seq<Row>)
    requires RowsKept(w, q, rows) && RowsKept(w, q, batch)
    ensures RowsKept(w, q, rows + batch)
    ensures AllKept(w, t, q, rows) && AllKept(w, t, q, batch) ==> AllKept(w, t, q, rows + batch)
  {
    hide Kept;
  }

  lemma RowsConcat(t: Table, a: seq<Id>, b: seq<Id>)
    requires InTable(t, a) && InTable(t, b)
    ensures InTable(t, a + b) && RowsOf(t, a + b) == RowsOf(t, a) + RowsOf(t, b) && |RowsOf(t, a)| == |a|
  {
  }

  lemma RowsAreKept(w: World, t: Table, q: QueryParams, ids: seq<Id>)
    requires WfTable(w.info, t) && forall k :: 0 <= k < |ids| ==> ids[k] in t && Kept(w, q, t[ids[k]])
    requires InTable(t, ids)
    ensures AllKept(w, t, q, RowsOf(t, ids))
  {
    hide Kept, WfRow;
  }

  lemma PageIdsAreResults(w: World, t: Table, q: QueryParams, offset: nat, limit: nat, end: nat)
    ensures forall id :: id in PageIds(w, t, q, offset, limit, end) ==> id in Result(w, t, q)
    ensures forall id :: id in ListFill(w, t, q) ==> id in t && Kept(w, q, t[id])
  {
    hide KeptOf, Result, Kept;
    var all, list := Result(w, t, q), ListFill(w, t, q);
    var start := Max(offset, |list|);
    var past := Page(all, start, Max(end - start, 0));
    KeptOfShorter(w, t, q, past);
    KeptOfShorter(w, t, q, Take(FILL_REACH, all));
    forall id | id in list ensures id in all && id in t && Kept(w, q, t[id]) {
      assert id in KeptOf(w, t, q, Take(FILL_REACH, all));
    }
  }

  /** Every row of a page matches the query. */
  lemma PagedRowsMatch(w: World, t: Table, q: QueryParams, offset: nat, limit: nat, rows: seq<Row>)
    requires Faithful(w) && Pages(w, t, q, offset, limit, rows)
    ensures AllMatch(w, q, rows)
  {
    var end: nat :| PagesTo(w, t, q, offset, limit, rows, end);
    var ids := PageIds(w, t, q, offset, limit, end);
    assert InTable(t, ids) && rows == RowsOf(t, ids);
    hide Faithful, Sql, KeptOf, Result, RowsOf, PageIds, PagesTo;
    ResultMembers(w, t, q);
    PageIdsAreResults(w, t, q, offset, limit, end);
    forall k | 0 <= k < |rows| ensures Sql(w, q, rows[k]) {
      assert ids[k] in ids;
    }
  }

  lemma DefaultPageIds(w: World, t: Table, q: QueryParams, offset: nat, limit: nat, end: nat)
    requires Faithful(w) && WfTable(w.info, t) && WfQuery(w, q) && !w.info.customKeep
    ensures var all := Result(w, t, q);
      var start := Max(offset, |Take(LIST_LIMIT, all)|);
      PageIds(w, t, q, offset, limit, end) ==
        Page(Take(LIST_LIMIT, all), offset, limit) + Page(all, start, Max(end - start, 0))
    ensures VisibleCount(w, t, q) - Shortfall(w, t, q) == |Result(w, t, q)|
  {
    hide Faithful, WfTable, WfQuery, KeptOf, Result, ListFill, Kept;
    var all, list := Result(w, t, q), ListFill(w, t, q);
    DefaultKeepsAll(w, t, q);
    var start := Max(offset, |list|);
    var past := Page(all, start, Max(end - start, 0));
    assert forall k :: 0 <= k < |past| ==> past[k] in all;
    KeptOfAll(w, t, q, past);
  }

  lemma DefaultIdsJoin(w: World, t: Table, q: QueryParams, offset: nat, limit: nat, end: nat)
    requires Faithful(w) && WfTable(w.info, t) && WfQuery(w, q) && !w.info.customKeep
    requires var ids := PageIds(w, t, q, offset, limit, end);
      |ids| <= limit && (|ids| < limit ==> end >= VisibleCount(w, t, q) - Shortfall(w, t, q))
    ensures PageIds(w, t, q, offset, limit, end) == Page(Result(w, t, q), offset, limit)
  {
    hide Faithful, WfTable, WfQuery, Result, PageIds, Take, Page, VisibleCount, Shortfall;
    DefaultPageIds(w, t, q, offset, limit, end);
    SlicesJoin(Result(w, t, q), LIST_LIMIT, offset, limit, end);
  }

  /** With the default KeepItem a page is the slice of the SQL result. */
  lemma DefaultPages(w: World, t: Table, q: QueryParams, offset: nat, limit: nat, rows: seq<Row>)
    requires Faithful(w) && WfTable(w.info, t) && WfQuery(w, q) && !w.info.customKeep
    requires Pages(w, t, q, offset, limit, rows)
    ensures IsPage(w, t, q, offset, limit, rows)
  {
    hide Faithful, WfTable, WfQuery, RowsOf, InTable, Result, PageIds, Page, VisibleCount, Shortfall, ListFill;
    var end: nat :| PagesTo(w, t, q, offset, limit, rows, end);
    DefaultIdsJoin(w, t, q, offset, limit, end);
  }

  /** A slice of a prefix and of what follows it is a slice of the whole. */
  lemma SlicesJoin(all: seq<Id>, n: nat, offset: nat, limit: nat, end: nat)
    requires n > 0
    requires var list := Take(n, all);
      var start := Max(offset, |list|);
      var ids := Page(list, offset, limit) + Page(all, start, Max(end - start, 0));
      |ids| <= limit && (|ids| < limit ==> end >= |all|)
    ensures var list := Take(n, all);
      var start := Max(offset, |list|);
      Page(list, offset, limit) + Page(all, start, Max(end - start, 0)) == Page(all, offset, limit)
  {
  }

  // ---- One batch. ----

  /** The rows are those of the first `processed` ids that are kept. */
  ghost predicate Taken(w: World, t: Table, q: QueryParams, ids: seq<Id>, processed: nat, rows: seq<Row>) {
    && processed <= |ids|
    && InTable(t, KeptOf(w, t, q, ids[..processed])) && rows == RowsOf(t, KeptOf(w, t, q, ids[..processed]))
  }

  lemma TakenNext(w: World, t: Table, q: QueryParams, ids: seq<Id>, processed: nat, rows: seq<Row>)
    requires processed < |ids| && Taken(w, t, q, ids, processed, rows)
    ensures var id, models := ids[processed], Restrict(t, ids);
      Taken(w, t, q, ids, processed + 1, if id in models && Kept(w, q, models[id]) then rows + [models[id]] else rows)
  {
    hide Kept, KeptOf, RowsOf, Restrict;
    KeptOfNext(w, t, q, ids, processed);
    var id, before := ids[processed], KeptOf(w, t, q, ids[..processed]);
    if id in t { RowsAppend(t, before, id); }
    assert before + [] == before;
  }

  lemma NoneTaken(w: World, t: Table, q: QueryParams, ids: seq<Id>)
    ensures Taken(w, t, q, ids, 0, [])
  {
  }

  /** In a batch that is kept as a whole every row is found and kept. */
  lemma WholeBatch(w: World, t: Table, q: QueryParams, ids: seq<Id>)
    requires KeptOf(w, t, q, ids) == ids
    ensures forall k :: 0 <= k < |ids| ==> ids[k] in Restrict(t, ids) && Kept(w, q, Restrict(t, ids)[ids[k]])
  {
    hide Kept, KeptOf;
    KeptOfShorter(w, t, q, ids);
    assert forall k :: 0 <= k < |ids| ==> ids[k] in KeptOf(w, t, q, ids);
  }

  /** The rows of a batch that are found and kept are taken, in order, until enough. `issue` notices one that
      is gone or hidden. */
  method ProcessBatch(w: World, ghost t: Table, q: QueryParams, models: map<Id, Row>, ids: seq<Id>, needed: nat)
    returns (rows: seq<Row>, processed: nat, issue: bool)
    requires needed > 0
    ensures processed <= |ids| && (ids != [] ==> processed > 0) && |rows| <= processed
    ensures |rows| <= needed && (processed < |ids| ==> |rows| == needed) && RowsKept(w, q, rows)
    ensures models == Restrict(t, ids) ==> Taken(w, t, q, ids, processed, rows)
    ensures models == Restrict(t, ids) && KeptOf(w, t, q, ids) == ids ==> !issue
  {
    hide Kept, KeptOf, Restrict, Taken;
    ghost var right, whole := models == Restrict(t, ids), KeptOf(w, t, q, ids) == ids;
    if whole { WholeBatch(w, t, q, ids); }
    NoneTaken(w, t, q, ids);
    rows, processed, issue := [], 0, false;
    while processed < |ids| && |rows| < needed
      invariant 0 <= processed <= |ids| && |rows| <= needed && |rows| <= processed && RowsKept(w, q, rows)
      invariant right ==> Taken(w, t, q, ids, processed, rows)
      invariant right && whole ==> !issue
      decreases |ids| - processed
    {
      var id := ids[processed];
      if right { TakenNext(w, t, q, ids, processed, rows); }
      if id in models && Kept(w, q, models[id]) {
        rows := rows + [models[id]];
      } else {
        issue := true;
      }
      processed := processed + 1;
    }
  }

  lemma RowsAppend(t: Table, ids: seq<Id>, id: Id)
    requires InTable(t, ids) && id in t
    ensures InTable(t, ids + [id]) && RowsOf(t, ids + [id]) == RowsOf(t, ids) + [t[id]]
  {
    assert (ids + [id])[..|ids|] == ids;
  }

  /** The ids of one turn. */
  function IdsToCheck(all: seq<Id>, cached: seq<Id>, total: int, next: nat, need: nat): (ids: seq<Id>)
    ensures |ids| <= need && (ids != [] ==> next < Max(|cached|, total))
  {
    if next < |cached| then cached[next..next + Min(need, |cached| - next)]
    else if next < total then Page(all, next, need)
    else []
  }

  /** One turn of `Fetch` on the right list: it takes the whole slice of the list, or every kept row of the
      next page of the SQL result, and no ids only where the count or the result ends. */
  ghost predicate Takes(w: World, t: Table, q: QueryParams, total: int, next: nat, need: nat, rows: seq<Row>,
          processed: nat) {
    var all, list := Result(w, t, q), ListFill(w, t, q);
    var ids := IdsToCheck(all, list, total, next, need);
    && processed == |ids|
    && var kept := if next < |list| then ids else KeptOf(w, t, q, ids);
    InTable(t, kept) && rows == RowsOf(t, kept)
  }

  lemma TurnTakes(w: World, t: Table, q: QueryParams, total: int, next: nat, need: nat, rows: seq<Row>, processed: nat)
    requires var ids := IdsToCheck(Result(w, t, q), ListFill(w, t, q), total, next, need);
      |rows| <= processed && (processed < |ids| ==> |rows| == need) && Taken(w, t, q, ids, processed, rows)
    ensures Takes(w, t, q, total, next, need, rows, processed)
    ensures next < |ListFill(w, t, q)| ==>
      var ids := IdsToCheck(Result(w, t, q), ListFill(w, t, q), total, next, need); KeptOf(w, t, q, ids) == ids
  {
    hide Result, KeptOf, RowsOf, ListFill, Kept;
    var list := ListFill(w, t, q);
    var ids := IdsToCheck(Result(w, t, q), list, total, next, need);
    assert ids[..processed] == ids;
    if next < |list| {
      PageIdsAreResults(w, t, q, 0, 0, 0);
      assert forall k :: 0 <= k < |ids| ==> ids[k] in list;
      KeptOfAll(w, t, q, ids);
    }
  }

  /** The length of a cached list that is shorter than the limit. */
  function ShortLength(queries: map<CacheKey, Entry>, listKey: CacheKey): Option<nat> {
    if listKey in queries && queries[listKey].Ids? && |queries[listKey].ids| < LIST_LIMIT
    then Some(|queries[listKey].ids|) else None
  }

  /** Counts derived from a short list or from the database are right. */
  lemma DerivedCounts(w: World, t: Table, queries: map<CacheKey, Entry>, q: QueryParams)
    requires Faithful(w) && WfTable(w.info, t) && WfQuery(w, q) && QueriesOk(w, t, queries)
    ensures CountOk(w, t, q, SqlCount(w, t, q)) && PreciseOk(w, t, q, VisibleCount(w, t, q))
    ensures forall table :: var short := ShortLength(queries, CacheKey(ListKey, table, q));
      short.Some? ==> CountOk(w, t, q, short.value) && PreciseOk(w, t, q, short.value)
  {
    hide Faithful, WfTable, WfQuery, SqlCount, VisibleCount, ListFill, CountOk, PreciseOk;
    SqlCountCounts(w, t, q);
    forall table | ShortLength(queries, CacheKey(ListKey, table, q)).Some?
      ensures var short := ShortLength(queries, CacheKey(ListKey, table, q));
        CountOk(w, t, q, short.value) && PreciseOk(w, t, q, short.value)
    {
      var key := CacheKey(ListKey, table, q);
      assert EntryOk(w, t, key, queries[key]);
      ShortListCounts(w, t, q);
    }
  }

  lemma DefaultCountIsPrecise(w: World, t: Table, q: QueryParams, n: nat)
    requires Faithful(w) && WfTable(w.info, t) && WfQuery(w, q) && !w.info.customKeep && CountOk(w, t, q, n)
    ensures PreciseOk(w, t, q, n)
  {
    hide Faithful, WfTable, WfQuery, SqlCount, VisibleCount;
    VisibleWithinSqlCount(w, t, q);
  }

  lemma RegistryKeyed(w: World, regs: Registry)
    requires RegistryOk(w, regs)
    ensures Keyed(w, regs)
  {
  }

  lemma EmptyTurn(w: World, t: Table, q: QueryParams, total: int, next: nat, need: nat, cached: seq<Id>)
    requires IdsToCheck(Result(w, t, q), cached, total, next, need) == []
    ensures RowsKept(w, q, []) && AllKept(w, t, q, [])
    ensures cached == ListFill(w, t, q) ==> Takes(w, t, q, total, next, need, [], 0)
  {
    hide Result, ListFill;
  }

  lemma TakenAreKept(w: World, t: Table, q: QueryParams, ids: seq<Id>, processed: nat, rows: seq<Row>)
    requires WfTable(w.info, t) && Taken(w, t, q, ids, processed, rows)
    ensures AllKept(w, t, q, rows)
  {
    hide KeptOf, RowsOf, WfTable, Kept, AllKept;
    KeptOfShorter(w, t, q, ids[..processed]);
    RowsAreKept(w, t, q, KeptOf(w, t, q, ids[..processed]));
  }

  // ---- The paging loop on a right list. ----

  /** Before the first turn inside the list, or with the page built up to `end`. */
  ghost predicate Progress(w: World, t: Table, q: QueryParams, offset: nat, limit: nat, next: nat, needed: nat,
          rows: seq<Row>, end: nat) {
    var list := ListFill(w, t, q);
    var ids := PageIds(w, t, q, offset, limit, end);
    || (rows == [] && next == offset < |list| && needed == limit && end == |list|)
    || (end >= Max(offset, |list|) && |ids| <= limit && InTable(t, ids) && rows == RowsOf(t, ids) &&
      (needed > 0 ==> next == end))
  }

  lemma ProgressStarts(w: World, t: Table, q: QueryParams, offset: nat, limit: nat)
    ensures Progress(w, t, q, offset, limit, offset, limit, [], Max(offset, |ListFill(w, t, q)|))
  {
    hide Result, ListFill;
    assert KeptOf(w, t, q, []) == [];
  }

  lemma PagesJoin(all: seq<Id>, start: nat, end: nat, more: nat)
    requires start <= end
    ensures var next := Page(all, end, more);
      next != [] ==> Page(all, start, end - start) + next == Page(all, start, end + |next| - start)
  {
  }

  /** The count or the result is used up. */
  ghost predicate Ended(w: World, t: Table, q: QueryParams, next: nat, total: int) {
    next >= total || next >= SqlCount(w, t, q)
  }

  /** The turn inside the list takes the whole slice of the list. */
  lemma TurnInList(w: World, t: Table, q: QueryParams, offset: nat, limit: nat, total: int, batch: seq<Row>,
          processed: nat)
    requires limit > 0 && offset < |ListFill(w, t, q)| && Takes(w, t, q, total, offset, limit, batch, processed)
    ensures |batch| == processed > 0
    ensures Progress(w, t, q, offset, limit, offset + processed, limit - processed, batch, |ListFill(w, t, q)|)
  {
    hide Result, ListFill, RowsOf;
    var list := ListFill(w, t, q);
    assert KeptOf(w, t, q, []) == [];
    var ids := IdsToCheck(Result(w, t, q), list, total, offset, limit);
    assert ids == Page(list, offset, limit);
    assert PageIds(w, t, q, offset, limit, |list|) == ids;
  }

  lemma PageIdsGrow(w: World, t: Table, q: QueryParams, offset: nat, limit: nat, end: nat, need: nat)
    requires end >= Max(offset, |ListFill(w, t, q)|)
    ensures var next := Page(Result(w, t, q), end, need);
      next != [] ==>
        PageIds(w, t, q, offset, limit, end + |next|) == PageIds(w, t, q, offset, limit, end) + KeptOf(w, t, q, next)
  {
    hide Result, ListFill, KeptOf;
    var all, start := Result(w, t, q), Max(offset, |ListFill(w, t, q)|);
    PagesJoin(all, start, end, need);
    KeptOfSplits(w, t, q, Page(all, start, end - start), Page(all, end, need));
  }

  /** A turn past the list appends the kept rows of the next page of the result. */
  lemma TurnPastList(w: World, t: Table, q: QueryParams, offset: nat, limit: nat, end: nat, total: int, rows: seq<Row>,
          batch: seq<Row>, processed: nat)
    requires end >= Max(offset, |ListFill(w, t, q)|) && |rows| + |batch| <= limit
    requires var ids := PageIds(w, t, q, offset, limit, end); InTable(t, ids) && rows == RowsOf(t, ids)
    requires Takes(w, t, q, total, end, limit - |rows|, batch, processed)
    ensures processed == 0 ==> |rows| == limit || Ended(w, t, q, end, total)
    ensures processed > 0 ==>
      Progress(w, t, q, offset, limit, end + processed, limit - |rows| - |batch|, rows + batch, end + processed)
  {
    hide Result, ListFill, RowsOf, KeptOf, PageIds;
    var all, list, need := Result(w, t, q), ListFill(w, t, q), limit - |rows|;
    var ids := IdsToCheck(all, list, total, end, need);
    if processed > 0 {
      assert ids == Page(all, end, need);
      PageIdsGrow(w, t, q, offset, limit, end, need);
      RowsConcat(t, PageIds(w, t, q, offset, limit, end), KeptOf(w, t, q, ids));
    }
  }

  lemma ProgressTurn(w: World, t: Table, q: QueryParams, offset: nat, limit: nat, next: nat, needed: nat,
          rows: seq<Row>, end: nat, total: int, batch: seq<Row>, processed: nat)
    requires needed > 0 && |rows| + needed == limit && |batch| <= needed
    requires Progress(w, t, q, offset, limit, next, needed, rows, end)
    requires Takes(w, t, q, total, next, needed, batch, processed)
    ensures processed > 0 ==>
      var end' := if next < |ListFill(w, t, q)| then end else next + processed;
      Progress(w, t, q, offset, limit, next + processed, needed - |batch|, rows + batch, end')
    ensures processed == 0 ==> next == end && Ended(w, t, q, end, total) && next >= |ListFill(w, t, q)|
  {
    hide Result, ListFill, RowsOf, PageIds, Takes, Ended;
    if next < |ListFill(w, t, q)| {
      TurnInList(w, t, q, offset, limit, total, batch, processed);
      assert rows + batch == batch;
    } else {
      TurnPastList(w, t, q, offset, limit, end, total, rows, batch, processed);
    }
  }

  lemma EmptyLimitIds(w: World, t: Table, q: QueryParams, offset: nat)
    ensures PageIds(w, t, q, offset, 0, Max(offset, |ListFill(w, t, q)|)) == []
  {
    hide Result, ListFill;
  }

  lemma ProgressEnds(w: World, t: Table, q: QueryParams, offset: nat, limit: nat, next: nat, needed: nat,
          rows: seq<Row>, end: nat, total: nat)
    requires |rows| + needed == limit && ListFill(w, t, q) != [] && CountOk(w, t, q, total)
    requires Progress(w, t, q, offset, limit, next, needed, rows, end)
    requires needed > 0 ==> next == end && Ended(w, t, q, end, total) && next >= |ListFill(w, t, q)|
    ensures Pages(w, t, q, offset, limit, rows)
  {
    hide Result, ListFill, KeptOf;
    KeptOfShorter(w, t, q, []);
    KeptOfShorter(w, t, q, Result(w, t, q));
    if needed == limit == 0 {
      EmptyLimitIds(w, t, q, offset);
      assert PagesTo(w, t, q, offset, limit, rows, Max(offset, |ListFill(w, t, q)|));
    } else {
      assert PagesTo(w, t, q, offset, limit, rows, end);
    }
  }

  lemma EmptyPage(w: World, t: Table, q: QueryParams, offset: nat, limit: nat)
    requires Faithful(w) && WfTable(w.info, t) && WfQuery(w, q) && ListFill(w, t, q) == []
    ensures Pages(w, t, q, offset, limit, [])
  {
    hide Faithful, WfTable, WfQuery, Result, SqlCount, VisibleCount, ListFill;
    ShortListCounts(w, t, q);
    VisibleWithinSqlCount(w, t, q);
    assert KeptOf(w, t, q, []) == [];
    assert PagesTo(w, t, q, offset, limit, [], 0);
  }

  lemma ReadyTable(thing: Thing)
    requires thing.Valid()
    ensures Faithful(thing.w) && WfTable(thing.w.info, thing.store.table)
  {
  }

  class CachedResult {
    const thing: Thing
    const params: QueryParams
    var memo: Memo
    /** The rows `All` has returned, once it has. */
    var loadedAll: Option<seq<Row>>

    constructor (thing: Thing, params: QueryParams)
      ensures this.thing == thing && this.params == params && memo == NO_MEMO && loadedAll == None
    {
      this.thing, this.params, memo, loadedAll := thing, params, NO_MEMO, None;
    }

    /** Coherent caches and a covered query. What the methods promise without it holds of any caches. */
    ghost predicate Ready()
      reads this, thing, thing.index
    {
      thing.Valid() && WfQuery(thing.w, params)
    }

    /** Coherent caches, a covered query, and a memo that agrees with the table. */
    ghost predicate Fresh()
      reads this, thing, thing.index
    {
      Ready() && MemoOk(thing.w, thing.store.table, params, memo)
    }

    /** Moreover, the right list is remembered, is not empty, and the count is right. */
    ghost predicate Primed(total: nat)
      reads this, thing, thing.index
    {
      && Fresh() && CountOk(thing.w, thing.store.table, params, total)
      && memo.cachedIDs == ListFill(thing.w, thing.store.table, params) != []
    }

    function Key(kind: KeyKind): CacheKey { CacheKey(kind, thing.w.info.tableName, params) }

    /** `Count`: a remembered count, else the cached one, else the length of a short list, else SQL. */
    method Count() returns (n: nat)
      requires thing.Sound()
      modifies this`memo, thing`store, thing.index
      ensures thing.Sound() && thing.store == old(thing.store).(caches := thing.store.caches)
      ensures memo == old(memo).(cachedCount := n, hasLoadedCount := true)
      ensures old(memo.hasLoadedCount) ==> n == old(memo.cachedCount)
      ensures old(Ready()) ==> Ready() && (!old(memo.hasLoadedCount) ==> CountOk(thing.w, thing.store.table, params, n))
    {
      hide Faithful, ModelsOk, WfQuery, WfTable, ListFill, SqlCount, VisibleCount, RegistryOk, FreshId, Projects;
      hide CountOk;
      if memo.hasLoadedCount { return memo.cachedCount; }
      var queries, key := thing.store.caches.queries, Key(CountKey);
      ghost var ready, t := Ready(), thing.store.table;
      if key in queries && queries[key].Num? {
        assert ready ==> EntryOk(thing.w, t, key, queries[key]);
        n := queries[key].n;
      } else {
        var short := ShortLength(queries, Key(ListKey));
        n := if short.Some? then short.value else SqlCount(thing.w, thing.store.table, params);
        if ready { DerivedCounts(thing.w, t, queries, params); }
        thing.CacheQuery(key, Num(n));
      }
      memo := memo.(cachedCount := n, hasLoadedCount := true);
    }

    /** `CountPrecise`: the number of visible rows, less at most those no fill can reach. */
    method CountPrecise() returns (n: nat)
      requires Fresh()
      modifies this`memo, thing`store, thing.index
      ensures Fresh() && thing.store == old(thing.store).(caches := thing.store.caches)
      ensures PreciseOk(thing.w, thing.store.table, params, n)
    {
      hide Faithful, ModelsOk, WfQuery, WfTable, ListFill, SqlCount, VisibleCount, RegistryOk, FreshId, Projects;
      hide PreciseOk, CountOk;
      RegistryKeyed(thing.w, thing.index.regs);
      ghost var t := thing.store.table;
      if !thing.w.info.customKeep {
        n := Count();
        DefaultCountIsPrecise(thing.w, t, params, n);
        return;
      }
      var queries, key := thing.store.caches.queries, Key(PreciseKey);
      if key in queries && queries[key].Num? {
        assert EntryOk(thing.w, t, key, queries[key]);
        return queries[key].n;
      }
      DerivedCounts(thing.w, t, queries, params);
      var short := ShortLength(queries, Key(ListKey));
      if short.Some? { n := short.value; } else { n := thing.ScanCount(params); }
      thing.CacheQuery(key, Num(n));
    }

    /** `_fetch_data`: the cached list, else a fill, which also settles the count of a short list. */
    method FetchData() returns (ids: seq<Id>)
      requires thing.Sound()
      modifies thing`store, thing.index
      ensures thing.Sound() && thing.store == old(thing.store).(caches := thing.store.caches)
      ensures old(Ready()) ==> Ready() && ids == ListFill(thing.w, thing.store.table, params)
    {
      hide Faithful, ModelsOk, WfQuery, WfTable, ListFill, SqlCount, VisibleCount, RegistryOk, FreshId, Projects;
      hide CountOk, Keyed;
      var queries, key := thing.store.caches.queries, Key(ListKey);
      ghost var ready := Ready();
      if key in queries && queries[key].Ids? {
        assert ready ==> EntryOk(thing.w, thing.store.table, key, queries[key]);
        return queries[key].ids;
      }
      ids := thing.LoadList(params);
      thing.CacheQuery(key, Ids(ids));
      if |ids| < LIST_LIMIT {
        if ready { ShortListCounts(thing.w, thing.store.table, params); }
        thing.CacheQuery(Key(CountKey), Num(|ids|));
      }
    }

    /** `invalidateCache`: forget the list and the count of this query. */
    method InvalidateCache()
      modifies this`memo, thing`store
      ensures thing.store == old(thing.store).(caches := thing.store.caches) && memo == NO_MEMO
      ensures old(Ready()) ==> Ready()
    {
      hide thing.Valid, WfQuery;
      thing.Expire({}, {Key(ListKey), Key(CountKey)});
      memo := NO_MEMO;
    }

    /** One turn of the paging loop: the next ids come from the remembered list or, past its end, from the
        database; an id of the list that is gone or hidden makes the query forget its caches. */
    method FetchStep(next: nat, need: nat, total: int, invalidated: bool)
      returns (rows: seq<Row>, processed: nat, dropped: bool)
      requires need > 0
      modifies this`memo, thing`store
      ensures thing.store == old(thing.store).(caches := thing.store.caches)
      ensures memo == if dropped then NO_MEMO else old(memo)
      ensures processed > 0 ==> next < Max(|old(memo.cachedIDs)|, total)
      ensures |rows| <= need && RowsKept(thing.w, params, rows)
      ensures old(Ready()) ==> Ready() && AllKept(thing.w, thing.store.table, params, rows)
      ensures old(Ready()) && old(memo.cachedIDs) == ListFill(thing.w, thing.store.table, params) ==>
        !dropped && Takes(thing.w, thing.store.table, params, total, next, need, rows, processed)
    {
      hide thing.Valid, WfQuery, Result, KeptOf, Kept, Restrict, RowsOf, AllKept, Takes, ListFill, IdsToCheck, Within;
      hide RowsKept, Taken;
      ghost var ready, t, cached := Ready(), thing.store.table, memo.cachedIDs;
      var ids := IdsToCheck(Result(thing.w, thing.store.table, params), memo.cachedIDs, total, next, need);
      rows, processed, dropped := [], 0, false;
      if |ids| == 0 {
        EmptyTurn(thing.w, t, params, total, next, need, cached);
        return;
      }
      var models := thing.ByIDs(ids);
      var issue;
      rows, processed, issue := ProcessBatch(thing.w, t, params, models, ids, need);
      if ready {
        ReadyTable(thing);
        TakenAreKept(thing.w, t, params, ids, processed, rows);
        if cached == ListFill(thing.w, t, params) { TurnTakes(thing.w, t, params, total, next, need, rows, processed); }
      }
      if next < |memo.cachedIDs| && issue && !invalidated {
        InvalidateCache();
        dropped := true;
      }
    }

    /** The paging loop of `Fetch`, for any remembered ids and any count. */
    method FetchPages(offset: nat, limit: nat, total: nat) returns (rows: seq<Row>)
      requires thing.Sound()
      modifies this`memo, thing`store
      ensures thing.Sound() && thing.store == old(thing.store).(caches := thing.store.caches)
      ensures |rows| <= limit && RowsKept(thing.w, params, rows)
      ensures old(Ready()) ==> Ready() && AllKept(thing.w, thing.store.table, params, rows)
      ensures old(Primed(total)) ==> Fresh() && Pages(thing.w, thing.store.table, params, offset, limit, rows)
    {
      hide WfQuery, AllKept, Takes, ListFill, RowsKept, Progress, Pages, CountOk, thing.Valid, thing.Sound;
      ghost var t, ready, right, start := thing.store.table, Ready(), Primed(total), memo;
      rows := [];
      NoneKept(thing.w, t, params);
      var next, needed, invalidated := offset, limit, false;
      ghost var end := Max(offset, |memo.cachedIDs|);
      if right { ProgressStarts(thing.w, t, params, offset, limit); }
      while needed > 0
        invariant thing.Sound() && thing.store == old(thing.store).(caches := thing.store.caches)
        invariant 0 <= next && 0 <= needed && |rows| + needed == limit && RowsKept(thing.w, params, rows)
        invariant ready ==> Ready() && AllKept(thing.w, t, params, rows)
        invariant right ==> memo == start && end >= 0
        invariant right ==> Progress(thing.w, t, params, offset, limit, next, needed, rows, end)
        decreases Max(|memo.cachedIDs|, total) - next
      {
        var batch, processed, dropped := FetchStep(next, needed, total, invalidated);
        KeptExtends(thing.w, t, params, rows, batch);
        if right { ProgressTurn(thing.w, t, params, offset, limit, next, needed, rows, end, total, batch, processed); }
        if processed == 0 { break; }
        end := if next < |ListFill(thing.w, t, params)| then end else next + processed;
        rows := rows + batch;
        invalidated := invalidated || dropped;
        needed := needed - |batch|;
        next := next + processed;
      }
      if right { ProgressEnds(thing.w, t, params, offset, limit, next, needed, rows, end, total); }
    }

    /** `Fetch`: ends with at most `limit` kept rows, whatever the caches and the memo hold; with coherent
        caches and a right memo exactly a page of the list continued in the SQL result, and for the default
        KeepItem the page of the SQL result, across the seam between the two. */
    method Fetch(offset: nat, limit: nat) returns (rows: seq<Row>)
      requires thing.Sound()
      modifies this`memo, thing`store, thing.index
      ensures thing.Sound() && thing.store == old(thing.store).(caches := thing.store.caches)
      ensures |rows| <= limit && RowsKept(thing.w, params, rows)
      ensures old(Ready()) ==> Ready() && AllKept(thing.w, thing.store.table, params, rows)
      ensures old(Fresh()) ==> Fresh() && Pages(thing.w, thing.store.table, params, offset, limit, rows)
    {
      hide WfQuery, AllKept, ListFill, RowsKept, Pages, CountOk, thing.Valid, thing.Sound;
      ghost var t := thing.store.table;
      if !memo.hasLoadedIDs {
        var ids := FetchData();
        memo := memo.(cachedIDs := ids, hasLoadedIDs := true);
      }
      if |memo.cachedIDs| == 0 {
        NoneKept(thing.w, t, params);
        if old(Fresh()) {
          ReadyTable(thing);
          EmptyPage(thing.w, t, params, offset, limit);
        }
        return [];
      }
      var total := Count();
      rows := FetchPages(offset, limit, total);
    }

    /** `All`: a page as long as the count; with the default KeepItem, every row of the result, in order. */
    method All() returns (rows: seq<Row>)
      requires thing.Sound()
      modifies this, thing`store, thing.index
      ensures thing.Sound() && thing.store == old(thing.store).(caches := thing.store.caches)
      ensures old(loadedAll).Some? ==> rows == old(loadedAll).value
      ensures old(loadedAll).None? ==> RowsKept(thing.w, params, rows)
      ensures old(Ready()) ==> Ready() && (old(loadedAll).None? ==> AllKept(thing.w, thing.store.table, params, rows))
      ensures old(Fresh()) && old(loadedAll).None? ==> PagesAll(thing.w, thing.store.table, params, rows)
    {
      hide WfQuery, AllKept, ListFill, RowsKept, Pages, CountOk, thing.Valid, thing.Sound;
      if loadedAll.Some? { return loadedAll.value; }
      var count := Count();
      if count == 0 {
        rows := [];
        NoneKept(thing.w, thing.store.table, params);
        EmptyLimit(thing.w, thing.store.table, params);
        return;
      }
      rows := Fetch(0, count);
      loadedAll := Some(rows);
    }

    /** `First`: the first row of the list, if there is one. */
    method First() returns (row: Option<Row>)
      requires thing.Sound()
      modifies this`memo, thing`store, thing.index
      ensures thing.Sound() && thing.store == old(thing.store).(caches := thing.store.caches)
      ensures row.Some? ==> Kept(thing.w, params, row.value)
      ensures old(Ready()) ==> Ready()
      ensures old(Fresh()) ==> IsFirst(thing.w, thing.store.table, params, row)
    {
      hide WfQuery, AllKept, ListFill, Pages, thing.Valid, thing.Sound;
      var rows := Fetch(0, 1);
      if old(Fresh()) { FirstOfPage(thing.w, thing.store.table, params, rows); }
      row := if |rows| == 0 then None else Some(rows[0]);
    }
  }
}
