/** Filling a list, scanning for a count and cutting pages: the loops over the SQL result. */
module Paging {
  import opened Values
  import opened WhereParser
  import opened Coherence
  import opened ModelCache

  const SCAN_BATCH := 500

  /** What `LIMIT limit OFFSET offset` returns of a result. */
  function Page(ids: seq<Id>, offset: nat, limit: nat): seq<Id> {
    if offset >= |ids| then [] else ids[offset..Min(offset + limit, |ids|)]
  }

  predicate InTable(t: Table, ids: seq<Id>) { forall id :: id in ids ==> id in t }

  function RowsOf(t: Table, ids: seq<Id>): (rows: seq<Row>)
    requires InTable(t, ids)
    ensures |rows| == |ids| && forall k :: 0 <= k < |ids| ==> rows[k] == t[ids[k]]
  {
    if ids == [] then []
    else
      assert forall k :: 0 <= k < |ids| - 1 ==> ids[..|ids| - 1][k] == ids[k];
      RowsOf(t, ids[..|ids| - 1]) + [t[ids[|ids| - 1]]]
  }

  // ---- Facts about filtering. ----

  lemma {:induction false} KeptOfSplits(w: World, t: Table, q: QueryParams, a: seq<Id>, b: seq<Id>)
    ensures KeptOf(w, t, q, a + b) == KeptOf(w, t, q, a) + KeptOf(w, t, q, b)
    decreases |b|
  {
    hide Kept;
    if b == [] {
      assert a + b == a;
    } else {
      var init, last := b[..|b| - 1], b[|b| - 1];
      assert (a + b)[..|a + b| - 1] == a + init && (a + b)[|a + b| - 1] == last;
      KeptOfSplits(w, t, q, a, init);
    }
  }

  lemma {:induction false} KeptOfShorter(w: World, t: Table, q: QueryParams, ids: seq<Id>)
    ensures |KeptOf(w, t, q, ids)| <= |ids|
    ensures forall id :: id in KeptOf(w, t, q, ids) ==> id in ids && id in t && Kept(w, q, t[id])
    decreases |ids|
  {
    hide Kept;
    if ids != [] {
      KeptOfShorter(w, t, q, ids[..|ids| - 1]);
      assert ids == ids[..|ids| - 1] + [ids[|ids| - 1]];
    }
  }

  lemma {:induction false} KeptOfAll(w: World, t: Table, q: QueryParams, ids: seq<Id>)
    requires forall k :: 0 <= k < |ids| ==> ids[k] in t && Kept(w, q, t[ids[k]])
    ensures KeptOf(w, t, q, ids) == ids
    decreases |ids|
  {
    hide Kept;
    if ids != [] {
      var init, last := ids[..|ids| - 1], ids[|ids| - 1];
      assert forall k :: 0 <= k < |init| ==> init[k] == ids[k];
      KeptOfAll(w, t, q, init);
      assert ids == init + [last];
    }
  }

  /** Under the default KeepItem, every row of a covered query's result is kept. */
  lemma DefaultKeepsAll(w: World, t: Table, q: QueryParams)
    requires Faithful(w) && WfTable(w.info, t) && WfQuery(w, q) && !w.info.customKeep
    ensures forall id :: id in Result(w, t, q) ==> id in t && Kept(w, q, t[id])
    ensures KeptOf(w, t, q, Result(w, t, q)) == Result(w, t, q)
    ensures ListFill(w, t, q) == Take(LIST_LIMIT, Result(w, t, q))
  {
    hide Sql, Result, WfQuery, KeptOf;
    var all := Result(w, t, q);
    ResultMembers(w, t, q);
    forall id | id in all ensures id in t && Kept(w, q, t[id]) {
      SqlSplits(w, q, t[id]);
    }
    KeptOfAll(w, t, q, all);
    var reach := Take(FILL_REACH, all);
    assert forall id :: id in reach ==> id in all;
    KeptOfAll(w, t, q, reach);
    assert Take(LIST_LIMIT, reach) == Take(LIST_LIMIT, all);
  }

  /** A list shorter than the limit lacks exactly the visible rows past the reach of a fill. */
  lemma ShortListLacks(w: World, t: Table, q: QueryParams)
    requires |ListFill(w, t, q)| < LIST_LIMIT
    ensures var all := Result(w, t, q);
      KeptOf(w, t, q, all) == ListFill(w, t, q) + KeptOf(w, t, q, all[|Take(FILL_REACH, all)|..])
  {
    hide Result, KeptOf;
    var all := Result(w, t, q);
    var reach := Take(FILL_REACH, all);
    assert all == reach + all[|reach|..];
    KeptOfSplits(w, t, q, reach, all[|reach|..]);
  }

  /** A list shorter than the limit is the whole visible result, if the fill could see all of it. */
  lemma ShortListIsComplete(w: World, t: Table, q: QueryParams)
    requires Faithful(w) && WfTable(w.info, t) && WfQuery(w, q)
    requires |ListFill(w, t, q)| < LIST_LIMIT && (w.info.customKeep ==> SqlCount(w, t, q) <= FILL_REACH)
    ensures ListFill(w, t, q) == KeptOf(w, t, q, Result(w, t, q))
    ensures |ListFill(w, t, q)| == VisibleCount(w, t, q)
  {
    hide Faithful, WfQuery, Result, KeptOf, WfTable;
    if !w.info.customKeep { DefaultKeepsAll(w, t, q); }
  }

  /** The length of a short list is a count, for any number of matching rows. */
  lemma ShortListCounts(w: World, t: Table, q: QueryParams)
    requires Faithful(w) && WfTable(w.info, t) && WfQuery(w, q) && |ListFill(w, t, q)| < LIST_LIMIT
    ensures CountOk(w, t, q, |ListFill(w, t, q)|) && PreciseOk(w, t, q, |ListFill(w, t, q)|)
  {
    hide Faithful, WfQuery, Result, KeptOf, WfTable, ListFill;
    var all := Result(w, t, q);
    VisibleWithinSqlCount(w, t, q);
    if !w.info.customKeep || SqlCount(w, t, q) <= FILL_REACH {
      ShortListIsComplete(w, t, q);
    } else {
      ShortListLacks(w, t, q);
      KeptOfShorter(w, t, q, all[|Take(FILL_REACH, all)|..]);
    }
  }

  lemma VisibleWithinSqlCount(w: World, t: Table, q: QueryParams)
    requires Faithful(w) && WfTable(w.info, t) && WfQuery(w, q)
    ensures VisibleCount(w, t, q) <= SqlCount(w, t, q)
    ensures !w.info.customKeep ==> VisibleCount(w, t, q) == SqlCount(w, t, q)
  {
    hide Faithful, WfQuery, Result, KeptOf, WfTable;
    KeptOfShorter(w, t, q, Result(w, t, q));
    if !w.info.customKeep { DefaultKeepsAll(w, t, q); }
  }

  // ---- The fill loop. ----

  lemma KeptOfNext(w: World, t: Table, q: QueryParams, ids: seq<Id>, i: nat)
    requires i < |ids|
    ensures KeptOf(w, t, q, ids[..0]) == []
    ensures KeptOf(w, t, q, ids[..i + 1]) ==
      KeptOf(w, t, q, ids[..i]) + (if ids[i] in t && Kept(w, q, t[ids[i]]) then [ids[i]] else [])
    ensures ids[i] in Restrict(t, ids) <==> ids[i] in t
    ensures ids[i] in t ==> Restrict(t, ids)[ids[i]] == t[ids[i]]
  {
    hide Kept;
    assert ids[..i + 1][..i] == ids[..i] && ids[..i + 1][i] == ids[i] && ids[i] in ids;
  }

  /** Keeps the rows of a batch that are visible, up to the limit. */
  method CollectKept(w: World, ghost t: Table, q: QueryParams, rows: map<Id, Row>, batch: seq<Id>, valid: seq<Id>)
    returns (valid': seq<Id>)
    requires |valid| <= LIST_LIMIT
    ensures |valid'| <= LIST_LIMIT
    ensures rows == Restrict(t, batch) ==> valid' == Take(LIST_LIMIT, valid + KeptOf(w, t, q, batch))
  {
    ghost var right := rows == Restrict(t, batch);
    assert KeptOf(w, t, q, batch[..0]) == [] && valid + [] == valid;
    hide Kept, KeptOf, Restrict, Take;
    valid' := valid;
    var i := 0;
    while i < |batch| && |valid'| < LIST_LIMIT
      invariant 0 <= i <= |batch| && |valid'| <= LIST_LIMIT
      invariant right ==> valid' == valid + KeptOf(w, t, q, batch[..i])
    {
      var id := batch[i];
      KeptOfNext(w, t, q, batch, i);
      if id in rows && Kept(w, q, rows[id]) { valid' := valid' + [id]; }
      i := i + 1;
    }
    if right { CollectStops(w, t, q, batch, i, valid); }
  }

  lemma CollectStops(w: World, t: Table, q: QueryParams, batch: seq<Id>, i: nat, valid: seq<Id>)
    requires i <= |batch| && |valid + KeptOf(w, t, q, batch[..i])| <= LIST_LIMIT
    requires i == |batch| || |valid + KeptOf(w, t, q, batch[..i])| == LIST_LIMIT
    ensures valid + KeptOf(w, t, q, batch[..i]) == Take(LIST_LIMIT, valid + KeptOf(w, t, q, batch))
  {
    hide KeptOf;
    if i == |batch| {
      assert batch[..i] == batch;
    } else {
      KeptOfSplits(w, t, q, batch[..i], batch[i..]);
      assert batch[..i] + batch[i..] == batch;
      var ids := valid + KeptOf(w, t, q, batch[..i]);
      assert valid + KeptOf(w, t, q, batch) == ids + KeptOf(w, t, q, batch[i..]);
    }
  }

  lemma TakeGrows(n: nat, a: seq<Id>, b: seq<Id>)
    ensures Take(n, Take(n, a) + b) == Take(n, a + b)
    ensures |Take(n, a)| == n ==> Take(n, a + b) == Take(n, a)
  {
  }

  /** One more batch of the scan. */
  lemma FillAdvances(w: World, t: Table, q: QueryParams, all: seq<Id>, offset: nat, batch: seq<Id>)
    requires offset <= |all| && batch == Page(all, offset, FILL_BATCH)
    ensures all[..offset + |batch|] == all[..offset] + batch
    ensures Take(LIST_LIMIT, Take(LIST_LIMIT, KeptOf(w, t, q, all[..offset])) + KeptOf(w, t, q, batch))
         == Take(LIST_LIMIT, KeptOf(w, t, q, all[..offset + |batch|]))
  {
    hide KeptOf;
    KeptOfSplits(w, t, q, all[..offset], batch);
    assert all[..offset + |batch|] == all[..offset] + batch;
    TakeGrows(LIST_LIMIT, KeptOf(w, t, q, all[..offset]), KeptOf(w, t, q, batch));
  }

  /** Stopping early, with enough ids or at the end of the result, loses nothing. */
  lemma FillStops(w: World, t: Table, q: QueryParams, all: seq<Id>, offset: nat)
    requires offset <= |all| && offset <= FILL_REACH
    requires offset == |all| || offset == FILL_REACH || |Take(LIST_LIMIT, KeptOf(w, t, q, all[..offset]))| == LIST_LIMIT
    ensures Take(LIST_LIMIT, KeptOf(w, t, q, all[..offset])) == Take(LIST_LIMIT, KeptOf(w, t, q, Take(FILL_REACH, all)))
  {
    hide KeptOf;
    var reach := Take(FILL_REACH, all);
    if offset == |all| {
      assert all[..offset] == reach;
    } else {
      var rest := reach[offset..];
      assert reach == all[..offset] + rest;
      KeptOfSplits(w, t, q, all[..offset], rest);
      TakeGrows(LIST_LIMIT, KeptOf(w, t, q, all[..offset]), KeptOf(w, t, q, rest));
    }
  }

  ghost predicate FillOk(w: World, t: Table, models: map<Id, Cached>, q: QueryParams) {
    Faithful(w) && WfTable(w.info, t) && WfQuery(w, q) && ModelsOk(t, models)
  }

  /** The body of `_fetch_data` on a miss: at most 20 batches of 300, rows loaded through the model cache
      unless SQL has already filtered them. At most 200 ids from any state, and exactly `ListFill` from a
      right one. */
  method FillList(w: World, t: Table, models: map<Id, Cached>, noneAware: bool, q: QueryParams)
    returns (ids: seq<Id>, models': map<Id, Cached>)
    ensures |ids| <= LIST_LIMIT
    ensures FillOk(w, t, models, q) ==> ids == ListFill(w, t, q) && ModelsOk(t, models')
  {
    ghost var right := FillOk(w, t, models, q);
    hide Faithful, WfTable, WfQuery, ModelsOk, KeptOf, Kept, Restrict, Result;
    var all := Result(w, t, q);
    models', ids := models, [];
    var offset, rounds := 0, 0;
    var skipFilter := !w.info.customKeep && !q.includeDeleted;
    if right && !w.info.customKeep { DefaultKeepsAll(w, t, q); }
    assert KeptOf(w, t, q, all[..0]) == [] by { KeptOfShorter(w, t, q, all[..0]); }
    while |ids| < LIST_LIMIT
      invariant 0 <= offset <= |all| && 0 <= rounds <= FILL_ROUNDS && |ids| <= LIST_LIMIT
      invariant offset == rounds * FILL_BATCH
      invariant right ==> ModelsOk(t, models') && ids == Take(LIST_LIMIT, KeptOf(w, t, q, all[..offset]))
      decreases FILL_ROUNDS - rounds
    {
      if rounds == FILL_ROUNDS { break; }
      rounds := rounds + 1;
      var batch := Page(all, offset, FILL_BATCH);
      if |batch| == 0 { break; }
      if skipFilter {
        ids := AppendUpTo(ids, batch);
        if right { KeptOfAll(w, t, q, batch); }
      } else {
        var rows;
        models', rows := FetchModelsByIDs(t, models', noneAware, batch);
        ids := CollectKept(w, t, q, rows, batch, ids);
      }
      FillAdvances(w, t, q, all, offset, batch);
      offset := offset + |batch|;
      if |batch| < FILL_BATCH { break; }
    }
    if right { FillStops(w, t, q, all, offset); }
  }

  method AppendUpTo(ids: seq<Id>, batch: seq<Id>) returns (ids': seq<Id>)
    requires |ids| <= LIST_LIMIT
    ensures ids' == Take(LIST_LIMIT, ids + batch)
  {
    ids' := ids;
    var i := 0;
    while i < |batch| && |ids'| < LIST_LIMIT
      invariant 0 <= i <= |batch| && |ids'| <= LIST_LIMIT && ids' == ids + batch[..i]
    {
      ids' := ids' + [batch[i]];
      i := i + 1;
    }
  }

  // ---- The full scan. ----

  method CountKept(w: World, ghost t: Table, q: QueryParams, rows: map<Id, Row>, batch: seq<Id>) returns (n: nat)
    requires rows == Restrict(t, batch)
    ensures n == |KeptOf(w, t, q, batch)|
  {
    hide Kept;
    n := 0;
    assert KeptOf(w, t, q, batch[..0]) == [];
    for i := 0 to |batch|
      invariant n == |KeptOf(w, t, q, batch[..i])|
    {
      var id := batch[i];
      KeptOfNext(w, t, q, batch, i);
      if id in rows && Kept(w, q, rows[id]) { n := n + 1; }
    }
    assert batch[..|batch|] == batch;
  }

  /** `countByFullScan`: the number of kept matching rows, however many there are. */
  method CountByFullScan(w: World, t: Table, models: map<Id, Cached>, noneAware: bool, q: QueryParams)
    returns (count: nat, models': map<Id, Cached>)
    requires ModelsOk(t, models)
    ensures count == VisibleCount(w, t, q) && ModelsOk(t, models')
  {
    hide ModelsOk, KeptOf, Kept, Restrict, Result;
    var all := Result(w, t, q);
    count, models' := 0, models;
    var offset := 0;
    assert KeptOf(w, t, q, all[..0]) == [] by { KeptOfShorter(w, t, q, all[..0]); }
    while true
      invariant 0 <= offset <= |all| && ModelsOk(t, models')
      invariant count == |KeptOf(w, t, q, all[..offset])|
      decreases |all| - offset
    {
      var batch := Page(all, offset, SCAN_BATCH);
      if |batch| == 0 { break; }
      var rows;
      models', rows := FetchModelsByIDs(t, models', noneAware, batch);
      var n := CountKept(w, t, q, rows, batch);
      assert all[..offset + |batch|] == all[..offset] + batch;
      KeptOfSplits(w, t, q, all[..offset], batch);
      count := count + n;
      offset := offset + |batch|;
      if |batch| < SCAN_BATCH { break; }
    }
    assert all[..offset] == all;
  }
}
