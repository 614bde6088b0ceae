/** What the caches promise: the database's answers, and when a cached entry equals them. */
module Coherence {
  import opened Values
  import opened Text
  import opened WhereLexer
  import opened WhereParser
  import opened WhereMatch
  import opened WhereMeaning
  import opened WhereTruth
  import opened WhereSoftDelete
  import opened OrderClause
  import opened OrderFields
  import opened QueryDependencies
  import opened CacheIndexing

  const LIST_LIMIT := 200
  const FILL_BATCH := 300
  const FILL_ROUNDS := 20
  const FILL_REACH := FILL_BATCH * FILL_ROUNDS

  const ID := "id"

  /** Primary keys; zero means "not saved yet". */
  datatype Id = Id(n: int)
  const NO_ID := Id(0)

  type Table = map<Id, Row>

  /** What the ORM knows of a model. `tracked` are the columns not tagged `diff:"-"`, `zero` the row of a
      freshly allocated struct. */
  datatype ModelInfo = ModelInfo(
    tableName: string,
    columns: set<Column>,
    tracked: set<Column>,
    goFields: map<string, Column>,
    zero: Row,
    customKeep: bool,
    keep: Row -> bool,
    keepFields: set<Column>)

  /** The database, as far as queries see it: the truth of a WHERE clause on a row, and the order of
      the matching rows as a function of the ORDER BY text, the ids and the columns sorted on. */
  datatype Database = Database(where: (string, seq<Value>, Row) -> bool, arrange: (string, map<Id, Row>) -> seq<Id>)

  datatype World = World(info: ModelInfo, db: Database)

  predicate IsDeleted(row: Row) { DELETED in row && row[DELETED] == Bool(true) }

  predicate WfRow(info: ModelInfo, row: Row) {
    row.Keys == info.columns && ID in row && row[ID].Int? && DELETED in row && row[DELETED].Bool?
  }

  function GetID(row: Row): Id { if ID in row && row[ID].Int? then Id(row[ID].i) else NO_ID }

  ghost predicate WfInfo(info: ModelInfo) {
    && info.tableName != ""
    && {ID, DELETED} <= info.columns && "" !in info.columns && info.tracked <= info.columns
    && WfRow(info, info.zero)
    && (!info.customKeep ==> forall row :: info.keep(row) == !IsDeleted(row))
  }

  predicate WfTable(info: ModelInfo, t: Table) {
    forall id :: id in t ==> id.n > 0 && WfRow(info, t[id]) && GetID(t[id]) == id
  }

  // ---- Hypotheses: the database, and the queries that are covered. ----

  /** The matcher on one row. */
  function MatchQuery(w: World, q: QueryParams, row: Row): MatchResult {
    MatchPredicate(w.info.goFields, ParseQuery(q), q.args, row)
  }

  /** The clause is blank, or it is understood and every condition reached on the row is decided. */
  predicate IsDecided(w: World, q: QueryParams, row: Row) {
    match ParseQuery(q)
    case NoCondition => true
    case Root(node) => !IsStuck(w.info.goFields, node, q.args, row)
    case Invalid => false
  }

  predicate IsSatisfied(w: World, q: QueryParams, row: Row) {
    match ParseQuery(q)
    case NoCondition => true
    case Root(node) => IsTrue(w.info.goFields, node, q.args, row)
    case Invalid => false
  }

  /** The matcher decides what is decided, as it is. */
  lemma QueryMeans(w: World, q: QueryParams, row: Row)
    ensures MatchQuery(w, q, row) == if IsDecided(w, q, row) then Verdict(IsSatisfied(w, q, row)) else MatchError
  {
    hide ParseQuery, Match, IsStuck, IsTrue;
    if ParseQuery(q).Root? { MatchMeans(w.info.goFields, ParseQuery(q).node, q.args, row); }
  }

  /** A clause the matcher can parse, whose identifiers are all columns. */
  ghost predicate Understood(info: ModelInfo, where: string, n: nat) {
    ParseWhere(where, n).Root? && forall c :: Mentions(ParseWhere(where, n).node, c) ==> c in info.columns
  }

  /** Where every condition reached is decided, the database gives the truth value of the clause. */
  ghost predicate Agrees(w: World, where: string, args: seq<Value>, row: Row) {
    Understood(w.info, where, |args|) && WfRow(w.info, row) ==>
      var node := ParseWhere(where, |args|).node;
      !IsStuck(w.info.goFields, node, args, row) ==>
        w.db.where(where, args, row) == IsTrue(w.info.goFields, node, args, row)
  }

  ghost predicate AgreeOnMentioned(node: Node, row: Row, row': Row) {
    forall c :: Mentions(node, c) ==> (c in row <==> c in row') && (c in row ==> row[c] == row'[c])
  }

  /** The database reads only the columns named by a clause. */
  ghost predicate ReadsNamed(w: World, where: string, args: seq<Value>, row: Row, row': Row) {
    Understood(w.info, where, |args|) && WfRow(w.info, row) && WfRow(w.info, row')
    && AgreeOnMentioned(ParseWhere(where, |args|).node, row, row')
    ==> w.db.where(where, args, row) == w.db.where(where, args, row')
  }

  predicate Distinct(ids: seq<Id>) { forall i, j :: 0 <= i < j < |ids| ==> ids[i] != ids[j] }

  ghost predicate Permutes(w: World, order: string, m: map<Id, Row>) {
    Distinct(w.db.arrange(order, m)) && forall id :: id in w.db.arrange(order, m) <==> id in m
  }

  /** Of the database as such: it orders results, and it understands the soft-delete filter. */
  ghost predicate Faithful(w: World) {
    && WfInfo(w.info)
    && (forall row :: Agrees(w, NOT_DELETED, [], row))
    && (forall order, m :: Permutes(w, order, m))
  }

  /** A covered query: the database agrees with the matcher on it and reads only the columns it names; its
      identifiers are exact names of tracked columns, its clause is not just white space and is a search
      condition of its own, so that `(W) AND "deleted" = false` filters it. */
  ghost predicate WfQuery(w: World, q: QueryParams) {
    && (forall row :: Agrees(w, q.where, q.args, row))
    && (forall row, row' :: ReadsNamed(w, q.where, q.args, row, row'))
    && (q.where == "" ==> q.args == [])
    && (q.where != "" ==> TrimSpace(q.where) != "")
    && (ParseQuery(q).Root? ==> forall c :: Mentions(ParseQuery(q).node, c) ==> c in w.info.tracked)
    && (forall c :: Sorts(q.order, c) ==> c in w.info.tracked)
    && forall row :: WfRow(w.info, row) ==> Filters(w, q, row)
  }

  predicate Filters(w: World, q: QueryParams, row: Row) {
    q.where != "" ==>
      (w.db.where(EffectiveWhere(q.where, false), q.args, row) <==> w.db.where(q.where, q.args, row) && !IsDeleted(row))
  }

  // ---- The database's answers. ----

  /** The row satisfies the query's own WHERE clause. */
  predicate Holds(w: World, q: QueryParams, row: Row) { q.where == "" || w.db.where(q.where, q.args, row) }

  /** The row satisfies the clause that is sent, soft-delete filter included. */
  predicate Sql(w: World, q: QueryParams, row: Row) {
    var where := EffectiveWhere(q.where, q.includeDeleted);
    where == "" || w.db.where(where, q.args, row)
  }

  /** The part of a row that ORDER BY may look at: the columns it sorts on, or any tracked column if some part
      of the clause is not a column with a direction. */
  function OrderKey(info: ModelInfo, order: string, row: Row): Row {
    map c | c in row && (if IsUnclear(order) then c in info.tracked else Sorts(order, c)) :: row[c]
  }

  function Matching(w: World, t: Table, q: QueryParams): map<Id, Row> {
    map id | id in t && Sql(w, q, t[id]) :: OrderKey(w.info, q.order, t[id])
  }

  /** The ids of the SQL result, in order. */
  function Result(w: World, t: Table, q: QueryParams): seq<Id> {
    w.db.arrange(q.order, Matching(w, t, q))
  }

  predicate Kept(w: World, q: QueryParams, row: Row) { q.includeDeleted || w.info.keep(row) }

  /** The ids whose rows are kept, in order. */
  function KeptOf(w: World, t: Table, q: QueryParams, ids: seq<Id>): seq<Id> {
    if ids == [] then []
    else
      var last := ids[|ids| - 1];
      KeptOf(w, t, q, ids[..|ids| - 1]) + (if last in t && Kept(w, q, t[last]) then [last] else [])
  }

  function Take(n: nat, ids: seq<Id>): seq<Id> { if |ids| <= n then ids else ids[..n] }

  /** What a list entry holds: the first 200 kept ids among the first 6000 matching rows. */
  function ListFill(w: World, t: Table, q: QueryParams): seq<Id> {
    Take(200, KeptOf(w, t, q, Take(6000, Result(w, t, q))))
  }

  function SqlCount(w: World, t: Table, q: QueryParams): nat { |Result(w, t, q)| }

  function VisibleCount(w: World, t: Table, q: QueryParams): nat { |KeptOf(w, t, q, Result(w, t, q))| }

  // ---- Coherence. ----

  datatype Cached = Present(row: Row) | NoneResult

  datatype Entry = Ids(ids: seq<Id>) | Num(n: nat)

  datatype Caches = Caches(models: map<Id, Cached>, queries: map<CacheKey, Entry>)

  /** How many matching rows a fill cannot reach. They can be missing from a count that a short list gave;
      with the default KeepItem a list is short only if the result is. */
  function Shortfall(w: World, t: Table, q: QueryParams): nat {
    if w.info.customKeep && SqlCount(w, t, q) > 6000 then SqlCount(w, t, q) - 6000 else 0
  }

  /** A plain count may include rows that a custom KeepItem hides; it misses no visible one within reach. */
  predicate CountOk(w: World, t: Table, q: QueryParams, n: nat) {
    if w.info.customKeep then VisibleCount(w, t, q) - Shortfall(w, t, q) <= n <= SqlCount(w, t, q)
      else n == SqlCount(w, t, q)
  }

  predicate PreciseOk(w: World, t: Table, q: QueryParams, n: nat) {
    VisibleCount(w, t, q) - Shortfall(w, t, q) <= n <= VisibleCount(w, t, q)
  }

  predicate EntryOk(w: World, t: Table, k: CacheKey, e: Entry) {
    match k.kind
    case ListKey => e == Ids(ListFill(w, t, k.params))
    case CountKey => e.Num? && CountOk(w, t, k.params, e.n)
    case PreciseKey => e.Num? && PreciseOk(w, t, k.params, e.n)
  }

  /** The entry is as right as if every row were within reach. */
  predicate EntryExact(w: World, t: Table, k: CacheKey, e: Entry) {
    && EntryOk(w, t, k, e)
    && (!k.kind.ListKey? ==> VisibleCount(w, t, k.params) <= e.n)
  }

  predicate ModelOk(t: Table, id: Id, c: Cached) {
    match c
    case Present(row) => id in t && t[id] == row
    case NoneResult => id !in t
  }

  ghost predicate ModelsOk(t: Table, models: map<Id, Cached>) {
    forall id :: id in models ==> ModelOk(t, id, models[id])
  }

  ghost predicate QueriesOk(w: World, t: Table, queries: map<CacheKey, Entry>) {
    forall k :: k in queries ==> EntryOk(w, t, k, queries[k])
  }

  ghost predicate QueriesExact(w: World, t: Table, queries: map<CacheKey, Entry>) {
    forall k :: k in queries ==> EntryExact(w, t, k, queries[k])
  }

  /** Every registration is of this table, under the key made from it. */
  ghost predicate Keyed(w: World, regs: Registry) {
    forall k :: k in regs ==> k.table == w.info.tableName && regs[k] == Registration(k.table, k.params)
  }

  /** Moreover, every registered query is covered. */
  ghost predicate RegistryOk(w: World, regs: Registry) {
    Keyed(w, regs) && forall k :: k in regs ==> WfQuery(w, k.params)
  }

  /** The invariant of every run. No live query key is unregistered. */
  ghost predicate Coherent(w: World, t: Table, c: Caches, regs: Registry) {
    && WfTable(w.info, t)
    && ModelsOk(t, c.models)
    && QueriesOk(w, t, c.queries)
    && RegistryOk(w, regs)
    && c.queries.Keys <= regs.Keys
  }

  // ---- Consequences of the hypotheses. ----

  lemma SqlSplits(w: World, q: QueryParams, row: Row)
    requires Faithful(w) && WfQuery(w, q) && WfRow(w.info, row)
    ensures Sql(w, q, row) <==> Holds(w, q, row) && (q.includeDeleted || !IsDeleted(row))
  {
    hide ParseWhere, IsTrue, IsStuck, Sorts;
    if !q.includeDeleted {
      if q.where != "" {
        assert Filters(w, q, row);
      } else {
        assert Agrees(w, NOT_DELETED, q.args, row);
        FilterAloneParses();
        FilterMentions();
        FilterDecides(w.info.goFields, q.args, row);
      }
    }
  }

  lemma FilterMentions()
    ensures forall c :: Mentions(LIVE_ROW, c) <==> c == DELETED
  {
  }

  lemma FilterDecides(goFields: map<string, Column>, args: seq<Value>, row: Row)
    requires DELETED in row && row[DELETED].Bool?
    ensures !IsStuck(goFields, LIVE_ROW, args, row)
    ensures IsTrue(goFields, LIVE_ROW, args, row) <==> !IsDeleted(row)
  {
  }

  lemma VerdictDecides(w: World, q: QueryParams, row: Row)
    requires Faithful(w) && WfQuery(w, q) && WfRow(w.info, row) && MatchQuery(w, q, row).Verdict?
    ensures Holds(w, q, row) == MatchQuery(w, q, row).holds
  {
    hide Match, Sorts, Tokenize, ParseTokens, IsStuck, IsTrue, Mentions;
    assert Agrees(w, q.where, q.args, row);
    if q.where == "" { assert TrimSpace(q.where) == ""; }
    if ParseQuery(q).Root? { MatchMeans(w.info.goFields, ParseQuery(q).node, q.args, row); }
  }

  lemma AgreementIs(node: Node, row: Row, row': Row)
    ensures AgreeOnMentioned(node, row, row') <==> AgreeOn(Fields(node), row, row')
  {
    hide Fields, Mentions;
    forall c ensures c in Fields(node) <==> Mentions(node, c) { FieldsMean(node, c); }
  }

  /** Rows that agree on the columns of a parseable clause satisfy it alike. */
  lemma HoldsIsLocal(w: World, q: QueryParams, row: Row, row': Row)
    requires Faithful(w) && WfQuery(w, q) && ParseQuery(q).Root? && WfRow(w.info, row) && WfRow(w.info, row')
    requires AgreeOn(Fields(ParseQuery(q).node), row, row')
    ensures Holds(w, q, row) == Holds(w, q, row')
  {
    hide ParseWhere, Fields, Sorts, AgreeOnMentioned, IsTrue, IsStuck;
    AgreementIs(ParseQuery(q).node, row, row');
    assert ReadsNamed(w, q.where, q.args, row, row');
  }

  lemma OrderKeyIsLocal(info: ModelInfo, order: string, row: Row, row': Row)
    requires AgreeOn(if ParseOrderFields(order).1 then info.tracked else ParseOrderFields(order).0, row, row')
    ensures OrderKey(info, order, row) == OrderKey(info, order, row')
  {
    hide ParseOrderFields, Sorts, IsUnclear;
    OrderFieldsMean(order, "");
    forall c ensures c in ParseOrderFields(order).0 <==> Sorts(order, c) { OrderFieldsMean(order, c); }
  }

  /** The columns a covered query depends on are tracked. */
  lemma FieldsAreTracked(w: World, q: QueryParams)
    requires WfQuery(w, q)
    ensures PredicateFields(ParseQuery(q)) <= w.info.tracked && ParseOrderFields(q.order).0 <= w.info.tracked
    ensures ParseQuery(q).Root? ==> PredicateFields(ParseQuery(q)) == Fields(ParseQuery(q).node)
  {
    hide ParseQuery, Fields, Mentions, ParseOrderFields, Sorts;
    forall c | c in ParseOrderFields(q.order).0 ensures c in w.info.tracked { OrderFieldsMean(q.order, c); }
    if ParseQuery(q).Root? {
      forall c | c in Fields(ParseQuery(q).node) ensures c in w.info.tracked { FieldsMean(ParseQuery(q).node, c); }
    }
  }

  // ---- Counting without order. ----

  lemma {:induction false} KeptOfMembers(w: World, t: Table, q: QueryParams, ids: seq<Id>)
    requires Distinct(ids)
    ensures Distinct(KeptOf(w, t, q, ids))
    ensures forall id :: id in KeptOf(w, t, q, ids) <==> id in ids && id in t && Kept(w, q, t[id])
    decreases |ids|
  {
    if ids != [] {
      var init := ids[..|ids| - 1];
      var last := ids[|ids| - 1];
      KeptOfMembers(w, t, q, init);
      assert ids == init + [last];
      assert last !in init;
    }
  }

  function Elements(ids: seq<Id>): set<Id> { set k | 0 <= k < |ids| :: ids[k] }

  lemma {:induction false} DistinctSize(ids: seq<Id>)
    requires Distinct(ids)
    ensures |Elements(ids)| == |ids|
    decreases |ids|
  {
    if ids != [] {
      var init, last := ids[..|ids| - 1], ids[|ids| - 1];
      DistinctSize(init);
      assert forall k :: 0 <= k < |init| ==> init[k] == ids[k];
      assert Elements(ids) == Elements(init) + {last};
      assert last !in Elements(init);
    }
  }

  lemma SameSize(a: seq<Id>, b: seq<Id>)
    requires Distinct(a) && Distinct(b) && forall id :: id in a <==> id in b
    ensures |a| == |b|
  {
    assert forall id :: id in Elements(a) <==> id in a;
    assert forall id :: id in Elements(b) <==> id in b;
    assert Elements(a) == Elements(b);
    DistinctSize(a);
    DistinctSize(b);
  }

  lemma ResultMembers(w: World, t: Table, q: QueryParams)
    requires Faithful(w)
    ensures Distinct(Result(w, t, q))
    ensures forall id :: id in Result(w, t, q) <==> id in t && Sql(w, q, t[id])
  {
    hide OrderKey, Sql;
    assert Permutes(w, q.order, Matching(w, t, q));
  }

  // ---- When a write leaves an entry right. ----

  /** The same rows match the query before and after, and each is kept or hidden as before. */
  ghost predicate SameMembers(w: World, t: Table, t': Table, q: QueryParams) {
    && (forall id :: id in t && Sql(w, q, t[id]) <==> id in t' && Sql(w, q, t'[id]))
    && (forall id :: id in t && id in t' && Sql(w, q, t[id]) ==> Kept(w, q, t[id]) == Kept(w, q, t'[id]))
  }

  ghost predicate SameOrder(w: World, t: Table, t': Table, q: QueryParams) {
    forall id :: id in t && id in t' && Sql(w, q, t[id]) ==>
      OrderKey(w.info, q.order, t[id]) == OrderKey(w.info, q.order, t'[id])
  }

  lemma {:induction false} SameKept(w: World, t: Table, t': Table, q: QueryParams, ids: seq<Id>)
    requires forall id :: id in ids ==> id in t && id in t' && Kept(w, q, t[id]) == Kept(w, q, t'[id])
    ensures KeptOf(w, t, q, ids) == KeptOf(w, t', q, ids)
    decreases |ids|
  {
    if ids != [] {
      assert ids[|ids| - 1] in ids;
      assert forall id :: id in ids[..|ids| - 1] ==> id in ids;
      SameKept(w, t, t', q, ids[..|ids| - 1]);
    }
  }

  lemma CountsUnaffected(w: World, t: Table, t': Table, q: QueryParams)
    requires Faithful(w) && SameMembers(w, t, t', q)
    ensures SqlCount(w, t, q) == SqlCount(w, t', q) && VisibleCount(w, t, q) == VisibleCount(w, t', q)
  {
    hide Sql, Kept, KeptOf, Result;
    ResultMembers(w, t, q);
    ResultMembers(w, t', q);
    SameSize(Result(w, t, q), Result(w, t', q));
    KeptOfMembers(w, t, q, Result(w, t, q));
    KeptOfMembers(w, t', q, Result(w, t', q));
    SameSize(KeptOf(w, t, q, Result(w, t, q)), KeptOf(w, t', q, Result(w, t', q)));
  }

  lemma ListUnaffected(w: World, t: Table, t': Table, q: QueryParams)
    requires Faithful(w) && SameMembers(w, t, t', q) && SameOrder(w, t, t', q)
    ensures ListFill(w, t, q) == ListFill(w, t', q)
  {
    hide Sql, Kept, KeptOf, OrderKey;
    var before, after := Matching(w, t, q), Matching(w, t', q);
    assert before.Keys == after.Keys by {
      forall id ensures id in before <==> id in after {
        assert id in t && Sql(w, q, t[id]) <==> id in t' && Sql(w, q, t'[id]);
      }
    }
    forall id | id in before ensures before[id] == after[id] {
      assert id in t && Sql(w, q, t[id]) && id in t';
      assert OrderKey(w.info, q.order, t[id]) == OrderKey(w.info, q.order, t'[id]);
    }
    assert before == after;
    ResultMembers(w, t, q);
    var reach := Take(FILL_REACH, Result(w, t, q));
    assert forall id :: id in reach ==> id in Result(w, t, q);
    SameKept(w, t, t', q, reach);
  }

  /** The heart of selective invalidation: an entry stays right if its members, and for a list also
      their order, are what they were. */
  lemma EntryUnaffected(w: World, t: Table, t': Table, k: CacheKey, e: Entry)
    requires Faithful(w) && EntryOk(w, t, k, e) && SameMembers(w, t, t', k.params)
    requires k.kind.ListKey? ==> SameOrder(w, t, t', k.params)
    ensures EntryOk(w, t', k, e)
    ensures EntryExact(w, t, k, e) ==> EntryExact(w, t', k, e)
  {
    hide SameMembers, SameOrder, ListFill, SqlCount, VisibleCount;
    CountsUnaffected(w, t, t', k.params);
    if k.kind.ListKey? { ListUnaffected(w, t, t', k.params); }
  }
}
