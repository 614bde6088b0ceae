/** A database that meets the hypotheses, for any model: they are not contradictory. */
module ReferenceDatabase {
  import opened Values
  import opened WhereLexer
  import opened WhereParser
  import opened WhereMatch
  import opened WhereMeaning
  import opened WhereTruth
  import opened OrderClause
  import opened WhereSoftDelete
  import opened Coherence

  lemma {:induction false} HasLeast(s: set<Id>)
    requires s != {}
    ensures exists x :: x in s && forall y :: y in s ==> x.n <= y.n
    decreases |s|
  {
    var x :| x in s;
    if s == {x} {
      assert forall y :: y in s ==> x.n <= y.n;
    } else {
      var rest := s - {x};
      assert rest == {} ==> s == {x};
      HasLeast(rest);
      var least :| least in rest && forall y :: y in rest ==> least.n <= y.n;
      var m := if x.n <= least.n then x else least;
      assert m in s && forall y :: y in s ==> m.n <= y.n by {
        forall y | y in s ensures m.n <= y.n { if y != x { assert y in rest; } }
      }
    }
  }

  ghost function Ascending(s: set<Id>): (ids: seq<Id>)
    ensures Distinct(ids) && forall id :: id in ids <==> id in s
  {
    if s == {} then []
    else
      HasLeast(s);
      var x :| x in s && forall y :: y in s ==> x.n <= y.n;
      var rest := Ascending(s - {x});
      assert x !in rest;
      [x] + rest
  }

  /** Evaluates what is decided, rejects the rest, and sorts by id. */
  ghost function ReferenceDb(info: ModelInfo): Database {
    Database(
      (where: string, args: seq<Value>, row: Row) =>
        Understood(info, where, |args|) &&
          !IsStuck(info.goFields, ParseWhere(where, |args|).node, args, row) &&
          IsTrue(info.goFields, ParseWhere(where, |args|).node, args, row),
      (order: string, m: map<Id, Row>) => Ascending(m.Keys))
  }

  lemma ReferenceIsFaithful(info: ModelInfo)
    requires WfInfo(info)
    ensures Faithful(World(info, ReferenceDb(info)))
  {
    hide IsStuck, IsTrue, ParseWhere, Mentions, Ascending, WfInfo;
    var w := World(info, ReferenceDb(info));
    forall row ensures Agrees(w, NOT_DELETED, [], row) {
    }
    forall order, m ensures Permutes(w, order, m) {
      assert w.db.arrange(order, m) == Ascending(m.Keys);
    }
  }

  /** Every understood clause over tracked columns is covered by it, unless trimming takes off more than blanks. */
  lemma ReferenceCovers(info: ModelInfo, q: QueryParams)
    requires WfInfo(info) && Understood(info, q.where, |q.args|) && TrimsToBlanks(q.where)
    requires ParseQuery(q).Root? ==> forall c :: Mentions(ParseQuery(q).node, c) ==> c in info.tracked
    requires forall c :: Sorts(q.order, c) ==> c in info.tracked
    ensures WfQuery(World(info, ReferenceDb(info)), q)
  {
    hide IsStuck, IsTrue, Mentions, Ascending, WfInfo, Sorts, TrimsToBlanks, Tokenize, ParseTokens;
    var w, node := World(info, ReferenceDb(info)), ParseWhere(q.where, |q.args|).node;
    forall row, row' ensures ReadsNamed(w, q.where, q.args, row, row') {
      if WfRow(info, row) && AgreeOnMentioned(node, row, row') {
        TruthIsLocal(info, node, q.args, row, row');
      }
    }
    forall row | WfRow(info, row) ensures Filters(w, q, row) { ReferenceFilters(info, q, row); }
  }

  /** Truth, and being stuck, depend only on the columns mentioned. */
  lemma TruthIsLocal(info: ModelInfo, node: Node, args: seq<Value>, row: Row, row': Row)
    requires AgreeOnMentioned(node, row, row') && forall c :: Mentions(node, c) ==> c in row
    ensures IsStuck(info.goFields, node, args, row) == IsStuck(info.goFields, node, args, row')
    ensures !IsStuck(info.goFields, node, args, row) ==>
      IsTrue(info.goFields, node, args, row) == IsTrue(info.goFields, node, args, row')
  {
    hide Match, IsStuck, IsTrue, Fields, Mentions;
    AgreementIs(node, row, row');
    forall c ensures c in Fields(node) <==> Mentions(node, c) { FieldsMean(node, c); }
    MatchIsLocal(info.goFields, node, args, row, row');
    MatchMeans(info.goFields, node, args, row);
    MatchMeans(info.goFields, node, args, row');
  }

  lemma ReferenceFilters(info: ModelInfo, q: QueryParams, row: Row)
    requires WfInfo(info) && Understood(info, q.where, |q.args|) && TrimsToBlanks(q.where) && WfRow(info, row)
    ensures Filters(World(info, ReferenceDb(info)), q, row)
  {
    hide IsStuck, IsTrue, ParseWhere, Mentions, TrimsToBlanks;
    var w, node := World(info, ReferenceDb(info)), ParseWhere(q.where, |q.args|).node;
    if q.where != "" {
      FilterIsConjunction(q.where, |q.args|);
      WrappedIsUnderstood(info, q);
      FilterDecides(info.goFields, q.args, row);
      ConjunctionDecides(info.goFields, node, q.args, row);
      assert {ID, DELETED} <= info.columns;
    }
  }

  lemma WrappedIsUnderstood(info: ModelInfo, q: QueryParams)
    requires WfInfo(info) && q.where != "" && Understood(info, q.where, |q.args|) && TrimsToBlanks(q.where)
    ensures Understood(info, EffectiveWhere(q.where, false), |q.args|)
  {
    hide ParseWhere, TrimsToBlanks, EffectiveWhere;
    FilterIsConjunction(q.where, |q.args|);
    FilterMentions();
    var node := ParseWhere(q.where, |q.args|).node;
    assert forall c :: Mentions(Both(node, LIVE_ROW), c) ==> Mentions(node, c) || Mentions(LIVE_ROW, c);
    hide Mentions;
    assert {ID, DELETED} <= info.columns;
  }

  /** For a clause that is decided, the soft-delete filter works by the grammar alone, in any database that agrees
      on the clause and its wrapping. */
  lemma FilterFollowsFromGrammar(w: World, q: QueryParams, row: Row)
    requires WfInfo(w.info) && Understood(w.info, q.where, |q.args|) && TrimsToBlanks(q.where) && WfRow(w.info, row)
    requires Agrees(w, q.where, q.args, row) && Agrees(w, EffectiveWhere(q.where, false), q.args, row)
    requires !IsStuck(w.info.goFields, ParseWhere(q.where, |q.args|).node, q.args, row)
    ensures Filters(w, q, row)
  {
    hide IsStuck, IsTrue, ParseWhere, Mentions, TrimsToBlanks;
    var node := ParseWhere(q.where, |q.args|).node;
    if q.where != "" {
      FilterIsConjunction(q.where, |q.args|);
      WrappedIsUnderstood(w.info, q);
      FilterDecides(w.info.goFields, q.args, row);
      ConjunctionDecides(w.info.goFields, node, q.args, row);
      assert {ID, DELETED} <= w.info.columns;
    }
  }

  lemma ConjunctionDecides(goFields: map<string, Column>, node: Node, args: seq<Value>, row: Row)
    requires !IsStuck(goFields, LIVE_ROW, args, row)
    ensures IsStuck(goFields, Both(node, LIVE_ROW), args, row) <==> IsStuck(goFields, node, args, row)
    ensures IsTrue(goFields, Both(node, LIVE_ROW), args, row) <==>
      IsTrue(goFields, node, args, row) && IsTrue(goFields, LIVE_ROW, args, row)
  {
  }
}
