/** Migrating an existing table to the model: which statements are generated, and that they converge. */
module SchemaDiff {
  import opened Values
  import opened Text

  datatype DbColumn = DbColumn(sqlType: string, primary: bool)

  /** An index as compared: column order does not matter, nor the text of a partial-index predicate. */
  datatype IndexDef = IndexDef(columns: seq<string>, unique: bool, where: string)

  type Columns = map<string, DbColumn>

  type Indexes = map<string, IndexDef>

  datatype IndexSpec = IndexSpec(name: string, columns: seq<string>, where: string)

  datatype Model = Model(tableName: string, pkName: string, columns: map<string, string>, indexes: seq<IndexSpec>,
    uniqueIndexes: seq<IndexSpec>)

  datatype Database = Database(columns: Columns, indexes: Indexes)

  datatype Statement =
    | AddColumn(column: string, sqlType: string, primary: bool)
    | DropColumn(column: string)
    | AlterType(column: string, sqlType: string)
    | ManualPrimaryKey(column: string)
    | CreateIndex(name: string, def: IndexDef)
    | DropIndex(name: string)

  predicate HasPredicate(where: string) { TrimSpace(where) != "" }

  predicate SameDef(m: IndexDef, d: IndexDef) {
    m.unique == d.unique && multiset(m.columns) == multiset(d.columns) && HasPredicate(m.where) == HasPredicate(d.where)
  }

  /** What it means that two definitions are the same: uniqueness, the columns in any order, and whether there is
      a predicate at all. */
  lemma SameDefMeans(m: IndexDef, d: IndexDef)
    ensures SameDef(m, d) <==>
      && m.unique == d.unique && multiset(m.columns) == multiset(d.columns)
      && ((forall c :: c in m.where ==> IsSpace(c)) <==> (forall c :: c in d.where ==> IsSpace(c)))
  {
    TrimsToNothing(m.where);
    TrimsToNothing(d.where);
  }

  lemma TrimsToNothing(s: string)
    ensures TrimSpace(s) == "" <==> forall c :: c in s ==> IsSpace(c)
  {
    var i := TrimMeans(s, IsSpace);
    hide TrimLeft, TrimRight;
    var t := TrimSpace(s);
    if t != "" { assert t[0] == s[i] && s[i] in s; }
  }

  // ---- The indexes a model asks for. ----

  function IndexName(table: string, unique: bool, spec: IndexSpec): string {
    if spec.name != "" || |spec.columns| != 1 then spec.name
    else (if unique then "uniq_" else "idx_") + table + "_" + spec.columns[0]
  }

  datatype Wish = Wish(unique: bool, spec: IndexSpec)

  function Wishes(unique: bool, specs: seq<IndexSpec>): seq<Wish> {
    seq(|specs|, i requires 0 <= i < |specs| => Wish(unique, specs[i]))
  }

  /** Everything a model asks for, in the order in which it is looked at. */
  function AllWishes(model: Model): seq<Wish> { Wishes(false, model.indexes) + Wishes(true, model.uniqueIndexes) }

  /** The wish is for an index of this name: its own name, or the one made for a single column without a name. */
  predicate WishedFor(table: string, x: Wish, name: string) {
    && x.spec.columns != [] && name != ""
    && (x.spec.name == name ||
        (x.spec.name == "" && |x.spec.columns| == 1 &&
         name == (if x.unique then "uniq_" + table + "_" + x.spec.columns[0]
           else "idx_" + table + "_" + x.spec.columns[0])))
  }

  predicate IsFirstWish(table: string, xs: seq<Wish>, name: string, i: nat) {
    i < |xs| && WishedFor(table, xs[i], name) && forall j :: 0 <= j < i ==> !WishedFor(table, xs[j], name)
  }

  function DefOf(x: Wish): IndexDef { IndexDef(x.spec.columns, x.unique, x.spec.where) }

  /** Each name asked for stands for the first wish for it, and there are no other names. */
  ghost predicate Grants(table: string, xs: seq<Wish>, found: Indexes) {
    && (forall name :: name in found ==>
      exists i: nat :: IsFirstWish(table, xs, name, i) && found[name] == DefOf(xs[i]))
    && (forall i, name :: 0 <= i < |xs| && WishedFor(table, xs[i], name) ==> name in found)
  }

  /** The same index as first asked for, but with another predicate. */
  predicate Contradicts(table: string, xs: seq<Wish>, name: string, i: nat, j: nat) {
    && IsFirstWish(table, xs, name, i) && j < |xs| && WishedFor(table, xs[j], name)
    && xs[i].unique == xs[j].unique && multiset(xs[i].spec.columns) == multiset(xs[j].spec.columns)
    && xs[i].spec.where != xs[j].spec.where
  }

  predicate IsPartial(x: Wish) { x.spec.columns != [] && x.spec.where != "" }

  /** When a model cannot be migrated: a partial index on MySQL, or one index with two predicates. */
  ghost predicate Refuses(table: string, dialect: Dialect, xs: seq<Wish>) {
    || (dialect == MySQL && exists i :: 0 <= i < |xs| && IsPartial(xs[i]))
    || (exists name, i: nat, j: nat :: Contradicts(table, xs, name, i, j))
  }

  lemma NameIsWished(table: string, x: Wish, name: string)
    ensures WishedFor(table, x, name) <==>
      x.spec.columns != [] && name != "" && IndexName(table, x.unique, x.spec) == name
  {
  }

  lemma FirstStays(table: string, xs: seq<Wish>, x: Wish, name: string, i: nat)
    ensures i < |xs| ==> (IsFirstWish(table, xs + [x], name, i) <==> IsFirstWish(table, xs, name, i))
  {
    hide WishedFor;
    assert forall k :: 0 <= k < |xs| ==> (xs + [x])[k] == xs[k];
  }

  lemma OneFirst(table: string, xs: seq<Wish>, name: string, i: nat, j: nat)
    requires IsFirstWish(table, xs, name, i) && IsFirstWish(table, xs, name, j)
    ensures i == j
  {
    hide WishedFor;
  }

  /** A wish that changes nothing: no name, or a name that is known. */
  lemma GrantsMore(table: string, xs: seq<Wish>, x: Wish, found: Indexes)
    requires Grants(table, xs, found) && forall name :: WishedFor(table, x, name) ==> name in found
    ensures Grants(table, xs + [x], found)
  {
    hide WishedFor;
    var ys := xs + [x];
    forall name | name in found
      ensures exists i: nat :: IsFirstWish(table, ys, name, i) && found[name] == DefOf(ys[i])
    {
      var i: nat :| IsFirstWish(table, xs, name, i) && found[name] == DefOf(xs[i]);
      FirstStays(table, xs, x, name, i);
      assert ys[i] == xs[i];
    }
    forall i, name | 0 <= i < |ys| && WishedFor(table, ys[i], name) ensures name in found {
      if i < |xs| { assert ys[i] == xs[i]; }
    }
  }

  lemma GrantsNew(table: string, xs: seq<Wish>, x: Wish, name: string, found: Indexes)
    requires Grants(table, xs, found) && name !in found
    requires forall n :: WishedFor(table, x, n) <==> n == name
    ensures Grants(table, xs + [x], found[name := DefOf(x)])
  {
    hide WishedFor;
    var ys, more := xs + [x], found[name := DefOf(x)];
    forall n | n in more ensures exists i: nat :: IsFirstWish(table, ys, n, i) && more[n] == DefOf(ys[i]) {
      if n == name {
        assert forall j :: 0 <= j < |xs| ==> ys[j] == xs[j];
        assert IsFirstWish(table, ys, n, |xs|);
      } else {
        var i: nat :| IsFirstWish(table, xs, n, i) && found[n] == DefOf(xs[i]);
        FirstStays(table, xs, x, n, i);
        assert ys[i] == xs[i];
      }
    }
    forall i, n | 0 <= i < |ys| && WishedFor(table, ys[i], n) ensures n in more {
      if i < |xs| { assert ys[i] == xs[i]; }
    }
  }

  /** The wish contradicts what its name stands for. */
  ghost predicate Clashes(table: string, x: Wish, found: Indexes) {
    exists name :: name in found && WishedFor(table, x, name) && ClashesWith(x, found[name])
  }

  predicate ClashesWith(x: Wish, d: IndexDef) {
    d.unique == x.unique && multiset(d.columns) == multiset(x.spec.columns) && d.where != x.spec.where
  }

  lemma ContradictionEnds(table: string, xs: seq<Wish>, x: Wish, found: Indexes)
    requires Grants(table, xs, found)
    ensures (exists name, i: nat, j: nat :: Contradicts(table, xs + [x], name, i, j)) <==>
      (exists name, i: nat, j: nat :: Contradicts(table, xs, name, i, j)) || Clashes(table, x, found)
  {
    hide WishedFor;
    var ys := xs + [x];
    assert forall k :: 0 <= k < |xs| ==> ys[k] == xs[k];
    if name, i: nat, j: nat :| Contradicts(table, xs, name, i, j) {
      FirstStays(table, xs, x, name, i);
      assert Contradicts(table, ys, name, i, j);
    }
    if Clashes(table, x, found) {
      var name :| name in found && WishedFor(table, x, name) && ClashesWith(x, found[name]);
      var i: nat :| IsFirstWish(table, xs, name, i) && found[name] == DefOf(xs[i]);
      FirstStays(table, xs, x, name, i);
      assert Contradicts(table, ys, name, i, |xs|);
    }
    if name, i: nat, j: nat :| Contradicts(table, ys, name, i, j) {
      assert i < |xs|;
      FirstStays(table, xs, x, name, i);
      if j < |xs| {
        assert Contradicts(table, xs, name, i, j);
      } else {
        assert WishedFor(table, xs[i], name);
        var k: nat :| IsFirstWish(table, xs, name, k) && found[name] == DefOf(xs[k]);
        OneFirst(table, xs, name, i, k);
      }
    }
  }

  lemma RefusalEnds(table: string, dialect: Dialect, xs: seq<Wish>, x: Wish, found: Indexes)
    requires Grants(table, xs, found)
    ensures Refuses(table, dialect, xs + [x]) <==>
      Refuses(table, dialect, xs) || (dialect == MySQL && IsPartial(x)) || Clashes(table, x, found)
  {
    hide WishedFor, Contradicts, IsPartial, Clashes;
    ContradictionEnds(table, xs, x, found);
    var ys := xs + [x];
    if i :| 0 <= i < |ys| && IsPartial(ys[i]) { if i < |xs| { assert ys[i] == xs[i]; } }
    if i :| 0 <= i < |xs| && IsPartial(xs[i]) { assert ys[i] == xs[i]; }
    if IsPartial(x) { assert ys[|xs|] == x; }
  }

  lemma {:induction false} RefusalStays(table: string, dialect: Dialect, xs: seq<Wish>, more: seq<Wish>)
    requires Refuses(table, dialect, xs)
    ensures Refuses(table, dialect, xs + more)
  {
    var ys := xs + more;
    assert forall k :: 0 <= k < |xs| ==> ys[k] == xs[k];
    hide WishedFor, IsPartial;
    if i :| dialect == MySQL && 0 <= i < |xs| && IsPartial(xs[i]) {
      assert IsPartial(ys[i]);
    } else {
      var name, i: nat, j: nat :| Contradicts(table, xs, name, i, j);
      assert Contradicts(table, ys, name, i, j);
    }
  }

  /** The loop over one list of specs, after `prior` has been looked at. Specs without columns, composite specs
      without a name, and specs that differ from the first of their name in uniqueness or columns are skipped. */
  method PopulateIndexMap(table: string, dialect: Dialect, unique: bool, specs: seq<IndexSpec>, start: Indexes,
          ghost prior: seq<Wish>)
    returns (r: Option<Indexes>)
    requires Grants(table, prior, start) && !Refuses(table, dialect, prior)
    ensures r.None? <==> Refuses(table, dialect, prior + Wishes(unique, specs))
    ensures r.Some? ==> Grants(table, prior + Wishes(unique, specs), r.value)
  {
    hide Refuses, Grants;
    var found := start;
    ghost var xs, wishes := prior, Wishes(unique, specs);
    assert prior + wishes[..0] == prior;
    for i := 0 to |specs|
      invariant xs == prior + wishes[..i] && Grants(table, xs, found) && !Refuses(table, dialect, xs)
    {
      var spec := specs[i];
      ghost var x := Wish(unique, spec);
      assert wishes[..i + 1] == wishes[..i] + [x];
      assert prior + wishes[..i + 1] == xs + [x];
      WishStep(table, dialect, xs, x, found);
      xs := xs + [x];
      if spec.columns == [] { continue; }
      if spec.where != "" && dialect == MySQL {
        Refused(table, dialect, prior, wishes, i);
        return None;
      }
      var name := IndexName(table, unique, spec);
      if name == "" { continue; }
      if name in found {
        if found[name].unique != unique || multiset(found[name].columns) != multiset(spec.columns) { continue; }
        if found[name].where != spec.where {
          Refused(table, dialect, prior, wishes, i);
          return None;
        }
      } else {
        found := found[name := IndexDef(spec.columns, unique, spec.where)];
      }
    }
    assert wishes[..|specs|] == wishes;
    r := Some(found);
  }

  lemma Refused(table: string, dialect: Dialect, prior: seq<Wish>, wishes: seq<Wish>, i: nat)
    requires i < |wishes| && Refuses(table, dialect, prior + wishes[..i + 1])
    ensures Refuses(table, dialect, prior + wishes)
  {
    hide Refuses;
    RefusalStays(table, dialect, prior + wishes[..i + 1], wishes[i + 1..]);
    assert prior + wishes[..i + 1] + wishes[i + 1..] == prior + wishes;
  }

  /** What one spec does, by the name it gets. */
  lemma WishStep(table: string, dialect: Dialect, xs: seq<Wish>, x: Wish, found: Indexes)
    requires Grants(table, xs, found) && !Refuses(table, dialect, xs)
    ensures var name := IndexName(table, x.unique, x.spec);
      var known := x.spec.columns != [] && name != "" && name in found;
      && (Refuses(table, dialect, xs + [x]) <==>
           (dialect == MySQL && IsPartial(x)) || (known && ClashesWith(x, found[name])))
      && Grants(table, xs + [x], if x.spec.columns == [] || name == "" || known then found else found[name := DefOf(x)])
  {
    var name := IndexName(table, x.unique, x.spec);
    forall n ensures WishedFor(table, x, n) <==> x.spec.columns != [] && name != "" && n == name {
      NameIsWished(table, x, n);
    }
    hide WishedFor, Grants, Refuses, IndexName, IsPartial, ClashesWith;
    RefusalEnds(table, dialect, xs, x, found);
    if x.spec.columns == [] || name == "" || name in found {
      GrantsMore(table, xs, x, found);
    } else {
      GrantsNew(table, xs, x, name, found);
    }
  }

  /** The wanted indexes are determined by the model. */
  lemma WantedIsUnique(table: string, xs: seq<Wish>, a: Indexes, b: Indexes)
    requires Grants(table, xs, a) && Grants(table, xs, b)
    ensures a == b
  {
    hide WishedFor;
    forall name ensures name in a <==> name in b { SameName(table, xs, a, b, name); SameName(table, xs, b, a, name); }
    forall name | name in a ensures a[name] == b[name] { SameName(table, xs, a, b, name); }
  }

  lemma SameName(table: string, xs: seq<Wish>, a: Indexes, b: Indexes, name: string)
    requires Grants(table, xs, a) && Grants(table, xs, b)
    ensures name in a ==> name in b && a[name] == b[name]
  {
    hide WishedFor;
    if name in a {
      var i: nat :| IsFirstWish(table, xs, name, i) && a[name] == DefOf(xs[i]);
      assert WishedFor(table, xs[i], name);
      var j: nat :| IsFirstWish(table, xs, name, j) && b[name] == DefOf(xs[j]);
      OneFirst(table, xs, name, i, j);
    }
  }

  lemma NothingAsked(table: string, dialect: Dialect)
    ensures Grants(table, [], map[]) && !Refuses(table, dialect, [])
  {
  }

  // ---- An ideal database. ----

  function ApplyToColumns(columns: Columns, s: Statement): Columns {
    match s
    case AddColumn(c, t, pk) => columns[c := DbColumn(t, pk)]
    case DropColumn(c) => columns - {c}
    case AlterType(c, t) => if c in columns then columns[c := columns[c].(sqlType := t)] else columns
    case _ => columns
  }

  function ApplyToIndexes(indexes: Indexes, s: Statement): Indexes {
    match s
    case CreateIndex(name, def) => if name in indexes then indexes else indexes[name := def]
    case DropIndex(name) => indexes - {name}
    case _ => indexes
  }

  function ColumnsAfter(columns: Columns, statements: seq<Statement>): Columns {
    if statements == [] then columns
    else ApplyToColumns(ColumnsAfter(columns, statements[..|statements| - 1]), statements[|statements| - 1])
  }

  function IndexesAfter(indexes: Indexes, statements: seq<Statement>): Indexes {
    if statements == [] then indexes
    else ApplyToIndexes(IndexesAfter(indexes, statements[..|statements| - 1]), statements[|statements| - 1])
  }

  function ApplyAll(db: Database, statements: seq<Statement>): Database {
    Database(ColumnsAfter(db.columns, statements), IndexesAfter(db.indexes, statements))
  }

  lemma AfterOne(columns: Columns, indexes: Indexes, statements: seq<Statement>, s: Statement)
    ensures ColumnsAfter(columns, statements + [s]) == ApplyToColumns(ColumnsAfter(columns, statements), s)
    ensures IndexesAfter(indexes, statements + [s]) == ApplyToIndexes(IndexesAfter(indexes, statements), s)
  {
    assert (statements + [s])[..|statements|] == statements;
  }

  lemma {:induction false} AfterBoth(columns: Columns, indexes: Indexes, first: seq<Statement>, second: seq<Statement>)
    ensures ColumnsAfter(columns, first + second) == ColumnsAfter(ColumnsAfter(columns, first), second)
    ensures IndexesAfter(indexes, first + second) == IndexesAfter(IndexesAfter(indexes, first), second)
  {
    if second == [] {
      assert first + second == first;
    } else {
      var init, last := second[..|second| - 1], second[|second| - 1];
      AfterBoth(columns, indexes, first, init);
      AfterOne(columns, indexes, first + init, last);
      assert first + second == first + init + [last];
    }
  }

  predicate OnColumns(s: Statement) { s.AddColumn? || s.DropColumn? || s.AlterType? || s.ManualPrimaryKey? }

  predicate AllOnColumns(statements: seq<Statement>) { forall s :: s in statements ==> OnColumns(s) }

  predicate AllOnIndexes(statements: seq<Statement>) { forall s :: s in statements ==> !OnColumns(s) }

  lemma {:induction false} PhasesAreSeparate(columns: Columns, indexes: Indexes, statements: seq<Statement>)
    ensures AllOnColumns(statements) ==> IndexesAfter(indexes, statements) == indexes
    ensures AllOnIndexes(statements) ==> ColumnsAfter(columns, statements) == columns
  {
    if statements != [] {
      var init, last := statements[..|statements| - 1], statements[|statements| - 1];
      assert last in statements && forall s :: s in init ==> s in statements;
      PhasesAreSeparate(columns, indexes, init);
    }
  }

  // ---- What there is to do. ----

  /** SQLite's own indexes are not looked at. */
  predicate IsAutoIndex(name: string) { "sqlite_autoindex_" <= name }

  function Visible(indexes: Indexes): Indexes { map n | n in indexes && !IsAutoIndex(n) :: indexes[n] }

  /** Some model index has the definition. */
  ghost predicate Duplicates(wanted: Indexes, d: IndexDef) { exists m :: m in wanted && SameDef(wanted[m], d) }

  predicate PrimaryAgrees(model: Model, columns: Columns) {
    forall c :: c in model.columns && c in columns ==> columns[c].primary == (c == model.pkName)
  }

  predicate ColumnsMatch(model: Model, columns: Columns) {
    columns.Keys == model.columns.Keys && forall c :: c in columns ==> columns[c].sqlType == model.columns[c]
  }

  predicate HasIndex(wanted: Indexes, indexes: Indexes, n: string)
    requires n in wanted
  {
    n in indexes && SameDef(wanted[n], indexes[n])
  }

  predicate Present(wanted: Indexes, indexes: Indexes) {
    forall n :: n in wanted ==> HasIndex(wanted, indexes, n)
  }

  /** An index of the database that nothing in the model accounts for. */
  ghost predicate Orphan(wanted: Indexes, indexes: Indexes, n: string) {
    n in indexes && n !in wanted && !Duplicates(wanted, indexes[n])
  }

  /** Every wanted index is there as defined, and any other the model does not name duplicates one. */
  ghost predicate IndexesMatch(wanted: Indexes, indexes: Indexes) {
    Present(wanted, indexes) && forall n :: n in indexes ==> !Orphan(wanted, indexes, n)
  }

  ghost predicate Settled(model: Model, wanted: Indexes, db: Database) {
    ColumnsMatch(model, db.columns) && PrimaryAgrees(model, db.columns) && IndexesMatch(wanted, Visible(db.indexes))
  }

  predicate NoAutoNames(wanted: Indexes) { forall n :: n in wanted ==> !IsAutoIndex(n) }

  // ---- Columns. ----

  function Added(model: Model, columns: Columns, done: set<string>): Columns {
    columns + map c | c in model.columns && c in done && c !in columns :: DbColumn(model.columns[c], c == model.pkName)
  }

  lemma AddOne(model: Model, columns: Columns, done: set<string>, c: string)
    requires c in model.columns && c !in done
    ensures Added(model, columns, done + {c}) ==
      if c in columns then Added(model, columns, done)
        else Added(model, columns, done)[c := DbColumn(model.columns[c], c == model.pkName)]
  {
  }

  method AddMissingColumns(model: Model, columns: Columns) returns (sqls: seq<Statement>)
    ensures AllOnColumns(sqls)
    ensures ColumnsAfter(columns, sqls) == Added(model, columns, model.columns.Keys)
    ensures sqls == [] <==> model.columns.Keys <= columns.Keys
  {
    sqls := [];
    var todo := model.columns.Keys;
    assert model.columns.Keys - todo == {};
    assert Added(model, columns, {}) == columns;
    assert ColumnsAfter(columns, []) == columns;
    while todo != {}
      invariant todo <= model.columns.Keys && AllOnColumns(sqls)
      invariant ColumnsAfter(columns, sqls) == Added(model, columns, model.columns.Keys - todo)
      invariant sqls == [] <==> model.columns.Keys - todo <= columns.Keys
    {
      hide Added, ColumnsAfter;
      var c :| c in todo;
      AddOne(model, columns, model.columns.Keys - todo, c);
      assert model.columns.Keys - (todo - {c}) == model.columns.Keys - todo + {c};
      if c !in columns {
        var s := AddColumn(c, model.columns[c], c == model.pkName);
        AfterOne(columns, map[], sqls, s);
        sqls := sqls + [s];
      }
      todo := todo - {c};
    }
    assert model.columns.Keys - {} == model.columns.Keys;
  }

  method DropExtraColumns(model: Model, columns: Columns, ghost start: Columns) returns (sqls: seq<Statement>)
    requires columns.Keys <= start.Keys
    ensures AllOnColumns(sqls)
    ensures ColumnsAfter(start, sqls) == start - (columns.Keys - model.columns.Keys)
    ensures sqls == [] <==> columns.Keys <= model.columns.Keys
  {
    sqls := [];
    var todo := columns.Keys;
    while todo != {}
      invariant todo <= columns.Keys && AllOnColumns(sqls)
      invariant ColumnsAfter(start, sqls) == start - (columns.Keys - model.columns.Keys - todo)
      invariant sqls == [] <==> columns.Keys - todo <= model.columns.Keys
    {
      hide ColumnsAfter;
      var c :| c in todo;
      if c !in model.columns {
        AfterOne(start, map[], sqls, DropColumn(c));
        sqls := sqls + [DropColumn(c)];
      }
      todo := todo - {c};
    }
  }

  /** The columns with the types of the model for the names in `done`. */
  function Retyped(model: Model, columns: Columns, done: set<string>): Columns {
    map c | c in columns :: if c in model.columns && c in done then columns[c].(sqlType := model.columns[c])
      else columns[c]
  }

  lemma RetypeOne(model: Model, columns: Columns, done: set<string>, c: string)
    requires c in columns && c in model.columns && c !in done
    ensures c in Retyped(model, columns, done) && Retyped(model, columns, done)[c] == columns[c]
    ensures Retyped(model, columns, done + {c}) ==
      Retyped(model, columns, done)[c := columns[c].(sqlType := model.columns[c])]
    ensures columns[c].sqlType == model.columns[c] ==>
      Retyped(model, columns, done + {c}) == Retyped(model, columns, done)
  {
  }

  predicate ColumnAgrees(model: Model, columns: Columns, c: string) {
    c in columns && c in model.columns ==>
      columns[c].sqlType == model.columns[c] && columns[c].primary == (c == model.pkName)
  }

  ghost function Off(model: Model, columns: Columns): set<string> {
    set c | c in columns && c in model.columns && !ColumnAgrees(model, columns, c)
  }

  method AlterColumns(model: Model, columns: Columns, ghost start: Columns) returns (sqls: seq<Statement>)
    requires forall c :: c in columns && c in model.columns ==> c in start && start[c] == columns[c]
    ensures AllOnColumns(sqls)
    ensures ColumnsAfter(start, sqls) == Retyped(model, start, columns.Keys)
    ensures sqls == [] <==> Off(model, columns) == {}
  {
    sqls := [];
    var todo := model.columns.Keys;
    ghost var off := Off(model, columns);
    assert Retyped(model, start, columns.Keys - todo) == start;
    while todo != {}
      invariant todo <= model.columns.Keys && AllOnColumns(sqls)
      invariant ColumnsAfter(start, sqls) == Retyped(model, start, columns.Keys - todo)
      invariant sqls == [] <==> off <= todo
    {
      var c :| c in todo;
      ghost var done, next := columns.Keys - todo, columns.Keys - (todo - {c});
      if c in columns {
        assert next == done + {c};
        RetypeOne(model, start, done, c);
        hide Retyped;
        var step := AlterColumn(model, columns[c], c, ColumnsAfter(start, sqls));
        assert step == [] <==> c !in off;
        AfterBoth(start, map[], sqls, step);
        hide *;
        sqls := sqls + step;
      } else {
        assert next == done;
      }
      todo := todo - {c};
    }
    assert columns.Keys - {} == columns.Keys;
  }

  lemma AlteredColumn(before: Columns, c: string, t: string)
    requires c in before
    ensures ColumnsAfter(before, []) == before == ColumnsAfter(before, [ManualPrimaryKey(c)])
    ensures ColumnsAfter(before, [AlterType(c, t)]) == before[c := before[c].(sqlType := t)]
    ensures ColumnsAfter(before, [AlterType(c, t), ManualPrimaryKey(c)]) == before[c := before[c].(sqlType := t)]
  {
    AfterOne(before, map[], [], ManualPrimaryKey(c));
    AfterOne(before, map[], [], AlterType(c, t));
    AfterOne(before, map[], [AlterType(c, t)], ManualPrimaryKey(c));
    assert [] + [ManualPrimaryKey(c)] == [ManualPrimaryKey(c)] && [] + [AlterType(c, t)] == [AlterType(c, t)];
    assert [AlterType(c, t)] + [ManualPrimaryKey(c)] == [AlterType(c, t), ManualPrimaryKey(c)];
  }

  method AlterColumn(model: Model, column: DbColumn, c: string, ghost before: Columns) returns (sqls: seq<Statement>)
    requires c in model.columns && c in before && before[c] == column
    ensures AllOnColumns(sqls)
    ensures ColumnsAfter(before, sqls) == before[c := column.(sqlType := model.columns[c])]
    ensures sqls == [] <==> column.sqlType == model.columns[c] && column.primary == (c == model.pkName)
  {
    hide ColumnsAfter;
    var t := model.columns[c];
    AlteredColumn(before, c, t);
    sqls := [];
    if column.sqlType != t { sqls := sqls + [AlterType(c, t)]; }
    if column.primary != (c == model.pkName) { sqls := sqls + [ManualPrimaryKey(c)]; }
    assert sqls == [] || sqls == [AlterType(c, t)] || sqls == [ManualPrimaryKey(c)] ||
      sqls == [AlterType(c, t), ManualPrimaryKey(c)];
    assert column.sqlType == t ==> before[c := column.(sqlType := t)] == before;
  }

  // ---- Indexes. ----

  /** The indexes after the wanted names in `done` have been put right. */
  function Installed(wanted: Indexes, indexes: Indexes, done: set<string>): Indexes {
    indexes + map n | n in wanted && n in done && !HasIndex(wanted, indexes, n) :: wanted[n]
  }

  lemma InstallOne(wanted: Indexes, indexes: Indexes, done: set<string>, n: string)
    requires n in wanted && n !in done
    ensures n in Installed(wanted, indexes, done) <==> n in indexes
    ensures Installed(wanted, indexes, done + {n}) ==
      if HasIndex(wanted, indexes, n) then Installed(wanted, indexes, done)
        else Installed(wanted, indexes, done)[n := wanted[n]]
  {
    hide SameDef, HasIndex;
  }

  method AddIndexes(wanted: Indexes, indexes: Indexes) returns (sqls: seq<Statement>)
    ensures forall s :: s in sqls ==> !OnColumns(s) && s.name in wanted
    ensures IndexesAfter(indexes, sqls) == Installed(wanted, indexes, wanted.Keys)
    ensures sqls == [] <==> Present(wanted, indexes)
  {
    sqls := [];
    var todo := wanted.Keys;
    ghost var off := set n | n in wanted && !HasIndex(wanted, indexes, n);
    assert wanted.Keys - todo == {} && Installed(wanted, indexes, {}) == indexes;
    while todo != {}
      invariant todo <= wanted.Keys && AllOnIndexes(sqls)
      invariant IndexesAfter(indexes, sqls) == Installed(wanted, indexes, wanted.Keys - todo)
      invariant forall s :: s in sqls ==> s.name in wanted.Keys - todo
      invariant sqls == [] <==> off <= todo
    {
      hide SameDef, Installed, IndexesAfter;
      var n :| n in todo;
      InstallOne(wanted, indexes, wanted.Keys - todo, n);
      assert wanted.Keys - (todo - {n}) == wanted.Keys - todo + {n};
      assert forall s :: s in sqls ==> s.name != n;
      var step := InstallIndex(wanted, indexes, n, sqls, IndexesAfter(indexes, sqls));
      assert step == [] <==> n !in off;
      AfterBoth(map[], indexes, sqls, step);
      sqls, todo := sqls + step, todo - {n};
    }
    assert wanted.Keys - {} == wanted.Keys;
    assert off <= {} <==> Present(wanted, indexes);
  }

  lemma RecreatedIndex(before: Indexes, n: string, d: IndexDef)
    ensures IndexesAfter(before, [CreateIndex(n, d)]) == if n in before then before else before[n := d]
    ensures IndexesAfter(before, [DropIndex(n), CreateIndex(n, d)]) == before[n := d]
    ensures IndexesAfter(before, []) == before
  {
    AfterOne(map[], before, [], CreateIndex(n, d));
    AfterOne(map[], before, [], DropIndex(n));
    AfterOne(map[], before, [DropIndex(n)], CreateIndex(n, d));
    assert [] + [CreateIndex(n, d)] == [CreateIndex(n, d)] && [] + [DropIndex(n)] == [DropIndex(n)];
    assert [DropIndex(n)] + [CreateIndex(n, d)] == [DropIndex(n), CreateIndex(n, d)];
    assert (before - {n})[n := d] == before[n := d];
  }

  /** One wanted index: created when missing, dropped and created again when it differs. */
  method InstallIndex(wanted: Indexes, indexes: Indexes, n: string, earlier: seq<Statement>, ghost before: Indexes)
    returns (sqls: seq<Statement>)
    requires n in wanted && (n in before <==> n in indexes)
    requires forall s :: s in earlier ==> !OnColumns(s) && s.name != n
    ensures forall s :: s in sqls ==> !OnColumns(s) && s.name == n
    ensures IndexesAfter(before, sqls) == if HasIndex(wanted, indexes, n) then before else before[n := wanted[n]]
    ensures sqls == [] <==> HasIndex(wanted, indexes, n)
  {
    hide SameDef, IndexesAfter;
    sqls := [];
    RecreatedIndex(before, n, wanted[n]);
    var create, drop := CreateIndex(n, wanted[n]), DropIndex(n);
    assert create.name == n && drop.name == n;
    if n !in indexes {
      sqls := [create];
    } else if !SameDef(wanted[n], indexes[n]) {
      if drop !in earlier { sqls := sqls + [drop]; }
      if create !in earlier + sqls { sqls := sqls + [create]; }
      assert sqls == [drop, create];
    }
  }

  method FindDuplicate(wanted: Indexes, d: IndexDef) returns (found: bool)
    ensures found <==> Duplicates(wanted, d)
  {
    hide SameDef;
    var todo := wanted.Keys;
    while todo != {}
      invariant todo <= wanted.Keys && forall m :: m in wanted && m !in todo ==> !SameDef(wanted[m], d)
    {
      var m :| m in todo;
      if SameDef(wanted[m], d) { return true; }
      todo := todo - {m};
    }
    found := false;
  }

  ghost function Orphans(wanted: Indexes, indexes: Indexes): set<string> {
    set n | n in indexes && Orphan(wanted, indexes, n)
  }

  lemma DropOne(start: Indexes, gone: set<string>, todo: set<string>, n: string)
    requires n in todo
    ensures start - (gone - (todo - {n})) == if n in gone then (start - (gone - todo)) - {n} else start - (gone - todo)
    ensures gone <= todo - {n} <==> gone <= todo && n !in gone
  {
  }

  method DropIndexes(wanted: Indexes, indexes: Indexes, earlier: seq<Statement>, ghost start: Indexes)
    returns (sqls: seq<Statement>)
    requires forall n :: DropIndex(n) in earlier ==> n in wanted
    ensures forall s :: s in sqls ==> !OnColumns(s) && s.name in indexes
    ensures IndexesAfter(start, sqls) == start - Orphans(wanted, indexes)
    ensures sqls == [] <==> Orphans(wanted, indexes) == {}
  {
    sqls := [];
    var todo := indexes.Keys;
    ghost var gone := Orphans(wanted, indexes);
    assert start - (gone - todo) == start;
    while todo != {}
      invariant todo <= indexes.Keys
      invariant IndexesAfter(start, sqls) == start - (gone - todo)
      invariant forall s :: s in sqls ==> !OnColumns(s) && s.name in indexes && s.name !in todo
      invariant sqls == [] <==> gone <= todo
    {
      hide SameDef, Duplicates, IndexesAfter;
      var n :| n in todo;
      var s := DropIndex(n);
      DropOne(start, gone, todo, n);
      assert s !in sqls by { assert s.name in todo; }
      assert s in earlier ==> n in wanted;
      var drop := false;
      if n !in wanted || !SameDef(wanted[n], indexes[n]) {
        var duplicate := FindDuplicate(wanted, indexes[n]);
        drop := n !in wanted && !duplicate;
      }
      assert drop <==> n in gone;
      if drop && s !in earlier + sqls {
        hide *;
        AfterOne(map[], start, sqls, s);
        sqls := sqls + [s];
      }
      todo := todo - {n};
    }
    assert start - (gone - {}) == start - gone;
  }

  // ---- The whole migration. ----

  lemma {:induction false} AutoIndexesStay(indexes: Indexes, statements: seq<Statement>)
    requires forall s :: s in statements ==> !OnColumns(s) && !IsAutoIndex(s.name)
    ensures Visible(IndexesAfter(indexes, statements)) == IndexesAfter(Visible(indexes), statements)
  {
    if statements != [] {
      var init, last := statements[..|statements| - 1], statements[|statements| - 1];
      assert last in statements && forall s :: s in init ==> s in statements;
      AutoIndexesStay(indexes, init);
      VisibleOne(IndexesAfter(indexes, init), last);
    }
  }

  lemma VisibleOne(indexes: Indexes, s: Statement)
    requires !OnColumns(s) && !IsAutoIndex(s.name)
    ensures Visible(ApplyToIndexes(indexes, s)) == ApplyToIndexes(Visible(indexes), s)
  {
    hide IsAutoIndex;
  }

  lemma ColumnsSettle(model: Model, columns: Columns)
    ensures var after := Retyped(model,
      Added(model, columns, model.columns.Keys) - (columns.Keys - model.columns.Keys), columns.Keys);
      ColumnsMatch(model, after) && (PrimaryAgrees(model, after) <==> PrimaryAgrees(model, columns))
    ensures ColumnsMatch(model, columns) && PrimaryAgrees(model, columns)
      <==> model.columns.Keys <= columns.Keys && columns.Keys <= model.columns.Keys && Off(model, columns) == {}
  {
    var after := Retyped(model, Added(model, columns, model.columns.Keys) - (columns.Keys - model.columns.Keys),
      columns.Keys);
    assert forall c :: c in model.columns && c in columns ==> after[c].primary == columns[c].primary;
    if Off(model, columns) == {} {
      assert forall c :: c in columns && c in model.columns ==> ColumnAgrees(model, columns, c) by {
        forall c | c in columns && c in model.columns ensures ColumnAgrees(model, columns, c) {
          assert c !in Off(model, columns);
        }
      }
    }
  }

  lemma IndexesSettle(wanted: Indexes, indexes: Indexes)
    ensures IndexesMatch(wanted, Installed(wanted, indexes, wanted.Keys) - Orphans(wanted, indexes))
    ensures IndexesMatch(wanted, indexes) <==> Present(wanted, indexes) && Orphans(wanted, indexes) == {}
  {
    var after := Installed(wanted, indexes, wanted.Keys) - Orphans(wanted, indexes);
    forall n | n in wanted ensures HasIndex(wanted, after, n) {
      assert n !in Orphans(wanted, indexes);
      assert SameDef(wanted[n], wanted[n]);
    }
    hide SameDef, Duplicates;
    forall n | n in after ensures !Orphan(wanted, after, n) {
      if n !in wanted {
        assert after[n] == indexes[n] && n !in Orphans(wanted, indexes);
      }
    }
    forall n | n in indexes ensures n in Orphans(wanted, indexes) <==> Orphan(wanted, indexes, n) { }
  }

  lemma ColumnPhases(model: Model, columns: Columns, indexes: Indexes, adds: seq<Statement>, drops: seq<Statement>,
          alters: seq<Statement>)
    requires AllOnColumns(adds) && AllOnColumns(drops) && AllOnColumns(alters)
    requires ColumnsAfter(columns, adds) == Added(model, columns, model.columns.Keys)
    requires ColumnsAfter(ColumnsAfter(columns, adds), drops) ==
      ColumnsAfter(columns, adds) - (columns.Keys - model.columns.Keys)
    requires var dropped := ColumnsAfter(ColumnsAfter(columns, adds), drops);
      ColumnsAfter(dropped, alters) == Retyped(model, dropped, columns.Keys)
    ensures ColumnsMatch(model, ColumnsAfter(columns, adds + drops + alters))
    ensures PrimaryAgrees(model, ColumnsAfter(columns, adds + drops + alters)) <==> PrimaryAgrees(model, columns)
    ensures IndexesAfter(indexes, adds + drops + alters) == indexes
  {
    AfterBoth(columns, indexes, adds, drops);
    AfterBoth(columns, indexes, adds + drops, alters);
    PhasesAreSeparate(columns, indexes, adds + drops + alters);
    ColumnsSettle(model, columns);
  }

  lemma IndexPhases(wanted: Indexes, indexes: Indexes, columns: Columns, creates: seq<Statement>,
          removes: seq<Statement>)
    requires forall s :: s in creates ==> !OnColumns(s) && s.name in wanted
    requires forall s :: s in removes ==> !OnColumns(s) && s.name in Visible(indexes)
    requires IndexesAfter(Visible(indexes), creates) == Installed(wanted, Visible(indexes), wanted.Keys)
    requires var created := IndexesAfter(Visible(indexes), creates);
      IndexesAfter(created, removes) == created - Orphans(wanted, Visible(indexes))
    ensures ColumnsAfter(columns, creates + removes) == columns
    ensures NoAutoNames(wanted) ==> IndexesSettled(wanted, indexes, IndexesAfter(indexes, creates + removes))
  {
    PhasesAreSeparate(columns, indexes, creates + removes);
    if NoAutoNames(wanted) {
      assert forall s :: s in creates + removes ==> !OnColumns(s) && !IsAutoIndex(s.name);
      hide *;
      AfterBoth(columns, Visible(indexes), creates, removes);
      AutoIndexesStay(indexes, creates + removes);
      var after := IndexesAfter(indexes, creates + removes);
      forall n | n in indexes && IsAutoIndex(n) ensures n in after && after[n] == indexes[n] {
        AutoIndexStays(indexes, creates + removes, n);
      }
      VisibleSettles(wanted, indexes, after);
    }
  }

  lemma VisibleSettles(wanted: Indexes, indexes: Indexes, after: Indexes)
    requires NoAutoNames(wanted)
    requires Visible(after) == Installed(wanted, Visible(indexes), wanted.Keys) - Orphans(wanted, Visible(indexes))
    requires forall n :: n in indexes && IsAutoIndex(n) ==> n in after && after[n] == indexes[n]
    ensures IndexesSettled(wanted, indexes, after)
  {
    hide IsAutoIndex, SameDef, Duplicates, IndexesMatch;
    var visible := Visible(indexes);
    IndexesSettle(wanted, visible);
    forall n | n in indexes && n !in wanted ensures n in after <==> IsAutoIndex(n) || Duplicates(wanted, indexes[n]) {
      if !IsAutoIndex(n) { assert n in after <==> n in Visible(after); }
    }
    forall n | n in indexes && n in after && (n !in wanted || HasIndex(wanted, indexes, n))
      ensures after[n] == indexes[n]
    {
      if !IsAutoIndex(n) { assert after[n] == Visible(after)[n] && visible[n] == indexes[n]; }
    }
  }

  lemma {:induction false} AutoIndexStays(indexes: Indexes, statements: seq<Statement>, n: string)
    requires forall s :: s in statements ==> !OnColumns(s) && !IsAutoIndex(s.name)
    requires n in indexes
    ensures IsAutoIndex(n) ==>
      n in IndexesAfter(indexes, statements) && IndexesAfter(indexes, statements)[n] == indexes[n]
  {
    if statements != [] {
      var init, last := statements[..|statements| - 1], statements[|statements| - 1];
      assert last in statements && forall s :: s in init ==> s in statements;
      AutoIndexStays(indexes, init, n);
    }
  }

  lemma PhasesCompose(model: Model, wanted: Indexes, db: Database, first: seq<Statement>, second: seq<Statement>)
    requires ColumnsMatch(model, ColumnsAfter(db.columns, first))
    requires PrimaryAgrees(model, ColumnsAfter(db.columns, first)) <==> PrimaryAgrees(model, db.columns)
    requires IndexesAfter(db.indexes, first) == db.indexes
    requires ColumnsAfter(ColumnsAfter(db.columns, first), second) == ColumnsAfter(db.columns, first)
    requires NoAutoNames(wanted) ==> IndexesSettled(wanted, db.indexes, IndexesAfter(db.indexes, second))
    requires first + second == [] <==> Settled(model, wanted, db)
    ensures Migrates(model, wanted, db, first + second)
  {
    AfterBoth(db.columns, db.indexes, first, second);
    var after := ApplyAll(db, first + second);
    if Settled(model, wanted, after) {
      hide SameDef;
      assert NoAutoNames(wanted) by {
        forall n | n in wanted ensures !IsAutoIndex(n) { assert HasIndex(wanted, Visible(after.indexes), n); }
      }
    }
  }

  method ColumnChanges(model: Model, columns: Columns, ghost indexes: Indexes) returns (sqls: seq<Statement>)
    ensures AllOnColumns(sqls)
    ensures ColumnsMatch(model, ColumnsAfter(columns, sqls))
    ensures PrimaryAgrees(model, ColumnsAfter(columns, sqls)) <==> PrimaryAgrees(model, columns)
    ensures IndexesAfter(indexes, sqls) == indexes
    ensures sqls == [] <==> ColumnsMatch(model, columns) && PrimaryAgrees(model, columns)
  {
    var adds := AddMissingColumns(model, columns);
    ghost var added := ColumnsAfter(columns, adds);
    var drops := DropExtraColumns(model, columns, added);
    ghost var dropped := ColumnsAfter(added, drops);
    var alters := AlterColumns(model, columns, dropped);
    sqls := adds + drops + alters;
    hide *;
    ColumnPhases(model, columns, indexes, adds, drops, alters);
    ColumnsSettle(model, columns);
  }

  method IndexChanges(wanted: Indexes, dbIndexes: Indexes, earlier: seq<Statement>, ghost columns: Columns)
    returns (sqls: seq<Statement>)
    requires AllOnColumns(earlier)
    ensures ColumnsAfter(columns, sqls) == columns
    ensures NoAutoNames(wanted) ==> IndexesSettled(wanted, dbIndexes, IndexesAfter(dbIndexes, sqls))
    ensures sqls == [] <==> IndexesMatch(wanted, Visible(dbIndexes))
  {
    var indexes := Visible(dbIndexes);
    var creates := AddIndexes(wanted, indexes);
    assert forall n :: DropIndex(n) in earlier + creates ==> n in wanted by {
      forall n | DropIndex(n) in earlier + creates ensures n in wanted { assert DropIndex(n).name in wanted; }
    }
    hide *;
    var removes := DropIndexes(wanted, indexes, earlier + creates, IndexesAfter(indexes, creates));
    sqls := creates + removes;
    IndexPhases(wanted, dbIndexes, columns, creates, removes);
    IndexesSettle(wanted, indexes);
  }

  /** Refused exactly when the model asks for a partial index on MySQL, or for one index with two predicates;
      otherwise, in whatever order the maps are walked, the statements leave the model's columns and types,
      settle the indexes it asks for, and are none exactly when the database is settled already. */
  method GenerateAlterTableSQL(model: Model, db: Database, dialect: Dialect)
    returns (r: Option<seq<Statement>>, ghost wanted: Indexes)
    ensures r.None? <==> Refuses(model.tableName, dialect, AllWishes(model))
    ensures r.Some? ==> Grants(model.tableName, AllWishes(model), wanted) && Migrates(model, wanted, db, r.value)
  {
    hide Migrates, ColumnsMatch, PrimaryAgrees, IndexesMatch, Grants, Refuses, Wishes;
    var first := ColumnChanges(model, db.columns, db.indexes);
    wanted := map[];
    NothingAsked(model.tableName, dialect);
    ghost var plainWishes := Wishes(false, model.indexes);
    var plain := PopulateIndexMap(model.tableName, dialect, false, model.indexes, map[], []);
    assert [] + plainWishes == plainWishes;
    if plain.None? {
      RefusalStays(model.tableName, dialect, plainWishes, Wishes(true, model.uniqueIndexes));
      return None, map[];
    }
    var found := PopulateIndexMap(model.tableName, dialect, true, model.uniqueIndexes, plain.value, plainWishes);
    if found.None? { return None, map[]; }
    wanted := found.value;
    var second := IndexChanges(found.value, db.indexes, first, ColumnsAfter(db.columns, first));
    r := Some(first + second);
    PhasesCompose(model, wanted, db, first, second);
  }

  ghost predicate Migrates(model: Model, wanted: Indexes, db: Database, statements: seq<Statement>) {
    var after := ApplyAll(db, statements);
    && ColumnsMatch(model, after.columns)
    && (PrimaryAgrees(model, after.columns) <==> PrimaryAgrees(model, db.columns))
    && (NoAutoNames(wanted) ==> IndexesSettled(wanted, db.indexes, after.indexes))
    && (statements == [] <==> Settled(model, wanted, db))
    && (Settled(model, wanted, after) <==> PrimaryAgrees(model, db.columns) && NoAutoNames(wanted))
  }

  /** What is right stays as it is, and what is dropped is exactly what the model cannot account for. */
  ghost predicate IndexesSettled(wanted: Indexes, before: Indexes, after: Indexes) {
    && IndexesMatch(wanted, Visible(after))
    && (forall n :: n in before && n !in wanted ==> (n in after <==> IsAutoIndex(n) || Duplicates(wanted, before[n])))
    && (forall n :: n in before && n in after && (n !in wanted || HasIndex(wanted, before, n)) ==>
      after[n] == before[n])
  }
}
