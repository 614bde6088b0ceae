/** The inverted index from tables and columns to the query-cache keys a write may affect. */
module CacheIndexing {
  import opened Values
  import opened WhereParser
  import opened QueryDependencies

  /** `list:`, `count:` and `count_precise:` keys. Keys stand for their hashes, taken to be injective. */
  datatype KeyKind = ListKey | CountKey | PreciseKey
  datatype CacheKey = CacheKey(kind: KeyKind, table: string, params: QueryParams)

  datatype Registration = Registration(table: string, params: QueryParams)

  type Keys1 = map<string, set<CacheKey>>
  type Keys2 = map<string, Keys1>
  type Keys3 = map<string, Keys2>

  // ---- Nested maps as relations. ----

  predicate In1(m: Keys1, a: string, k: CacheKey) { a in m && k in m[a] }
  predicate In2(m: Keys2, a: string, b: string, k: CacheKey) { a in m && In1(m[a], b, k) }
  predicate In3(m: Keys3, a: string, b: string, c: string, k: CacheKey) { a in m && In2(m[a], b, c, k) }

  predicate NoEmpty1(m: Keys1) { forall a :: a in m ==> m[a] != {} }
  predicate NoEmpty2(m: Keys2) { forall a :: a in m ==> m[a] != map[] && NoEmpty1(m[a]) }
  predicate NoEmpty3(m: Keys3) { forall a :: a in m ==> m[a] != map[] && NoEmpty2(m[a]) }

  lemma Same1(m: Keys1, m': Keys1)
    requires NoEmpty1(m) && NoEmpty1(m') && forall a, k :: In1(m, a, k) <==> In1(m', a, k)
    ensures m == m'
  {
    forall a ensures a in m <==> a in m' {
      if a in m { var k :| k in m[a]; assert In1(m, a, k); }
      if a in m' { var k :| k in m'[a]; assert In1(m', a, k); }
    }
    forall a | a in m ensures m[a] == m'[a] {
      assert forall k :: k in m[a] <==> In1(m, a, k);
    }
  }

  lemma Same2(m: Keys2, m': Keys2)
    requires NoEmpty2(m) && NoEmpty2(m') && forall a, b, k :: In2(m, a, b, k) <==> In2(m', a, b, k)
    ensures m == m'
  {
    forall a ensures a in m <==> a in m' {
      if a in m { var b :| b in m[a]; var k :| k in m[a][b]; assert In2(m, a, b, k); }
      if a in m' { var b :| b in m'[a]; var k :| k in m'[a][b]; assert In2(m', a, b, k); }
    }
    forall a | a in m ensures m[a] == m'[a] {
      assert forall b, k :: In1(m[a], b, k) <==> In2(m, a, b, k);
      Same1(m[a], m'[a]);
    }
  }

  lemma Same3(m: Keys3, m': Keys3)
    requires NoEmpty3(m) && NoEmpty3(m') && forall a, b, c, k :: In3(m, a, b, c, k) <==> In3(m', a, b, c, k)
    ensures m == m'
  {
    forall a ensures a in m <==> a in m' {
      if a in m { var b :| b in m[a]; var c :| c in m[a][b]; var k :| k in m[a][b][c]; assert In3(m, a, b, c, k); }
      if a in m' { var b :| b in m'[a]; var c :| c in m'[a][b]; var k :| k in m'[a][b][c]; assert In3(m', a, b, c, k); }
    }
    forall a | a in m ensures m[a] == m'[a] {
      assert forall b, c, k :: In2(m[a], b, c, k) <==> In3(m, a, b, c, k);
      Same2(m[a], m'[a]);
    }
  }

  function Add1(m: Keys1, a: string, key: CacheKey): (r: Keys1)
    ensures forall x, k :: In1(r, x, k) <==> In1(m, x, k) || (x == a && k == key)
    ensures NoEmpty1(m) ==> NoEmpty1(r)
  {
    m[a := (if a in m then m[a] else {}) + {key}]
  }

  function Add2(m: Keys2, a: string, b: string, key: CacheKey): (r: Keys2)
    ensures forall x, y, k :: In2(r, x, y, k) <==> In2(m, x, y, k) || (x == a && y == b && k == key)
    ensures NoEmpty2(m) ==> NoEmpty2(r)
  {
    var inner := Add1(if a in m then m[a] else map[], b, key);
    assert In1(inner, b, key);
    m[a := inner]
  }

  function Add3(m: Keys3, a: string, b: string, c: string, key: CacheKey): (r: Keys3)
    ensures forall x, y, z, k :: In3(r, x, y, z, k) <==> In3(m, x, y, z, k) || (x == a && y == b && z == c && k == key)
    ensures NoEmpty3(m) ==> NoEmpty3(r)
  {
    var inner := Add2(if a in m then m[a] else map[], b, c, key);
    assert In2(inner, b, c, key);
    m[a := inner]
  }

  // ---- One key added to, or removed from, a nested map. ----

  ghost predicate Extends1(m: Keys1, t: string, key: CacheKey, m': Keys1) {
    NoEmpty1(m') && forall x, k :: In1(m', x, k) <==> In1(m, x, k) || (x == t && k == key)
  }

  ghost predicate Extends2(m: Keys2, t: string, fields: set<string>, key: CacheKey, m': Keys2) {
    NoEmpty2(m') && forall x, f, k :: In2(m', x, f, k) <==> In2(m, x, f, k) || (x == t && f in fields && k == key)
  }

  ghost predicate Extends3(valueText: Value -> string, m: Keys3, t: string, exact: map<string, seq<Value>>,
          key: CacheKey, m': Keys3) {
    NoEmpty3(m') && forall x, f, v, k :: In3(m', x, f, v, k) <==>
      In3(m, x, f, v, k) || (x == t && HasText(valueText, exact, f, v) && k == key)
  }

  ghost predicate Without1(m: Keys1, key: CacheKey, m': Keys1) {
    NoEmpty1(m') && forall a, k :: In1(m', a, k) <==> In1(m, a, k) && k != key
  }

  ghost predicate Without2(m: Keys2, key: CacheKey, m': Keys2) {
    NoEmpty2(m') && forall a, b, k :: In2(m', a, b, k) <==> In2(m, a, b, k) && k != key
  }

  ghost predicate Without3(m: Keys3, key: CacheKey, m': Keys3) {
    NoEmpty3(m') && forall a, b, c, k :: In3(m', a, b, c, k) <==> In3(m, a, b, c, k) && k != key
  }

  method AddKey(m: Keys1, table: string, key: CacheKey) returns (r: Keys1)
    requires NoEmpty1(m)
    ensures Extends1(m, table, key, r)
  {
    r := Add1(m, table, key);
  }

  method AddFields(m: Keys2, table: string, fields: set<string>, key: CacheKey) returns (r: Keys2)
    requires NoEmpty2(m)
    ensures Extends2(m, table, fields, key, r)
  {
    hide In2, NoEmpty2;
    r := m;
    var todo := fields;
    while todo != {}
      invariant todo <= fields && NoEmpty2(r)
      invariant forall t, f, k :: In2(r, t, f, k) <==> In2(m, t, f, k) || (t == table && f in fields - todo && k == key)
    {
      var field :| field in todo;
      r := Add2(r, table, field, key);
      todo := todo - {field};
    }
  }

  /** Some exact-match value of `field` has index text `text`. */
  predicate HasText(valueText: Value -> string, exact: map<string, seq<Value>>, field: string, text: string) {
    field in exact && text in ValueTexts(valueText, exact[field])
  }

  function ValueTexts(valueText: Value -> string, values: seq<Value>): set<string> {
    set k | 0 <= k < |values| :: valueText(values[k])
  }

  method AddValues(valueText: Value -> string, m: Keys3, table: string, exact: map<string, seq<Value>>, key: CacheKey)
    returns (r: Keys3)
    requires NoEmpty3(m)
    ensures Extends3(valueText, m, table, exact, key, r)
  {
    hide In3, NoEmpty3, ValueTexts;
    r := m;
    var todo := exact.Keys;
    while todo != {}
      invariant todo <= exact.Keys && NoEmpty3(r)
      invariant forall t, f, x, k :: In3(r, t, f, x, k) <==>
        In3(m, t, f, x, k) || (t == table && f !in todo && HasText(valueText, exact, f, x) && k == key)
    {
      var field :| field in todo;
      r := AddTexts(valueText, r, table, field, exact[field], key);
      todo := todo - {field};
    }
  }

  method AddTexts(valueText: Value -> string, m: Keys3, table: string, field: string, values: seq<Value>, key: CacheKey)
    returns (r: Keys3)
    requires NoEmpty3(m)
    ensures NoEmpty3(r)
    ensures forall t, f, x, k :: In3(r, t, f, x, k) <==>
      In3(m, t, f, x, k) || (t == table && f == field && x in ValueTexts(valueText, values) && k == key)
  {
    hide In3, NoEmpty3;
    r := m;
    for i := 0 to |values|
      invariant NoEmpty3(r)
      invariant forall t, f, x, k :: In3(r, t, f, x, k) <==>
        In3(m, t, f, x, k) || (t == table && f == field && x in ValueTexts(valueText, values[..i]) && k == key)
    {
      assert values[..i + 1] == values[..i] + [values[i]];
      TextsGrow(valueText, values[..i], values[i]);
      r := Add3(r, table, field, valueText(values[i]), key);
    }
    assert values[..|values|] == values;
  }

  lemma TextsGrow(valueText: Value -> string, values: seq<Value>, v: Value)
    ensures ValueTexts(valueText, values + [v]) == ValueTexts(valueText, values) + {valueText(v)}
  {
    var all := values + [v];
    forall x | x in ValueTexts(valueText, values) ensures x in ValueTexts(valueText, all) {
      var k :| 0 <= k < |values| && valueText(values[k]) == x;
      assert all[k] == values[k];
    }
    assert all[|values|] == v;
  }

  // ---- Removing a key, in whatever order the maps are walked. ----

  method RemoveKey1(m: Keys1, key: CacheKey) returns (r: Keys1)
    ensures Without1(m, key, r)
  {
    r := m;
    var todo := m.Keys;
    while todo != {}
      invariant todo <= m.Keys && r.Keys <= m.Keys
      invariant forall a :: a in todo ==> a in r && r[a] == m[a]
      invariant forall a :: a in r && a !in todo ==> r[a] == m[a] - {key} && r[a] != {}
      invariant forall a :: a in m && a !in r ==> m[a] - {key} == {}
    {
      var a :| a in todo;
      var keys := r[a] - {key};
      r := if keys == {} then r - {a} else r[a := keys];
      todo := todo - {a};
    }
    forall a, k ensures In1(r, a, k) <==> In1(m, a, k) && k != key {
      if a in m && a !in r { assert k !in m[a] - {key}; }
    }
  }

  method RemoveKey2(m: Keys2, key: CacheKey) returns (r: Keys2)
    ensures Without2(m, key, r)
  {
    hide In1, NoEmpty1;
    r := m;
    var todo := m.Keys;
    while todo != {}
      invariant todo <= m.Keys && r.Keys <= m.Keys
      invariant forall a :: a in todo ==> a in r && r[a] == m[a]
      invariant forall a :: a in r && a !in todo ==> r[a] != map[] && NoEmpty1(r[a])
      invariant forall a, b, k :: a in m && a !in todo ==> (In2(r, a, b, k) <==> In1(m[a], b, k) && k != key)
    {
      var a :| a in todo;
      var inner := RemoveKey1(r[a], key);
      if inner == map[] {
        forall b, k ensures !In1(inner, b, k) { NothingInEmpty(b, k); }
      }
      r := if inner == map[] then r - {a} else r[a := inner];
      todo := todo - {a};
    }
  }

  lemma NothingInEmpty(b: string, k: CacheKey)
    ensures !In1(map[], b, k)
  {
  }

  method RemoveKey3(m: Keys3, key: CacheKey) returns (r: Keys3)
    ensures Without3(m, key, r)
  {
    hide In1, NoEmpty1, NoEmpty2;
    r := m;
    var todo := m.Keys;
    while todo != {}
      invariant todo <= m.Keys && r.Keys <= m.Keys
      invariant forall a :: a in todo ==> a in r && r[a] == m[a]
      invariant forall a :: a in r && a !in todo ==> r[a] != map[] && NoEmpty2(r[a])
      invariant forall a, b, c, k :: a in m && a !in todo ==> (In3(r, a, b, c, k) <==> In2(m[a], b, c, k) && k != key)
    {
      var a :| a in todo;
      var inner := RemoveKey2(r[a], key);
      r := if inner == map[] then r - {a} else r[a := inner];
      todo := todo - {a};
    }
  }

  // ---- The nine maps. ----

  datatype IndexMaps = IndexMaps(
    keyToParams: map<CacheKey, QueryParams>,
    keyToDependencies: map<CacheKey, QueryDeps>,
    keyToPredicate: map<CacheKey, Predicate>,
    tableToQueryKeys: Keys1,
    dependencyIndex: Keys2,
    valueIndex: Keys3,
    fieldIndex: Keys2,
    fullTableListKeys: Keys1,
    fullTableCountKeys: Keys1)

  type Registry = map<CacheKey, Registration>

  function DepsOf(k: CacheKey, reg: Registration): QueryDeps {
    BuildQueryDependencies(reg.params, k.kind.ListKey?)
  }

  predicate Owns(regs: Registry, t: string, k: CacheKey) { k in regs && regs[k].table == t }

  ghost predicate DirectOk(regs: Registry, params: map<CacheKey, QueryParams>, deps: map<CacheKey, QueryDeps>,
          preds: map<CacheKey, Predicate>) {
    && params == (map k | k in regs :: regs[k].params)
    && deps == (map k | k in regs :: DepsOf(k, regs[k]))
    && preds == (map k | k in regs :: ParseQuery(regs[k].params))
  }

  ghost predicate TableOk(regs: Registry, m: Keys1) {
    NoEmpty1(m) && forall t, k :: In1(m, t, k) <==> Owns(regs, t, k)
  }

  ghost predicate DependencyOk(regs: Registry, m: Keys2) {
    NoEmpty2(m) && forall t, f, k :: In2(m, t, f, k) <==> Owns(regs, t, k) && f in DependencyFields(DepsOf(k, regs[k]))
  }

  ghost predicate ValueOk(valueText: Value -> string, regs: Registry, m: Keys3) {
    NoEmpty3(m) && forall t, f, x, k :: In3(m, t, f, x, k) <==>
      Owns(regs, t, k) && HasText(valueText, ExactFields(regs[k].params), f, x)
  }

  ghost predicate FieldOk(regs: Registry, m: Keys2) {
    NoEmpty2(m) && forall t, f, k :: In2(m, t, f, k) <==> Owns(regs, t, k) && f in IndexFields(regs[k].params)
  }

  ghost predicate FullTableOk(regs: Registry, lists: bool, m: Keys1) {
    NoEmpty1(m) && forall t, k :: In1(m, t, k) <==>
      Owns(regs, t, k) && regs[k].params.where == "" && k.kind.ListKey? == lists
  }

  /** The nine maps are the projections of one set of registrations, without empty inner maps. */
  ghost predicate Projects(valueText: Value -> string, regs: Registry, m: IndexMaps) {
    && DirectOk(regs, m.keyToParams, m.keyToDependencies, m.keyToPredicate)
    && TableOk(regs, m.tableToQueryKeys)
    && DependencyOk(regs, m.dependencyIndex)
    && ValueOk(valueText, regs, m.valueIndex)
    && FieldOk(regs, m.fieldIndex)
    && FullTableOk(regs, true, m.fullTableListKeys)
    && FullTableOk(regs, false, m.fullTableCountKeys)
  }

  /** History does not matter: equal registrations give equal maps, all nine of them. */
  lemma ProjectionIsUnique(valueText: Value -> string, regs: Registry, m: IndexMaps, m': IndexMaps)
    requires Projects(valueText, regs, m) && Projects(valueText, regs, m')
    ensures m == m'
  {
    hide In1, In2, In3, NoEmpty1, NoEmpty2, NoEmpty3, DependencyFields, HasText, IndexFields, DepsOf, ExactFields;
    hide Owns, ParseQuery;
    Same1(m.tableToQueryKeys, m'.tableToQueryKeys);
    Same2(m.dependencyIndex, m'.dependencyIndex);
    Same3(m.valueIndex, m'.valueIndex);
    Same2(m.fieldIndex, m'.fieldIndex);
    Same1(m.fullTableListKeys, m'.fullTableListKeys);
    Same1(m.fullTableCountKeys, m'.fullTableCountKeys);
  }

  lemma NoneEmpty(valueText: Value -> string, regs: Registry, m: IndexMaps)
    requires Projects(valueText, regs, m)
    ensures NoEmpty1(m.tableToQueryKeys) && NoEmpty1(m.fullTableListKeys) && NoEmpty1(m.fullTableCountKeys)
    ensures NoEmpty2(m.dependencyIndex) && NoEmpty2(m.fieldIndex) && NoEmpty3(m.valueIndex)
  {
  }

  /** When a registered key is a candidate for invalidation. The value index does not appear:
      it only ever adds keys that the field index selects as well. */
  ghost predicate Selected(k: CacheKey, reg: Registration, candidates: set<string>) {
    || reg.params.where == ""
    || UNCERTAIN in DependencyFields(DepsOf(k, reg))
    || (exists f :: f in candidates && (f in DependencyFields(DepsOf(k, reg)) || f in IndexFields(reg.params)))
  }

  ghost function SelectedKeys(regs: Registry, table: string, candidates: set<string>): set<CacheKey> {
    set k | k in regs && regs[k].table == table && Selected(k, regs[k], candidates)
  }

  datatype InvalidationContext = InvalidationContext(
    cacheKeys: set<CacheKey>,
    keyToParams: map<CacheKey, QueryParams>,
    keyToDeps: map<CacheKey, QueryDeps>,
    keyToPredicate: map<CacheKey, Predicate>)

  function Members(m: Keys1, a: string): set<CacheKey> { if a in m then m[a] else {} }

  /** Keys listed under one of the candidate columns. */
  method KeysOfFields(m: Keys2, table: string, candidates: set<string>) returns (keys: set<CacheKey>)
    ensures forall k :: k in keys <==> exists f :: f in candidates && In2(m, table, f, k)
  {
    keys := {};
    if table !in m { return; }
    var todo := candidates;
    while todo != {}
      invariant todo <= candidates
      invariant forall k :: k in keys <==> exists f :: f in candidates - todo && In2(m, table, f, k)
    {
      var f :| f in todo;
      ghost var before := keys;
      keys := keys + Members(m[table], f);
      todo := todo - {f};
      forall k ensures k in keys <==> exists g :: g in candidates - todo && In2(m, table, g, k) {
        if In2(m, table, f, k) { assert f in candidates - todo; }
      }
    }
  }

  /** Keys listed under the row's value of one of the candidate columns. */
  method KeysOfValues(valueText: Value -> string, m: Keys3, table: string, row: Row, candidates: set<string>)
    returns (keys: set<CacheKey>)
    ensures forall k :: k in keys ==> exists f, x :: f in candidates && In3(m, table, f, x, k)
  {
    keys := {};
    if table !in m { return; }
    var todo := row.Keys;
    while todo != {}
      invariant todo <= row.Keys
      invariant forall k :: k in keys ==> exists f, x :: f in candidates && In3(m, table, f, x, k)
    {
      var f :| f in todo;
      if f in candidates && f in m[table] {
        var x := valueText(row[f]);
        assert forall k :: k in Members(m[table][f], x) ==> In3(m, table, f, x, k);
        keys := keys + Members(m[table][f], x);
      }
      todo := todo - {f};
    }
  }

  lemma CandidatesAreSelected(valueText: Value -> string, regs: Registry, m: IndexMaps, table: string,
          candidates: set<string>, byValue: set<CacheKey>, byField: set<CacheKey>, byDependency: set<CacheKey>)
    requires Projects(valueText, regs, m)
    requires forall k :: k in byValue ==> exists f, x :: f in candidates && In3(m.valueIndex, table, f, x, k)
    requires forall k :: k in byField <==> exists f :: f in candidates && In2(m.fieldIndex, table, f, k)
    requires forall k :: k in byDependency <==>
      exists f :: f in candidates + {UNCERTAIN} && In2(m.dependencyIndex, table, f, k)
    ensures byValue + byField
        + Members(m.fullTableListKeys, table) + Members(m.fullTableCountKeys, table) + byDependency
         == SelectedKeys(regs, table, candidates)
  {
    hide DependencyFields, DepsOf, IndexFields, ExactFields, ParseQuery, NoEmpty1, NoEmpty2, NoEmpty3, In2, In3;
    forall k | k in byValue ensures k in byField {
      var f, x :| f in candidates && In3(m.valueIndex, table, f, x, k);
      ExactFieldsWithinIndexFields(regs[k].params);
      assert In2(m.fieldIndex, table, f, k);
    }
    forall k ensures k in Members(m.fullTableListKeys, table) + Members(m.fullTableCountKeys, table)
               <==> Owns(regs, table, k) && regs[k].params.where == "" {
      assert In1(m.fullTableListKeys, table, k) <==> k in Members(m.fullTableListKeys, table);
      assert In1(m.fullTableCountKeys, table, k) <==> k in Members(m.fullTableCountKeys, table);
    }
    var found := byField + Members(m.fullTableListKeys, table) + Members(m.fullTableCountKeys, table) + byDependency;
    forall k ensures k in found <==> k in SelectedKeys(regs, table, candidates) {
      if Owns(regs, table, k) {
        assert forall f :: In2(m.fieldIndex, table, f, k) <==> f in IndexFields(regs[k].params);
        assert forall f :: In2(m.dependencyIndex, table, f, k) <==> f in DependencyFields(DepsOf(k, regs[k]));
        if UNCERTAIN in DependencyFields(DepsOf(k, regs[k])) { assert UNCERTAIN in candidates + {UNCERTAIN}; }
      }
    }
  }

  class CacheIndex {
    const valueText: Value -> string
    var maps: IndexMaps
    /** The live registrations the maps stand for. */
    ghost var regs: Registry

    ghost predicate Valid()
      reads this
    {
      Projects(valueText, regs, maps)
    }

    constructor (valueText: Value -> string)
      ensures this.valueText == valueText && Valid() && regs == map[]
    {
      this.valueText := valueText;
      maps := IndexMaps(map[], map[], map[], map[], map[], map[], map[], map[], map[]);
      regs := map[];
    }

    /** Registering adds one registration. A key must keep the table and parameters it had. */
    method RegisterQuery(table: string, key: CacheKey, params: QueryParams)
      requires Valid() && (key in regs ==> regs[key] == Registration(table, params))
      modifies this
      ensures Valid()
      ensures regs == if table == "" then old(regs) else old(regs)[key := Registration(table, params)]
    {
      if table == "" { return; }
      hide Projects, Extends1, Extends2, Extends3, NoEmpty1, NoEmpty2, NoEmpty3;
      hide ParseQuery, BuildQueryDependencies, DependencyFields, ExactFields, IndexFields;
      ghost var reg, m := Registration(table, params), maps;
      NoneEmpty(valueText, regs, m);
      var isList := key.kind.ListKey?;
      maps := maps.(keyToParams := maps.keyToParams[key := params]);
      var tables := AddKey(maps.tableToQueryKeys, table, key);
      var pred := ParseQueryPredicate(params);
      var deps := BuildQueryDependencies(params, isList);
      maps := maps.(tableToQueryKeys := tables, keyToPredicate := maps.keyToPredicate[key := pred],
                    keyToDependencies := maps.keyToDependencies[key := deps]);
      var dependencies := AddFields(maps.dependencyIndex, table, DependencyFields(deps), key);
      maps := maps.(dependencyIndex := dependencies);
      if params.where == "" && isList {
        var lists := AddKey(maps.fullTableListKeys, table, key);
        maps := maps.(fullTableListKeys := lists);
      }
      if params.where == "" && !isList {
        var counts := AddKey(maps.fullTableCountKeys, table, key);
        maps := maps.(fullTableCountKeys := counts);
      }
      var values := AddValues(valueText, maps.valueIndex, table, ExactFields(params), key);
      var fields := AddFields(maps.fieldIndex, table, IndexFields(params), key);
      maps := maps.(valueIndex := values, fieldIndex := fields);
      RegisteredProjects(valueText, regs, m, key, reg, maps);
      regs := regs[key := reg];
    }

    /** Deregistering removes the registration, whatever it was, from all nine maps. */
    method DeregisterQuery(key: CacheKey)
      requires Valid()
      modifies this
      ensures Valid() && regs == old(regs) - {key}
    {
      hide Projects, Without1, Without2, Without3;
      ghost var reg, m := if key in regs then regs[key] else Registration(key.table, key.params), maps;
      var tables := RemoveKey1(maps.tableToQueryKeys, key);
      var dependencies := RemoveKey2(maps.dependencyIndex, key);
      var values := RemoveKey3(maps.valueIndex, key);
      var fields := RemoveKey2(maps.fieldIndex, key);
      var lists := RemoveKey1(maps.fullTableListKeys, key);
      var counts := RemoveKey1(maps.fullTableCountKeys, key);
      maps := IndexMaps(maps.keyToParams - {key}, maps.keyToDependencies - {key}, maps.keyToPredicate - {key},
                        tables, dependencies, values, fields, lists, counts);
      DeregisteredProjects(valueText, regs, m, key, reg, maps);
      regs := regs - {key};
    }

    /** The candidate keys of a write: exactly the selected ones, with what they were registered for. */
    method GetInvalidationContext(table: string, row: Row, candidates: set<string>) returns (ctx: InvalidationContext)
      requires Valid()
      ensures ctx.cacheKeys == SelectedKeys(regs, table, candidates)
      ensures ctx.keyToParams == map k | k in ctx.cacheKeys && k in regs :: regs[k].params
      ensures ctx.keyToDeps == map k | k in ctx.cacheKeys && k in regs :: DepsOf(k, regs[k])
      ensures ctx.keyToPredicate == map k | k in ctx.cacheKeys && k in regs :: ParseQuery(regs[k].params)
    {
      hide SelectedKeys, TableOk, DependencyOk, ValueOk, FieldOk, FullTableOk, ParseQuery, DepsOf, In2, In3;
      var byValue := KeysOfValues(valueText, maps.valueIndex, table, row, candidates);
      var byField := KeysOfFields(maps.fieldIndex, table, candidates);
      var byDependency := KeysOfFields(maps.dependencyIndex, table, candidates + {UNCERTAIN});
      var fullTable := Members(maps.fullTableListKeys, table) + Members(maps.fullTableCountKeys, table);
      var keys := byValue + byField + fullTable + byDependency;
      CandidatesAreSelected(valueText, regs, maps, table, candidates, byValue, byField, byDependency);
      ctx := InvalidationContext(keys,
        map k | k in keys && k in maps.keyToParams :: maps.keyToParams[k],
        map k | k in keys && k in maps.keyToDependencies :: maps.keyToDependencies[k],
        map k | k in keys && k in maps.keyToPredicate :: maps.keyToPredicate[k]);
    }

    method GetQueryKeysForTable(table: string) returns (keys: set<CacheKey>)
      requires Valid()
      ensures keys == set k | k in regs && regs[k].table == table
    {
      keys := Members(maps.tableToQueryKeys, table);
      TableMembers(regs, maps.tableToQueryKeys, table);
    }

    method GetAllRegisteredKeys() returns (keys: set<CacheKey>)
      requires Valid()
      ensures keys == regs.Keys
    {
      keys := maps.keyToParams.Keys;
    }
  }

  lemma TableMembers(regs: Registry, m: Keys1, table: string)
    requires TableOk(regs, m)
    ensures Members(m, table) == set k | k in regs && regs[k].table == table
  {
    forall k ensures k in Members(m, table) <==> Owns(regs, table, k) {
      assert In1(m, table, k) <==> k in Members(m, table);
    }
  }

  /** Deregistering a freshly registered key restores all nine maps exactly. */
  method RegisterThenDeregister(index: CacheIndex, table: string, key: CacheKey, params: QueryParams)
    requires index.Valid() && key !in index.regs
    modifies index
    ensures index.Valid() && index.maps == old(index.maps) && index.regs == old(index.regs)
  {
    hide Projects;
    index.RegisterQuery(table, key, params);
    index.DeregisterQuery(key);
    assert index.regs == old(index.regs);
    ProjectionIsUnique(index.valueText, index.regs, index.maps, old(index.maps));
  }

  lemma DirectSteps(regs: Registry, params: map<CacheKey, QueryParams>, deps: map<CacheKey, QueryDeps>,
          preds: map<CacheKey, Predicate>, key: CacheKey, reg: Registration)
    requires DirectOk(regs, params, deps, preds)
    ensures DirectOk(regs[key := reg], params[key := reg.params], deps[key := DepsOf(key, reg)],
      preds[key := ParseQuery(reg.params)])
    ensures DirectOk(regs - {key}, params - {key}, deps - {key}, preds - {key})
  {
    hide DepsOf, ParseQuery;
  }

  lemma TableSteps(regs: Registry, m: Keys1, key: CacheKey, reg: Registration, m': Keys1)
    requires TableOk(regs, m) && (key in regs ==> regs[key] == reg)
    ensures Extends1(m, reg.table, key, m') ==> TableOk(regs[key := reg], m')
    ensures Without1(m, key, m') ==> TableOk(regs - {key}, m')
  {
    hide In1, NoEmpty1;
  }

  lemma DependencySteps(regs: Registry, m: Keys2, key: CacheKey, reg: Registration, m': Keys2)
    requires DependencyOk(regs, m) && (key in regs ==> regs[key] == reg)
    ensures Extends2(m, reg.table, DependencyFields(DepsOf(key, reg)), key, m') ==> DependencyOk(regs[key := reg], m')
    ensures Without2(m, key, m') ==> DependencyOk(regs - {key}, m')
  {
    hide In2, NoEmpty2, DependencyFields, DepsOf;
  }

  lemma ValueSteps(valueText: Value -> string, regs: Registry, m: Keys3, key: CacheKey, reg: Registration, m': Keys3)
    requires ValueOk(valueText, regs, m) && (key in regs ==> regs[key] == reg)
    ensures Extends3(valueText, m, reg.table, ExactFields(reg.params), key, m') ==>
      ValueOk(valueText, regs[key := reg], m')
    ensures Without3(m, key, m') ==> ValueOk(valueText, regs - {key}, m')
  {
    hide In3, NoEmpty3, HasText, ExactFields;
  }

  lemma FieldSteps(regs: Registry, m: Keys2, key: CacheKey, reg: Registration, m': Keys2)
    requires FieldOk(regs, m) && (key in regs ==> regs[key] == reg)
    ensures Extends2(m, reg.table, IndexFields(reg.params), key, m') ==> FieldOk(regs[key := reg], m')
    ensures Without2(m, key, m') ==> FieldOk(regs - {key}, m')
  {
    hide In2, NoEmpty2, IndexFields;
  }

  lemma FullTableSteps(regs: Registry, lists: bool, m: Keys1, key: CacheKey, reg: Registration, m': Keys1)
    requires FullTableOk(regs, lists, m) && (key in regs ==> regs[key] == reg)
    ensures (if reg.params.where == "" && key.kind.ListKey? == lists then Extends1(m, reg.table, key, m') else m' == m)
      ==> FullTableOk(regs[key := reg], lists, m')
    ensures Without1(m, key, m') ==> FullTableOk(regs - {key}, lists, m')
  {
    hide In1, NoEmpty1;
  }

  lemma RegisteredProjects(valueText: Value -> string, regs: Registry, m: IndexMaps, key: CacheKey, reg: Registration,
          m': IndexMaps)
    requires Projects(valueText, regs, m) && (key in regs ==> regs[key] == reg)
    requires m'.keyToParams == m.keyToParams[key := reg.params]
    requires m'.keyToDependencies == m.keyToDependencies[key := DepsOf(key, reg)]
    requires m'.keyToPredicate == m.keyToPredicate[key := ParseQuery(reg.params)]
    requires Extends1(m.tableToQueryKeys, reg.table, key, m'.tableToQueryKeys)
    requires Extends2(m.dependencyIndex, reg.table, DependencyFields(DepsOf(key, reg)), key, m'.dependencyIndex)
    requires Extends3(valueText, m.valueIndex, reg.table, ExactFields(reg.params), key, m'.valueIndex)
    requires Extends2(m.fieldIndex, reg.table, IndexFields(reg.params), key, m'.fieldIndex)
    requires if reg.params.where == "" && key.kind.ListKey?
      then Extends1(m.fullTableListKeys, reg.table, key, m'.fullTableListKeys)
        else m'.fullTableListKeys == m.fullTableListKeys
    requires if reg.params.where == "" && !key.kind.ListKey?
      then Extends1(m.fullTableCountKeys, reg.table, key, m'.fullTableCountKeys)
        else m'.fullTableCountKeys == m.fullTableCountKeys
    ensures Projects(valueText, regs[key := reg], m')
  {
    hide DirectOk, TableOk, DependencyOk, ValueOk, FieldOk, FullTableOk, Extends1, Extends2, Extends3;
    hide ParseQuery, DepsOf, DependencyFields, ExactFields, IndexFields;
    DirectSteps(regs, m.keyToParams, m.keyToDependencies, m.keyToPredicate, key, reg);
    TableSteps(regs, m.tableToQueryKeys, key, reg, m'.tableToQueryKeys);
    DependencySteps(regs, m.dependencyIndex, key, reg, m'.dependencyIndex);
    ValueSteps(valueText, regs, m.valueIndex, key, reg, m'.valueIndex);
    FieldSteps(regs, m.fieldIndex, key, reg, m'.fieldIndex);
    FullTableSteps(regs, true, m.fullTableListKeys, key, reg, m'.fullTableListKeys);
    FullTableSteps(regs, false, m.fullTableCountKeys, key, reg, m'.fullTableCountKeys);
  }

  lemma DeregisteredProjects(valueText: Value -> string, regs: Registry, m: IndexMaps, key: CacheKey, reg: Registration,
          m': IndexMaps)
    requires Projects(valueText, regs, m) && (key in regs ==> regs[key] == reg)
    requires m'.keyToParams == m.keyToParams - {key}
    requires m'.keyToDependencies == m.keyToDependencies - {key}
    requires m'.keyToPredicate == m.keyToPredicate - {key}
    requires Without1(m.tableToQueryKeys, key, m'.tableToQueryKeys)
    requires Without2(m.dependencyIndex, key, m'.dependencyIndex)
    requires Without3(m.valueIndex, key, m'.valueIndex)
    requires Without2(m.fieldIndex, key, m'.fieldIndex)
    requires Without1(m.fullTableListKeys, key, m'.fullTableListKeys)
    requires Without1(m.fullTableCountKeys, key, m'.fullTableCountKeys)
    ensures Projects(valueText, regs - {key}, m')
  {
    hide DirectOk, TableOk, DependencyOk, ValueOk, FieldOk, FullTableOk, Without1, Without2, Without3;
    hide ParseQuery, DepsOf, DependencyFields, ExactFields, IndexFields, Extends1, Extends2, Extends3;
    DirectSteps(regs, m.keyToParams, m.keyToDependencies, m.keyToPredicate, key, reg);
    TableSteps(regs, m.tableToQueryKeys, key, reg, m'.tableToQueryKeys);
    DependencySteps(regs, m.dependencyIndex, key, reg, m'.dependencyIndex);
    ValueSteps(valueText, regs, m.valueIndex, key, reg, m'.valueIndex);
    FieldSteps(regs, m.fieldIndex, key, reg, m'.fieldIndex);
    FullTableSteps(regs, true, m.fullTableListKeys, key, reg, m'.fullTableListKeys);
    FullTableSteps(regs, false, m.fullTableCountKeys, key, reg, m'.fullTableCountKeys);
  }
}
