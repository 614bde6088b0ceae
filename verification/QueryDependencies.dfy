/** What the cache index extracts from a query: referenced columns, order columns, exact-match values. */
module QueryDependencies {
  import opened Values
  import opened Text
  import opened WhereParser
  import opened WhereMatch

  const UNCERTAIN := "*"

  datatype QueryDeps = QueryDeps(whereFields: set<string>, orderFields: set<string>, uncertainOrder: bool)

  // ---- ORDER BY. ----

  predicate HasAny(s: string, cs: string) { exists k :: 0 <= k < |s| && s[k] in cs }

  function NormalizeOrderIdentifier(identifier: string): Option<string> {
    var whole := TrimSpace(identifier);
    if whole == "" || HasAny(whole, "()+-*/") then None
    else
      var parts := Split(whole, '.');
      var last := Trim(TrimSpace(parts[|parts| - 1]), c => c == '\"' || c == '`');
      var name := if last != "" && last[0] == '[' && last[|last| - 1] == ']' then Unbracket(last) else last;
      if name == "" || HasAny(name, " \t\n\r") then None else Some(name)
  }

  /** One comma-separated part of ORDER BY: the column it sorts on, and whether it was fully understood. */
  function OrderPart(clause: string): (Option<string>, bool) {
    var parts := Words(TrimSpace(clause), IsSpace);
    if parts == [] then (None, false)
    else
      var direction := |parts| == 1 || (|parts| == 2 && (ToUpper(parts[1]) == "ASC" || ToUpper(parts[1]) == "DESC"));
      var field := NormalizeOrderIdentifier(parts[0]);
      (field, direction && field.Some?)
  }

  function OrderParts(clauses: seq<string>): (set<string>, bool) {
    if clauses == [] then ({}, false)
    else
      var (fields, uncertain) := OrderParts(clauses[1..]);
      var (field, understood) := OrderPart(clauses[0]);
      ((if field.Some? then {field.value} else {}) + fields, uncertain || !understood)
  }

  /** The columns of an ORDER BY clause, and whether some part of it could not be parsed safely. */
  function ParseOrderFields(order: string): (set<string>, bool) {
    if TrimSpace(order) == "" then ({}, false) else OrderParts(Split(order, ','))
  }

  // ---- The heuristic used when the predicate parser gives up. ----

  predicate IsSpaceOrTab(c: char) { c == ' ' || c == '\t' }

  predicate AndAt(s: string, i: nat) {
    i + 3 <= |s| && ToUpper(s[i..i + 3]) == "AND" && (i == 0 || s[i - 1] == ' ') && (i + 3 == |s| || s[i + 3] == ' ')
  }

  /** The pieces of `s` from `last` on, with the search for the next AND at `i`. */
  function SplitByAnd(s: string, last: nat, i: nat): seq<string>
    requires last <= |s|
    decreases |s| - i
  {
    if i + 3 > |s| then [s[last..]]
    else if AndAt(s, i) && last <= i then [s[last..i]] + SplitByAnd(s, i + 3, i + 1)
    else SplitByAnd(s, last, i + 1)
  }

  /** The words of each non-empty condition. */
  function ConditionWords(pieces: seq<string>): seq<seq<string>> {
    if pieces == [] then []
    else
      var words := Words(pieces[0], IsSpaceOrTab);
      (if words == [] then [] else [words]) + ConditionWords(pieces[1..])
  }

  function LegacyConditions(where: string): seq<seq<string>> {
    if where == "" then [] else ConditionWords(SplitByAnd(where, 0, 0))
  }

  function LegacyFields(conditions: seq<seq<string>>): set<string> {
    set k | 0 <= k < |conditions| && conditions[k] != [] :: conditions[k][0]
  }

  function LegacyExact(conditions: seq<seq<string>>, args: seq<Value>, argIndex: nat, out: map<string, seq<Value>>):
      map<string, seq<Value>> {
    if conditions == [] then out
    else
      var words, rest := conditions[0], conditions[1..];
      if argIndex >= |args| then LegacyExact(rest, args, argIndex, out)
      else if |words| == 3 && words[1] == "=" && words[2] == "?" then
        LegacyExact(rest, args, argIndex + 1, out[words[0] := [args[argIndex]]])
      else if |words| == 3 && words[1] == "IN" && words[2] == "(?)" && ExpandValue(args[argIndex]) != [] then
        LegacyExact(rest, args, argIndex + 1, out[words[0] := ExpandValue(args[argIndex])])
      else LegacyExact(rest, args, argIndex + 1, out)
  }

  // ---- What a query is indexed under. ----

  /** The columns of the field index. */
  function IndexFields(params: QueryParams): set<string> {
    var p := ParseQuery(params);
    if p.Invalid? then LegacyFields(LegacyConditions(params.where)) else PredicateFields(p)
  }

  function ExactFields(params: QueryParams): map<string, seq<Value>> {
    match ParseQuery(params)
    case NoCondition => map[]
    case Root(node) => ExactMatches(node, params.args, map[])
    case Invalid => LegacyExact(LegacyConditions(params.where), params.args, 0, map[])
  }

  function BuildQueryDependencies(params: QueryParams, isList: bool): QueryDeps {
    var certain := IndexFields(params);
    var whereFields := if ParseQuery(params).Invalid? then certain + {UNCERTAIN} else certain;
    var (orderFields, uncertain) := if isList && params.order != "" then ParseOrderFields(params.order)
      else ({}, false);
    QueryDeps(whereFields, orderFields, uncertain)
  }

  /** The names a query is listed under in the dependency index. */
  function DependencyFields(deps: QueryDeps): set<string> {
    deps.whereFields + deps.orderFields + (if deps.uncertainOrder then {UNCERTAIN} else {}) - {""}
  }

  lemma {:induction false} LegacyExactWithinFields(conditions: seq<seq<string>>, args: seq<Value>, argIndex: nat,
          out: map<string, seq<Value>>, fields: set<string>)
    requires NonEmptyOn(out, fields) && LegacyFields(conditions) <= fields
    ensures NonEmptyOn(LegacyExact(conditions, args, argIndex, out), fields)
    decreases |conditions|
  {
    if conditions != [] {
      var words, rest := conditions[0], conditions[1..];
      assert forall k :: 0 <= k < |rest| ==> rest[k] == conditions[k + 1];
      assert LegacyFields(rest) <= LegacyFields(conditions);
      if words != [] { assert words[0] in LegacyFields(conditions); }
      if argIndex >= |args| {
        LegacyExactWithinFields(rest, args, argIndex, out, fields);
      } else {
        LegacyExactWithinFields(rest, args, argIndex + 1, out, fields);
        if |words| == 3 {
          LegacyExactWithinFields(rest, args, argIndex + 1, out[words[0] := [args[argIndex]]], fields);
          if ExpandValue(args[argIndex]) != [] {
            LegacyExactWithinFields(rest, args, argIndex + 1, out[words[0] := ExpandValue(args[argIndex])], fields);
          }
        }
      }
    }
  }

  /** Every exact-match column is also in the field index, with at least one value. */
  lemma ExactFieldsWithinIndexFields(params: QueryParams)
    ensures NonEmptyOn(ExactFields(params), IndexFields(params))
  {
    hide ParseQuery, ExactMatches, LegacyExact, LegacyConditions, LegacyFields;
    match ParseQuery(params)
    case NoCondition =>
    case Root(node) => ExactMatchesWithinFields(node, params.args, map[], Fields(node));
    case Invalid =>
      var conditions := LegacyConditions(params.where);
      LegacyExactWithinFields(conditions, params.args, 0, map[], LegacyFields(conditions));
  }
}
