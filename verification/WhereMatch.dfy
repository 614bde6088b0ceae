/** Evaluating a predicate on a row, and the columns it looks at. */
module WhereMatch {
  import opened Values
  import opened Text
  import opened WhereLexer
  import opened WhereParser
  import WhereGrammar

  /** The outcome of the matcher: a verdict, or an error the caller treats as "cannot tell". */
  datatype MatchResult = Verdict(holds: bool) | MatchError

  function Negate(r: MatchResult): MatchResult {
    if r.Verdict? then Verdict(!r.holds) else r
  }

  // ---- Single comparisons. ----

  /** The type of a value that is not a pointer; pointers convert to nothing. */
  function KindOf(v: Value): Option<Kind> {
    match v
    case Bool(_) => Some(BoolKind)
    case Int(_) => Some(IntKind)
    case Float(_) => Some(FloatKind)
    case Str(_) => Some(StringKind)
    case Time(_) => Some(TimeKind)
    case List(_, _) => Some(ListKind)
    case _ => None
  }

  predicate IsNil(v: Value) { v.Nil? || v.Null? }

  function Truncate(f: real): int { if f < 0.0 then -((-f).Floor) else f.Floor }

  function Rune(i: int): char {
    if 0 <= i < 0xD800 || 0xE000 <= i < 0x11_0000 then i as char else '\U{FFFD}'
  }

  /** Conversion between basic types; an integer converts to the string of its code point. */
  function Convert(v: Value, to: Kind): Option<Value> {
    if KindOf(v) == Some(to) then Some(v)
    else match (v, to)
      case (Int(i), FloatKind) => Some(Float(i as real))
      case (Float(f), IntKind) => Some(Int(Truncate(f)))
      case (Int(i), StringKind) => Some(Str([Rune(i)]))
      case _ => None
  }

  predicate ConvertibleKinds(from: Kind, to: Kind) {
    from == to || (from == IntKind && (to == FloatKind || to == StringKind)) || (from == FloatKind && to == IntKind)
  }

  function Deref(v: Value): Value { if v.Ref? then v.target else v }

  /** A pointer column is compared by what it points to, unless the argument is a pointer too. */
  predicate FieldEqualsArg(field: Value, arg: Value) {
    var actual := if arg.Ref? then field else Deref(field);
    !IsNil(field) &&
    match (if KindOf(actual).Some? then Convert(arg, KindOf(actual).value) else None)
    case Some(converted) => actual == converted
    case None => actual == arg
  }

  function MatchEq(field: Value, arg: Value): MatchResult {
    Verdict(if IsNil(arg) then IsNil(field) else FieldEqualsArg(field, arg))
  }

  /** String order by code point, as Go compares strings. */
  predicate StringLess(a: string, b: string) {
    b != "" && (a == "" || a[0] < b[0] || (a[0] == b[0] && StringLess(a[1..], b[1..])))
  }

  function ByOrder(op: Operator, less: bool, equal: bool): MatchResult {
    match op
    case Gt => Verdict(!less && !equal)
    case Lt => Verdict(less)
    case Ge => Verdict(!less)
    case Le => Verdict(less || equal)
    case _ => MatchError
  }

  function CompareValues(field: Value, arg: Value, op: Operator): MatchResult {
    match (Deref(field), Deref(arg))
    case (Time(a), Time(b)) => ByOrder(op, a < b, a == b)
    case (Int(a), Int(b)) => ByOrder(op, a < b, a == b)
    case (Int(a), Float(b)) => ByOrder(op, a < Truncate(b), a == Truncate(b))
    case (Float(a), Int(b)) => ByOrder(op, a < b as real, a == b as real)
    case (Float(a), Float(b)) => ByOrder(op, a < b, a == b)
    case (Str(a), Str(b)) => ByOrder(op, StringLess(a, b), a == b)
    case _ => MatchError
  }

  predicate Contains(s: string, part: string) {
    part <= s || (s != "" && Contains(s[1..], part))
  }

  predicate HasSuffix(s: string, part: string) { |part| <= |s| && s[|s| - |part|..] == part }

  /** LIKE with `%` at the ends only; `_` is not supported. */
  function LikePattern(s: string, raw: string): MatchResult {
    if '_' in raw then MatchError
    else
      var pattern := TrimSpace(raw);
      var starts, ends := "%" <= pattern, HasSuffix(pattern, "%");
      if starts && ends then Verdict(Contains(s, Trim(pattern, c => c == '%')))
      else if starts then Verdict(HasSuffix(s, pattern[1..]))
      else if ends then Verdict(pattern[..|pattern| - 1] <= s)
      else Verdict(s == pattern)
  }

  predicate IsText(v: Value) { Deref(v).Str? || v == Null(StringKind) }

  function MatchLike(field: Value, arg: Value, negated: bool): MatchResult {
    if !IsText(field) || !IsText(arg) then MatchError
    else if IsNil(field) || IsNil(arg) then Verdict(false)
    else if negated then Negate(LikePattern(Deref(field).s, Deref(arg).s))
    else LikePattern(Deref(field).s, Deref(arg).s)
  }

  /** The types of column and elements allow a comparison: equal or convertible types, or untyped elements.
      A pointer converts to nothing. */
  predicate InComparable(field: Value, arg: Value)
    requires arg.List? && arg.elems != []
  {
    arg.untyped ||
    (KindOf(field).Some? && KindOf(arg.elems[0]).Some? &&
     ConvertibleKinds(KindOf(field).value, KindOf(arg.elems[0]).value))
  }

  /** An element as a value of the column's type, if it differs in type; an interface value never converts. */
  function InConverted(field: Value, elem: Value, untyped: bool): Option<Value> {
    if untyped || KindOf(field).None? then None else Convert(elem, KindOf(field).value)
  }

  /** The element equals the column value, possibly after conversion. */
  predicate InHit(field: Value, elem: Value, untyped: bool) {
    field == elem || (KindOf(elem) != KindOf(field) && InConverted(field, elem, untyped) == Some(field))
  }

  /** The element is of another type and could not be converted. */
  predicate InFailure(field: Value, elem: Value, untyped: bool) {
    field != elem && (untyped || KindOf(elem) != KindOf(field)) && InConverted(field, elem, untyped) == None
  }

  /** IN over a slice: it holds if some element is a hit, and is otherwise an error if some element could not
      be converted. */
  function MatchIn(field: Value, arg: Value): MatchResult {
    if !arg.List? then MatchError
    else if arg.elems == [] then Verdict(false)
    else if !InComparable(field, arg) then MatchError
    else if exists k :: 0 <= k < |arg.elems| && InHit(field, arg.elems[k], arg.untyped) then Verdict(true)
    else if exists k :: 0 <= k < |arg.elems| && InFailure(field, arg.elems[k], arg.untyped) then MatchError
    else Verdict(false)
  }

  /** `checkInOperator`: the loop stops at the first hit and collects failed conversions. */
  method CheckInOperator(field: Value, arg: Value) returns (r: MatchResult)
    ensures r == MatchIn(field, arg)
  {
    hide Convert;
    if !arg.List? { return MatchError; }
    if |arg.elems| == 0 { return Verdict(false); }
    if !InComparable(field, arg) { return MatchError; }
    var failed := false;
    for i := 0 to |arg.elems|
      invariant forall k :: 0 <= k < i ==> !InHit(field, arg.elems[k], arg.untyped)
      invariant failed <==> exists k :: 0 <= k < i && InFailure(field, arg.elems[k], arg.untyped)
    {
      var elem := arg.elems[i];
      if field == elem { return Verdict(true); }
      if arg.untyped || KindOf(elem) != KindOf(field) {
        var converted := InConverted(field, elem, arg.untyped);
        if converted == Some(field) { return Verdict(true); }
        failed := failed || converted.None?;
      }
    }
    r := if failed then MatchError else Verdict(false);
  }

  // ---- Conditions and predicates. ----

  /** What a condition's identifier refers to: a column, or failing that a Go field name. */
  function Lookup(goFields: map<string, Column>, row: Row, name: string): Option<Value> {
    if name in row then Some(row[name])
    else if name in goFields && goFields[name] in row then Some(row[goFields[name]])
    else None
  }

  function MatchCondition(goFields: map<string, Column>, row: Row, name: string, op: Operator,
          arg: Value): MatchResult {
    match Lookup(goFields, row, name)
    case None => MatchError
    case Some(field) =>
      match op
      case Eq => MatchEq(field, arg)
      case Ne => Negate(MatchEq(field, arg))
      case NeAngle => Negate(MatchEq(field, arg))
      case Like => MatchLike(field, arg, false)
      case NotLike => MatchLike(field, arg, true)
      case In => MatchIn(field, arg)
      case NotIn => Negate(MatchIn(field, arg))
      case _ => CompareValues(field, arg, op)
  }

  function MatchAny(goFields: map<string, Column>, row: Row, name: string, values: seq<Value>): MatchResult {
    if values == [] then Verdict(false)
    else
      var first := MatchCondition(goFields, row, name, Eq, values[0]);
      if first == Verdict(false) then MatchAny(goFields, row, name, values[1..]) else first
  }

  function ResolveOperands(operands: seq<Operand>, args: seq<Value>): Option<seq<Value>> {
    if operands == [] then Some([])
    else
      var rest := ResolveOperands(operands[1..], args);
      match operands[0]
      case Literal(v) => if rest.None? then None else Some([v] + rest.value)
      case Arg(k) => if k >= |args| || rest.None? then None else Some([args[k]] + rest.value)
  }

  predicate IsSlicePlaceholder(operands: seq<Operand>) {
    |operands| == 1 && operands[0].Arg?
  }

  function Match(goFields: map<string, Column>, node: Node, args: seq<Value>, row: Row): MatchResult {
    match node
    case Both(l, r) =>
      var left := Match(goFields, l, args, row);
      if left == Verdict(true) then Match(goFields, r, args, row) else left
    case Either(l, r) =>
      var left := Match(goFields, l, args, row);
      if left == Verdict(false) then Match(goFields, r, args, row) else left
    case Cond(name, op, operands) =>
      match ResolveOperands(operands, args)
      case None => MatchError
      case Some(values) =>
        if values == [] then MatchError
        else if (op == In || op == NotIn) && !IsSlicePlaceholder(operands) then
          var any := MatchAny(goFields, row, name, values);
          if op == NotIn then Negate(any) else any
        else if |values| != 1 then MatchError
        else MatchCondition(goFields, row, name, op, values[0])
  }

  /** `CheckQueryMatch`: a blank clause matches every row, an unsupported one cannot be decided. */
  function MatchPredicate(goFields: map<string, Column>, p: Predicate, args: seq<Value>, row: Row): MatchResult {
    match p
    case NoCondition => Verdict(true)
    case Root(node) => Match(goFields, node, args, row)
    case Invalid => MatchError
  }

  function Fields(node: Node): set<string> {
    match node
    case Both(l, r) => Fields(l) + Fields(r)
    case Either(l, r) => Fields(l) + Fields(r)
    case Cond(name, _, _) => {name}
  }

  /** The columns named by a query's WHERE clause, when it could be parsed. */
  function PredicateFields(p: Predicate): set<string> {
    if p.Root? then Fields(p.node) else {}
  }

  // ---- Locality. ----

  /** No identifier falls back on a Go field name. */
  predicate NamesColumns(goFields: map<string, Column>, row: Row, names: set<string>) {
    forall f :: f in names ==> f in row || f !in goFields
  }

  lemma {:induction false} MatchAnyIsLocal(goFields: map<string, Column>, row: Row, row': Row, name: string,
          values: seq<Value>)
    requires Lookup(goFields, row, name) == Lookup(goFields, row', name)
    ensures MatchAny(goFields, row, name, values) == MatchAny(goFields, row', name, values)
    decreases |values|
  {
    if values != [] { MatchAnyIsLocal(goFields, row, row', name, values[1..]); }
  }

  /** The verdict, errors included, depends only on the columns in `Fields`. */
  lemma {:induction false} MatchIsLocal(goFields: map<string, Column>, node: Node, args: seq<Value>, row: Row,
          row': Row)
    requires AgreeOn(Fields(node), row, row') && NamesColumns(goFields, row, Fields(node))
    ensures Match(goFields, node, args, row) == Match(goFields, node, args, row')
    decreases node
  {
    match node
    case Both(l, r) => MatchIsLocal(goFields, l, args, row, row'); MatchIsLocal(goFields, r, args, row, row');
    case Either(l, r) => MatchIsLocal(goFields, l, args, row, row'); MatchIsLocal(goFields, r, args, row, row');
    case Cond(name, op, operands) =>
      hide MatchAny, ResolveOperands, MatchIn, MatchLike, CompareValues, MatchEq;
      assert name in Fields(node);
      var values := ResolveOperands(operands, args);
      if values.Some? { MatchAnyIsLocal(goFields, row, row', name, values.value); }
  }

  /** Rows over a fixed set of columns on which a comparison with `name` is decided by `name` alone. */
  ghost predicate DecidedByItself(goFields: map<string, Column>, columns: set<Column>, name: string) {
    forall node: Node, args: seq<Value>, row: Row, row': Row ::
      node.Cond? && node.field == name && row.Keys == columns && row'.Keys == columns && AgreeOn({name}, row, row')
      ==> Match(goFields, node, args, row) == Match(goFields, node, args, row')
  }

  /** Locality holds exactly for identifiers that do not resolve through a Go field name. */
  lemma LocalIffColumnName(goFields: map<string, Column>, columns: set<Column>, name: string)
    ensures DecidedByItself(goFields, columns, name)
       <==> name in columns || name !in goFields || goFields[name] !in columns
  {
    hide MatchAny, ResolveOperands, MatchIn, MatchLike, CompareValues;
    if name in columns || name !in goFields || goFields[name] !in columns {
      forall node: Node, args: seq<Value>, row: Row, row': Row
        | node.Cond? && node.field == name && row.Keys == columns && row'.Keys == columns && AgreeOn({name}, row, row')
        ensures Match(goFields, node, args, row) == Match(goFields, node, args, row')
      {
        assert name in {name};
        assert Lookup(goFields, row, name) == Lookup(goFields, row', name);
        var values := ResolveOperands(node.operands, args);
        if values.Some? { MatchAnyIsLocal(goFields, row, row', name, values.value); }
      }
    } else {
      var zero: Row := map c | c in columns :: Int(0);
      var one := zero[goFields[name] := Int(1)];
      FallbackReads(goFields, name, zero, one);
      var node := Cond(name, Eq, [Literal(Int(0))]);
      assert Match(goFields, node, [], zero) != Match(goFields, node, [], one);
    }
  }

  lemma FallbackReads(goFields: map<string, Column>, name: string, zero: Row, one: Row)
    requires name in goFields && name !in zero && name !in one && goFields[name] in zero && goFields[name] in one
    requires zero[goFields[name]] == Int(0) && one[goFields[name]] == Int(1)
    ensures Match(goFields, Cond(name, Eq, [Literal(Int(0))]), [], zero) == Verdict(true)
    ensures Match(goFields, Cond(name, Eq, [Literal(Int(0))]), [], one) == Verdict(false)
  {
    var operands := [Literal(Int(0))];
    assert operands[1..] == [];
    assert ResolveOperands(operands[1..], []) == Some([]);
    assert ResolveOperands(operands, []).value == [Int(0)] + [];
  }

  // ---- Two-valued comparisons. ----

  /** A nil column differs from every value, where SQL would not decide. */
  lemma NullIsUnequal(goFields: map<string, Column>, row: Row, name: string, v: Value, args: seq<Value>)
    requires name in row && IsNil(row[name]) && !IsNil(v)
    ensures Match(goFields, Cond(name, NeAngle, [Literal(v)]), args, row) == Verdict(true)
    ensures Match(goFields, Cond(name, Eq, [Literal(v)]), args, row) == Verdict(false)
  {
    var operands := [Literal(v)];
    assert operands[1..] == [] && ResolveOperands(operands[1..], args) == Some([]);
    assert ResolveOperands(operands, args).value == [v] + [];
  }

  // ---- Operands always resolve. ----

  predicate IsPart(c: Node, node: Node) {
    c == node || (!node.Cond? && (IsPart(c, node.left) || IsPart(c, node.right)))
  }

  lemma {:induction false} IndicesResolve(operands: seq<Operand>, args: seq<Value>)
    requires forall k :: k in WhereGrammar.OperandIndices(operands) ==> k < |args|
    ensures ResolveOperands(operands, args).Some? && |ResolveOperands(operands, args).value| == |operands|
    decreases |operands|
  {
    if operands != [] {
      assert forall k :: k in WhereGrammar.OperandIndices(operands[1..]) ==> k in WhereGrammar.OperandIndices(operands);
      IndicesResolve(operands[1..], args);
      if operands[0].Arg? { assert operands[0].index in WhereGrammar.OperandIndices(operands); }
    }
  }

  lemma {:induction false} PartIndices(c: Node, node: Node)
    requires IsPart(c, node)
    ensures forall k :: k in WhereGrammar.Indices(c) ==> k in WhereGrammar.Indices(node)
    decreases node
  {
    if c != node {
      if IsPart(c, node.left) { PartIndices(c, node.left); } else { PartIndices(c, node.right); }
    }
  }

  /** In a parsed predicate no condition ever refers to an argument that was not given. */
  lemma ParsedOperandsResolve(where: string, args: seq<Value>, c: Node)
    requires ParseWhere(where, |args|).Root? && c.Cond? && IsPart(c, ParseWhere(where, |args|).node)
    ensures ResolveOperands(c.operands, args).Some? && |ResolveOperands(c.operands, args).value| == |c.operands|
  {
    hide ParseWhere, IsPart;
    var node := ParseWhere(where, |args|).node;
    WhereGrammar.ParsedWhereIsWellFormed(where, |args|);
    PartIndices(c, node);
    assert WhereGrammar.Indices(c) == WhereGrammar.OperandIndices(c.operands);
    assert forall k :: k in WhereGrammar.Range(0, |args|) ==> k < |args|;
    IndicesResolve(c.operands, args);
  }

  // ---- Exact-match values, for the value index. ----

  function Append(out: map<string, seq<Value>>, field: string, values: seq<Value>): map<string, seq<Value>> {
    if values == [] then out else out[field := (if field in out then out[field] else []) + values]
  }

  function ExpandValue(v: Value): seq<Value> { if v.List? then v.elems else [] }

  function ExpandAll(values: seq<Value>): seq<Value> {
    if values == [] then []
    else (if ExpandValue(values[0]) != [] then ExpandValue(values[0]) else [values[0]]) + ExpandAll(values[1..])
  }

  function ExactMatches(node: Node, args: seq<Value>, out: map<string, seq<Value>>): map<string, seq<Value>> {
    match node
    case Both(l, r) => ExactMatches(r, args, ExactMatches(l, args, out))
    case Either(l, r) => ExactMatches(r, args, ExactMatches(l, args, out))
    case Cond(field, op, operands) =>
      match ResolveOperands(operands, args)
      case None => out
      case Some(values) =>
        if op == Eq then (if |values| == 1 then Append(out, field, values) else out)
        else if op == In then
          if |values| == 1 && IsSlicePlaceholder(operands) then Append(out, field, ExpandValue(values[0]))
          else Append(out, field, ExpandAll(values))
        else out
  }

  predicate NonEmptyOn(out: map<string, seq<Value>>, fields: set<string>) {
    out.Keys <= fields && forall f :: f in out ==> out[f] != []
  }

  lemma {:induction false} ExactMatchesWithinFields(node: Node, args: seq<Value>, out: map<string, seq<Value>>,
          fields: set<string>)
    requires NonEmptyOn(out, fields) && Fields(node) <= fields
    ensures NonEmptyOn(ExactMatches(node, args, out), fields)
    decreases node
  {
    match node
    case Both(l, r) =>
      ExactMatchesWithinFields(l, args, out, fields);
      ExactMatchesWithinFields(r, args, ExactMatches(l, args, out), fields);
    case Either(l, r) =>
      ExactMatchesWithinFields(l, args, out, fields);
      ExactMatchesWithinFields(r, args, ExactMatches(l, args, out), fields);
    case Cond(field, _, _) =>
      hide ResolveOperands, ExpandAll, ExpandValue;
      assert field in Fields(node);
  }
}
