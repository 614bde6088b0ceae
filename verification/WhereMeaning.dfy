/** What a predicate says of a row: an ordinary two-valued truth, and the conditions that cannot be decided. */
module WhereMeaning {
  import opened Values
  import opened Text
  import opened WhereLexer
  import opened WhereParser

  // ---- Values. ----

  /** A nil pointer or an untyped nil. */
  predicate IsAbsent(v: Value) { v.Nil? || v.Null? }

  /** A value that is neither a pointer nor nil. */
  predicate IsBasic(v: Value) { !v.Nil? && !v.Null? && !v.Ref? }

  predicate SameType(v: Value, u: Value) {
    match v
    case Bool(_) => u.Bool?
    case Int(_) => u.Int?
    case Float(_) => u.Float?
    case Str(_) => u.Str?
    case Time(_) => u.Time?
    case List(_, _) => u.List?
    case _ => !IsBasic(u)
  }

  /** What a pointer points to. */
  function Target(v: Value): Value { if v.Ref? then v.target else v }

  /** `i` is the real number without its fraction. */
  predicate IsWhole(f: real, i: int) {
    if f >= 0.0 then i as real <= f < i as real + 1.0 else i as real - 1.0 < f <= i as real
  }

  /** The text of one character, that of code `i`, or the replacement character if there is none. */
  predicate IsCharText(s: string, i: int) {
    |s| == 1 && s[0] as int == if 0 <= i < 0xD800 || 0xE000 <= i < 0x11_0000 then i else 0xFFFD
  }

  /** Values of different types that one conversion makes equal. */
  predicate EqualConverted(field: Value, arg: Value) {
    match (field, arg)
    case (Float(f), Int(i)) => f == i as real
    case (Int(i), Float(f)) => IsWhole(f, i)
    case (Str(s), Int(i)) => IsCharText(s, i)
    case _ => false
  }

  predicate HasConversion(field: Value, arg: Value) {
    (field.Float? && arg.Int?) || (field.Int? && arg.Float?) || (field.Str? && arg.Int?)
  }

  // ---- Single comparisons. ----

  /** `=`: nil equals nil alone; a pointer column stands for its target, unless the argument is a pointer too. */
  predicate Equals(field: Value, arg: Value) {
    if IsAbsent(arg) || IsAbsent(field) then IsAbsent(arg) && IsAbsent(field)
    else
      var actual := if arg.Ref? then field else Target(field);
      actual == arg || EqualConverted(actual, arg)
  }

  predicate IsOrdered(field: Value, arg: Value) {
    match (Target(field), Target(arg))
    case (Time(_), Time(_)) => true
    case (Int(_), Int(_)) => true
    case (Int(_), Float(_)) => true
    case (Float(_), Int(_)) => true
    case (Float(_), Float(_)) => true
    case (Str(_), Str(_)) => true
    case _ => false
  }

  /** Dictionary order: at the first difference `a` has ended or has the smaller character. */
  predicate ComesBefore(a: string, b: string) { exists k :: 0 <= k <= |a| && IsSmallerAt(a, b, k) }

  predicate IsSmallerAt(a: string, b: string, k: int) {
    0 <= k <= |a| && k < |b| && a[..k] == b[..k] && (k == |a| || a[k] < b[k])
  }

  /** An integer column is compared with the whole part of a real argument. */
  predicate IsLess(field: Value, arg: Value) {
    match (Target(field), Target(arg))
    case (Time(a), Time(b)) => a < b
    case (Int(a), Int(b)) => a < b
    case (Int(a), Float(b)) => if b >= 0.0 then a as real + 1.0 <= b else (a as real) < b
    case (Float(a), Int(b)) => a < b as real
    case (Float(a), Float(b)) => a < b
    case (Str(a), Str(b)) => ComesBefore(a, b)
    case _ => false
  }

  predicate IsGreater(field: Value, arg: Value) {
    match (Target(field), Target(arg))
    case (Time(a), Time(b)) => a > b
    case (Int(a), Int(b)) => a > b
    case (Int(a), Float(b)) => if b >= 0.0 then a as real > b else a as real - 1.0 >= b
    case (Float(a), Int(b)) => a > b as real
    case (Float(a), Float(b)) => a > b
    case (Str(a), Str(b)) => ComesBefore(b, a)
    case _ => false
  }

  predicate IsSame(field: Value, arg: Value) {
    match (Target(field), Target(arg))
    case (Int(a), Float(b)) => IsWhole(b, a)
    case (Float(a), Int(b)) => a == b as real
    case (a, b) => a == b
  }

  predicate StartsWith(s: string, part: string) { |part| <= |s| && s[..|part|] == part }

  predicate EndsWith(s: string, part: string) { |part| <= |s| && s[|s| - |part|..] == part }

  predicate HasInside(s: string, part: string) {
    exists i :: 0 <= i <= |s| && StartsWith(s[i..], part)
  }

  /** LIKE with `%` at the ends only, for a pattern without space around it. */
  predicate IsLike(s: string, pattern: string) {
    if StartsWith(pattern, "%") && EndsWith(pattern, "%") then HasInside(s, Trim(pattern, c => c == '%'))
    else if StartsWith(pattern, "%") then EndsWith(s, pattern[1..])
    else if EndsWith(pattern, "%") then StartsWith(s, pattern[..|pattern| - 1])
    else s == pattern
  }

  /** Text, a pointer to text, or a nil pointer to text. */
  predicate IsTextual(v: Value) { Target(v).Str? || v == Null(StringKind) }

  /** `_` in a pattern is not supported. */
  predicate LikeIsDecided(field: Value, arg: Value) {
    IsTextual(field) && IsTextual(arg) && (Target(field).Str? && Target(arg).Str? ==> '_' !in Target(arg).s)
  }

  /** Neither LIKE nor NOT LIKE holds of nil. */
  predicate LikeHolds(field: Value, arg: Value, wanted: bool) {
    Target(field).Str? && Target(arg).Str? && IsLike(Target(field).s, TrimSpace(Target(arg).s)) == wanted
  }

  // ---- IN over a slice. ----

  /** An element of interface type is compared as it is. */
  predicate IsElement(field: Value, elem: Value, untyped: bool) {
    field == elem || (!untyped && EqualConverted(field, elem))
  }

  predicate IsMisfit(field: Value, elem: Value, untyped: bool) {
    field != elem && (untyped || (!SameType(field, elem) && !HasConversion(field, elem)))
  }

  /** The type of the column fits that of the slice. */
  predicate FitsSlice(field: Value, arg: Value)
    requires arg.List? && arg.elems != []
  {
    var elem := arg.elems[0];
    || arg.untyped
    || (IsBasic(field) && (SameType(field, elem) || (field.Int? && (elem.Float? || elem.Str?)) ||
      (field.Float? && elem.Int?)))
  }

  predicate IsAmong(field: Value, arg: Value)
    requires arg.List?
  {
    exists k :: 0 <= k < |arg.elems| && IsElement(field, arg.elems[k], arg.untyped)
  }

  /** Decided by a hit, or by elements that all compare. */
  predicate SliceIsDecided(field: Value, arg: Value) {
    arg.List? && (arg.elems == [] || (FitsSlice(field, arg) &&
      (IsAmong(field, arg) || forall k :: 0 <= k < |arg.elems| ==> !IsMisfit(field, arg.elems[k], arg.untyped))))
  }

  predicate SliceHolds(field: Value, arg: Value) { arg.List? && IsAmong(field, arg) }

  // ---- Conditions. ----

  /** The identifier is a column of the row, or failing that the Go name of one. */
  predicate IsKnown(goFields: map<string, Column>, row: Row, name: string) {
    name in row || (name in goFields && goFields[name] in row)
  }

  function ColumnValue(goFields: map<string, Column>, row: Row, name: string): Value
    requires IsKnown(goFields, row, name)
  {
    row[if name in row then name else goFields[name]]
  }

  predicate IsGiven(operand: Operand, args: seq<Value>) { operand.Arg? ==> operand.index < |args| }

  function OperandValue(operand: Operand, args: seq<Value>): Value
    requires IsGiven(operand, args)
  {
    if operand.Arg? then args[operand.index] else operand.value
  }

  /** All operands have values, the identifier is known, and a comparison has one operand. */
  predicate IsComplete(goFields: map<string, Column>, name: string, op: Operator, operands: seq<Operand>,
          args: seq<Value>, row: Row) {
    && operands != [] && (forall k :: 0 <= k < |operands| ==> IsGiven(operands[k], args))
    && IsKnown(goFields, row, name)
    && (op != In && op != NotIn ==> |operands| == 1)
  }

  /** The operand of IN is one placeholder, which stands for a slice. */
  predicate TakesSlice(operands: seq<Operand>) { |operands| == 1 && operands[0].Arg? }

  predicate ListHolds(field: Value, operands: seq<Operand>, args: seq<Value>)
    requires forall k :: 0 <= k < |operands| ==> IsGiven(operands[k], args)
  {
    exists k :: 0 <= k < |operands| && Equals(field, OperandValue(operands[k], args))
  }

  /** The comparison makes sense for the types at hand. */
  predicate CompareIsDecided(field: Value, op: Operator, arg: Value) {
    match op
    case Eq => true
    case Ne => true
    case NeAngle => true
    case Like => LikeIsDecided(field, arg)
    case NotLike => LikeIsDecided(field, arg)
    case In => SliceIsDecided(field, arg)
    case NotIn => SliceIsDecided(field, arg)
    case _ => IsOrdered(field, arg)
  }

  predicate CompareHolds(field: Value, op: Operator, arg: Value) {
    match op
    case Eq => Equals(field, arg)
    case Ne => !Equals(field, arg)
    case NeAngle => !Equals(field, arg)
    case Lt => IsLess(field, arg)
    case Gt => IsGreater(field, arg)
    case Le => IsLess(field, arg) || IsSame(field, arg)
    case Ge => IsGreater(field, arg) || IsSame(field, arg)
    case Like => LikeHolds(field, arg, true)
    case NotLike => LikeHolds(field, arg, false)
    case In => SliceHolds(field, arg)
    case NotIn => !SliceHolds(field, arg)
  }

  predicate ConditionIsDecided(goFields: map<string, Column>, name: string, op: Operator, operands: seq<Operand>,
          args: seq<Value>, row: Row) {
    && IsComplete(goFields, name, op, operands, args, row)
    && (((op == In || op == NotIn) && !TakesSlice(operands))
      || CompareIsDecided(ColumnValue(goFields, row, name), op, OperandValue(operands[0], args)))
  }

  predicate ConditionHolds(goFields: map<string, Column>, name: string, op: Operator, operands: seq<Operand>,
          args: seq<Value>, row: Row)
    requires IsComplete(goFields, name, op, operands, args, row)
  {
    var field := ColumnValue(goFields, row, name);
    if (op == In || op == NotIn) && !TakesSlice(operands) then ListHolds(field, operands, args) <==> op == In
    else CompareHolds(field, op, OperandValue(operands[0], args))
  }

  // ---- Predicates. ----

  /** AND is conjunction, OR is disjunction. */
  predicate IsTrue(goFields: map<string, Column>, node: Node, args: seq<Value>, row: Row) {
    match node
    case Both(l, r) => IsTrue(goFields, l, args, row) && IsTrue(goFields, r, args, row)
    case Either(l, r) => IsTrue(goFields, l, args, row) || IsTrue(goFields, r, args, row)
    case Cond(name, op, operands) =>
      IsComplete(goFields, name, op, operands, args, row) && ConditionHolds(goFields, name, op, operands, args, row)
  }

  /** Reading from the left and no further than needed, a condition is reached that is not decided. */
  predicate IsStuck(goFields: map<string, Column>, node: Node, args: seq<Value>, row: Row) {
    match node
    case Both(l, r) =>
      IsStuck(goFields, l, args, row) || (IsTrue(goFields, l, args, row) && IsStuck(goFields, r, args, row))
    case Either(l, r) =>
      IsStuck(goFields, l, args, row) || (!IsTrue(goFields, l, args, row) && IsStuck(goFields, r, args, row))
    case Cond(name, op, operands) => !ConditionIsDecided(goFields, name, op, operands, args, row)
  }

  /** Some condition of the predicate is about the name. */
  predicate Mentions(node: Node, name: string) {
    match node
    case Both(l, r) => Mentions(l, name) || Mentions(r, name)
    case Either(l, r) => Mentions(l, name) || Mentions(r, name)
    case Cond(field, _, _) => field == name
  }

  /** A value in a list of IN: a slice there stands for its elements, unless it has none. */
  predicate IsListed(given: Value, v: Value) {
    if given.List? && given.elems != [] then v in given.elems else v == given
  }

  /** Some condition compares the column with the value by `=` or IN. */
  predicate Pins(node: Node, args: seq<Value>, c: string, v: Value) {
    match node
    case Both(l, r) => Pins(l, args, c, v) || Pins(r, args, c, v)
    case Either(l, r) => Pins(l, args, c, v) || Pins(r, args, c, v)
    case Cond(name, op, operands) =>
      && name == c && (forall k :: 0 <= k < |operands| ==> IsGiven(operands[k], args))
      && (|| (op == Eq && |operands| == 1 && v == OperandValue(operands[0], args))
          || (op == In && TakesSlice(operands) && OperandValue(operands[0], args).List? &&
            v in OperandValue(operands[0], args).elems)
          || (op == In && !TakesSlice(operands) &&
            exists k :: 0 <= k < |operands| && IsListed(OperandValue(operands[k], args), v)))
  }
}
