/** The matcher computes the truth of a predicate, and fails exactly where it is not decided. */
module WhereTruth {
  import opened Values
  import opened Text
  import opened WhereLexer
  import opened WhereParser
  import opened WhereMatch
  import opened WhereMeaning

  // ---- Conversions and equality. ----

  lemma TruncateMeans(f: real, i: int)
    ensures Truncate(f) == i <==> IsWhole(f, i)
  {
  }

  lemma RuneMeans(s: string, i: int)
    ensures s == [Rune(i)] <==> IsCharText(s, i)
  {
  }

  lemma KindMeans(v: Value, u: Value)
    ensures KindOf(v).Some? <==> IsBasic(v)
    ensures KindOf(v) == KindOf(u) <==> SameType(v, u)
  {
  }

  /** Converting the argument to the column's type gives the column's value exactly if the two are equal. */
  lemma ConvertMeans(field: Value, arg: Value)
    requires IsBasic(field)
    ensures KindOf(field).Some?
    ensures var c := Convert(arg, KindOf(field).value);
      && (SameType(field, arg) ==> c == Some(arg))
      && (!SameType(field, arg) ==> (c.Some? <==> HasConversion(field, arg)))
      && (!SameType(field, arg) && c.Some? ==> (c.value == field <==> EqualConverted(field, arg)))
  {
    hide Truncate, Rune, IsWhole, IsCharText;
    if field.Int? && arg.Float? { TruncateMeans(arg.f, field.i); }
    if field.Str? && arg.Int? { RuneMeans(field.s, arg.i); }
  }

  lemma EqualsMeans(field: Value, arg: Value)
    ensures MatchEq(field, arg) == Verdict(Equals(field, arg))
  {
    hide Convert, EqualConverted;
    if IsAbsent(field) || IsAbsent(arg) { return; }
    var actual := if arg.Ref? then field else Deref(field);
    KindMeans(actual, arg);
    if IsBasic(actual) { ConvertMeans(actual, arg); }
    ConvertedAreBasic(actual, arg);
  }

  lemma ConvertedAreBasic(field: Value, arg: Value)
    ensures EqualConverted(field, arg) ==> HasConversion(field, arg) && IsBasic(field) && !SameType(field, arg)
  {
  }

  // ---- Order. ----

  lemma {:induction false} StringLessMeans(a: string, b: string)
    ensures StringLess(a, b) <==> ComesBefore(a, b)
    decreases |a|
  {
    if b == "" { return; }
    if a == "" || a[0] < b[0] {
      assert a[..0] == b[..0];
      assert IsSmallerAt(a, b, 0);
    } else {
      BeforeUnfolds(a, b);
      StringLessMeans(a[1..], b[1..]);
    }
  }

  lemma BeforeUnfolds(a: string, b: string)
    requires a != "" && b != "" && !(a[0] < b[0])
    ensures ComesBefore(a, b) <==> a[0] == b[0] && ComesBefore(a[1..], b[1..])
  {
    if k :| 0 <= k <= |a| && IsSmallerAt(a, b, k) {
      assert a[0] == a[..k][0] == b[..k][0] == b[0];
      assert a[1..][..k - 1] == a[..k][1..] == b[..k][1..] == b[1..][..k - 1];
      assert IsSmallerAt(a[1..], b[1..], k - 1);
    }
    if k :| a[0] == b[0] && 0 <= k <= |a[1..]| && IsSmallerAt(a[1..], b[1..], k) {
      assert a[..k + 1] == [a[0]] + a[1..][..k] == [b[0]] + b[1..][..k] == b[..k + 1];
      assert IsSmallerAt(a, b, k + 1);
    }
  }

  lemma {:induction false} StringsCompare(a: string, b: string)
    ensures StringLess(b, a) <==> !StringLess(a, b) && a != b
    decreases |a|
  {
    if a != "" && b != "" {
      StringsCompare(a[1..], b[1..]);
      assert a == [a[0]] + a[1..] && b == [b[0]] + b[1..];
    }
  }

  /** Of two comparable values exactly one comes first, or they are the same. */
  lemma ValuesCompare(field: Value, arg: Value)
    requires IsOrdered(field, arg)
    ensures IsGreater(field, arg) <==> !IsLess(field, arg) && !IsSame(field, arg)
    ensures !(IsLess(field, arg) && IsSame(field, arg))
  {
    hide ComesBefore, StringLess;
    if Target(field).Str? {
      var a, b := Target(field).s, Target(arg).s;
      StringLessMeans(a, b);
      StringLessMeans(b, a);
      StringsCompare(a, b);
      StringsCompare(b, a);
    }
  }

  lemma WholeOrderIs(field: Value, arg: Value, op: Operator)
    requires Target(field).Int? && Target(arg).Float?
    ensures CompareValues(field, arg, op) == ByOrder(op, IsLess(field, arg), IsSame(field, arg))
  {
    hide Truncate, IsWhole, ByOrder;
    TruncateMeans(Target(arg).f, Target(field).i);
    WholeOrder(Target(field).i, Target(arg).f);
  }

  lemma TextOrderIs(field: Value, arg: Value, op: Operator)
    requires Target(field).Str? && Target(arg).Str?
    ensures CompareValues(field, arg, op) == ByOrder(op, IsLess(field, arg), IsSame(field, arg))
  {
    hide ComesBefore, StringLess, ByOrder;
    StringLessMeans(Target(field).s, Target(arg).s);
  }

  lemma NumberOrderIs(field: Value, arg: Value, op: Operator)
    requires IsOrdered(field, arg) && !Target(field).Str? && !(Target(field).Int? && Target(arg).Float?)
    ensures CompareValues(field, arg, op) == ByOrder(op, IsLess(field, arg), IsSame(field, arg))
  {
    hide ByOrder, ComesBefore, StringLess, Truncate, IsWhole;
  }

  lemma OrderIs(field: Value, arg: Value, op: Operator)
    ensures CompareValues(field, arg, op) ==
      if IsOrdered(field, arg) then ByOrder(op, IsLess(field, arg), IsSame(field, arg)) else MatchError
  {
    hide ByOrder, ComesBefore, StringLess, Truncate, IsWhole;
    if Target(field).Int? && Target(arg).Float? {
      hide CompareValues, IsLess, IsSame;
      WholeOrderIs(field, arg, op);
    } else if Target(field).Str? && Target(arg).Str? {
      hide CompareValues, IsLess, IsSame;
      TextOrderIs(field, arg, op);
    } else if IsOrdered(field, arg) {
      NumberOrderIs(field, arg, op);
    } else {
      hide IsLess, IsSame;
    }
  }

  lemma OrderMeans(field: Value, arg: Value, op: Operator)
    requires op in {Lt, Gt, Le, Ge}
    ensures CompareValues(field, arg, op) ==
      if IsOrdered(field, arg) then Verdict(CompareHolds(field, op, arg)) else MatchError
  {
    hide CompareValues, IsOrdered, IsLess, IsSame, IsGreater;
    OrderIs(field, arg, op);
    if IsOrdered(field, arg) { ValuesCompare(field, arg); }
  }

  lemma WholeOrder(a: int, b: real)
    ensures a < Truncate(b) <==> if b >= 0.0 then a as real + 1.0 <= b else (a as real) < b
    ensures a > Truncate(b) <==> if b >= 0.0 then a as real > b else a as real - 1.0 >= b
  {
  }

  // ---- LIKE. ----

  lemma {:induction false} ContainsMeans(s: string, part: string)
    ensures Contains(s, part) <==> HasInside(s, part)
    decreases |s|
  {
    assert s[0..] == s && (part <= s <==> StartsWith(s, part));
    if s == "" {
      assert part <= s <==> part == "";
    } else {
      ContainsMeans(s[1..], part);
      assert forall i :: 1 <= i <= |s| ==> s[1..][i - 1..] == s[i..];
      assert forall i :: 0 <= i <= |s| - 1 ==> s[1..][i..] == s[i + 1..];
    }
  }

  lemma LikeMeans(s: string, raw: string)
    ensures LikePattern(s, raw) == if '_' in raw then MatchError else Verdict(IsLike(s, TrimSpace(raw)))
  {
    hide Trim, HasInside, Contains, TrimSpace;
    var pattern := TrimSpace(raw);
    assert "%" <= pattern <==> StartsWith(pattern, "%");
    ContainsMeans(s, Trim(pattern, c => c == '%'));
    assert pattern != "" ==> (pattern[..|pattern| - 1] <= s <==> StartsWith(s, pattern[..|pattern| - 1]));
  }

  lemma MatchLikeMeans(field: Value, arg: Value, negated: bool)
    ensures MatchLike(field, arg, negated) ==
      if LikeIsDecided(field, arg) then Verdict(LikeHolds(field, arg, !negated)) else MatchError
  {
    hide LikePattern, IsLike, TrimSpace;
    if Deref(field).Str? && Deref(arg).Str? { LikeMeans(Deref(field).s, Deref(arg).s); }
  }

  /** Text without wildcards and without space at its ends. */
  predicate IsPlainText(p: string) {
    p != "" && '_' !in p && '%' !in p && !IsSpace(p[0]) && !IsSpace(p[|p| - 1])
  }

  lemma PatternKept(p: string, pattern: string)
    requires IsPlainText(p) && pattern in {p, p + "%", "%" + p, "%" + p + "%"}
    ensures TrimSpace(pattern) == pattern && '_' !in pattern
  {
    TrimKeeps(pattern, IsSpace);
  }

  /** `p%` asks for a prefix, `%p` for a suffix, `%p%` for a part, and `p` for the text itself. */
  lemma PlainPatterns(s: string, p: string)
    requires IsPlainText(p)
    ensures LikePattern(s, p + "%") == Verdict(StartsWith(s, p))
    ensures LikePattern(s, "%" + p) == Verdict(EndsWith(s, p))
    ensures LikePattern(s, "%" + p + "%") == Verdict(HasInside(s, p))
    ensures LikePattern(s, p) == Verdict(s == p)
  {
    hide Trim, HasInside, Contains, TrimSpace, LikePattern;
    PatternKept(p, p);
    PatternKept(p, p + "%");
    PatternKept(p, "%" + p);
    PatternKept(p, "%" + p + "%");
    LikeMeans(s, p);
    LikeMeans(s, p + "%");
    LikeMeans(s, "%" + p);
    LikeMeans(s, "%" + p + "%");
    assert p[0] in p && p[|p| - 1] in p;
    assert (p + "%")[..|p|] == p && (p + "%")[|p|..] == "%" && (p + "%")[0] == p[0];
    assert ("%" + p)[1..] == p && ("%" + p)[|p|] == p[|p| - 1];
    var both := "%" + p + "%";
    assert both[..1] == "%" && both[|p| + 1..] == "%" && both[1..|p| + 1] == p;
    TrimIs(both, c => c == '%', 1, |p| + 1);
  }

  // ---- IN. ----

  lemma ElementMeans(field: Value, elem: Value, untyped: bool)
    ensures InHit(field, elem, untyped) <==> IsElement(field, elem, untyped)
    ensures InFailure(field, elem, untyped) <==> IsMisfit(field, elem, untyped)
  {
    hide Convert, EqualConverted;
    KindMeans(field, elem);
    KindMeans(elem, field);
    ConvertedAreBasic(field, elem);
    if IsBasic(field) { ConvertMeans(field, elem); }
  }

  lemma FitsMeans(field: Value, arg: Value)
    requires arg.List? && arg.elems != []
    ensures InComparable(field, arg) <==> FitsSlice(field, arg)
  {
    KindMeans(field, arg.elems[0]);
  }

  lemma SliceMeans(field: Value, arg: Value)
    ensures MatchIn(field, arg) ==
      if SliceIsDecided(field, arg) then Verdict(SliceHolds(field, arg)) else MatchError
  {
    hide InHit, InFailure, IsElement, IsMisfit, InComparable, FitsSlice;
    if arg.List? && arg.elems != [] {
      FitsMeans(field, arg);
      forall k | 0 <= k < |arg.elems|
        ensures InHit(field, arg.elems[k], arg.untyped) <==> IsElement(field, arg.elems[k], arg.untyped)
        ensures InFailure(field, arg.elems[k], arg.untyped) <==> IsMisfit(field, arg.elems[k], arg.untyped)
      {
        ElementMeans(field, arg.elems[k], arg.untyped);
      }
    }
  }

  // ---- Conditions. ----

  lemma CompareMeans(goFields: map<string, Column>, row: Row, name: string, op: Operator, arg: Value)
    ensures MatchCondition(goFields, row, name, op, arg) ==
      if IsKnown(goFields, row, name) && CompareIsDecided(ColumnValue(goFields, row, name), op, arg)
      then Verdict(CompareHolds(ColumnValue(goFields, row, name), op, arg)) else MatchError
  {
    hide MatchEq, CompareValues, MatchLike, MatchIn, Equals, IsLess, IsGreater, IsSame, LikeHolds, SliceHolds,
      LikeIsDecided, SliceIsDecided, IsOrdered;
    if IsKnown(goFields, row, name) {
      var field := ColumnValue(goFields, row, name);
      EqualsMeans(field, arg);
      MatchLikeMeans(field, arg, false);
      MatchLikeMeans(field, arg, true);
      SliceMeans(field, arg);
      if op in {Lt, Gt, Le, Ge} { OrderMeans(field, arg, op); }
    }
  }

  /** The values of the operands, or none if one has no value. */
  lemma {:induction false} ResolveMeans(operands: seq<Operand>, args: seq<Value>)
    ensures ResolveOperands(operands, args).Some? <==> forall k :: 0 <= k < |operands| ==> IsGiven(operands[k], args)
    ensures ResolveOperands(operands, args).Some? ==>
      && |ResolveOperands(operands, args).value| == |operands|
      && forall k :: 0 <= k < |operands| ==>
        IsGiven(operands[k], args) && ResolveOperands(operands, args).value[k] == OperandValue(operands[k], args)
    decreases |operands|
  {
    if operands != [] {
      var rest := operands[1..];
      ResolveMeans(rest, args);
      assert forall k :: 0 < k < |operands| ==> rest[k - 1] == operands[k];
      assert forall k :: 0 <= k < |rest| ==> rest[k] == operands[k + 1];
    }
  }

  lemma {:induction false} AnyMeans(goFields: map<string, Column>, row: Row, name: string, values: seq<Value>)
    requires values != []
    ensures MatchAny(goFields, row, name, values) ==
      if IsKnown(goFields, row, name)
      then Verdict(exists k :: 0 <= k < |values| && Equals(ColumnValue(goFields, row, name), values[k])) else MatchError
    decreases |values|
  {
    hide MatchCondition, Equals;
    CompareMeans(goFields, row, name, Eq, values[0]);
    var rest := values[1..];
    assert forall k :: 0 < k < |values| ==> rest[k - 1] == values[k];
    if rest == [] {
      assert |values| == 1;
    } else {
      AnyMeans(goFields, row, name, rest);
      assert forall k :: 0 <= k < |rest| ==> rest[k] == values[k + 1];
    }
  }

  lemma ConditionMeans(goFields: map<string, Column>, name: string, op: Operator, operands: seq<Operand>,
          args: seq<Value>, row: Row)
    ensures Match(goFields, Cond(name, op, operands), args, row) ==
      if ConditionIsDecided(goFields, name, op, operands, args, row)
      then Verdict(ConditionHolds(goFields, name, op, operands, args, row)) else MatchError
  {
    hide MatchCondition, MatchAny, ResolveOperands, CompareIsDecided, CompareHolds, Equals, IsKnown;
    ResolveMeans(operands, args);
    var values := ResolveOperands(operands, args);
    if values.Some? && operands != [] {
      AnyMeans(goFields, row, name, values.value);
      CompareMeans(goFields, row, name, op, values.value[0]);
    }
  }

  // ---- Predicates. ----

  /** For every predicate, arguments and row the matcher fails exactly if it gets stuck, and gives the truth value
      otherwise. */
  lemma {:induction false} MatchMeans(goFields: map<string, Column>, node: Node, args: seq<Value>, row: Row)
    ensures Match(goFields, node, args, row) ==
      if IsStuck(goFields, node, args, row) then MatchError else Verdict(IsTrue(goFields, node, args, row))
    decreases node
  {
    match node
    case Both(l, r) => MatchMeans(goFields, l, args, row); MatchMeans(goFields, r, args, row);
    case Either(l, r) => MatchMeans(goFields, l, args, row); MatchMeans(goFields, r, args, row);
    case Cond(name, op, operands) =>
      ConditionMeans(goFields, name, op, operands, args, row);
      hide ConditionIsDecided, ConditionHolds, ResolveOperands, IsComplete, MatchCondition, MatchAny;
      DecidedIsComplete(goFields, name, op, operands, args, row);
  }

  lemma DecidedIsComplete(goFields: map<string, Column>, name: string, op: Operator, operands: seq<Operand>,
          args: seq<Value>, row: Row)
    ensures ConditionIsDecided(goFields, name, op, operands, args, row) ==>
      IsComplete(goFields, name, op, operands, args, row)
  {
  }

  /** The columns collected are those the predicate is about. */
  lemma {:induction false} FieldsMean(node: Node, name: string)
    ensures name in Fields(node) <==> Mentions(node, name)
    decreases node
  {
    if !node.Cond? {
      FieldsMean(node.left, name);
      FieldsMean(node.right, name);
    }
  }

  // ---- Exact-match values. ----

  predicate IsRecorded(out: map<string, seq<Value>>, name: string, v: Value) { name in out && v in out[name] }

  lemma {:induction false} ExpandAllMeans(values: seq<Value>, v: Value)
    ensures v in ExpandAll(values) <==> exists k :: 0 <= k < |values| && IsListed(values[k], v)
    decreases |values|
  {
    if values != [] {
      var rest := values[1..];
      ExpandAllMeans(rest, v);
      assert forall k :: 0 < k < |values| ==> rest[k - 1] == values[k];
      assert forall k :: 0 <= k < |rest| ==> rest[k] == values[k + 1];
    }
  }

  lemma ConditionPins(name: string, op: Operator, operands: seq<Operand>, args: seq<Value>,
          out: map<string, seq<Value>>, c: string, v: Value)
    ensures IsRecorded(ExactMatches(Cond(name, op, operands), args, out), c, v) <==>
      IsRecorded(out, c, v) || Pins(Cond(name, op, operands), args, c, v)
  {
    hide ResolveOperands, ExpandAll;
    ResolveMeans(operands, args);
    var values := ResolveOperands(operands, args);
    if values.Some? {
      ExpandAllMeans(values.value, v);
      assert forall k :: 0 <= k < |operands| ==> values.value[k] == OperandValue(operands[k], args);
    }
  }

  /** The values recorded for a column are exactly those the predicate compares it with by `=` or IN. */
  lemma {:induction false} ExactMatchesMean(node: Node, args: seq<Value>, out: map<string, seq<Value>>, c: string,
          v: Value)
    ensures IsRecorded(ExactMatches(node, args, out), c, v) <==> IsRecorded(out, c, v) || Pins(node, args, c, v)
    decreases node
  {
    hide IsRecorded;
    match node
    case Both(l, r) =>
      ExactMatchesMean(l, args, out, c, v);
      ExactMatchesMean(r, args, ExactMatches(l, args, out), c, v);
    case Either(l, r) =>
      ExactMatchesMean(l, args, out, c, v);
      ExactMatchesMean(r, args, ExactMatches(l, args, out), c, v);
    case Cond(name, op, operands) => ConditionPins(name, op, operands, args, out, c, v);
  }
}
