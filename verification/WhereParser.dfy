/** Predicate trees and the recursive-descent parser, as functions of the token list. */
module WhereParser {
  import opened Values
  import opened Text
  import opened WhereLexer

  datatype Operand = Arg(index: nat) | Literal(value: Value)

  datatype Node =
    | Both(left: Node, right: Node)
    | Either(left: Node, right: Node)
    | Cond(field: string, op: Operator, operands: seq<Operand>)

  /** The last dot-separated part, without surrounding space, quotes or brackets. */
  function NormalizeIdentifier(identifier: string): string {
    var whole := TrimSpace(identifier);
    if whole == "" then whole
    else
      var parts := Split(whole, '.');
      var last := Trim(TrimSpace(parts[|parts| - 1]), c => c == '\\' || c == '\"' || c == '`' || c == '\'');
      if last != "" && last[0] == '[' && last[|last| - 1] == ']' then Unbracket(last) else last
  }

  /** Drops a trailing `]`, then a leading `[`. */
  function Unbracket(s: string): string {
    var t := if s != "" && s[|s| - 1] == ']' then s[..|s| - 1] else s;
    if t != "" && t[0] == '[' then t[1..] else t
  }

  /** Outcome of a parsing function: the value, the next position and the next argument index. */
  datatype Parsed<+T> = Ok(value: T, pos: nat, arg: nat) | Err

  predicate Advances<T>(ts: seq<Token>, n: nat, pos: nat, arg: nat, r: Parsed<T>) {
    r.Ok? ==> pos < r.pos <= |ts| && arg <= r.arg <= n
  }

  function Current(ts: seq<Token>, pos: nat): Token {
    if pos < |ts| then ts[pos] else EOF
  }

  function OrAt(ts: seq<Token>, n: nat, pos: nat, arg: nat): (r: Parsed<Node>)
    requires pos <= |ts| && arg <= n
    ensures Advances(ts, n, pos, arg, r)
    decreases |ts| - pos, 4
  {
    match AndAt(ts, n, pos, arg)
    case Err => Err
    case Ok(left, p, a) => OrTail(ts, n, left, p, a)
  }

  function OrTail(ts: seq<Token>, n: nat, left: Node, pos: nat, arg: nat): (r: Parsed<Node>)
    requires pos <= |ts| && arg <= n
    ensures r.Ok? ==> pos <= r.pos <= |ts| && arg <= r.arg <= n
    decreases |ts| - pos, 3
  {
    if Current(ts, pos) != Or then Ok(left, pos, arg)
    else match AndAt(ts, n, pos + 1, arg)
      case Err => Err
      case Ok(right, p, a) => OrTail(ts, n, Either(left, right), p, a)
  }

  function AndAt(ts: seq<Token>, n: nat, pos: nat, arg: nat): (r: Parsed<Node>)
    requires pos <= |ts| && arg <= n
    ensures Advances(ts, n, pos, arg, r)
    decreases |ts| - pos, 2
  {
    match PrimaryAt(ts, n, pos, arg)
    case Err => Err
    case Ok(left, p, a) => AndTail(ts, n, left, p, a)
  }

  function AndTail(ts: seq<Token>, n: nat, left: Node, pos: nat, arg: nat): (r: Parsed<Node>)
    requires pos <= |ts| && arg <= n
    ensures r.Ok? ==> pos <= r.pos <= |ts| && arg <= r.arg <= n
    decreases |ts| - pos, 1
  {
    if Current(ts, pos) != And then Ok(left, pos, arg)
    else match PrimaryAt(ts, n, pos + 1, arg)
      case Err => Err
      case Ok(right, p, a) => AndTail(ts, n, Both(left, right), p, a)
  }

  function PrimaryAt(ts: seq<Token>, n: nat, pos: nat, arg: nat): (r: Parsed<Node>)
    requires pos <= |ts| && arg <= n
    ensures Advances(ts, n, pos, arg, r)
    decreases |ts| - pos, 0
  {
    if Current(ts, pos) == LParen then
      match OrAt(ts, n, pos + 1, arg)
      case Err => Err
      case Ok(node, p, a) => if Current(ts, p) == RParen then Ok(node, p + 1, a) else Err
    else ConditionAt(ts, n, pos, arg)
  }

  function ConditionAt(ts: seq<Token>, n: nat, pos: nat, arg: nat): (r: Parsed<Node>)
    requires pos <= |ts| && arg <= n
    ensures Advances(ts, n, pos, arg, r)
  {
    if !Current(ts, pos).Ident? then Err
    else match OperatorAt(ts, n, pos + 1, arg)
      case Err => Err
      case Ok(op, p, a) =>
        match OperandsAt(ts, n, op, p, a)
        case Err => Err
        case Ok(operands, p', a') => Ok(Cond(NormalizeIdentifier(ts[pos].name), op, operands), p', a')
  }

  function OperatorAt(ts: seq<Token>, n: nat, pos: nat, arg: nat): (r: Parsed<Operator>)
    requires pos <= |ts| && arg <= n
    ensures Advances(ts, n, pos, arg, r)
  {
    if Current(ts, pos) == Not then
      if Current(ts, pos + 1) == Op(Like) then Ok(NotLike, pos + 2, arg)
      else if Current(ts, pos + 1) == Op(In) then Ok(NotIn, pos + 2, arg)
      else Err
    else if Current(ts, pos).Op? then Ok(ts[pos].op, pos + 1, arg)
    else Err
  }

  function OperandsAt(ts: seq<Token>, n: nat, op: Operator, pos: nat, arg: nat): (r: Parsed<seq<Operand>>)
    requires pos <= |ts| && arg <= n
    ensures Advances(ts, n, pos, arg, r)
  {
    if op == In || op == NotIn then
      if Current(ts, pos) != LParen then Err
      else match OperandListAt(ts, n, [], pos + 1, arg)
        case Err => Err
        case Ok(operands, p, a) => if Current(ts, p) == RParen then Ok(operands, p + 1, a) else Err
    else match OperandAt(ts, n, pos, arg)
      case Err => Err
      case Ok(operand, p, a) => Ok([operand], p, a)
  }

  /** The comma loop of IN, with the operands read so far. */
  function OperandListAt(ts: seq<Token>, n: nat, read: seq<Operand>, pos: nat, arg: nat): (r: Parsed<seq<Operand>>)
    requires pos <= |ts| && arg <= n
    ensures Advances(ts, n, pos, arg, r)
    decreases |ts| - pos
  {
    match OperandAt(ts, n, pos, arg)
    case Err => Err
    case Ok(operand, p, a) =>
      if Current(ts, p) == Comma then OperandListAt(ts, n, read + [operand], p + 1, a)
      else Ok(read + [operand], p, a)
  }

  function OperandAt(ts: seq<Token>, n: nat, pos: nat, arg: nat): (r: Parsed<Operand>)
    requires pos <= |ts| && arg <= n
    ensures Advances(ts, n, pos, arg, r)
  {
    match Current(ts, pos)
    case Hole => if arg < n then Ok(Arg(arg), pos + 1, arg + 1) else Err
    case Lit(v) => Ok(Literal(v), pos + 1, arg)
    case _ => Err
  }

  /** The whole clause: everything must be consumed and every argument used. */
  function ParseTokens(ts: seq<Token>, n: nat): Option<Node> {
    match OrAt(ts, n, 0, 0)
    case Err => None
    case Ok(node, p, a) => if Current(ts, p) == EOF && a == n then Some(node) else None
  }

  datatype QueryParams = QueryParams(where: string, args: seq<Value>, order: string, preloads: seq<string>,
    includeDeleted: bool)

  /** `NoCondition` is the predicate of a blank WHERE clause; `Invalid` a clause outside the supported grammar. */
  datatype Predicate = NoCondition | Root(node: Node) | Invalid

  function ParseWhere(where: string, n: nat): Predicate {
    var text := TrimSpace(where);
    if text == "" then NoCondition
    else
      match Tokenize(text)
      case None => Invalid
      case Some(ts) => (match ParseTokens(ts, n) case None => Invalid case Some(node) => Root(node))
  }

  function ParseQuery(params: QueryParams): Predicate {
    ParseWhere(params.where, |params.args|)
  }

  /** The parser of the source: a cursor over the tokens and a counter of the arguments handed out. */
  class PredicateParser {
    const tokens: seq<Token>
    const argCount: nat
    var pos: nat
    var argIndex: nat

    constructor (tokens: seq<Token>, argCount: nat)
      ensures this.tokens == tokens && this.argCount == argCount && pos == 0 && argIndex == 0
    {
      this.tokens, this.argCount, pos, argIndex := tokens, argCount, 0, 0;
    }

    ghost predicate Valid()
      reads this
    {
      pos <= |tokens| && argIndex <= argCount
    }

    /** What a parsing method did: failed exactly when the specification does, or returned its
        value and moved both cursors to where it stops. */
    ghost predicate Did<T(!new)>(spec: Parsed<T>, out: Option<T>)
      reads this
    {
      match out
      case None => spec == Err
      case Some(value) => spec == Ok(value, pos, argIndex)
    }

    method Match(token: Token) returns (matched: bool)
      requires Valid() && token != EOF
      modifies this`pos
      ensures Valid() && matched == (old(Current(tokens, pos)) == token)
      ensures pos == old(pos) + (if matched then 1 else 0)
    {
      matched := Current(tokens, pos) == token;
      if matched { pos := pos + 1; }
    }

    method ParseOr() returns (node: Option<Node>)
      requires Valid()
      modifies this
      ensures Valid() && Did(old(OrAt(tokens, argCount, pos, argIndex)), node)
      decreases |tokens| - pos, 3
    {
      ghost var spec := OrAt(tokens, argCount, pos, argIndex);
      var first := ParseAnd();
      if first.None? { return None; }
      var left := first.value;
      while true
        invariant Valid() && pos > old(pos)
        invariant spec == OrTail(tokens, argCount, left, pos, argIndex)
        decreases |tokens| - pos
      {
        var more := Match(Or);
        if !more { return Some(left); }
        var right := ParseAnd();
        if right.None? { return None; }
        left := Either(left, right.value);
      }
    }

    method ParseAnd() returns (node: Option<Node>)
      requires Valid()
      modifies this
      ensures Valid() && Did(old(AndAt(tokens, argCount, pos, argIndex)), node)
      decreases |tokens| - pos, 2
    {
      ghost var spec := AndAt(tokens, argCount, pos, argIndex);
      var first := ParsePrimary();
      if first.None? { return None; }
      var left := first.value;
      while true
        invariant Valid() && pos > old(pos)
        invariant spec == AndTail(tokens, argCount, left, pos, argIndex)
        decreases |tokens| - pos
      {
        var more := Match(And);
        if !more { return Some(left); }
        var right := ParsePrimary();
        if right.None? { return None; }
        left := Both(left, right.value);
      }
    }

    method ParsePrimary() returns (node: Option<Node>)
      requires Valid()
      modifies this
      ensures Valid() && Did(old(PrimaryAt(tokens, argCount, pos, argIndex)), node)
      decreases |tokens| - pos, 1
    {
      var open := Match(LParen);
      if !open {
        node := ParseCondition();
        return;
      }
      node := ParseOr();
      if node.None? { return; }
      var close := Match(RParen);
      if !close { return None; }
    }

    method ParseCondition() returns (node: Option<Node>)
      requires Valid()
      modifies this
      ensures Valid() && Did(old(ConditionAt(tokens, argCount, pos, argIndex)), node)
    {
      var fieldToken := Current(tokens, pos);
      if !fieldToken.Ident? { return None; }
      pos := pos + 1;
      var op := ParseOperator();
      if op.None? { return None; }
      var operands := ParseOperands(op.value);
      if operands.None? { return None; }
      return Some(Cond(NormalizeIdentifier(fieldToken.name), op.value, operands.value));
    }

    method ParseOperator() returns (op: Option<Operator>)
      requires Valid()
      modifies this`pos
      ensures Valid() && Did(old(OperatorAt(tokens, argCount, pos, argIndex)), op)
    {
      var token := Current(tokens, pos);
      if token == Not {
        pos := pos + 1;
        var next := Current(tokens, pos);
        if next != Op(Like) && next != Op(In) { return None; }
        pos := pos + 1;
        return Some(if next == Op(Like) then NotLike else NotIn);
      }
      if !token.Op? { return None; }
      pos := pos + 1;
      return Some(token.op);
    }

    method ParseOperands(op: Operator) returns (operands: Option<seq<Operand>>)
      requires Valid()
      modifies this
      ensures Valid() && Did(old(OperandsAt(tokens, argCount, op, pos, argIndex)), operands)
    {
      if op != In && op != NotIn {
        var only := ParseOperand();
        return if only.None? then None else Some([only.value]);
      }
      var open := Match(LParen);
      if !open { return None; }
      var read: seq<Operand> := [];
      ghost var spec := OperandListAt(tokens, argCount, [], pos, argIndex);
      while true
        invariant Valid() && pos > old(pos)
        invariant spec == OperandListAt(tokens, argCount, read, pos, argIndex)
        decreases |tokens| - pos
      {
        var operand := ParseOperand();
        if operand.None? { return None; }
        read := read + [operand.value];
        var comma := Match(Comma);
        if !comma { break; }
      }
      assert spec == Ok(read, pos, argIndex);
      var close := Match(RParen);
      if !close { return None; }
      return Some(read);
    }

    method ParseOperand() returns (operand: Option<Operand>)
      requires Valid()
      modifies this
      ensures Valid() && Did(old(OperandAt(tokens, argCount, pos, argIndex)), operand)
    {
      match Current(tokens, pos)
      case Hole =>
        pos := pos + 1;
        if argIndex >= argCount { return None; }
        argIndex := argIndex + 1;
        return Some(Arg(argIndex - 1));
      case Lit(v) =>
        pos := pos + 1;
        return Some(Literal(v));
      case _ =>
        return None;
    }
  }

  /** `parseQueryPredicate`. */
  method ParseQueryPredicate(params: QueryParams) returns (predicate_: Predicate)
    ensures predicate_ == ParseQuery(params)
  {
    var text := TrimSpace(params.where);
    if text == "" { return NoCondition; }
    var tokens := TokenizeWhere(text);
    if tokens.None? { return Invalid; }
    var parser := new PredicateParser(tokens.value, |params.args|);
    var root := parser.ParseOr();
    if root.None? || Current(parser.tokens, parser.pos) != EOF || parser.argIndex != |params.args| { return Invalid; }
    return Root(root.value);
  }
}
