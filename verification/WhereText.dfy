/** Printing a predicate as text and compiling the text gives the predicate back. */
module WhereText {
  import opened Values
  import opened Text
  import opened WhereLexer
  import opened WhereWords
  import opened WhereParser
  import opened WhereGrammar

  // ---- The text of a token. ----

  /** Doubles the quotes of a string literal. */
  function Escaped(s: string): string {
    if s == "" then "" else (if s[0] == '\'' then "''" else [s[0]]) + Escaped(s[1..])
  }

  function LiteralText(v: Value): string {
    match v
    case Bool(b) => if b then "TRUE" else "FALSE"
    case Int(i) => if i < 0 then "-" + Itoa(-i) else Itoa(i)
    case Str(s) => "'" + (Escaped(s) + "'")
    case _ => "NULL"
  }

  function OperatorText(op: Operator): string {
    match op
    case Eq => "="
    case Ne => "!="
    case NeAngle => "<>"
    case Lt => "<"
    case Gt => ">"
    case Le => "<="
    case Ge => ">="
    case Like => "LIKE"
    case In => "IN"
    case _ => ""
  }

  function TokenText(t: Token): string {
    match t
    case Ident(name) => name
    case Op(op) => OperatorText(op)
    case Hole => "?"
    case Lit(v) => LiteralText(v)
    case And => "AND"
    case Or => "OR"
    case Not => "NOT"
    case LParen => "("
    case RParen => ")"
    case Comma => ","
    case EOF => ""
  }

  /** Literals that have a text: floats have none that is sure to be read back. */
  predicate WritableValue(v: Value) {
    v.Bool? || v.Str? || v == Nil || (v.Int? && MIN_INT64 <= v.i <= MAX_INT64)
  }

  predicate Writable(t: Token) {
    match t
    case Ident(name) => IsQuoted(name)
    case Op(op) => op != NotLike && op != NotIn
    case Lit(v) => WritableValue(v)
    case EOF => false
    case _ => true
  }

  predicate AllWritable(ts: seq<Token>) { forall k :: 0 <= k < |ts| ==> Writable(ts[k]) }

  /** The tokens with blanks between them. */
  function Spell(ts: seq<Token>): string {
    if ts == [] then "" else if |ts| == 1 then TokenText(ts[0]) else TokenText(ts[0]) + (" " + Spell(ts[1..]))
  }

  // ---- Each token is read back. ----

  predicate Apart(rest: string) { rest == "" || rest[0] == ' ' }

  lemma {:induction false} EscapedReads(s: string, rest: string)
    requires rest == "" || rest[0] != '\''
    ensures StringTail(Escaped(s) + ("'" + rest)) == Some((s, |Escaped(s)| + 1))
    decreases |s|
  {
    var all := Escaped(s) + ("'" + rest);
    if s == "" {
      assert all == "'" + rest;
    } else {
      EscapedReads(s[1..], rest);
      var tail := Escaped(s[1..]) + ("'" + rest);
      if s[0] == '\'' {
        assert all == "''" + tail;
        assert all[2..] == tail;
      } else {
        assert all == [s[0]] + tail;
        assert all[1..] == tail;
      }
      assert [s[0]] + s[1..] == s;
    }
  }

  lemma StringReads(s: string, rest: string)
    requires Apart(rest)
    ensures var text := LiteralText(Str(s)); Step(text + rest) == Emit(Lit(Str(s)), |text|)
  {
    hide StringTail, Escaped;
    EscapedReads(s, rest);
    var text := LiteralText(Str(s));
    assert (text + rest)[0] == '\'' && (text + rest)[1..] == Escaped(s) + ("'" + rest);
  }

  lemma DigitsParse(digits: string, n: nat)
    requires digits != "" && AllDigits(digits) && DigitsValue(digits) == n
    ensures n <= MAX_INT64 ==> ParseInt(digits) == Some(n)
    ensures 0 - n >= MIN_INT64 ==> ParseInt("-" + digits) == Some(0 - n)
  {
    hide DigitsValue;
    assert '0' <= digits[0] <= '9';
    assert ("-" + digits)[1..] == digits && ("-" + digits)[0] == '-';
  }

  lemma NumberParses(i: int)
    requires MIN_INT64 <= i <= MAX_INT64
    ensures var word := LiteralText(Int(i));
      ParseInt(word) == Some(i) && word != "" && forall k :: 0 <= k < |word| ==> word[k] == '-' || '0' <= word[k] <= '9'
  {
    hide Itoa, DigitsValue, ParseInt;
    var n: nat := if i < 0 then -i else i;
    ItoaReads(n);
    DigitsParse(Itoa(n), n);
  }

  lemma NumberClassified(word: string, i: int)
    requires word != "" && (word[0] == '-' || '0' <= word[0] <= '9') && ToUpper(word) == word &&
      ParseInt(word) == Some(i)
    ensures ClassifyWord(word) == Lit(Int(i))
  {
    hide ToUpper, ParseInt;
    assert word !in {"AND", "OR", "NOT", "LIKE", "IN", "TRUE", "FALSE", "NULL"};
  }

  lemma NumberReads(i: int, rest: string)
    requires MIN_INT64 <= i <= MAX_INT64 && Apart(rest)
    ensures var text := LiteralText(Int(i)); Step(text + rest) == Emit(Lit(Int(i)), |text|)
  {
    hide Itoa, ClassifyWord, ParseInt, Step, LiteralText, ToUpper;
    var word := LiteralText(Int(i));
    NumberParses(i);
    UpperFixed(word);
    NumberClassified(word, i);
    WordReads(word, rest);
  }

  lemma SymbolReads(op: Operator, rest: string)
    requires op in {Eq, Ne, NeAngle, Lt, Gt, Le, Ge} && Apart(rest)
    ensures Step(OperatorText(op) + rest) == Emit(Op(op), |OperatorText(op)|)
  {
    var s := OperatorText(op) + rest;
    assert s[0] == OperatorText(op)[0];
    if |OperatorText(op)| == 2 { assert s[1] == OperatorText(op)[1]; } else { assert rest != "" ==> s[1] == ' '; }
  }

  lemma LiteralReads(v: Value, rest: string)
    requires WritableValue(v) && Apart(rest)
    ensures LiteralText(v) != "" && Step(LiteralText(v) + rest) == Emit(Lit(v), |LiteralText(v)|)
  {
    hide ClassifyWord, Step, Itoa, Escaped, ParseInt;
    if v.Str? {
      StringReads(v.s, rest);
    } else if v.Int? {
      NumberParses(v.i);
      NumberReads(v.i, rest);
    } else {
      ConstantsClassified();
      WordReads(LiteralText(v), rest);
    }
  }

  lemma OperatorReads(op: Operator, rest: string)
    requires op != NotLike && op != NotIn && Apart(rest)
    ensures OperatorText(op) != "" && Step(OperatorText(op) + rest) == Emit(Op(op), |OperatorText(op)|)
  {
    hide ClassifyWord, Step;
    if op == Like || op == In {
      ConnectivesClassified();
      WordReads(OperatorText(op), rest);
    } else {
      SymbolReads(op, rest);
    }
  }

  lemma ConnectiveReads(t: Token, rest: string)
    requires (t == And || t == Or || t == Not) && Apart(rest)
    ensures TokenText(t) != "" && Step(TokenText(t) + rest) == Emit(t, |TokenText(t)|)
  {
    hide ClassifyWord, Step;
    ConnectivesClassified();
    WordReads(TokenText(t), rest);
  }

  /** A token followed by a blank or the end is read back. */
  lemma TokenReads(t: Token, rest: string)
    requires Writable(t) && Apart(rest)
    ensures TokenText(t) != "" && Step(TokenText(t) + rest) == Emit(t, |TokenText(t)|)
  {
    if t == Hole || t == LParen || t == RParen || t == Comma { return; }
    hide Step, LiteralText, OperatorText, WritableValue;
    match t
    case Ident(name) => QuotedReads(name, rest);
    case Lit(v) => LiteralReads(v, rest);
    case Op(op) => OperatorReads(op, rest);
    case _ => ConnectiveReads(t, rest);
  }

  lemma SpellUnfolds(ts: seq<Token>)
    requires ts != []
    ensures Spell(ts) == TokenText(ts[0]) + (if |ts| == 1 then "" else " " + Spell(ts[1..]))
    ensures ts == [ts[0]] + ts[1..] && (|ts| == 1 ==> ts[1..] == [] && Spell(ts[1..]) == "")
  {
    hide TokenText;
  }

  lemma ReadThen(t: Token, rest: string)
    requires Writable(t) && Apart(rest)
    ensures Lex(TokenText(t) + rest) == Prepend([t], Lex(rest))
  {
    hide Step, Lex, TokenText, Writable;
    var text := TokenText(t);
    TokenReads(t, rest);
    LexUnfolds(text + rest);
    assert (text + rest)[|text|..] == rest;
  }

  lemma {:induction false} SpellReads(ts: seq<Token>)
    requires AllWritable(ts)
    ensures Lex(Spell(ts)) == Some(ts)
    decreases |ts|
  {
    if ts == [] { return; }
    assert Writable(ts[0]) && AllWritable(ts[1..]);
    hide Step, Lex, TokenText, Writable, Spell, AllWritable;
    SpellUnfolds(ts);
    SpellReads(ts[1..]);
    ReadThen(ts[0], if |ts| == 1 then "" else " " + Spell(ts[1..]));
    LexAfterBlank(Spell(ts[1..]));
  }

  // ---- A predicate as text. ----

  /** Names without a closing bracket, and literals that have a text. */
  predicate WritableNode(node: Node) {
    match node
    case Both(l, r) => WritableNode(l) && WritableNode(r)
    case Either(l, r) => WritableNode(l) && WritableNode(r)
    case Cond(field, _, operands) =>
      ']' !in field && forall k :: 0 <= k < |operands| && operands[k].Literal? ==> WritableValue(operands[k].value)
  }

  function NodeText(node: Node): string { Spell(Yield(Print(node))) }

  lemma WritableJoin(a: seq<Token>, b: seq<Token>)
    requires AllWritable(a) && AllWritable(b)
    ensures AllWritable(a + b)
  {
  }

  lemma {:induction false} SlotsWritable(operands: seq<Operand>)
    requires forall k :: 0 <= k < |operands| && operands[k].Literal? ==> WritableValue(operands[k].value)
    ensures AllWritable(SlotTokens(OperandSlots(operands)))
    decreases |operands|
  {
    if operands != [] {
      var slots := OperandSlots(operands);
      assert slots[1..] == OperandSlots(operands[1..]);
      SlotsWritable(operands[1..]);
      if |slots| > 1 { WritableJoin([SlotToken(slots[0]), Comma], SlotTokens(slots[1..])); }
    }
  }

  lemma ComparisonWritable(node: Node)
    requires node.Cond? && WritableNode(node)
    ensures AllWritable(Yield(PrintComparison(node)))
  {
    hide SlotTokens;
    var name, slots := "[" + node.field + "]", OperandSlots(node.operands);
    SlotsWritable(node.operands);
    assert forall k :: 0 < k < |name| - 1 ==> name[k] == node.field[k - 1];
    WritableJoin([LParen], SlotTokens(slots));
    WritableJoin([LParen] + SlotTokens(slots), [RParen]);
    WritableJoin([Ident(name)], OperatorTokens(node.op));
    WritableJoin([Ident(name)] + OperatorTokens(node.op), OperandTokens(node.op, slots));
  }

  lemma TreeWritable(l: Tree, r: Tree)
    requires AllWritable(Yield(l)) && AllWritable(Yield(r))
    ensures AllWritable(Yield(OrTree(l, r))) && AllWritable(Yield(AndTree(l, r))) && AllWritable(Yield(ParenTree(l)))
  {
    hide OperandTokens, OperatorTokens, Writable;
    assert Writable(Or) && Writable(And) && Writable(LParen) && Writable(RParen) by { TokensWritable(); }
  }

  lemma TokensWritable()
    ensures Writable(Or) && Writable(And) && Writable(LParen) && Writable(RParen)
  {
  }

  lemma {:induction false} PrintWritable(node: Node)
    requires WritableNode(node)
    ensures AllWritable(Yield(Print(node))) && AllWritable(Yield(PrintTerm(node))) &&
      AllWritable(Yield(PrintPrimary(node)))
    decreases node
  {
    hide PrintComparison, AllWritable, Yield;
    if node.Cond? {
      ComparisonWritable(node);
    } else {
      PrintWritable(node.left);
      PrintWritable(node.right);
      TreeWritable(Print(node.left), PrintTerm(node.right));
      TreeWritable(PrintTerm(node.left), PrintPrimary(node.right));
      assert Print(node) ==
        if node.Either? then OrTree(Print(node.left), PrintTerm(node.right))
          else AndTree(PrintTerm(node.left), PrintPrimary(node.right));
      TreeWritable(Print(node), Print(node));
    }
  }

  lemma {:induction false} SpellEnds(ts: seq<Token>)
    requires AllWritable(ts) && ts != []
    ensures Spell(ts) != "" && !IsSpace(Spell(ts)[0]) && !IsSpace(Spell(ts)[|Spell(ts)| - 1])
    decreases |ts|
  {
    hide TokenText, Writable;
    TokenEnds(ts[0]);
    if |ts| > 1 { SpellEnds(ts[1..]); }
  }

  lemma TokenEnds(t: Token)
    requires Writable(t)
    ensures var text := TokenText(t); text != "" && !IsSpace(text[0]) && !IsSpace(text[|text| - 1])
  {
    hide Itoa, Escaped;
    if t.Lit? && t.value.Int? { NumberParses(t.value.i); }
  }

  /** The text of a well-formed predicate compiles to that predicate. */
  lemma TextThenParse(node: Node, n: nat)
    requires WellFormed(node, n) && WritableNode(node)
    ensures ParseWhere(NodeText(node), n) == Root(node)
  {
    hide Lex, ParseTokens, Print, Yield, Spell, TrimLeft, TrimRight, AllWritable;
    var ts := Yield(Print(node));
    PrintWritable(node);
    SpellReads(ts);
    SpellEnds(ts);
    TrimKeeps(NodeText(node), IsSpace);
    PrintThenParse(node, n);
  }

  /** Compiling, printing and compiling again changes nothing, for a predicate that can be written: no floats, and
      no name with a closing bracket. */
  lemma ParseThenText(where: string, n: nat)
    requires ParseWhere(where, n).Root? && WritableNode(ParseWhere(where, n).node)
    ensures ParseWhere(NodeText(ParseWhere(where, n).node), n) == ParseWhere(where, n)
  {
    hide ParseWhere, NodeText, WritableNode;
    ParsedWhereIsWellFormed(where, n);
    TextThenParse(ParseWhere(where, n).node, n);
  }
}
