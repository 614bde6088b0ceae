/** The supported part of the search-condition grammar (section 8.12 of ISO/IEC 9075:1992),
    stated without reference to the parser, and the proof that the parser decides it. */
module WhereGrammar {
  import opened Values
  import opened Text
  import opened WhereLexer
  import opened WhereParser

  datatype Slot = HoleSlot | LitSlot(value: Value)

  /** A derivation tree. Parentheses are kept, unlike in `Node`. */
  datatype Tree =
    | OrTree(left: Tree, right: Tree)
    | AndTree(left: Tree, right: Tree)
    | ParenTree(inner: Tree)
    | CondTree(name: string, op: Operator, slots: seq<Slot>)

  /** search condition ::= term | search condition OR term */
  predicate IsCondition(t: Tree)
    decreases t, 2
  {
    match t
    case OrTree(l, r) => IsCondition(l) && IsTerm(r)
    case _ => IsTerm(t)
  }

  /** term ::= primary | term AND primary */
  predicate IsTerm(t: Tree)
    decreases t, 1
  {
    match t
    case AndTree(l, r) => IsTerm(l) && IsPrimary(r)
    case _ => IsPrimary(t)
  }

  /** primary ::= ( search condition ) | comparison */
  predicate IsPrimary(t: Tree)
    decreases t, 0
  {
    match t
    case ParenTree(e) => IsCondition(e)
    case CondTree(_, op, slots) => |slots| >= 1 && (op == In || op == NotIn || |slots| == 1)
    case _ => false
  }

  function OperatorTokens(op: Operator): seq<Token> {
    match op
    case NotLike => [Not, Op(Like)]
    case NotIn => [Not, Op(In)]
    case _ => [Op(op)]
  }

  function SlotToken(slot: Slot): Token {
    match slot
    case HoleSlot => Hole
    case LitSlot(v) => Lit(v)
  }

  function SlotTokens(slots: seq<Slot>): seq<Token> {
    if slots == [] then []
    else if |slots| == 1 then [SlotToken(slots[0])] else [SlotToken(slots[0]), Comma] + SlotTokens(slots[1..])
  }

  function OperandTokens(op: Operator, slots: seq<Slot>): seq<Token> {
    if op == In || op == NotIn then [LParen] + SlotTokens(slots) + [RParen] else SlotTokens(slots)
  }

  /** The token list a derivation spells out. */
  function Yield(t: Tree): (ts: seq<Token>)
    ensures |ts| >= 1
  {
    match t
    case OrTree(l, r) => Yield(l) + [Or] + Yield(r)
    case AndTree(l, r) => Yield(l) + [And] + Yield(r)
    case ParenTree(e) => [LParen] + Yield(e) + [RParen]
    case CondTree(name, op, slots) => [Ident(name)] + OperatorTokens(op) + OperandTokens(op, slots)
  }

  function SlotHoles(slots: seq<Slot>): nat {
    if slots == [] then 0 else (if slots[0].HoleSlot? then 1 else 0) + SlotHoles(slots[1..])
  }

  function Holes(t: Tree): nat {
    match t
    case OrTree(l, r) => Holes(l) + Holes(r)
    case AndTree(l, r) => Holes(l) + Holes(r)
    case ParenTree(e) => Holes(e)
    case CondTree(_, _, slots) => SlotHoles(slots)
  }

  function SlotOperands(slots: seq<Slot>, arg: nat): seq<Operand> {
    if slots == [] then []
    else match slots[0]
      case HoleSlot => [Arg(arg)] + SlotOperands(slots[1..], arg + 1)
      case LitSlot(v) => [Literal(v)] + SlotOperands(slots[1..], arg)
  }

  /** The predicate a derivation denotes, its placeholders numbered from `arg`. */
  function Meaning(t: Tree, arg: nat): Node {
    match t
    case OrTree(l, r) => Either(Meaning(l, arg), Meaning(r, arg + Holes(l)))
    case AndTree(l, r) => Both(Meaning(l, arg), Meaning(r, arg + Holes(l)))
    case ParenTree(e) => Meaning(e, arg)
    case CondTree(name, op, slots) => Cond(NormalizeIdentifier(name), op, SlotOperands(slots, arg))
  }

  /** `ts` spells `part` at `pos`. */
  predicate At(ts: seq<Token>, pos: nat, part: seq<Token>) {
    pos + |part| <= |ts| && ts[pos..pos + |part|] == part
  }

  lemma AtSplits(ts: seq<Token>, pos: nat, a: seq<Token>, b: seq<Token>)
    ensures At(ts, pos, a + b) <==> At(ts, pos, a) && At(ts, pos + |a|, b)
    ensures At(ts, pos, a) ==> pos + |a| <= |ts|
    ensures At(ts, pos + |a|, b) ==> pos + |a| + |b| <= |ts|
  {
    if pos + |a| + |b| <= |ts| {
      var whole := ts[pos..pos + |a + b|];
      assert whole[..|a|] == ts[pos..pos + |a|] && whole[|a|..] == ts[pos + |a|..pos + |a| + |b|];
      assert (a + b)[..|a|] == a && (a + b)[|a|..] == b;
      assert whole == whole[..|a|] + whole[|a|..];
    }
  }

  lemma AtOne(ts: seq<Token>, pos: nat, t: Token)
    ensures At(ts, pos, [t]) <==> pos < |ts| && ts[pos] == t
    ensures At(ts, pos, [t]) ==> Current(ts, pos) == t
  {
    if pos < |ts| { assert ts[pos..pos + 1] == [ts[pos]]; }
  }

  /** A list with a marked token in the middle. */
  lemma AtAround(ts: seq<Token>, pos: nat, a: seq<Token>, t: Token, b: seq<Token>)
    ensures At(ts, pos, a + [t] + b)
       <==> At(ts, pos, a) && Current(ts, pos + |a|) == t && pos + |a| < |ts| && At(ts, pos + |a| + 1, b)
    ensures At(ts, pos, a + [t] + b) ==> pos + |a| + 1 + |b| <= |ts|
  {
    AtSplits(ts, pos, a + [t], b);
    AtSplits(ts, pos, a, [t]);
    AtOne(ts, pos + |a|, t);
  }

  /** A token in front of two lists. */
  lemma AtFront(ts: seq<Token>, pos: nat, t: Token, a: seq<Token>, b: seq<Token>)
    ensures At(ts, pos, [t] + a + b)
       <==> Current(ts, pos) == t && pos < |ts| && At(ts, pos + 1, a) && At(ts, pos + 1 + |a|, b)
    ensures At(ts, pos, [t] + a + b) ==> pos + 1 + |a| + |b| <= |ts|
  {
    AtSplits(ts, pos, [t] + a, b);
    AtSplits(ts, pos, [t], a);
    AtOne(ts, pos, t);
  }

  // ---- Completeness: every derivable token list is parsed to its meaning. ----

  /** The argument index after one more slot, and the operand that slot becomes. */
  function NextArg(slot: Slot, arg: nat): nat { if slot.HoleSlot? then arg + 1 else arg }

  function SlotOperand(slot: Slot, arg: nat): Operand {
    match slot case HoleSlot => Arg(arg) case LitSlot(v) => Literal(v)
  }

  lemma OperandParses(ts: seq<Token>, n: nat, slot: Slot, pos: nat, arg: nat)
    requires pos < |ts| && ts[pos] == SlotToken(slot) && NextArg(slot, arg) <= n
    ensures OperandAt(ts, n, pos, arg) == Ok(SlotOperand(slot, arg), pos + 1, NextArg(slot, arg))
  {
  }

  lemma OneSlot(slot: Slot, arg: nat)
    ensures SlotTokens([slot]) == [SlotToken(slot)]
    ensures SlotOperands([slot], arg) == [SlotOperand(slot, arg)]
    ensures arg + SlotHoles([slot]) == NextArg(slot, arg)
  {
    assert [slot][1..] == [];
  }

  lemma {:induction false} SlotListParses(ts: seq<Token>, n: nat, read: seq<Operand>, slots: seq<Slot>, pos: nat,
          arg: nat)
    requires |slots| >= 1 && pos <= |ts| && arg + SlotHoles(slots) <= n
    requires At(ts, pos, SlotTokens(slots)) && Current(ts, pos + |SlotTokens(slots)|) != Comma
    ensures OperandListAt(ts, n, read, pos, arg)
         == Ok(read + SlotOperands(slots, arg), pos + |SlotTokens(slots)|, arg + SlotHoles(slots))
    decreases |slots|
  {
    hide At, OperandAt;
    var slot, rest, arg' := slots[0], slots[1..], NextArg(slots[0], arg);
    if |slots| == 1 {
      AtOne(ts, pos, SlotToken(slot));
      OperandParses(ts, n, slot, pos, arg);
      OneSlot(slot, arg);
      assert slots == [slot];
    } else {
      AtAround(ts, pos, [SlotToken(slot)], Comma, SlotTokens(rest));
      assert [SlotToken(slot)] + [Comma] + SlotTokens(rest) == SlotTokens(slots);
      AtOne(ts, pos, SlotToken(slot));
      OperandParses(ts, n, slot, pos, arg);
      SlotListParses(ts, n, read + [SlotOperand(slot, arg)], rest, pos + 2, arg');
      assert read + [SlotOperand(slot, arg)] + SlotOperands(rest, arg') == read + SlotOperands(slots, arg);
    }
  }

  lemma OperatorParses(ts: seq<Token>, n: nat, op: Operator, pos: nat, arg: nat)
    requires pos <= |ts| && arg <= n && At(ts, pos, OperatorTokens(op))
    ensures OperatorAt(ts, n, pos, arg) == Ok(op, pos + |OperatorTokens(op)|, arg)
  {
    hide At;
    if op == NotLike || op == NotIn {
      var second := OperatorTokens(op)[1];
      assert OperatorTokens(op) == [Not] + [second];
      AtSplits(ts, pos, [Not], [second]);
      AtOne(ts, pos, Not);
      AtOne(ts, pos + 1, second);
    } else {
      AtOne(ts, pos, Op(op));
    }
  }

  lemma InListParses(ts: seq<Token>, n: nat, op: Operator, slots: seq<Slot>, pos: nat, arg: nat)
    requires |slots| >= 1 && (op == In || op == NotIn)
    requires pos <= |ts| && arg + SlotHoles(slots) <= n && At(ts, pos, [LParen] + SlotTokens(slots) + [RParen])
    ensures OperandsAt(ts, n, op, pos, arg)
         == Ok(SlotOperands(slots, arg), pos + |SlotTokens(slots)| + 2, arg + SlotHoles(slots))
  {
    hide At, OperandAt, OperandListAt, SlotTokens, SlotOperands, SlotHoles;
    AtFront(ts, pos, LParen, SlotTokens(slots), [RParen]);
    AtOne(ts, pos + 1 + |SlotTokens(slots)|, RParen);
    SlotListParses(ts, n, [], slots, pos + 1, arg);
    assert [] + SlotOperands(slots, arg) == SlotOperands(slots, arg);
  }

  lemma OperandsParse(ts: seq<Token>, n: nat, op: Operator, slots: seq<Slot>, pos: nat, arg: nat)
    requires |slots| >= 1 && (op == In || op == NotIn || |slots| == 1)
    requires pos <= |ts| && arg + SlotHoles(slots) <= n && At(ts, pos, OperandTokens(op, slots))
    ensures OperandsAt(ts, n, op, pos, arg)
         == Ok(SlotOperands(slots, arg), pos + |OperandTokens(op, slots)|, arg + SlotHoles(slots))
  {
    hide At, OperandAt, OperandListAt, SlotTokens, SlotOperands, SlotHoles;
    if op == In || op == NotIn {
      InListParses(ts, n, op, slots, pos, arg);
    } else {
      OneSlot(slots[0], arg);
      assert slots == [slots[0]];
      AtOne(ts, pos, SlotToken(slots[0]));
      OperandParses(ts, n, slots[0], pos, arg);
    }
  }

  lemma {:induction false} PrimaryParses(ts: seq<Token>, n: nat, t: Tree, pos: nat, arg: nat)
    requires IsPrimary(t) && pos <= |ts| && arg + Holes(t) <= n && At(ts, pos, Yield(t))
    ensures PrimaryAt(ts, n, pos, arg) == Ok(Meaning(t, arg), pos + |Yield(t)|, arg + Holes(t))
    decreases t, 0
  {
    hide At, OrAt, OperatorAt, OperandsAt, OperatorTokens, OperandTokens, NormalizeIdentifier;
    match t
    case ParenTree(e) =>
      AtFront(ts, pos, LParen, Yield(e), [RParen]);
      AtOne(ts, pos + 1 + |Yield(e)|, RParen);
      OrParses(ts, n, e, pos + 1, arg);
    case CondTree(name, op, slots) =>
      AtFront(ts, pos, Ident(name), OperatorTokens(op), OperandTokens(op, slots));
      OperatorParses(ts, n, op, pos + 1, arg);
      OperandsParse(ts, n, op, slots, pos + 1 + |OperatorTokens(op)|, arg);
  }

  // One unfolding of each definition the two loops need.

  lemma TermParts(t: Tree, arg: nat)
    requires IsTerm(t)
    ensures t.AndTree? ==> IsTerm(t.left) && IsPrimary(t.right) && Yield(t) == Yield(t.left) + [And] + Yield(t.right)
    ensures t.AndTree? ==> Holes(t) == Holes(t.left) + Holes(t.right)
    ensures t.AndTree? ==> Meaning(t, arg) == Both(Meaning(t.left, arg), Meaning(t.right, arg + Holes(t.left)))
    ensures !t.AndTree? ==> IsPrimary(t)
  {
    hide NormalizeIdentifier, OperandTokens, OperatorTokens, SlotHoles, SlotOperands;
  }

  lemma ConditionParts(t: Tree, arg: nat)
    requires IsCondition(t)
    ensures t.OrTree? ==> IsCondition(t.left) && IsTerm(t.right) && Yield(t) == Yield(t.left) + [Or] + Yield(t.right)
    ensures t.OrTree? ==> Holes(t) == Holes(t.left) + Holes(t.right)
    ensures t.OrTree? ==> Meaning(t, arg) == Either(Meaning(t.left, arg), Meaning(t.right, arg + Holes(t.left)))
    ensures !t.OrTree? ==> IsTerm(t)
  {
    hide NormalizeIdentifier, OperandTokens, OperatorTokens, SlotHoles, SlotOperands;
  }

  lemma AndTailTurn(ts: seq<Token>, n: nat, left: Node, pos: nat, arg: nat)
    requires pos < |ts| && arg <= n && Current(ts, pos) == And && PrimaryAt(ts, n, pos + 1, arg).Ok?
    ensures var right := PrimaryAt(ts, n, pos + 1, arg);
      AndTail(ts, n, left, pos, arg) == AndTail(ts, n, Both(left, right.value), right.pos, right.arg)
  {
    hide PrimaryAt;
  }

  lemma AndStarts(ts: seq<Token>, n: nat, pos: nat, arg: nat)
    requires pos <= |ts| && arg <= n && PrimaryAt(ts, n, pos, arg).Ok?
    ensures var left := PrimaryAt(ts, n, pos, arg);
      AndAt(ts, n, pos, arg) == AndTail(ts, n, left.value, left.pos, left.arg)
  {
    hide PrimaryAt, AndTail;
  }

  lemma AndTailStops(ts: seq<Token>, n: nat, left: Node, pos: nat, arg: nat)
    requires pos <= |ts| && arg <= n && Current(ts, pos) != And
    ensures AndTail(ts, n, left, pos, arg) == Ok(left, pos, arg)
  {
  }

  lemma OrTailTurn(ts: seq<Token>, n: nat, left: Node, pos: nat, arg: nat)
    requires pos < |ts| && arg <= n && Current(ts, pos) == Or && AndAt(ts, n, pos + 1, arg).Ok?
    ensures var right := AndAt(ts, n, pos + 1, arg);
      OrTail(ts, n, left, pos, arg) == OrTail(ts, n, Either(left, right.value), right.pos, right.arg)
  {
    hide AndAt;
  }

  lemma OrStarts(ts: seq<Token>, n: nat, pos: nat, arg: nat)
    requires pos <= |ts| && arg <= n && AndAt(ts, n, pos, arg).Ok?
    ensures var left := AndAt(ts, n, pos, arg); OrAt(ts, n, pos, arg) == OrTail(ts, n, left.value, left.pos, left.arg)
  {
    hide AndAt, OrTail;
  }

  /** Reading a term leaves the AND loop where the term ends. */
  lemma {:induction false} AndParses(ts: seq<Token>, n: nat, t: Tree, pos: nat, arg: nat)
    requires IsTerm(t) && pos <= |ts| && arg + Holes(t) <= n && At(ts, pos, Yield(t))
    ensures pos + |Yield(t)| <= |ts|
    ensures AndAt(ts, n, pos, arg) == AndTail(ts, n, Meaning(t, arg), pos + |Yield(t)|, arg + Holes(t))
    decreases t, 1
  {
    hide *;
    TermParts(t, arg);
    if t.AndTree? {
      var l, r := t.left, t.right;
      AtAround(ts, pos, Yield(l), And, Yield(r));
      AndParses(ts, n, l, pos, arg);
      PrimaryParses(ts, n, r, pos + |Yield(l)| + 1, arg + Holes(l));
      AndTailTurn(ts, n, Meaning(l, arg), pos + |Yield(l)|, arg + Holes(l));
    } else {
      AtSplits(ts, pos, Yield(t), []);
      PrimaryParses(ts, n, t, pos, arg);
      AndStarts(ts, n, pos, arg);
    }
  }

  /** Reading a search condition leaves the OR loop where it ends, unless AND follows. */
  lemma {:induction false} OrParses(ts: seq<Token>, n: nat, t: Tree, pos: nat, arg: nat)
    requires IsCondition(t) && pos <= |ts| && arg + Holes(t) <= n && At(ts, pos, Yield(t))
    requires Current(ts, pos + |Yield(t)|) != And
    ensures pos + |Yield(t)| <= |ts|
    ensures OrAt(ts, n, pos, arg) == OrTail(ts, n, Meaning(t, arg), pos + |Yield(t)|, arg + Holes(t))
    decreases t, 2
  {
    hide *;
    ConditionParts(t, arg);
    if t.OrTree? {
      var l, r := t.left, t.right;
      AtAround(ts, pos, Yield(l), Or, Yield(r));
      OrParses(ts, n, l, pos, arg);
      AndParses(ts, n, r, pos + |Yield(l)| + 1, arg + Holes(l));
      AndTailStops(ts, n, Meaning(r, arg + Holes(l)), pos + |Yield(t)|, arg + Holes(t));
      OrTailTurn(ts, n, Meaning(l, arg), pos + |Yield(l)|, arg + Holes(l));
    } else {
      AndParses(ts, n, t, pos, arg);
      AndTailStops(ts, n, Meaning(t, arg), pos + |Yield(t)|, arg + Holes(t));
      OrStarts(ts, n, pos, arg);
    }
  }

  // ---- Soundness: whatever the parser accepts has a derivation with that meaning. ----

  lemma OperandSound(ts: seq<Token>, n: nat, pos: nat, arg: nat) returns (slot: Slot)
    requires pos <= |ts| && arg <= n && OperandAt(ts, n, pos, arg).Ok?
    ensures pos < |ts| && ts[pos] == SlotToken(slot) && NextArg(slot, arg) <= n
    ensures OperandAt(ts, n, pos, arg) == Ok(SlotOperand(slot, arg), pos + 1, NextArg(slot, arg))
  {
    slot := if ts[pos].Hole? then HoleSlot else LitSlot(ts[pos].value);
  }

  lemma {:induction false} SlotListSound(ts: seq<Token>, n: nat, read: seq<Operand>, pos: nat, arg: nat)
    returns (slots: seq<Slot>)
    requires pos <= |ts| && arg <= n && OperandListAt(ts, n, read, pos, arg).Ok?
    ensures |slots| >= 1
    ensures At(ts, pos, SlotTokens(slots))
    ensures OperandListAt(ts, n, read, pos, arg)
         == Ok(read + SlotOperands(slots, arg), pos + |SlotTokens(slots)|, arg + SlotHoles(slots))
    decreases |ts| - pos
  {
    hide At, OperandAt;
    var slot := OperandSound(ts, n, pos, arg);
    var arg' := NextArg(slot, arg);
    AtOne(ts, pos, SlotToken(slot));
    if Current(ts, pos + 1) == Comma {
      var rest := SlotListSound(ts, n, read + [SlotOperand(slot, arg)], pos + 2, arg');
      slots := [slot] + rest;
      assert slots[1..] == rest;
      AtAround(ts, pos, [SlotToken(slot)], Comma, SlotTokens(rest));
      assert [SlotToken(slot)] + [Comma] + SlotTokens(rest) == SlotTokens(slots);
      assert read + [SlotOperand(slot, arg)] + SlotOperands(rest, arg') == read + SlotOperands(slots, arg);
    } else {
      slots := [slot];
      OneSlot(slot, arg);
    }
  }

  lemma OperandsSound(ts: seq<Token>, n: nat, op: Operator, pos: nat, arg: nat) returns (slots: seq<Slot>)
    requires pos <= |ts| && arg <= n && OperandsAt(ts, n, op, pos, arg).Ok?
    ensures |slots| >= 1 && (op == In || op == NotIn || |slots| == 1)
    ensures At(ts, pos, OperandTokens(op, slots))
    ensures OperandsAt(ts, n, op, pos, arg)
         == Ok(SlotOperands(slots, arg), pos + |OperandTokens(op, slots)|, arg + SlotHoles(slots))
  {
    hide At, OperandAt, OperandListAt, SlotTokens;
    if op == In || op == NotIn {
      slots := SlotListSound(ts, n, [], pos + 1, arg);
      AtFront(ts, pos, LParen, SlotTokens(slots), [RParen]);
      AtOne(ts, pos + 1 + |SlotTokens(slots)|, RParen);
      assert [] + SlotOperands(slots, arg) == SlotOperands(slots, arg);
    } else {
      var slot := OperandSound(ts, n, pos, arg);
      slots := [slot];
      AtOne(ts, pos, SlotToken(slot));
      OneSlot(slot, arg);
    }
  }

  /** Operator tokens come out of the tokenizer, which never makes a NOT operator in one token. */
  predicate Lexical(ts: seq<Token>) {
    forall k :: 0 <= k < |ts| ==> ts[k] != Op(NotLike) && ts[k] != Op(NotIn)
  }

  lemma OperatorSound(ts: seq<Token>, n: nat, pos: nat, arg: nat)
    requires Lexical(ts) && pos <= |ts| && arg <= n && OperatorAt(ts, n, pos, arg).Ok?
    ensures var r := OperatorAt(ts, n, pos, arg);
      At(ts, pos, OperatorTokens(r.value)) && r == Ok(r.value, pos + |OperatorTokens(r.value)|, arg)
  {
    hide At;
    var op := OperatorAt(ts, n, pos, arg).value;
    AtOne(ts, pos, OperatorTokens(op)[0]);
    if ts[pos] == Not {
      var second := OperatorTokens(op)[1];
      AtOne(ts, pos + 1, second);
      AtSplits(ts, pos, [Not], [second]);
      assert OperatorTokens(op) == [Not] + [second];
    }
  }

  /** `t` derives what was read from `pos` to `r.pos`, and means what was returned. */
  predicate Derives(ts: seq<Token>, t: Tree, pos: nat, arg: nat, r: Parsed<Node>) {
    At(ts, pos, Yield(t)) && r == Ok(Meaning(t, arg), pos + |Yield(t)|, arg + Holes(t))
  }

  lemma {:induction false} PrimarySound(ts: seq<Token>, n: nat, pos: nat, arg: nat) returns (t: Tree)
    requires Lexical(ts) && pos <= |ts| && arg <= n && PrimaryAt(ts, n, pos, arg).Ok?
    ensures IsPrimary(t) && Derives(ts, t, pos, arg, PrimaryAt(ts, n, pos, arg))
    decreases |ts| - pos, 0
  {
    hide At, OrAt, OperatorAt, OperandsAt, OperatorTokens, OperandTokens, NormalizeIdentifier, Lexical;
    if Current(ts, pos) == LParen {
      var e := OrSound(ts, n, pos + 1, arg);
      t := ParenTree(e);
      AtFront(ts, pos, LParen, Yield(e), [RParen]);
      AtOne(ts, pos + 1 + |Yield(e)|, RParen);
    } else {
      var op := OperatorAt(ts, n, pos + 1, arg);
      OperatorSound(ts, n, pos + 1, arg);
      var slots := OperandsSound(ts, n, op.value, op.pos, arg);
      t := CondTree(ts[pos].name, op.value, slots);
      AtFront(ts, pos, Ident(t.name), OperatorTokens(op.value), OperandTokens(op.value, slots));
    }
  }

  lemma {:induction false} AndSound(ts: seq<Token>, n: nat, pos: nat, arg: nat) returns (t: Tree)
    requires Lexical(ts) && pos <= |ts| && arg <= n && AndAt(ts, n, pos, arg).Ok?
    ensures IsTerm(t) && Derives(ts, t, pos, arg, AndAt(ts, n, pos, arg))
    decreases |ts| - pos, 2
  {
    hide At, PrimaryAt, AndTail, IsPrimary, NormalizeIdentifier, Lexical, Yield, Meaning, Holes;
    var first := PrimarySound(ts, n, pos, arg);
    PrimaryIsTerm(first);
    t := AndTailSound(ts, n, pos, arg, first);
  }

  lemma PrimaryIsTerm(t: Tree)
    ensures IsPrimary(t) ==> IsTerm(t)
    ensures IsTerm(t) ==> IsCondition(t)
  {
    if t.OrTree? { assert IsTerm(t) == IsPrimary(t); }
  }

  lemma {:induction false} AndTailSound(ts: seq<Token>, n: nat, pos: nat, arg: nat, l: Tree) returns (t: Tree)
    requires Lexical(ts) && IsTerm(l) && At(ts, pos, Yield(l)) && arg + Holes(l) <= n && pos + |Yield(l)| <= |ts|
    requires AndTail(ts, n, Meaning(l, arg), pos + |Yield(l)|, arg + Holes(l)).Ok?
    ensures IsTerm(t) && Derives(ts, t, pos, arg, AndTail(ts, n, Meaning(l, arg), pos + |Yield(l)|, arg + Holes(l)))
    decreases |ts| - pos - |Yield(l)|, 1
  {
    hide At, PrimaryAt, IsPrimary, NormalizeIdentifier, Lexical, OperatorTokens, OperandTokens;
    var end := pos + |Yield(l)|;
    if Current(ts, end) != And {
      t := l;
    } else {
      var r := PrimarySound(ts, n, end + 1, arg + Holes(l));
      AtAround(ts, pos, Yield(l), And, Yield(r));
      t := AndTailSound(ts, n, pos, arg, AndTree(l, r));
    }
  }

  lemma {:induction false} OrSound(ts: seq<Token>, n: nat, pos: nat, arg: nat) returns (t: Tree)
    requires Lexical(ts) && pos <= |ts| && arg <= n && OrAt(ts, n, pos, arg).Ok?
    ensures IsCondition(t) && Derives(ts, t, pos, arg, OrAt(ts, n, pos, arg))
    decreases |ts| - pos, 4
  {
    hide At, AndAt, OrTail, IsTerm, NormalizeIdentifier, Lexical, Yield, Meaning, Holes;
    var first := AndSound(ts, n, pos, arg);
    PrimaryIsTerm(first);
    t := OrTailSound(ts, n, pos, arg, first);
  }

  lemma {:induction false} OrTailSound(ts: seq<Token>, n: nat, pos: nat, arg: nat, l: Tree) returns (t: Tree)
    requires Lexical(ts) && IsCondition(l) && At(ts, pos, Yield(l)) && arg + Holes(l) <= n && pos + |Yield(l)| <= |ts|
    requires OrTail(ts, n, Meaning(l, arg), pos + |Yield(l)|, arg + Holes(l)).Ok?
    ensures IsCondition(t) && Derives(ts, t, pos, arg, OrTail(ts, n, Meaning(l, arg), pos + |Yield(l)|, arg + Holes(l)))
    decreases |ts| - pos - |Yield(l)|, 3
  {
    hide At, AndAt, IsTerm, NormalizeIdentifier, Lexical, OperatorTokens, OperandTokens;
    var end := pos + |Yield(l)|;
    if Current(ts, end) != Or {
      t := l;
    } else {
      var r := AndSound(ts, n, end + 1, arg + Holes(l));
      AtAround(ts, pos, Yield(l), Or, Yield(r));
      t := OrTailSound(ts, n, pos, arg, OrTree(l, r));
    }
  }

  // ---- The parser decides the grammar. ----

  /** The grammar at its top: `ts` can be derived, with `n` placeholders, and means `node`. */
  ghost predicate Denotes(ts: seq<Token>, n: nat, node: Node) {
    exists t :: IsCondition(t) && Yield(t) == ts && Holes(t) == n && Meaning(t, 0) == node
  }

  lemma ReachesEOF(ts: seq<Token>, part: seq<Token>)
    requires part <= ts + [EOF] && |part| > |ts|
    ensures EOF in part
  {
    assert part[|ts|] == EOF;
  }

  lemma EndsAtEOF(ts: seq<Token>, part: seq<Token>)
    requires EOF !in ts && EOF !in part
    requires At(ts + [EOF], 0, part) && Current(ts + [EOF], |part|) == EOF
    ensures part == ts
  {
    if |part| > |ts| { ReachesEOF(ts, part); }
    assert forall k :: 0 <= k < |ts| ==> (ts + [EOF])[k] == ts[k] && ts[k] in ts;
    assert (ts + [EOF])[..|part|] == ts[..|part|];
  }

  lemma {:induction false} SlotsNoEOF(slots: seq<Slot>)
    ensures EOF !in SlotTokens(slots)
    decreases |slots|
  {
    if |slots| > 1 { SlotsNoEOF(slots[1..]); }
  }

  lemma {:induction false} YieldNoEOF(t: Tree)
    ensures EOF !in Yield(t)
  {
    match t
    case OrTree(l, r) => YieldNoEOF(l); YieldNoEOF(r);
    case AndTree(l, r) => YieldNoEOF(l); YieldNoEOF(r);
    case ParenTree(e) => YieldNoEOF(e);
    case CondTree(_, op, slots) => SlotsNoEOF(slots);
  }

  lemma ParserSound(ts: seq<Token>, n: nat)
    requires Lexical(ts) && EOF !in ts && ParseTokens(ts + [EOF], n).Some?
    ensures Denotes(ts, n, ParseTokens(ts + [EOF], n).value)
  {
    hide OrAt, Yield, Meaning, Holes, IsCondition, At;
    var t := OrSound(ts + [EOF], n, 0, 0);
    YieldNoEOF(t);
    EndsAtEOF(ts, Yield(t));
  }

  lemma ParserComplete(t: Tree)
    requires IsCondition(t)
    ensures ParseTokens(Yield(t) + [EOF], Holes(t)) == Some(Meaning(t, 0))
  {
    hide OrAt, Yield, Meaning, Holes, IsCondition;
    var ts := Yield(t) + [EOF];
    assert ts[..|Yield(t)|] == Yield(t);
    OrParses(ts, Holes(t), t, 0, 0);
  }

  /** The parser accepts exactly the derivable token lists whose placeholders match the
      arguments, and returns their meaning: AND under OR, both nested to the left. */
  lemma ParserDecidesGrammar(ts: seq<Token>, n: nat, node: Node)
    requires Lexical(ts) && EOF !in ts
    ensures ParseTokens(ts + [EOF], n) == Some(node) <==> Denotes(ts, n, node)
  {
    hide ParseTokens, Yield, Meaning, Holes, IsCondition;
    if ParseTokens(ts + [EOF], n).Some? { ParserSound(ts, n); }
    forall t | IsCondition(t) && Yield(t) == ts
      ensures ParseTokens(ts + [EOF], Holes(t)) == Some(Meaning(t, 0))
    {
      ParserComplete(t);
    }
    if ParseTokens(ts + [EOF], n).Some? {
      var t :| IsCondition(t) && Yield(t) == ts && Holes(t) == n && Meaning(t, 0) == ParseTokens(ts + [EOF], n).value;
    }
  }

  function HoleCount(ts: seq<Token>): nat { multiset(ts)[Hole] }

  lemma HoleCountJoin(a: seq<Token>, t: Token, b: seq<Token>)
    ensures HoleCount(a + [t] + b) == HoleCount(a) + (if t == Hole then 1 else 0) + HoleCount(b)
    ensures HoleCount([t] + a + b) == HoleCount(a) + (if t == Hole then 1 else 0) + HoleCount(b)
  {
  }

  lemma OneHole(t: Token)
    ensures HoleCount([t]) == if t == Hole then 1 else 0
    ensures HoleCount([]) == 0
  {
  }

  lemma {:induction false} SlotHolesCounted(slots: seq<Slot>)
    ensures HoleCount(SlotTokens(slots)) == SlotHoles(slots)
  {
    hide HoleCount;
    OneHole(Hole);
    if slots != [] {
      var slot, rest := slots[0], slots[1..];
      OneHole(SlotToken(slot));
      SlotHolesCounted(rest);
      if |slots| > 1 {
        HoleCountJoin([SlotToken(slot)], Comma, SlotTokens(rest));
        assert SlotTokens(slots) == [SlotToken(slot)] + [Comma] + SlotTokens(rest);
      } else {
        assert rest == [];
      }
    }
  }

  lemma OperatorHasNoHole(op: Operator)
    ensures HoleCount(OperatorTokens(op)) == 0
  {
  }

  lemma ComparisonHolesCounted(name: string, op: Operator, slots: seq<Slot>)
    ensures HoleCount([Ident(name)] + OperatorTokens(op) + OperandTokens(op, slots)) == SlotHoles(slots)
  {
    hide SlotTokens, SlotHoles, HoleCount, OperatorTokens;
    SlotHolesCounted(slots);
    OperatorHasNoHole(op);
    HoleCountJoin(OperatorTokens(op), Ident(name), OperandTokens(op, slots));
    HoleCountJoin(SlotTokens(slots), LParen, [RParen]);
    OneHole(RParen);
  }

  /** The placeholders of a derivation are those of its token list. */
  lemma {:induction false} HolesCounted(t: Tree)
    ensures HoleCount(Yield(t)) == Holes(t)
  {
    hide HoleCount, OperatorTokens, OperandTokens;
    match t
    case OrTree(l, r) => HolesCounted(l); HolesCounted(r); HoleCountJoin(Yield(l), Or, Yield(r));
    case AndTree(l, r) => HolesCounted(l); HolesCounted(r); HoleCountJoin(Yield(l), And, Yield(r));
    case ParenTree(e) => HolesCounted(e); HoleCountJoin(Yield(e), LParen, [RParen]); OneHole(RParen);
    case CondTree(name, op, slots) => ComparisonHolesCounted(name, op, slots);
  }

  /** No clause has two readings. */
  lemma GrammarUnambiguous(t: Tree, t': Tree)
    requires IsCondition(t) && IsCondition(t') && Yield(t) == Yield(t')
    ensures Meaning(t, 0) == Meaning(t', 0)
  {
    hide *;
    HolesCounted(t);
    HolesCounted(t');
    ParserComplete(t);
    ParserComplete(t');
  }

  lemma LexIsLexical(s: string)
    ensures Lex(s).Some? ==> Lexical(Lex(s).value) && EOF !in Lex(s).value
    decreases |s|
  {
    hide ClassifyWord, StringTail, RunLength;
    if s != "" && !Step(s).Bad? {
      LexIsLexical(s[Step(s).n..]);
      if Step(s).Emit? { StepIsLexical(s); }
    }
  }

  lemma StepIsLexical(s: string)
    requires s != "" && Step(s).Emit?
    ensures Step(s).token != Op(NotLike) && Step(s).token != Op(NotIn) && Step(s).token != EOF
  {
    hide StringTail, RunLength, ToUpper, ParseInt;
  }

  // ---- Placeholder numbering and the canonical printer. ----

  function Range(from: nat, count: nat): seq<nat> { seq(count, k requires 0 <= k => from + k) }

  lemma RangeSplits(from: nat, a: nat, b: nat)
    ensures Range(from, a) + Range(from + a, b) == Range(from, a + b)
  {
  }

  function OperandIndices(operands: seq<Operand>): seq<nat> {
    if operands == [] then []
    else (if operands[0].Arg? then [operands[0].index] else []) + OperandIndices(operands[1..])
  }

  /** The argument indices of a predicate, left to right. */
  function Indices(node: Node): seq<nat> {
    match node
    case Both(l, r) => Indices(l) + Indices(r)
    case Either(l, r) => Indices(l) + Indices(r)
    case Cond(_, _, operands) => OperandIndices(operands)
  }

  lemma {:induction false} SlotsNumbered(slots: seq<Slot>, arg: nat)
    ensures OperandIndices(SlotOperands(slots, arg)) == Range(arg, SlotHoles(slots))
    ensures |SlotOperands(slots, arg)| == |slots|
    decreases |slots|
  {
    if slots != [] {
      var slot, rest := slots[0], slots[1..];
      var operands := SlotOperands(slots, arg);
      SlotsNumbered(rest, NextArg(slot, arg));
      assert operands == [SlotOperand(slot, arg)] + SlotOperands(rest, NextArg(slot, arg));
      assert operands[1..] == SlotOperands(rest, NextArg(slot, arg));
      if slot.HoleSlot? { RangeSplits(arg, 1, SlotHoles(rest)); assert Range(arg, 1) == [arg]; }
    }
  }

  lemma {:induction false} MeaningNumbered(t: Tree, arg: nat)
    ensures Indices(Meaning(t, arg)) == Range(arg, Holes(t))
  {
    hide NormalizeIdentifier;
    match t
    case OrTree(l, r) =>
      MeaningNumbered(l, arg); MeaningNumbered(r, arg + Holes(l)); RangeSplits(arg, Holes(l), Holes(r));
    case AndTree(l, r) =>
      MeaningNumbered(l, arg); MeaningNumbered(r, arg + Holes(l)); RangeSplits(arg, Holes(l), Holes(r));
    case ParenTree(e) => MeaningNumbered(e, arg);
    case CondTree(_, _, slots) => SlotsNumbered(slots, arg);
  }

  /** What every predicate looks like: conditions with the operands their operator takes, on
      dot-free names. */
  predicate Shaped(node: Node) {
    match node
    case Both(l, r) => Shaped(l) && Shaped(r)
    case Either(l, r) => Shaped(l) && Shaped(r)
    case Cond(field, op, operands) =>
      '.' !in field && |operands| >= 1 && (op == In || op == NotIn || |operands| == 1)
  }

  predicate WellFormed(node: Node, n: nat) {
    Shaped(node) && Indices(node) == Range(0, n)
  }

  lemma {:induction false} SplitHasNoSeparator(s: string, sep: char)
    ensures forall k :: 0 <= k < |Split(s, sep)| ==> sep !in Split(s, sep)[k]
    decreases |s|
  {
    if s != "" {
      SplitHasNoSeparator(s[1..], sep);
    }
  }

  lemma TrimmedIsPart(s: string, cut: char -> bool, c: char)
    ensures c in Trim(s, cut) ==> c in s
  {
    TrimLeftIsSuffix(s, cut);
    TrimRightIsPrefix(TrimLeft(s, cut), cut);
  }

  lemma NormalizedHasNoDot(name: string)
    ensures '.' !in NormalizeIdentifier(name)
  {
    hide Split, TrimLeft, TrimRight;
    var whole := TrimSpace(name);
    if whole != "" {
      var parts := Split(whole, '.');
      SplitHasNoSeparator(whole, '.');
      var quotes := (c: char) => c == '\\' || c == '\"' || c == '`' || c == '\'';
      TrimmedIsPart(parts[|parts| - 1], IsSpace, '.');
      TrimmedIsPart(TrimSpace(parts[|parts| - 1]), quotes, '.');
    }
  }

  lemma {:induction false} MeaningShaped(t: Tree, arg: nat)
    requires IsCondition(t)
    ensures Shaped(Meaning(t, arg))
    decreases t
  {
    hide NormalizeIdentifier;
    match t
    case OrTree(l, r) =>
      PrimaryIsTerm(r);
      MeaningShaped(l, arg); MeaningShaped(r, arg + Holes(l));
    case AndTree(l, r) =>
      assert IsTerm(t);
      PrimaryIsTerm(l); PrimaryIsTerm(r);
      MeaningShaped(l, arg); MeaningShaped(r, arg + Holes(l));
    case ParenTree(e) =>
      assert IsTerm(t) && IsPrimary(t);
      MeaningShaped(e, arg);
    case CondTree(name, _, slots) =>
      assert IsTerm(t) && IsPrimary(t);
      NormalizedHasNoDot(name);
      SlotsNumbered(slots, arg);
  }

  function OperandSlots(operands: seq<Operand>): seq<Slot> {
    if operands == [] then []
    else [if operands[0].Arg? then HoleSlot else LitSlot(operands[0].value)] + OperandSlots(operands[1..])
  }

  function PrintComparison(node: Node): Tree
    requires node.Cond?
  {
    CondTree("[" + node.field + "]", node.op, OperandSlots(node.operands))
  }

  /** The canonical derivation of a predicate: parentheses only where the grammar needs them. */
  function Print(node: Node): Tree
    decreases node, if node.Either? then 0 else 2
  {
    if node.Either? then OrTree(Print(node.left), PrintTerm(node.right)) else PrintTerm(node)
  }

  function PrintTerm(node: Node): Tree
    decreases node, 1
  {
    match node
    case Both(l, r) => AndTree(PrintTerm(l), PrintPrimary(r))
    case Either(_, _) => ParenTree(Print(node))
    case Cond(_, _, _) => PrintComparison(node)
  }

  function PrintPrimary(node: Node): Tree
    decreases node, 3
  {
    if node.Cond? then PrintComparison(node) else ParenTree(Print(node))
  }

  lemma NormalizeBracketed(field: string)
    requires '.' !in field
    ensures NormalizeIdentifier("[" + field + "]") == field
  {
    var name := "[" + field + "]";
    TrimKeeps(name, IsSpace);
    SplitWithoutSeparator(name, '.');
    TrimKeeps(name, c => c == '\\' || c == '\"' || c == '`' || c == '\'');
    assert name[..|name| - 1][1..] == field;
  }

  lemma {:induction false} SplitWithoutSeparator(s: string, sep: char)
    requires sep !in s
    ensures Split(s, sep) == [s]
    decreases |s|
  {
    if s != "" {
      SplitWithoutSeparator(s[1..], sep);
      assert [s[0]] + s[1..] == s;
    }
  }

  lemma {:induction false} SlotsPrinted(operands: seq<Operand>, arg: nat)
    requires OperandIndices(operands) == Range(arg, |OperandIndices(operands)|)
    ensures SlotOperands(OperandSlots(operands), arg) == operands
    ensures SlotHoles(OperandSlots(operands)) == |OperandIndices(operands)|
    ensures |OperandSlots(operands)| == |operands|
    decreases |operands|
  {
    if operands != [] {
      var rest := operands[1..];
      var indices := OperandIndices(rest);
      var slots := OperandSlots(operands);
      assert slots[1..] == OperandSlots(rest);
      assert operands == [operands[0]] + rest;
      if operands[0].Arg? {
        RangeTail(arg, [operands[0].index], indices);
        SlotsPrinted(rest, arg + 1);
      } else {
        assert OperandIndices(operands) == indices;
        SlotsPrinted(rest, arg);
      }
    }
  }

  /** Cutting a run of consecutive numbers in two. */
  lemma RangeTail(from: nat, a: seq<nat>, b: seq<nat>)
    requires a + b == Range(from, |a + b|)
    ensures a == Range(from, |a|) && b == Range(from + |a|, |b|)
  {
    assert a == (a + b)[..|a|] && b == (a + b)[|a|..];
  }

  ghost predicate Prints(t: Tree, node: Node, arg: nat) {
    Meaning(t, arg) == node && Holes(t) == |Indices(node)|
  }

  lemma ComparisonPrinted(node: Node, arg: nat)
    requires node.Cond? && Shaped(node) && Indices(node) == Range(arg, |Indices(node)|)
    ensures IsPrimary(PrintComparison(node)) && Prints(PrintComparison(node), node, arg)
  {
    hide NormalizeIdentifier;
    NormalizeBracketed(node.field);
    SlotsPrinted(node.operands, arg);
  }

  lemma {:induction false} PrintMeans(node: Node, arg: nat)
    requires Shaped(node) && Indices(node) == Range(arg, |Indices(node)|)
    ensures IsCondition(Print(node)) && Prints(Print(node), node, arg)
    ensures IsTerm(PrintTerm(node)) && Prints(PrintTerm(node), node, arg)
    ensures IsPrimary(PrintPrimary(node)) && Prints(PrintPrimary(node), node, arg)
    decreases node
  {
    hide PrintComparison, Range;
    if node.Cond? {
      ComparisonPrinted(node, arg);
      PrimaryIsTerm(PrintComparison(node));
    } else {
      RangeTail(arg, Indices(node.left), Indices(node.right));
      PrintMeans(node.left, arg);
      PrintMeans(node.right, arg + |Indices(node.left)|);
      PrimaryIsTerm(Print(node));
      assert IsPrimary(ParenTree(Print(node))) == IsCondition(Print(node));
      if node.Both? { PrimaryIsTerm(PrintTerm(node)); }
    }
  }

  /** Printing a predicate and parsing the tokens gives it back. */
  lemma PrintThenParse(node: Node, n: nat)
    requires WellFormed(node, n)
    ensures ParseTokens(Yield(Print(node)) + [EOF], n) == Some(node)
  {
    hide Print, Yield, Meaning, ParseTokens;
    PrintMeans(node, 0);
    ParserComplete(Print(node));
  }

  /** Whatever was parsed is well formed: its argument indices, left to right, are 0 to n-1. */
  lemma ParsedIsWellFormed(ts: seq<Token>, n: nat)
    requires Lexical(ts) && EOF !in ts && ParseTokens(ts + [EOF], n).Some?
    ensures WellFormed(ParseTokens(ts + [EOF], n).value, n)
  {
    hide ParseTokens, Yield, Meaning, Holes, IsCondition;
    ParserSound(ts, n);
    var node := ParseTokens(ts + [EOF], n).value;
    var t :| IsCondition(t) && Yield(t) == ts && Holes(t) == n && Meaning(t, 0) == node;
    MeaningNumbered(t, 0);
    MeaningShaped(t, 0);
  }

  lemma ParsedWhereIsWellFormed(where: string, n: nat)
    requires ParseWhere(where, n).Root?
    ensures WellFormed(ParseWhere(where, n).node, n)
  {
    hide ParseTokens, Lex, TrimLeft, TrimRight;
    var text := TrimSpace(where);
    LexIsLexical(text);
    ParsedIsWellFormed(Lex(text).value, n);
  }
}
