/** Exactly when the soft-delete wrapping has, to this parser, the meaning it is given. Trimming removes vertical
    tabs and form feeds, which the tokenizer takes for letters once the clause stands in parentheses. The program
    gives wrapped clauses to the database only; what the database makes of them is a hypothesis elsewhere. */
module WhereTrimming {
  import opened Values
  import opened Text
  import opened WhereLexer
  import opened WhereWords
  import opened WhereParser
  import opened WhereGrammar
  import opened WhereSoftDelete

  const CLOSING := ") AND " + NOT_DELETED
  const FILTER_TOKENS := [RParen, And, Ident("\"deleted\""), Op(Eq), Lit(Bool(false))]

  // ---- In a derivation, operators follow identifiers and operands follow operators. ----

  predicate IsOperator(t: Token) { t.Op? || t == Not }

  predicate Operated(ts: seq<Token>) {
    && (forall i :: 0 <= i < |ts| && ts[i].Ident? ==> i + 1 < |ts| && IsOperator(ts[i + 1]))
    && (forall i :: 0 <= i < |ts| && ts[i].Op? ==> i + 1 < |ts| && !IsOperator(ts[i + 1]))
  }

  lemma OperatedJoin(a: seq<Token>, b: seq<Token>)
    requires Operated(a) && Operated(b)
    ensures Operated(a + b)
  {
  }

  lemma OperatedTail(t: Token, ts: seq<Token>)
    requires Operated([t] + ts)
    ensures Operated(ts)
  {
    assert forall i :: 0 <= i < |ts| ==> ts[i] == ([t] + ts)[i + 1];
  }

  lemma SingleTokens()
    ensures Operated([Or]) && Operated([And]) && Operated([LParen]) && Operated([RParen])
  {
  }

  lemma {:induction false} SlotsOperated(slots: seq<Slot>)
    ensures Operated(SlotTokens(slots))
    ensures slots != [] ==> SlotTokens(slots) != [] && !IsOperator(SlotTokens(slots)[0])
  {
    if |slots| > 1 {
      SlotsOperated(slots[1..]);
      OperatedJoin([SlotToken(slots[0]), Comma], SlotTokens(slots[1..]));
    }
  }

  lemma ComparisonOperated(name: string, op: Operator, slots: seq<Slot>)
    requires slots != []
    ensures Operated([Ident(name)] + OperatorTokens(op) + OperandTokens(op, slots))
  {
    hide SlotTokens;
    SlotsOperated(slots);
    SingleTokens();
    OperatedJoin([LParen], SlotTokens(slots));
    OperatedJoin([LParen] + SlotTokens(slots), [RParen]);
    var operands := OperandTokens(op, slots);
    assert Operated(operands) && operands != [] && !IsOperator(operands[0]);
    OperatorOperated(name, OperatorTokens(op), operands);
  }

  lemma OperatedAhead(t: Token, ts: seq<Token>)
    requires Operated(ts) && ts != []
    requires (t.Ident? ==> IsOperator(ts[0])) && (t.Op? ==> !IsOperator(ts[0]))
    ensures Operated([t] + ts)
  {
    var all := [t] + ts;
    forall i | 0 <= i < |all| && (all[i].Ident? || all[i].Op?)
      ensures i + 1 < |all| && (all[i].Ident? <==> IsOperator(all[i + 1]))
    {
      if i > 0 { assert all[i] == ts[i - 1] && (i < |ts| ==> all[i + 1] == ts[i]); }
    }
  }

  lemma OperatorOperated(name: string, operator: seq<Token>, operands: seq<Token>)
    requires Operated(operands) && operands != [] && !IsOperator(operands[0])
    requires (|operator| == 1 && operator[0].Op?) || (|operator| == 2 && operator[0] == Not && operator[1].Op?)
    ensures Operated([Ident(name)] + operator + operands)
  {
    hide Operated;
    var op := operator[|operator| - 1];
    OperatedAhead(op, operands);
    if |operator| == 1 {
      OperatedAhead(Ident(name), [op] + operands);
      assert [Ident(name)] + operator + operands == [Ident(name)] + ([op] + operands);
    } else {
      OperatedAhead(Not, [op] + operands);
      OperatedAhead(Ident(name), [Not] + ([op] + operands));
      assert [Ident(name)] + operator + operands == [Ident(name)] + ([Not] + ([op] + operands));
    }
  }

  lemma Parts(t: Tree)
    requires IsCondition(t)
    ensures t.OrTree? || t.AndTree? ==> IsCondition(t.left) && IsCondition(t.right)
    ensures t.ParenTree? ==> IsCondition(t.inner)
    ensures t.CondTree? ==> t.slots != []
  {
    hide IsTerm, IsCondition, Yield, Holes, Meaning;
    ConditionParts(t, 0);
    if t.OrTree? {
      PrimaryIsTerm(t.right);
    } else {
      TermParts(t, 0);
      if t.AndTree? { PrimaryIsTerm(t.left); PrimaryIsTerm(t.right); }
    }
  }

  lemma {:induction false} YieldOperated(t: Tree)
    requires IsCondition(t)
    ensures Operated(Yield(t))
  {
    hide Operated, OperatorTokens, OperandTokens, IsCondition;
    SingleTokens();
    Parts(t);
    match t
    case OrTree(l, r) =>
      YieldOperated(l);
      YieldOperated(r);
      OperatedJoin(Yield(l), [Or]);
      OperatedJoin(Yield(l) + [Or], Yield(r));
    case AndTree(l, r) =>
      YieldOperated(l);
      YieldOperated(r);
      OperatedJoin(Yield(l), [And]);
      OperatedJoin(Yield(l) + [And], Yield(r));
    case ParenTree(e) =>
      YieldOperated(e);
      OperatedJoin([LParen], Yield(e));
      OperatedJoin([LParen] + Yield(e), [RParen]);
    case CondTree(name, op, slots) => ComparisonOperated(name, op, slots);
  }

  // ---- A clause that has no tokens is not saved by the filter behind it. ----

  lemma {:induction false} StringStaysOpen(s: string, rest: string)
    requires StringTail(s).None? && '\'' !in rest
    ensures StringTail(s + rest).None?
    decreases |s| + |rest|
  {
    var whole := s + rest;
    if s == "" {
      assert whole == rest;
      if rest != "" {
        assert rest[0] in rest;
        assert forall c :: c in rest[1..] ==> c in rest;
        StringStaysOpen("", rest[1..]);
        assert "" + rest[1..] == rest[1..];
      }
    } else if s[0] != '\'' {
      assert whole[1..] == s[1..] + rest;
      StringStaysOpen(s[1..], rest);
    } else {
      assert |s| > 1 && s[1] == '\'';
      assert whole[2..] == s[2..] + rest;
      StringStaysOpen(s[2..], rest);
    }
  }

  lemma OpenQuoteStep(s: string)
    requires s != "" && s[0] == '\"' && forall k :: 1 <= k < |s| ==> s[k] != '\"'
    ensures Step(s + CLOSING) == Emit(ClassifyWord((s + CLOSING)[..|s| + 7]), |s| + 7)
  {
    hide ClassifyWord, RunLength;
    var whole := s + CLOSING;
    var tail, stop := whole[1..], (c: char) => c == Closer(whole[0]);
    assert whole[|s| + 6] == CLOSING[6] == '\"' && tail[|s| + 5] == whole[|s| + 6];
    forall k | 0 <= k < |s| + 5 ensures !stop(tail[k]) {
      assert tail[k] == whole[k + 1];
      if k + 1 >= |s| { assert whole[k + 1] == CLOSING[k + 1 - |s|]; }
    }
    assert RunLength(tail, stop) == |s| + 5;
  }

  /** No tokens, or tokens that the grammar refuses. */
  predicate Spoilt(ts: Option<seq<Token>>) { ts.Some? ==> !Operated(ts.value) }

  lemma TwoNamesAhead(a: string, b: string, rest: seq<Token>)
    ensures Spoilt(Prepend([Ident(a)], Some([Ident(b)] + rest)))
  {
    var ts := [Ident(a)] + ([Ident(b)] + rest);
    assert ts[0].Ident? && ts[1] == Ident(b);
  }

  lemma PastQuote(s: string)
    ensures |s + CLOSING| >= |s| + 7 && (s + CLOSING)[|s| + 7..] == "deleted\" = false"
  {
    assert (s + CLOSING)[|s| + 7..] == CLOSING[7..];
  }

  lemma TwoNamesRead(whole: string, n: nat)
    requires 0 < n <= |whole| && whole[0] == '\"' && Step(whole) == Emit(ClassifyWord(whole[..n]), n)
    requires whole[n..] == "deleted\" = false"
    ensures Spoilt(Lex(whole))
  {
    IsIdentifier(whole[..n], 0);
    hide Lex, Step, ClassifyWord, Spoilt;
    LexUnfolds(whole);
    LexBareDeleted();
    TwoNamesAhead(whole[..n], "deleted\"", [Op(Eq), Lit(Bool(false))]);
  }

  /** An open double quote is closed by the quote of the filter, and leaves two names side by side. */
  lemma QuoteClosedByFilter(s: string)
    requires s != "" && s[0] == '\"' && forall k :: 1 <= k < |s| ==> s[k] != '\"'
    ensures Spoilt(Lex(s + CLOSING))
  {
    hide *;
    PastQuote(s);
    OpenQuoteStep(s);
    TwoNamesRead(s + CLOSING, |s| + 7);
  }

  lemma LexBareDeleted()
    ensures Lex("deleted\" = false") == Some([Ident("deleted\"")] + [Op(Eq), Lit(Bool(false))])
  {
    hide ClassifyWord, Lex;
    var word := "deleted\"";
    LexWord(word, " = false");
    assert word + " = false" == "deleted\" = false";
    LexEqualsFalse();
    IsIdentifier(word, 7);
  }

  /** What the tokenizer gives up on: an open string, an open quote, or a lone exclamation mark. */
  lemma BadKinds(s: string)
    requires s != "" && Step(s).Bad?
    ensures s[0] == '\'' ==> StringTail(s[1..]).None?
    ensures IsQuote(s[0]) ==> forall k :: 1 <= k < |s| ==> s[k] != Closer(s[0])
    ensures s[0] != '\'' && !IsQuote(s[0]) ==> s[0] == '!' && (|s| > 1 ==> s[1] != '=')
  {
    hide ClassifyWord, StringTail, RunLength;
    assert forall k :: 1 <= k < |s| ==> s[1..][k - 1] == s[k];
  }

  lemma OpenStringStays(s: string)
    requires s != "" && s[0] == '\'' && StringTail(s[1..]).None?
    ensures Step(s + CLOSING).Bad?
  {
    hide ClassifyWord, StringTail, RunLength;
    NotInClosing();
    StringStaysOpen(s[1..], CLOSING);
    assert (s + CLOSING)[1..] == s[1..] + CLOSING;
  }

  lemma LoneMarkStays(s: string)
    requires s != "" && s[0] == '!' && (|s| > 1 ==> s[1] != '=')
    ensures Step(s + CLOSING).Bad?
  {
    assert (s + CLOSING)[0] == '!' && (s + CLOSING)[1] == if |s| > 1 then s[1] else ')';
  }

  lemma NotInClosing()
    ensures '\'' !in CLOSING && '`' !in CLOSING && ']' !in CLOSING
  {
  }

  lemma BadThenNone(s: string)
    requires s != "" && Step(s).Bad?
    ensures Spoilt(Lex(s))
  {
    LexUnfolds(s);
  }

  lemma BadStays(s: string)
    requires s != "" && Step(s).Bad?
    ensures Spoilt(Lex(s + CLOSING))
  {
    BadKinds(s);
    hide Step, Lex, StringTail, Spoilt;
    if s[0] == '\"' {
      QuoteClosedByFilter(s);
    } else {
      OthersStay(s);
      BadThenNone(s + CLOSING);
    }
  }

  lemma OthersStay(s: string)
    requires s != "" && Step(s).Bad? && s[0] != '\"'
    ensures s + CLOSING != "" && Step(s + CLOSING).Bad?
  {
    BadKinds(s);
    hide Step, StringTail;
    if s[0] == '\'' {
      OpenStringStays(s);
    } else if IsQuote(s[0]) {
      QuoteStaysOpen(s);
    } else {
      LoneMarkStays(s);
    }
  }

  lemma QuoteStaysOpen(s: string)
    requires s != "" && IsQuote(s[0]) && s[0] != '\"' && forall k :: 1 <= k < |s| ==> s[k] != Closer(s[0])
    ensures Step(s + CLOSING).Bad?
  {
    hide ClassifyWord, RunLength;
    NotInClosing();
    var whole := s + CLOSING;
    var n := RunLength(whole[1..], c => c == Closer(whole[0]));
    forall k | 1 <= k < |whole| ensures whole[k] != Closer(s[0]) {
      if k >= |s| { assert whole[k] == CLOSING[k - |s|]; }
    }
    assert n + 1 >= |whole|;
  }

  lemma SpoiltAhead(t: Token, ts: Option<seq<Token>>)
    requires Spoilt(ts)
    ensures Spoilt(Prepend([t], ts))
  {
    hide Operated;
    if ts.Some? && Operated([t] + ts.value) { OperatedTail(t, ts.value); }
  }

  lemma {:induction false} UnlexableStays(s: string)
    requires Lex(s).None?
    ensures Spoilt(Lex(s + CLOSING))
    decreases |s|
  {
    hide Step, Spoilt;
    LexUnfolds(s);
    if Step(s).Bad? {
      BadStays(s);
    } else {
      var n, whole := Step(s).n, s + CLOSING;
      StepStable(s, CLOSING);
      LexUnfolds(whole);
      assert whole[n..] == s[n..] + CLOSING;
      UnlexableStays(s[n..]);
      if Step(s).Emit? { SpoiltAhead(Step(s).token, Lex(whole[n..])); }
    }
  }

  // ---- The tokens of the wrapped clause, and when they parse. ----

  lemma UnlexableIsInvalid(where: string, n: nat)
    requires Lex(where).None?
    ensures !ParseWhere(EffectiveWhere(where, false), n).Root?
  {
    hide Lex, ParseTokens, TrimSpace, Operated, Step, EffectiveWhere;
    var wrapped, inside := EffectiveWhere(where, false), where + CLOSING;
    assert where != "" by { LexOfBlanks(""); }
    WrappedParts(where);
    LexUnfolds(wrapped);
    UnlexableStays(where);
    if ParseWhere(wrapped, n).Root? {
      ParsedIsOperated(wrapped, Lex(wrapped).value, n);
      OperatedTail(LParen, Lex(inside).value);
      assert false;
    }
  }

  lemma WrappedLexes(where: string, n: nat)
    requires where != ""
    ensures var wrapped := EffectiveWhere(where, false);
      ParseWhere(wrapped, n).Root? ==>
        && Lex(where).Some? && Lex(wrapped) == Some([LParen] + Lex(where).value + FILTER_TOKENS)
        && ParseTokens(Lex(wrapped).value + [EOF], n) == Some(ParseWhere(wrapped, n).node)
  {
    hide Lex, ParseTokens, TrimLeft, TrimRight;
    if Lex(where).Some? { WrappedText(where); } else { UnlexableIsInvalid(where, n); }
  }

  lemma ParsedIsOperated(s: string, ts: seq<Token>, n: nat)
    requires Lex(s) == Some(ts) && ParseTokens(ts + [EOF], n).Some?
    ensures Operated(ts)
  {
    hide Lex, ParseTokens, Yield, Operated, IsCondition;
    LexIsLexical(s);
    ParserSound(ts, n);
    var t :| IsCondition(t) && Yield(t) == ts;
    YieldOperated(t);
  }

  // ---- The exact condition, by the grammar. ----

  /** The clause, read as it stands, in parentheses, is a term of the grammar that denotes the predicate. */
  ghost predicate ReadsAsTerm(where: string, n: nat, node: Node) {
    Lex(where).Some? &&
    exists t :: IsTerm(t) && Yield(t) == [LParen] + Lex(where).value + [RParen] && Holes(t) == n &&
      Meaning(t, 0) == node
  }

  lemma TermThenFilter(t: Tree, n: nat, node: Node)
    requires IsTerm(t) && Holes(t) == n && Meaning(t, 0) == node
    ensures ParseTokens(Yield(t) + FILTER_TOKENS[1..] + [EOF], n) == Some(Both(node, LIVE_ROW))
  {
    hide ParseTokens, NormalizeIdentifier;
    var filter := FilterTree();
    var whole := AndTree(t, filter);
    ParserComplete(whole);
    assert Yield(whole) == Yield(t) + FILTER_TOKENS[1..];
  }

  /** A conjunction with the filter that ends in the filter's tokens has the rest of its tokens from the rest. */
  lemma FilterSplits(t: Tree, front: seq<Token>, node: Node)
    requires IsCondition(t) && Yield(t) == front + FILTER_TOKENS[1..] && Meaning(t, 0) == Both(node, LIVE_ROW)
    ensures t.AndTree? && IsTerm(t.left) && Yield(t.left) == front && Holes(t.left) == Holes(t) &&
      Meaning(t.left, 0) == node
  {
    hide NormalizeIdentifier;
    var all := Yield(t);
    assert all[|all| - 1] == Lit(Bool(false));
    assert !t.ParenTree?;
    var r := t.right;
    assert IsPrimary(r) && all == Yield(t.left) + [And] + Yield(r);
    assert Yield(r)[|Yield(r)| - 1] == all[|all| - 1];
    assert r.CondTree? && r.op == Eq && |r.slots| == 1;
    FilterSlot(r.slots, Holes(t.left));
    assert |Yield(r)| == 3;
    assert all[..|Yield(t.left)|] == Yield(t.left) && all[..|front|] == front && |Yield(t.left)| == |front|;
  }

  lemma FilterSlot(slots: seq<Slot>, arg: nat)
    requires |slots| == 1 && SlotOperands(slots, arg) == [Literal(Bool(false))]
    ensures SlotHoles(slots) == 0 && SlotTokens(slots) == [Lit(Bool(false))]
  {
    OneSlot(slots[0], arg);
    assert slots == [slots[0]];
  }

  /** The wrapped clause is the conjunction with the filter exactly when the clause as it stands, in
      parentheses, is a term that denotes what the clause does. */
  lemma FilterIffTerm(where: string, n: nat)
    requires ParseWhere(where, n).Root?
    ensures var node := ParseWhere(where, n).node;
      ParseWhere(EffectiveWhere(where, false), n) == Root(Both(node, LIVE_ROW)) <==> ReadsAsTerm(where, n, node)
  {
    hide Lex, ParseTokens, NormalizeIdentifier, TrimLeft, TrimRight, IsTerm, Meaning, Holes, Yield, IsCondition;
    var node, wrapped := ParseWhere(where, n).node, EffectiveWhere(where, false);
    assert where != "" by { TrimLeftIsSuffix(where, IsSpace); TrimRightIsPrefix(TrimLeft(where, IsSpace), IsSpace); }
    if ReadsAsTerm(where, n, node) {
      WrappedText(where);
      var ts := Lex(where).value;
      var t :| IsTerm(t) && Yield(t) == [LParen] + ts + [RParen] && Holes(t) == n && Meaning(t, 0) == node;
      TermThenFilter(t, n, node);
      assert [LParen] + ts + [RParen] + FILTER_TOKENS[1..] == [LParen] + ts + FILTER_TOKENS;
    }
    if ParseWhere(wrapped, n) == Root(Both(node, LIVE_ROW)) {
      WrappedLexes(where, n);
      var ts, all := Lex(where).value, Lex(wrapped).value;
      LexIsLexical(wrapped);
      ParserSound(all, n);
      var t :| IsCondition(t) && Yield(t) == all && Holes(t) == n && Meaning(t, 0) == Both(node, LIVE_ROW);
      var front := [LParen] + ts + [RParen];
      assert all == front + FILTER_TOKENS[1..];
      FilterSplits(t, front, node);
    }
  }
}
