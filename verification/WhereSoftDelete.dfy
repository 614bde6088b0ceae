/** The soft-delete filter `(W) AND "deleted" = false` that queries are wrapped in. */
module WhereSoftDelete {
  import opened Values
  import opened Text
  import opened WhereLexer
  import opened WhereWords
  import opened WhereNames
  import opened WhereParser
  import opened WhereGrammar

  const DELETED := "deleted"
  const NOT_DELETED := "\"deleted\" = false"

  /** The WHERE clause sent to the database. */
  function EffectiveWhere(where: string, includeDeleted: bool): string {
    if includeDeleted then where
    else if where != "" then "(" + where + ") AND " + NOT_DELETED
    else NOT_DELETED
  }

  const LIVE_ROW := Cond(DELETED, Eq, [Literal(Bool(false))])

  // ---- Tokens do not depend on what follows a clause, up to a blank or a closing parenthesis. ----

  predicate Separates(c: char) { c == ')' || IsBlank(c) }

  lemma {:induction false} StringTailStable(s: string, rest: string)
    requires StringTail(s).Some? && rest != "" && rest[0] != '\''
    ensures StringTail(s + rest) == StringTail(s)
    decreases |s|
  {
    var whole := s + rest;
    if s[0] != '\'' {
      assert whole[1..] == s[1..] + rest;
      StringTailStable(s[1..], rest);
    } else if |s| > 1 && s[1] == '\'' {
      assert whole[2..] == s[2..] + rest;
      StringTailStable(s[2..], rest);
    } else {
      assert |s| == 1 ==> whole[1] == rest[0];
    }
  }

  lemma {:induction false} RunLengthStable(s: string, rest: string, stop: char -> bool)
    requires RunLength(s, stop) < |s| || (rest != "" && stop(rest[0]))
    ensures RunLength(s + rest, stop) == RunLength(s, stop)
    decreases |s|
  {
    if s != "" && !stop(s[0]) {
      assert (s + rest)[1..] == s[1..] + rest;
      RunLengthStable(s[1..], rest, stop);
    } else if s == "" {
      assert s + rest == rest;
    }
  }

  lemma StepStable(s: string, rest: string)
    requires s != "" && rest != "" && Separates(rest[0]) && !Step(s).Bad?
    ensures Step(s + rest) == Step(s)
  {
    hide ClassifyWord, StringTail, RunLength;
    var whole := s + rest;
    assert whole[0] == s[0] && whole[1..] == s[1..] + rest;
    var c := s[0];
    if IsBlank(c) || c == '(' || c == ')' || c == ',' || c == '?' {
    } else if IsSymbol(c) {
      assert |s| == 1 ==> whole[1] == rest[0];
    } else if c == '\'' {
      StringTailStable(s[1..], rest);
    } else if IsQuote(c) {
      RunLengthStable(s[1..], rest, c => c == Closer(s[0]));
      RunLengthStable(s[1..], rest, c => c == Closer(whole[0]));
      var n := RunLength(s[1..], c => c == Closer(s[0]));
      assert whole[..n + 2] == s[..n + 2];
      QuotedStable(s, whole, n);
    } else {
      RunLengthStable(s, rest, EndsWord);
      var n := RunLength(s, EndsWord);
      assert whole[..n] == s[..n];
    }
  }

  lemma QuotedStable(s: string, whole: string, n: nat)
    requires s != "" && s <= whole && IsQuote(s[0]) && n + 1 < |s|
    requires RunLength(s[1..], c => c == Closer(s[0])) == n == RunLength(whole[1..], c => c == Closer(whole[0]))
    ensures QuotedStep(whole) == QuotedStep(s) == Emit(ClassifyWord(s[..n + 2]), n + 2)
  {
    hide ClassifyWord, RunLength;
    assert whole[..n + 2] == s[..n + 2];
  }

  lemma {:induction false} LexThen(s: string, rest: string)
    requires Lex(s).Some? && rest != "" && Separates(rest[0])
    ensures Lex(s + rest) == Prepend(Lex(s).value, Lex(rest))
    decreases |s|
  {
    hide Step;
    if s == "" {
      assert s + rest == rest;
      assert Lex(rest).Some? ==> [] + Lex(rest).value == Lex(rest).value;
    } else {
      LexUnfolds(s);
      StepStable(s, rest);
      var n := Step(s).n;
      assert (s + rest)[n..] == s[n..] + rest;
      LexThen(s[n..], rest);
      LexUnfolds(s + rest);
      if Step(s).Emit? { PrependConcat([Step(s).token], Lex(s[n..]).value, Lex(rest)); }
    }
  }

  lemma PrependConcat(a: seq<Token>, b: seq<Token>, rest: Option<seq<Token>>)
    ensures Prepend(a, Prepend(b, rest)) == Prepend(a + b, rest)
  {
    if rest.Some? { assert a + (b + rest.value) == a + b + rest.value; }
  }

  // ---- Surrounding blanks are skipped. ----

  lemma {:induction false} LexTrimLeft(s: string)
    ensures Lex(s) == Lex(TrimLeft(s, IsBlank))
    decreases |s|
  {
    if s != "" && IsBlank(s[0]) {
      assert Step(s) == Skip(1);
      LexTrimLeft(s[1..]);
    }
  }

  lemma LexOfBlanks(s: string)
    requires forall k :: 0 <= k < |s| ==> IsBlank(s[k])
    ensures Lex(s) == Some([])
    decreases |s|
  {
    if s != "" {
      assert Step(s) == Skip(1);
      LexOfBlanks(s[1..]);
    }
  }

  lemma LexTrimRight(s: string)
    requires Lex(TrimRight(s, IsBlank)).Some?
    ensures Lex(s) == Lex(TrimRight(s, IsBlank))
  {
    hide Lex, TrimRight;
    var t := TrimRight(s, IsBlank);
    TrimRightIsPrefix(s, IsBlank);
    TrimmedTailIsCut(s, IsBlank);
    var post := s[|t|..];
    assert s == t + post;
    if post == "" {
      assert s == t;
    } else {
      LexThen(t, post);
      LexOfBlanks(post);
      assert Lex(t).value + [] == Lex(t).value;
    }
  }

  /** Trimming removes only characters the tokenizer skips anyway (no vertical tab or form feed). */
  predicate TrimsToBlanks(where: string) { TrimSpace(where) == Trim(where, IsBlank) }

  lemma LexUntrimmed(where: string)
    requires TrimsToBlanks(where) && Lex(TrimSpace(where)).Some?
    ensures Lex(where) == Lex(TrimSpace(where))
  {
    hide Lex, TrimLeft, TrimRight;
    LexTrimLeft(where);
    LexTrimRight(TrimLeft(where, IsBlank));
  }

  // ---- The filter text itself. ----

  lemma LexFilter()
    ensures Lex(NOT_DELETED) == Some([Ident("\"deleted\""), Op(Eq), Lit(Bool(false))])
  {
    hide Lex;
    var name := "\"deleted\"";
    assert NOT_DELETED == name + " = false";
    LexQuoted(name, " = false");
    LexEqualsFalse();
    assert [Ident(name)] + [Op(Eq), Lit(Bool(false))] == [Ident(name), Op(Eq), Lit(Bool(false))];
  }

  lemma LexEqualsFalse()
    ensures Lex(" = false") == Some([Op(Eq), Lit(Bool(false))])
  {
    hide ClassifyWord, Lex, RunLength;
    var s := "= false";
    assert " " + s == " = false" && " " + "false" == " false" && s[1..] == " false" && "false" + "" == "false";
    LexAfterBlank(s);
    LexAfterBlank("false");
    assert Step(s) == Emit(Op(Eq), 1);
    LexUnfolds(s);
    LexWord("false", "");
    FalseClassified();
    LexOfBlanks("");
    assert [Op(Eq)] + ([Lit(Bool(false))] + []) == [Op(Eq), Lit(Bool(false))];
  }

  lemma LexClosing()
    ensures Lex(") AND " + NOT_DELETED) == Some([RParen, And, Ident("\"deleted\""), Op(Eq), Lit(Bool(false))])
  {
    hide ClassifyWord, Lex, RunLength;
    var filter := [Ident("\"deleted\""), Op(Eq), Lit(Bool(false))];
    var tail := "AND" + (" " + NOT_DELETED);
    var s := ") AND " + NOT_DELETED;
    LexFilter();
    LexAfterBlank(NOT_DELETED);
    LexWord("AND", " " + NOT_DELETED);
    ConnectivesClassified();
    LexAfterBlank(tail);
    assert s[1..] == " " + tail && Step(s) == Emit(RParen, 1);
    LexUnfolds(s);
    assert [RParen] + ([And] + filter) == [RParen, And, Ident("\"deleted\""), Op(Eq), Lit(Bool(false))];
  }

  lemma NormalizeDeleted()
    ensures NormalizeIdentifier("\"deleted\"") == DELETED
  {
    NameStandsForColumn("", "\"deleted\"", DELETED);
  }

  /** A query without a WHERE clause of its own. */
  lemma FilterAloneParses()
    ensures ParseWhere(NOT_DELETED, 0) == Root(LIVE_ROW)
  {
    hide Lex, ParseTokens, NormalizeIdentifier;
    TrimKeeps(NOT_DELETED, IsSpace);
    LexFilter();
    var t := FilterTree();
    ParserComplete(t);
  }

  lemma FilterTree() returns (t: Tree)
    ensures IsPrimary(t) && IsCondition(t) && Holes(t) == 0
    ensures Yield(t) == [Ident("\"deleted\""), Op(Eq), Lit(Bool(false))]
    ensures forall arg :: Meaning(t, arg) == LIVE_ROW
  {
    hide NormalizeIdentifier;
    t := CondTree("\"deleted\"", Eq, [LitSlot(Bool(false))]);
    NormalizeDeleted();
    OneSlot(LitSlot(Bool(false)), 0);
    forall arg: nat ensures Meaning(t, arg) == LIVE_ROW { OneSlot(LitSlot(Bool(false)), arg); }
    PrimaryIsTerm(t);
  }

  /** The wrapped clause means the clause and "not deleted": a top-level OR cannot escape the filter. */
  lemma FilterIsConjunction(where: string, n: nat)
    requires ParseWhere(where, n).Root? && TrimsToBlanks(where)
    ensures ParseWhere(EffectiveWhere(where, false), n) == Root(Both(ParseWhere(where, n).node, LIVE_ROW))
  {
    hide Lex, ParseTokens, NormalizeIdentifier, TrimLeft, TrimRight, IsCondition, Meaning, Holes, Yield;
    var ts := Lex(TrimSpace(where)).value;
    var node := ParseWhere(where, n).node;
    TrimLeftIsSuffix(where, IsSpace);
    TrimRightIsPrefix(TrimLeft(where, IsSpace), IsSpace);
    LexUntrimmed(where);
    LexIsLexical(TrimSpace(where));
    var wrapped := EffectiveWhere(where, false);
    WrappedText(where);
    ParserSound(ts, n);
    var inner :| IsCondition(inner) && Yield(inner) == ts && Holes(inner) == n && Meaning(inner, 0) == node;
    WrappedTree(inner, node);
  }

  lemma WrappedParts(where: string)
    requires where != ""
    ensures var wrapped, inside := EffectiveWhere(where, false), where + (") AND " + NOT_DELETED);
      wrapped != "" && TrimSpace(wrapped) == wrapped && Step(wrapped) == Emit(LParen, 1) && wrapped[1..] == inside
  {
    hide TrimLeft, TrimRight;
    var wrapped := EffectiveWhere(where, false);
    assert wrapped == "(" + (where + (") AND " + NOT_DELETED));
    assert wrapped[0] == '(' && wrapped[|wrapped| - 1] == 'e';
    TrimKeeps(wrapped, IsSpace);
  }

  /** The tokens of the wrapped text. */
  lemma WrappedText(where: string)
    requires where != "" && Lex(where).Some?
    ensures var wrapped := EffectiveWhere(where, false);
      TrimSpace(wrapped) == wrapped != "" &&
      Lex(wrapped) == Some([LParen] + Lex(where).value + [RParen, And, Ident("\"deleted\""), Op(Eq), Lit(Bool(false))])
  {
    hide Lex, Step, EffectiveWhere, TrimSpace;
    var closing := ") AND " + NOT_DELETED;
    WrappedParts(where);
    LexThen(where, closing);
    LexClosing();
    LexUnfolds(EffectiveWhere(where, false));
    PrependConcat([LParen], Lex(where).value, Lex(closing));
  }

  lemma WrappedTree(inner: Tree, node: Node)
    requires IsCondition(inner) && Meaning(inner, 0) == node
    ensures var ts := [LParen] + Yield(inner) + [RParen, And, Ident("\"deleted\""), Op(Eq), Lit(Bool(false))];
      ParseTokens(ts + [EOF], Holes(inner)) == Some(Both(node, LIVE_ROW))
  {
    hide ParseTokens, NormalizeIdentifier;
    var filter := FilterTree();
    var t := AndTree(ParenTree(inner), filter);
    PrimaryIsTerm(ParenTree(inner));
    PrimaryIsTerm(t);
    ParserComplete(t);
    assert Yield(t) == [LParen] + Yield(inner) + [RParen, And, Ident("\"deleted\""), Op(Eq), Lit(Bool(false))];
  }
}
