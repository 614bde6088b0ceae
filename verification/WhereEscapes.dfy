/** Quoted names that contain word-ending characters: behind a vertical tab this tokenizer would read the
    wrapped clause in another way than the clause, and the two readings may or may not agree. The program
    itself gives wrapped clauses to the database only, which reads them by its own rules. */
module WhereEscapes {
  import opened Values
  import opened Text
  import opened WhereLexer
  import opened WhereWords
  import opened WhereParser
  import opened WhereGrammar
  import opened WhereSoftDelete
  import opened WhereTrimming
  import opened WhereWrapping

  // ---- Reading one token. ----

  lemma LexOne(c: char, token: Token, rest: string)
    requires (c == '=' && token == Op(Eq)) || (c == '?' && token == Hole) || (c == '(' && token == LParen) ||
      (c == ')' && token == RParen)
    ensures Lex([c] + rest) == Prepend([token], Lex(rest))
  {
    hide Lex;
    var s := [c] + rest;
    assert s[0] == c && s[1..] == rest;
    LexUnfolds(s);
  }

  // ---- The two readings. ----

  /** `=? kw .c]=?` */
  function Tail(kw: string): string { "=" + ("?" + (kw + (" " + (".c]" + ("=" + ("?" + "")))))) }

  /** `"c=?)kw([.c"` */
  function Quoted(kw: string): string { "\"c=?)" + kw + "([.c\"" }

  /** `[.c"=?kw .c]` */
  function Bracketed(kw: string): string { "[.c\"=?" + kw + " .c]" }

  const GLUED := "\U{0B}\"c"

  function Escape(kw: string): string { "\U{0B}" + (Quoted(kw) + Tail(kw)) }

  /** The same text, cut where the word scanner cuts it. */
  function Cut(kw: string): string {
    GLUED + ("=" + ("?" + (")" + (kw + ("(" + (Bracketed(kw) + ("=" + ("?" + ""))))))))
  }

  predicate IsKeyword(kw: string, token: Token) {
    (kw == "OR" && token == Or) || (kw == "AND" && token == And)
  }

  lemma SameText(kw: string)
    ensures Escape(kw) == Cut(kw)
  {
  }

  lemma Keyword(kw: string, token: Token)
    requires IsKeyword(kw, token)
    ensures ClassifyWord(kw) == token && IsWord(kw)
  {
    ConnectivesClassified();
    hide ClassifyWord;
  }

  lemma TailTokens(kw: string, token: Token)
    requires IsKeyword(kw, token)
    ensures Lex(Tail(kw)) == Some([Op(Eq), Hole, token, Ident(".c]"), Op(Eq), Hole])
  {
    hide Lex, ClassifyWord;
    LexOfBlanks("");
    var a := "=" + ("?" + "");
    LexOne('?', Hole, "");
    LexOne('=', Op(Eq), "?" + "");
    LexWord(".c]", a);
    IsIdentifier(".c]", 2);
    LexAfterBlank(".c]" + a);
    Keyword(kw, token);
    LexWord(kw, " " + (".c]" + a));
    LexOne('?', Hole, kw + (" " + (".c]" + a)));
    LexOne('=', Op(Eq), "?" + (kw + (" " + (".c]" + a))));
    assert [Op(Eq)] + ([Hole] + ([token] + ([Ident(".c]")] + ([Op(Eq)] + ([Hole] + [])))))
      == [Op(Eq), Hole, token, Ident(".c]"), Op(Eq), Hole];
  }

  lemma CutTokens(kw: string, token: Token)
    requires IsKeyword(kw, token)
    ensures Lex(Cut(kw)) ==
      Some([Ident(GLUED), Op(Eq), Hole, RParen, token, LParen, Ident(Bracketed(kw)), Op(Eq), Hole])
  {
    hide Lex, ClassifyWord;
    LexOfBlanks("");
    LexOne('?', Hole, "");
    LexOne('=', Op(Eq), "?" + "");
    var a := "=" + ("?" + "");
    LexQuoted(Bracketed(kw), a);
    var b := Bracketed(kw) + a;
    LexOne('(', LParen, b);
    Keyword(kw, token);
    LexWord(kw, "(" + b);
    var c := kw + ("(" + b);
    LexOne(')', RParen, c);
    LexOne('?', Hole, ")" + c);
    LexOne('=', Op(Eq), "?" + (")" + c));
    LexWord(GLUED, "=" + ("?" + (")" + c)));
    IsIdentifier(GLUED, 0);
    var name := Ident(Bracketed(kw));
    var last := [name] + ([Op(Eq)] + ([Hole] + []));
    assert [Ident(GLUED)] + ([Op(Eq)] + ([Hole] + ([RParen] + ([token] + ([LParen] + last)))))
      == [Ident(GLUED), Op(Eq), Hole, RParen, token, LParen, name, Op(Eq), Hole];
  }

  // ---- The names. ----

  function Part(part: string): string {
    var last := Trim(TrimSpace(part), c => c == '\\' || c == '\"' || c == '`' || c == '\'');
    if last != "" && last[0] == '[' && last[|last| - 1] == ']' then Unbracket(last) else last
  }

  lemma {:induction false} SplitEnds(front: string, part: string)
    requires '.' !in part
    ensures Split(front + ("." + part), '.')[|Split(front + ("." + part), '.')| - 1] == part
    decreases |front|
  {
    var s := front + ("." + part);
    if front == "" {
      assert s[1..] == part;
      SplitWithoutSeparator(part, '.');
    } else {
      assert s[1..] == front[1..] + ("." + part);
      SplitEnds(front[1..], part);
      var rest := Split(s[1..], '.');
      assert |rest| > 1 || rest[0] == part;
      DotSplits(front[1..], part);
    }
  }

  lemma {:induction false} DotSplits(front: string, part: string)
    ensures |Split(front + ("." + part), '.')| > 1
    decreases |front|
  {
    var s := front + ("." + part);
    if front == "" {
      assert s[1..] == part;
    } else {
      assert s[1..] == front[1..] + ("." + part);
      DotSplits(front[1..], part);
    }
  }

  lemma NormalizePart(front: string, part: string)
    requires '.' !in part && TrimSpace(front + ("." + part)) == front + ("." + part)
    ensures NormalizeIdentifier(front + ("." + part)) == Part(part)
  {
    hide TrimLeft, TrimRight, Split;
    SplitEnds(front, part);
  }

  lemma PartsNamed()
    ensures Part("c\"") == "c" && Part("\"c") == "c" && Part("c]") == "c]"
  {
    var quotes := (c: char) => c == '\\' || c == '\"' || c == '`' || c == '\'';
    TrimKeeps("c\"", IsSpace);
    TrimKeeps("\"c", IsSpace);
    TrimKeeps("c]", IsSpace);
    TrimKeeps("c]", quotes);
    TrimKeeps("c", quotes);
    assert "\"c"[1..] == "c" && "c\""[..1] == "c";
    assert TrimLeft("c\"", quotes) == "c\"" && TrimRight("c\"", quotes) == TrimRight("c", quotes);
    assert TrimLeft("\"c", quotes) == TrimLeft("c", quotes);
  }

  lemma QuotedName(kw: string)
    ensures NormalizeIdentifier(Quoted(kw)) == "c"
  {
    hide NormalizeIdentifier, Trim, Part;
    var front := "\"c=?)" + kw + "([";
    assert Quoted(kw) == front + ("." + "c\"");
    TrimKeeps(Quoted(kw), IsSpace);
    NormalizePart(front, "c\"");
    PartsNamed();
  }

  lemma BracketedName(kw: string)
    ensures NormalizeIdentifier(Bracketed(kw)) == "c]"
  {
    hide NormalizeIdentifier, Trim, Part;
    var front := "[.c\"=?" + kw + " ";
    assert Bracketed(kw) == front + ("." + "c]");
    TrimKeeps(Bracketed(kw), IsSpace);
    NormalizePart(front, "c]");
    PartsNamed();
  }

  lemma BareName()
    ensures NormalizeIdentifier(".c]") == "c]"
  {
    hide NormalizeIdentifier, Trim, Part;
    assert ".c]" == "" + ("." + "c]");
    TrimKeeps(".c]", IsSpace);
    NormalizePart("", "c]");
    PartsNamed();
  }

  lemma GluedName()
    ensures NormalizeIdentifier(GLUED) == "c"
  {
    var word := "\"c";
    assert GLUED == "\U{0B}" + word;
    NormalizeTrims("\U{0B}", word);
    TrimKeeps(word, IsSpace);
    SplitWithoutSeparator(word, '.');
    PartsNamed();
    hide TrimLeft, TrimRight, Split;
    assert NormalizeIdentifier(word) == Part(word);
  }

  // ---- The clauses. ----

  const FIRST := Cond("c", Eq, [Arg(0)])
  const SECOND := Cond("c]", Eq, [Arg(1)])

  /** A comparison with a placeholder. */
  function Holed(name: string): Tree { CondTree(name, Eq, [HoleSlot]) }

  lemma HoledIs(name: string, arg: nat)
    ensures IsPrimary(Holed(name)) && Yield(Holed(name)) == [Ident(name), Op(Eq), Hole] && Holes(Holed(name)) == 1
    ensures Meaning(Holed(name), arg) == Cond(NormalizeIdentifier(name), Eq, [Arg(arg)])
  {
    hide NormalizeIdentifier;
    OneSlot(HoleSlot, arg);
  }

  /** The clause by itself. */
  lemma EscapeText(kw: string, token: Token)
    requires IsKeyword(kw, token)
    ensures TrimSpace(Escape(kw)) == Quoted(kw) + Tail(kw)
    ensures Lex(TrimSpace(Escape(kw))) == Some([Ident(Quoted(kw)), Op(Eq), Hole, token, Ident(".c]"), Op(Eq), Hole])
    ensures Lex(Escape(kw)) ==
      Some([Ident(GLUED), Op(Eq), Hole, RParen, token, LParen, Ident(Bracketed(kw)), Op(Eq), Hole])
  {
    hide Lex;
    var text := Quoted(kw) + Tail(kw);
    assert text[0] == '\"' && text[|text| - 1] == '?';
    TrimKeeps(text, IsSpace);
    assert Escape(kw)[1..] == text && Escape(kw)[0] == '\U{0B}';
    assert TrimLeft(Escape(kw), IsSpace) == TrimLeft(text, IsSpace);
    TailTokens(kw, token);
    LexQuoted(Quoted(kw), Tail(kw));
    assert [Ident(Quoted(kw))] + [Op(Eq), Hole, token, Ident(".c]"), Op(Eq), Hole]
      == [Ident(Quoted(kw)), Op(Eq), Hole, token, Ident(".c]"), Op(Eq), Hole];
    SameText(kw);
    CutTokens(kw, token);
  }

  lemma EscapeParses(kw: string, token: Token)
    requires IsKeyword(kw, token)
    ensures ParseWhere(Escape(kw), 2) == Root(if token == Or then Either(FIRST, SECOND) else Both(FIRST, SECOND))
  {
    hide Lex, ParseTokens, NormalizeIdentifier, TrimLeft, TrimRight, Quoted, Bracketed, Tail, Escape, Cut;
    EscapeText(kw, token);
    var l, r := Holed(Quoted(kw)), Holed(".c]");
    HoledIs(Quoted(kw), 0);
    HoledIs(".c]", 1);
    QuotedName(kw);
    BareName();
    var t := if token == Or then OrTree(l, r) else AndTree(l, r);
    PrimaryIsTerm(l);
    PrimaryIsTerm(r);
    PrimaryIsTerm(t);
    assert Yield(t) == [Ident(Quoted(kw)), Op(Eq), Hole, token, Ident(".c]"), Op(Eq), Hole];
    ParserComplete(t);
    assert TrimSpace(Escape(kw)) != "" by { EscapeNotEmpty(kw); }
  }

  lemma EscapeNotEmpty(kw: string)
    ensures Quoted(kw) + Tail(kw) != "" && Escape(kw) != ""
  {
  }

  lemma ParenHoled(name: string, arg: nat)
    ensures var t := ParenTree(Holed(name));
      && IsPrimary(t) && IsTerm(t) && Yield(t) == [LParen, Ident(name), Op(Eq), Hole, RParen] && Holes(t) == 1
      && Meaning(t, arg) == Cond(NormalizeIdentifier(name), Eq, [Arg(arg)])
  {
    hide NormalizeIdentifier;
    HoledIs(name, arg);
    PrimaryIsTerm(Holed(name));
    PrimaryIsTerm(ParenTree(Holed(name)));
  }

  /** Two primaries and a third behind AND, joined by OR or AND. */
  function Join(l: Tree, token: Token, r: Tree, f: Tree): Tree {
    if token == Or then OrTree(l, AndTree(r, f)) else AndTree(AndTree(l, r), f)
  }

  lemma Joined(l: Tree, token: Token, r: Tree, f: Tree)
    requires IsPrimary(l) && IsPrimary(r) && IsPrimary(f) && Holes(l) == 1 && Holes(r) == 1 && Holes(f) == 0
    ensures IsCondition(Join(l, token, r, f)) && Holes(Join(l, token, r, f)) == 2
    ensures Meaning(Join(l, token, r, f), 0) ==
      if token == Or then Either(Meaning(l, 0), Both(Meaning(r, 1), Meaning(f, 2)))
      else Both(Both(Meaning(l, 0), Meaning(r, 1)), Meaning(f, 2))
  {
    hide NormalizeIdentifier;
    PrimaryIsTerm(l);
    PrimaryIsTerm(r);
    assert IsTerm(AndTree(r, f)) && IsTerm(AndTree(l, r)) && IsCondition(OrTree(l, AndTree(r, f)));
    assert IsTerm(AndTree(AndTree(l, r), f));
    PrimaryIsTerm(AndTree(AndTree(l, r), f));
  }

  lemma JoinedYield(l: Tree, token: Token, r: Tree, f: Tree)
    requires token == Or || token == And
    ensures Yield(Join(l, token, r, f)) == Yield(l) + [token] + Yield(r) + ([And] + Yield(f))
  {
    hide OperandTokens, OperatorTokens;
    if token == Or { assert Yield(AndTree(r, f)) == Yield(r) + ([And] + Yield(f)); }
  }

  lemma EscapeTree(a: string, b: string, token: Token) returns (t: Tree)
    requires (token == Or || token == And) && NormalizeIdentifier(a) == "c" && NormalizeIdentifier(b) == "c]"
    ensures IsCondition(t) && Holes(t) == 2
    ensures Yield(t) == [LParen, Ident(a), Op(Eq), Hole, RParen, token, LParen, Ident(b), Op(Eq), Hole] + FILTER_TOKENS
    ensures Meaning(t, 0) == if token == Or then Either(FIRST, Both(SECOND, LIVE_ROW))
      else Both(Both(FIRST, SECOND), LIVE_ROW)
  {
    hide Yield, Meaning, Holes, IsCondition, IsPrimary, IsTerm, NormalizeIdentifier, Join, Holed;
    var l, r := ParenTree(Holed(a)), ParenTree(Holed(b));
    var filter := FilterTree();
    ParenHoled(a, 0);
    ParenHoled(b, 1);
    t := Join(l, token, r, filter);
    Joined(l, token, r, filter);
    JoinedYield(l, token, r, filter);
    assert [RParen] + ([And] + Yield(filter)) == FILTER_TOKENS;
    assert Yield(l) + [token] + Yield(r) + ([And] + Yield(filter))
      == [LParen, Ident(a), Op(Eq), Hole, RParen, token, LParen, Ident(b), Op(Eq), Hole]
       + ([RParen] + ([And] + Yield(filter)));
  }

  /** The wrapped clause: the parentheses inside the quoted name close and open around the keyword. */
  lemma WrappedEscape(kw: string, token: Token)
    requires IsKeyword(kw, token)
    ensures ParseWhere(EffectiveWhere(Escape(kw), false), 2)
         == Root(if token == Or then Either(FIRST, Both(SECOND, LIVE_ROW)) else Both(Both(FIRST, SECOND), LIVE_ROW))
  {
    hide Lex, ParseTokens, NormalizeIdentifier, TrimLeft, TrimRight, Quoted, Bracketed, Tail, Escape, Cut;
    hide Yield, Meaning, Holes, IsCondition;
    EscapeText(kw, token);
    EscapeNotEmpty(kw);
    WrappedText(Escape(kw));
    GluedName();
    BracketedName(kw);
    var t := EscapeTree(GLUED, Bracketed(kw), token);
    assert Yield(t) == [LParen] + Lex(Escape(kw)).value + FILTER_TOKENS;
    ParserComplete(t);
  }

  /** A quoted name with word-ending characters can be read in pieces and the wrapping still be right. */
  lemma PiecesMayAgree()
    ensures var where := Escape("AND");
      ParseWhere(where, 2).Root? && !PlainStart(Body(where)) && !StartsWithWord(Body(where)) &&
      ParseWhere(EffectiveWhere(where, false), 2) == Root(Both(ParseWhere(where, 2).node, LIVE_ROW))
  {
    EscapeParses("AND", And);
    WrappedEscape("AND", And);
    EscapeStart("AND");
  }

  /** Or it is wrong: read by this tokenizer, the wrapped text would be a disjunction with the filter on one side
      only. Only the database reads that text, so no deleted row comes back because of it. */
  lemma OrEscapes()
    ensures var where := Escape("OR");
      ParseWhere(where, 2) == Root(Either(FIRST, SECOND)) && !PlainStart(Body(where)) &&
      ParseWhere(EffectiveWhere(where, false), 2) == Root(Either(FIRST, Both(SECOND, LIVE_ROW)))
  {
    EscapeParses("OR", Or);
    WrappedEscape("OR", Or);
    EscapeStart("OR");
  }

  lemma EscapeStart(kw: string)
    ensures !PlainStart(Body(Escape(kw))) && !StartsWithWord(Body(Escape(kw)))
  {
    hide ClassifyWord, RunLength, Tail;
    var text := Quoted(kw) + Tail(kw);
    assert Escape(kw)[1..] == text && Escape(kw)[0] == '\U{0B}' && text[0] == '\"' && text[2] == '=';
    assert TrimLeft(text, IsSpace) == text == Body(Escape(kw));
    assert RunLength(text, EndsWord) <= 2;
    var n := RunLength(text[1..], c => c == Closer(text[0]));
    assert text[1..][0] == 'c' && text[1..][1] == '=' && text[1..][2] == '?';
    assert text[1..][|Quoted(kw)| - 2] == Quoted(kw)[|Quoted(kw)| - 1] == '\"';
    assert 2 < n + 2 <= |Quoted(kw)|;
  }

  /** A vertical tab behind the filter's text: this parser accepts it alone and would not accept it wrapped. */
  lemma WrappingCanFail()
    ensures ParseWhere(NOT_DELETED + "\U{0B}", 0) == Root(LIVE_ROW)
    ensures !ParseWhere(EffectiveWhere(NOT_DELETED + "\U{0B}", false), 0).Root?
  {
    var where := NOT_DELETED + "\U{0B}";
    assert where[0] == '\"' && where[|where| - 1] == '\U{0B}' && NOT_DELETED[|NOT_DELETED| - 1] == 'e';
    assert TrimLeft(where, IsSpace) == where;
    assert where[..|where| - 1] == NOT_DELETED;
    assert TrimRight(where, IsSpace) == NOT_DELETED;
    assert TrimRight(where, IsBlank) == where;
    TrimKeeps(NOT_DELETED, IsSpace);
    FilterAloneParses();
    hide Lex, ParseTokens, TrimLeft, TrimRight;
    assert ParseWhere(where, 0) == ParseWhere(NOT_DELETED, 0);
    TrailingVerticalFails(where, 0);
  }
}
