/** The lexical grammar of a WHERE clause, stated without the tokenizer: how a token may be spelled, what may
    stand next to it, and how a list of tokens is laid out in a text. The tokenizer decides it. */
module WhereLayout {
  import opened Values
  import opened Text
  import opened WhereLexer
  import opened WhereWords
  import opened WhereParser
  import opened WhereGrammar
  import opened WhereText

  // ---- Words. ----

  /** The word is this keyword, in any mixture of cases. */
  predicate IsKeywordFor(word: string, t: Token) {
    match t
    case And => |word| == 3 && word[0] in "aA" && word[1] in "nN" && word[2] in "dD"
    case Or => |word| == 2 && word[0] in "oO" && word[1] in "rR"
    case Not => |word| == 3 && word[0] in "nN" && word[1] in "oO" && word[2] in "tT"
    case Op(Like) => |word| == 4 && word[0] in "lL" && word[1] in "iI" && word[2] in "kK" && word[3] in "eE"
    case Op(In) => |word| == 2 && word[0] in "iI" && word[1] in "nN"
    case Lit(Bool(true)) => |word| == 4 && word[0] in "tT" && word[1] in "rR" && word[2] in "uU" && word[3] in "eE"
    case Lit(Bool(false)) =>
      |word| == 5 && word[0] in "fF" && word[1] in "aA" && word[2] in "lL" && word[3] in "sS" && word[4] in "eE"
    case Lit(Nil) => |word| == 4 && word[0] in "nN" && word[1] in "uU" && word[2] in "lL" && word[3] in "lL"
    case _ => false
  }

  predicate IsKeyword(word: string) {
    exists t :: t in {And, Or, Not, Op(Like), Op(In), Lit(Bool(true)), Lit(Bool(false)), Lit(Nil)} &&
      IsKeywordFor(word, t)
  }

  /** Decimal digits, perhaps with a sign, of a number that fits in 64 bits. */
  predicate IsNumber(word: string, n: int) {
    && MIN_INT64 <= n <= MAX_INT64
    && (|| (word != "" && AllDigits(word) && n == DigitsValue(word))
        || (|word| > 1 && word[0] == '+' && AllDigits(word[1..]) && n == DigitsValue(word[1..]))
        || (|word| > 1 && word[0] == '-' && AllDigits(word[1..]) && n == 0 - DigitsValue(word[1..])))
  }

  /** The token an unquoted word stands for: a keyword, else an integer, else a real number, else a name. */
  ghost predicate StandsFor(word: string, t: Token) {
    if IsKeyword(word) then IsKeywordFor(word, t)
    else if exists n :: IsNumber(word, n) then t.Lit? && t.value.Int? && IsNumber(word, t.value.i)
    else if ParseFloat(word).Some? then t == Lit(Float(ParseFloat(word).value))
    else t == Ident(word)
  }

  lemma LongKeywords(word: string)
    ensures ToUpper(word) == "LIKE" <==> IsKeywordFor(word, Op(Like))
    ensures ToUpper(word) == "TRUE" <==> IsKeywordFor(word, Lit(Bool(true)))
    ensures ToUpper(word) == "FALSE" <==> IsKeywordFor(word, Lit(Bool(false)))
    ensures ToUpper(word) == "NULL" <==> IsKeywordFor(word, Lit(Nil))
  {
    ToUpperMeans(word, "LIKE");
    ToUpperMeans(word, "TRUE");
    ToUpperMeans(word, "FALSE");
    ToUpperMeans(word, "NULL");
    hide ToUpper;
  }

  lemma ShortKeywords(word: string)
    ensures ToUpper(word) == "AND" <==> IsKeywordFor(word, And)
    ensures ToUpper(word) == "OR" <==> IsKeywordFor(word, Or)
    ensures ToUpper(word) == "NOT" <==> IsKeywordFor(word, Not)
    ensures ToUpper(word) == "IN" <==> IsKeywordFor(word, Op(In))
  {
    ToUpperMeans(word, "AND");
    ToUpperMeans(word, "OR");
    ToUpperMeans(word, "NOT");
    ToUpperMeans(word, "IN");
    hide ToUpper;
  }

  lemma NumberMeans(word: string, n: int)
    ensures ParseInt(word) == Some(n) <==> IsNumber(word, n)
  {
    hide DigitsValue;
    if |word| > 1 && AllDigits(word) { assert '0' <= word[0] <= '9'; }
  }

  /** A keyword token is read exactly from that keyword, in any mixture of cases. */
  lemma KeywordsMean(word: string, t: Token)
    requires t in {And, Or, Not, Op(Like), Op(In), Lit(Bool(true)), Lit(Bool(false)), Lit(Nil)}
    ensures ClassifyWord(word) == t <==> IsKeywordFor(word, t)
  {
    hide ToUpper, ParseInt, IsKeywordFor;
    LongKeywords(word);
    ShortKeywords(word);
  }

  /** Every word is classified as what it stands for, and stands for one token alone. */
  lemma WordMeans(word: string, t: Token)
    ensures ClassifyWord(word) == t <==> StandsFor(word, t)
  {
    hide ToUpper, ParseInt, IsKeywordFor, IsNumber;
    LongKeywords(word);
    ShortKeywords(word);
    OnlyKeywords(word, t);
    if ParseInt(word).Some? { NumberMeans(word, ParseInt(word).value); }
    forall n ensures ParseInt(word) == Some(n) <==> IsNumber(word, n) { NumberMeans(word, n); }
  }

  lemma OnlyKeywords(word: string, t: Token)
    ensures IsKeywordFor(word, t) ==>
      t in {And, Or, Not, Op(Like), Op(In), Lit(Bool(true)), Lit(Bool(false)), Lit(Nil)}
  {
  }

  // ---- Tokens. ----

  /** The text is one of the spellings of the token. */
  ghost predicate Spells(text: string, t: Token) {
    || (IsQuoted(text) && t == Ident(text))
    || (IsWord(text) && StandsFor(text, t))
    || (t.Lit? && t.value.Str? && text == "'" + (Escaped(t.value.s) + "'"))
    || IsMark(text, t)
  }

  predicate IsMark(text: string, t: Token) {
    match t
    case LParen => text == "("
    case RParen => text == ")"
    case Comma => text == ","
    case Hole => text == "?"
    case Op(Eq) => text == "="
    case Op(Ne) => text == "!="
    case Op(NeAngle) => text == "<>"
    case Op(Lt) => text == "<"
    case Op(Gt) => text == ">"
    case Op(Le) => text == "<="
    case Op(Ge) => text == ">="
    case _ => false
  }

  /** What may follow a spelling, so that it does not go on. */
  predicate MayFollow(text: string, rest: string) {
    rest == "" ||
    (&& (IsWord(text) ==> EndsWord(rest[0]))
     && (text != "" && text[0] == '\'' ==> rest[0] != '\'')
     && (text == "<" ==> rest[0] != '=' && rest[0] != '>')
     && (text == ">" ==> rest[0] != '='))
  }

  predicate Blanks(s: string) { forall k :: 0 <= k < |s| ==> IsBlank(s[k]) }

  /** The tokens in order, each in some spelling, with any blanks around them. */
  ghost predicate LaidOut(ts: seq<Token>, s: string)
    decreases |ts|
  {
    if ts == [] then Blanks(s)
    else exists i, j :: LeadsWith(ts[0], s, i, j) && LaidOut(ts[1..], s[j..])
  }

  ghost predicate LeadsWith(t: Token, s: string, i: int, j: int) {
    0 <= i < j <= |s| && Blanks(s[..i]) && Spells(s[i..j], t) && MayFollow(s[i..j], s[j..])
  }

  // ---- One step of the tokenizer. ----

  /** What a string literal is read from. */
  lemma {:induction false} TailIsEscaped(s: string)
    requires StringTail(s).Some?
    ensures var (text, n) := StringTail(s).value;
      1 <= n <= |s| && s[..n] == Escaped(text) + "'" && (n < |s| ==> s[n] != '\'')
    decreases |s|
  {
    hide Escaped;
    var (text, n) := StringTail(s).value;
    if s[0] != '\'' {
      TailIsEscaped(s[1..]);
      EscapedCons(s[0], StringTail(s[1..]).value.0);
      assert s[..n] == [s[0]] + s[1..][..n - 1];
    } else if |s| > 1 && s[1] == '\'' {
      TailIsEscaped(s[2..]);
      EscapedCons('\'', StringTail(s[2..]).value.0);
      assert s[..n] == "''" + s[2..][..n - 2];
    } else {
      EscapedEmpty(text);
    }
  }

  lemma EscapedCons(c: char, s: string)
    ensures Escaped([c] + s) == (if c == '\'' then "''" else [c]) + Escaped(s)
  {
    assert ([c] + s)[1..] == s;
  }

  lemma EscapedEmpty(s: string)
    requires s == ""
    ensures Escaped(s) == ""
  {
  }

  lemma LiteralStep(text: string, s: string, rest: string)
    requires text == "'" + (Escaped(s) + "'") && (rest == "" || rest[0] != '\'')
    ensures Step(text + rest) == Emit(Lit(Str(s)), |text|)
  {
    hide StringTail, Escaped;
    EscapedReads(s, rest);
    assert (text + rest)[0] == '\'' && (text + rest)[1..] == Escaped(s) + ("'" + rest);
  }

  lemma MarkStep(text: string, t: Token, rest: string)
    requires IsMark(text, t) && MayFollow(text, rest)
    ensures Step(text + rest) == Emit(t, |text|)
  {
    var s := text + rest;
    assert s[0] == text[0];
    if |text| == 2 { assert s[1] == text[1]; } else { assert rest != "" ==> s[1] == rest[0]; }
  }

  /** A spelling in front of something that may follow it is read as its token. */
  lemma SpellingReads(text: string, t: Token, rest: string)
    requires Spells(text, t) && MayFollow(text, rest)
    ensures text != "" && Step(text + rest) == Emit(t, |text|) && !IsBlank(text[0])
  {
    hide Step, StandsFor, ClassifyWord;
    if IsQuoted(text) && t == Ident(text) {
      QuotedReads(text, rest);
    } else if IsWord(text) && StandsFor(text, t) {
      WordMeans(text, t);
      WordReads(text, rest);
    } else if t.Lit? && t.value.Str? && text == "'" + (Escaped(t.value.s) + "'") {
      LiteralStep(text, t.value.s, rest);
    } else {
      MarkStep(text, t, rest);
    }
  }

  lemma MarkIsRead(s: string)
    requires s != "" && Step(s).Emit? && (s[0] in "(),?" || IsSymbol(s[0]))
    ensures var (t, n) := (Step(s).token, Step(s).n); IsMark(s[..n], t) && MayFollow(s[..n], s[n..])
  {
    var (t, n) := (Step(s).token, Step(s).n);
    if n == 1 { assert s[..n] == [s[0]]; } else { assert s[..n] == [s[0], s[1]]; }
  }

  lemma WordIsRead(s: string)
    requires s != "" && !EndsWord(s[0]) && s[0] != '\'' && !IsQuote(s[0])
    ensures Step(s).Emit?
    ensures var (t, n) := (Step(s).token, Step(s).n);
      IsWord(s[..n]) && t == ClassifyWord(s[..n]) && MayFollow(s[..n], s[n..])
  {
    hide ClassifyWord, RunLength;
    var n := RunLength(s, EndsWord);
    assert s[..n][0] == s[0];
  }

  lemma QuotedIsRead(s: string)
    requires s != "" && IsQuote(s[0]) && Step(s).Emit?
    ensures var (t, n) := (Step(s).token, Step(s).n);
      IsQuoted(s[..n]) && t == Ident(s[..n]) && MayFollow(s[..n], s[n..])
  {
    hide ClassifyWord, RunLength;
    var stop := (c: char) => c == Closer(s[0]);
    var m := RunLength(s[1..], stop);
    var text := s[..m + 2];
    assert forall k :: 1 <= k <= m ==> text[k] == s[1..][k - 1];
    assert text[m + 1] == s[1..][m];
    assert text[0] == s[0] && text[0] != '\'';
    IsIdentifier(text, 0);
  }

  lemma LiteralIsRead(s: string)
    requires s != "" && s[0] == '\'' && Step(s).Emit?
    ensures var (t, n) := (Step(s).token, Step(s).n);
      t.Lit? && t.value.Str? && s[..n] == "'" + (Escaped(t.value.s) + "'") && MayFollow(s[..n], s[n..])
  {
    hide StringTail, Escaped;
    TailIsEscaped(s[1..]);
    var n := Step(s).n;
    assert s[..n] == "'" + s[1..][..n - 1];
    if n < |s| { assert s[1..][n - 1] == s[n]; }
  }

  /** Whatever is read as a token is a spelling of it, and what follows may follow it. */
  lemma ReadIsSpelling(s: string)
    requires s != "" && Step(s).Emit?
    ensures var (t, n) := (Step(s).token, Step(s).n);
      1 <= n <= |s| && Spells(s[..n], t) && MayFollow(s[..n], s[n..]) && !IsBlank(s[0])
  {
    assert !IsBlank(s[0]);
    hide Step, StandsFor, ClassifyWord, IsWord, IsQuoted, IsMark, MayFollow;
    if s[0] in "(),?" || IsSymbol(s[0]) {
      MarkIsRead(s);
    } else if s[0] == '\'' {
      LiteralIsRead(s);
    } else if IsQuote(s[0]) {
      QuotedIsRead(s);
    } else {
      WordIsRead(s);
      WordMeans(s[..Step(s).n], Step(s).token);
    }
  }

  // ---- Whole texts. ----

  lemma BlankSkips(s: string)
    requires s != "" && IsBlank(s[0])
    ensures Lex(s) == Lex(s[1..]) && Step(s) == Skip(1)
  {
  }

  lemma {:induction false} BlanksSkip(s: string, i: nat)
    requires i <= |s| && Blanks(s[..i])
    ensures Lex(s) == Lex(s[i..])
    decreases i
  {
    if i == 0 {
      assert s[0..] == s;
    } else {
      assert s[..i][0] == s[0];
      BlankSkips(s);
      assert s[1..][..i - 1] == s[..i][1..];
      BlanksSkip(s[1..], i - 1);
      assert s[1..][i - 1..] == s[i..];
    }
  }

  lemma {:induction false} LaidOutLexes(ts: seq<Token>, s: string)
    requires LaidOut(ts, s)
    ensures Lex(s) == Some(ts)
    decreases |ts|
  {
    hide Lex, Step, Spells, MayFollow;
    if ts == [] {
      assert s[..|s|] == s;
      BlanksSkip(s, |s|);
      LexOfEmpty(s[|s|..]);
    } else {
      var i, j :| LeadsWith(ts[0], s, i, j) && LaidOut(ts[1..], s[j..]);
      LaidOutLexes(ts[1..], s[j..]);
      BlanksSkip(s, i);
      var text, rest := s[i..j], s[j..];
      assert s[i..] == text + rest;
      SpellingReads(text, ts[0], rest);
      LexUnfolds(text + rest);
      assert (text + rest)[|text|..] == rest;
      assert [ts[0]] + ts[1..] == ts;
    }
  }

  lemma LexOfEmpty(s: string)
    requires s == ""
    ensures Lex(s) == Some([])
  {
  }

  lemma {:induction false} BlankBefore(ts: seq<Token>, s: string)
    requires s != "" && IsBlank(s[0]) && LaidOut(ts, s[1..])
    ensures LaidOut(ts, s)
  {
    hide Spells, MayFollow;
    assert forall k :: 1 <= k < |s| ==> s[k] == s[1..][k - 1];
    if ts != [] {
      var i, j :| LeadsWith(ts[0], s[1..], i, j) && LaidOut(ts[1..], s[1..][j..]);
      assert s[1..][i..j] == s[i + 1..j + 1] && s[1..][j..] == s[j + 1..];
      assert s[..i + 1] == [s[0]] + s[1..][..i];
      assert LeadsWith(ts[0], s, i + 1, j + 1);
    }
  }

  lemma {:induction false} LexedIsLaidOut(s: string)
    requires Lex(s).Some?
    ensures LaidOut(Lex(s).value, s)
    decreases |s|
  {
    hide Lex, Step, Spells, MayFollow, LaidOut;
    if s == "" {
      LexOfEmpty(s);
      NothingLaidOut(s);
      return;
    }
    LexUnfolds(s);
    if Step(s).Skip? {
      SkipsAreBlank(s);
      LexedIsLaidOut(s[1..]);
      BlankBefore(Lex(s).value, s);
    } else {
      ReadIsSpelling(s);
      var t, n := Step(s).token, Step(s).n;
      LexedIsLaidOut(s[n..]);
      LeadsOn(t, Lex(s[n..]).value, s, n);
    }
  }

  lemma SkipsAreBlank(s: string)
    requires s != "" && Step(s).Skip?
    ensures IsBlank(s[0]) && Step(s).n == 1
  {
    hide ClassifyWord, StringTail, RunLength;
  }

  lemma NothingLaidOut(s: string)
    requires s == ""
    ensures LaidOut([], s)
  {
  }

  lemma LeadsOn(t: Token, ts: seq<Token>, s: string, n: nat)
    requires 1 <= n <= |s| && Spells(s[..n], t) && MayFollow(s[..n], s[n..]) && LaidOut(ts, s[n..])
    ensures LaidOut([t] + ts, s)
  {
    hide Spells, MayFollow;
    assert s[0..n] == s[..n];
    assert LeadsWith(t, s, 0, n);
    assert ([t] + ts)[0] == t && ([t] + ts)[1..] == ts;
  }

  /** The tokenizer finds exactly the tokens that are laid out in the text. */
  lemma LexerDecidesLayout(ts: seq<Token>, s: string)
    ensures Lex(s) == Some(ts) <==> LaidOut(ts, s)
  {
    hide Lex, LaidOut;
    if LaidOut(ts, s) { LaidOutLexes(ts, s); }
    if Lex(s) == Some(ts) { LexedIsLaidOut(s); }
  }

  /** Compiling a clause, from the text on: it yields a predicate exactly if the tokens of a derivation that denotes
      it, with as many placeholders as there are arguments, are laid out in the text. */
  lemma CompilerDecidesLanguage(where: string, n: nat, node: Node)
    ensures ParseWhere(where, n) == Root(node) <==>
      TrimSpace(where) != "" && exists ts :: LaidOut(ts, TrimSpace(where)) && Denotes(ts, n, node)
  {
    hide Lex, LaidOut, ParseTokens, TrimSpace, Denotes;
    var text := TrimSpace(where);
    if Lex(text).Some? {
      var ts := Lex(text).value;
      LexerDecidesLayout(ts, text);
      LexIsLexical(text);
      ParserDecidesGrammar(ts, n, node);
    }
    forall ts | LaidOut(ts, text) ensures Lex(text) == Some(ts) { LexerDecidesLayout(ts, text); }
  }

  // ---- Any spelling will do. ----

  /** Spellings with a blank between them. */
  function Joined(texts: seq<string>): string {
    if texts == [] then "" else if |texts| == 1 then texts[0] else texts[0] + (" " + Joined(texts[1..]))
  }

  ghost predicate SpellAll(texts: seq<string>, ts: seq<Token>) {
    |texts| == |ts| && forall k :: 0 <= k < |ts| ==> Spells(texts[k], ts[k])
  }

  lemma BlankMayFollow(text: string, rest: string)
    requires rest == "" || rest[0] == ' '
    ensures MayFollow(text, rest)
  {
  }

  lemma JoinedUnfolds(texts: seq<string>)
    requires texts != []
    ensures Joined(texts) == texts[0] + (if |texts| == 1 then "" else " " + Joined(texts[1..]))
    ensures |texts| == 1 ==> Joined(texts[1..]) == ""
  {
  }

  lemma {:induction false} JoinedIsLaidOut(texts: seq<string>, ts: seq<Token>)
    requires SpellAll(texts, ts)
    ensures LaidOut(ts, Joined(texts))
    decreases |ts|
  {
    hide Spells, MayFollow, LaidOut, Joined;
    if ts == [] {
      JoinedNone(texts);
      NothingLaidOut("");
      return;
    }
    JoinedIsLaidOut(texts[1..], ts[1..]);
    JoinedUnfolds(texts);
    TextLeadsOn(texts[0], ts[0], if |ts| == 1 then "" else " " + Joined(texts[1..]), ts[1..], Joined(texts[1..]));
    assert [ts[0]] + ts[1..] == ts;
  }

  lemma JoinedNone(texts: seq<string>)
    requires texts == []
    ensures Joined(texts) == ""
  {
  }

  lemma TextLeadsOn(text: string, t: Token, rest: string, ts: seq<Token>, more: string)
    requires Spells(text, t) && LaidOut(ts, more) && (rest == " " + more || (rest == more == ""))
    ensures LaidOut([t] + ts, text + rest)
  {
    hide Spells, MayFollow, LaidOut;
    if rest != more {
      assert rest[1..] == more;
      BlankBefore(ts, rest);
    }
    BlankMayFollow(text, rest);
    BlankMayFollow(text, "");
    SpellingReads(text, t, "");
    assert (text + rest)[..|text|] == text && (text + rest)[|text|..] == rest;
    LeadsOn(t, ts, text + rest, |text|);
  }

  /** A keyword spells its token in any mixture of cases. */
  lemma KeywordSpells(word: string, t: Token)
    requires IsKeywordFor(word, t)
    ensures Spells(word, t)
  {
    hide StandsFor, IsKeywordFor, IsWord;
    OnlyKeywords(word, t);
    KeywordsMean(word, t);
    WordMeans(word, t);
    KeywordIsWord(word, t);
  }

  lemma KeywordIsWord(word: string, t: Token)
    requires IsKeywordFor(word, t)
    ensures IsWord(word)
  {
    KeywordLetters(word, t);
    hide IsKeywordFor;
  }

  lemma KeywordLetters(word: string, t: Token)
    requires IsKeywordFor(word, t)
    ensures word != "" && forall k :: 0 <= k < |word| ==> 'A' <= word[k] <= 'Z' || 'a' <= word[k] <= 'z'
  {
  }

  /** So does the text a token is printed as. */
  lemma TextSpells(t: Token)
    requires Writable(t)
    ensures Spells(TokenText(t), t)
  {
    hide Spells, Step, TokenText, Writable;
    var text := TokenText(t);
    TokenReads(t, "");
    assert text + "" == text && text[..|text|] == text;
    ReadIsSpelling(text);
  }

  lemma SpellingEnds(text: string, t: Token)
    requires Spells(text, t) && Writable(t)
    ensures text != "" && !IsSpace(text[0]) && !IsSpace(text[|text| - 1])
  {
    hide StandsFor, WritableValue;
    if IsWord(text) && StandsFor(text, t) {
      WordMeans(text, t);
      if IsSpace(text[0]) { IsIdentifier(text, 0); }
      if IsSpace(text[|text| - 1]) { IsIdentifier(text, |text| - 1); }
    }
  }

  lemma {:induction false} JoinedEnds(texts: seq<string>, ts: seq<Token>)
    requires SpellAll(texts, ts) && AllWritable(ts) && ts != []
    ensures var s := Joined(texts); s != "" && !IsSpace(s[0]) && !IsSpace(s[|s| - 1])
    decreases |ts|
  {
    assert Spells(texts[0], ts[0]) && Writable(ts[0]);
    hide Spells, Writable;
    SpellingEnds(texts[0], ts[0]);
    if |ts| > 1 { JoinedEnds(texts[1..], ts[1..]); }
  }

  /** The text of a well-formed predicate compiles to it in whatever way its tokens are spelled, so with each
      keyword in any mixture of cases. */
  lemma AnySpellingCompiles(node: Node, n: nat, texts: seq<string>)
    requires WellFormed(node, n) && WritableNode(node) && SpellAll(texts, Yield(Print(node)))
    ensures ParseWhere(Joined(texts), n) == Root(node)
  {
    hide Lex, LaidOut, ParseTokens, Print, Yield, TrimLeft, TrimRight, AllWritable, SpellAll, Joined;
    var ts := Yield(Print(node));
    PrintWritable(node);
    JoinedIsLaidOut(texts, ts);
    JoinedEnds(texts, ts);
    LexerDecidesLayout(ts, Joined(texts));
    TrimKeeps(Joined(texts), IsSpace);
    PrintThenParse(node, n);
  }
}
