/** The soft-delete wrapping, decided by the white space around the clause. */
module WhereWrapping {
  import opened Values
  import opened Text
  import opened WhereLexer
  import opened WhereWords
  import opened WhereParser
  import opened WhereGrammar
  import opened WhereSoftDelete
  import opened WhereTrimming

  // ---- What stands around the clause. ----

  /** The clause without the white space in front. */
  function Body(where: string): string { TrimLeft(where, IsSpace) }

  /** No vertical tab or form feed is trimmed off the end. */
  predicate EndsWithBlanks(where: string) { TrimRight(Body(where), IsSpace) == TrimRight(Body(where), IsBlank) }

  predicate LeadsWithBlanks(where: string) { Body(where) == TrimLeft(where, IsBlank) }

  /** Blanks, then vertical spaces with none in between, directly before the clause. */
  predicate LeadsWithOneRun(where: string) { TrimLeft(TrimLeft(where, IsBlank), IsVertical) == Body(where) }

  /** The clause starts with a name that the word scanner would read as that one word. */
  predicate StartsWithWord(body: string) {
    body != "" && body[0] != '(' && Step(body).Emit? && RunLength(body, EndsWord) == Step(body).n
  }

  /** No quoted name at the start contains a character that ends a word. */
  predicate PlainStart(body: string) {
    body != "" && IsQuote(body[0]) && Step(body).Emit? ==> RunLength(body, EndsWord) >= Step(body).n
  }

  // ---- A vertical space at the end. ----

  lemma {:induction false} StringEndsInQuote(s: string)
    requires StringTail(s).Some?
    ensures s[StringTail(s).value.1 - 1] == '\''
    decreases |s|
  {
    if s[0] != '\'' {
      StringEndsInQuote(s[1..]);
    } else if |s| > 1 && s[1] == '\'' {
      StringEndsInQuote(s[2..]);
    }
  }

  /** A turn of the tokenizer that goes over a last vertical space reads an identifier up to it. */
  lemma StepOverVertical(s: string, v: nat)
    requires v < |s| && IsVertical(s[v]) && forall k :: v < k < |s| ==> IsBlank(s[k])
    requires !Step(s).Bad? && Step(s).n > v
    ensures Step(s).Emit? && Step(s).token.Ident? && Step(s).n == v + 1
  {
    hide ClassifyWord, StringTail, RunLength;
    var c := s[0];
    if IsBlank(c) || c == '(' || c == ')' || c == ',' || c == '?' || IsSymbol(c) {
    } else if c == '\'' {
      StringEndsInQuote(s[1..]);
    } else if IsQuote(c) {
    } else {
      IsIdentifier(s[..RunLength(s, EndsWord)], v);
      assert v + 1 < |s| ==> EndsWord(s[v + 1]);
    }
  }

  lemma {:induction false} LexToVertical(s: string, v: nat)
    requires v < |s| && IsVertical(s[v]) && forall k :: v < k < |s| ==> IsBlank(s[k])
    requires Lex(s).Some?
    ensures Lex(s).value != [] && Lex(s).value[|Lex(s).value| - 1].Ident?
    decreases |s|
  {
    hide Step;
    LexUnfolds(s);
    var step := Step(s);
    if step.n <= v {
      LexToVertical(s[step.n..], v - step.n);
    } else {
      StepOverVertical(s, v);
      LexOfBlanks(s[step.n..]);
    }
  }

  lemma TrailingVertical(where: string) returns (v: nat)
    requires !EndsWithBlanks(where)
    ensures v < |where| && IsVertical(where[v]) && forall k :: v < k < |where| ==> IsBlank(where[k])
  {
    hide TrimRight, TrimLeft;
    var body := Body(where);
    var short, long := TrimRight(body, IsSpace), TrimRight(body, IsBlank);
    TrimLeftIsSuffix(where, IsSpace);
    TrimRightIsPrefix(body, IsSpace);
    TrimRightIsPrefix(body, IsBlank);
    TrimmedTailIsCut(body, IsSpace);
    TrimmedTailIsCut(body, IsBlank);
    assert |short| <= |long|;
    assert |short| == |long| ==> short == long;
    var skip := |where| - |body|;
    assert forall k :: 0 <= k < |body| ==> where[skip + k] == body[k];
    v := skip + |long| - 1;
    assert where[v] == body[|long| - 1] == long[|long| - 1];
    assert forall k :: v < k < |where| ==> where[k] == body[k - skip];
  }

  /** Wrapped, a clause with a vertical space at its end would not parse. */
  lemma TrailingVerticalFails(where: string, n: nat)
    requires where != "" && !EndsWithBlanks(where)
    ensures !ParseWhere(EffectiveWhere(where, false), n).Root?
  {
    hide Lex, ParseTokens, TrimLeft, TrimRight, Operated;
    var v := TrailingVertical(where);
    var wrapped := EffectiveWhere(where, false);
    WrappedLexes(where, n);
    if ParseWhere(wrapped, n).Root? {
      LexToVertical(where, v);
      var ts, all := Lex(where).value, Lex(wrapped).value;
      ParsedIsOperated(wrapped, all, n);
      assert all[|ts|] == ts[|ts| - 1] && all[|ts| + 1] == RParen;
      NoIdentBefore(all, |ts|);
      assert false;
    }
  }

  lemma NoIdentBefore(ts: seq<Token>, i: nat)
    requires Operated(ts) && i + 1 < |ts| && !IsOperator(ts[i + 1])
    ensures !ts[i].Ident?
  {
  }

  // ---- Vertical spaces in front. ----

  /** Skipping blanks first changes nothing for a wider kind of space. */
  lemma {:induction false} BodyAfterBlanks(where: string)
    ensures Body(TrimLeft(where, IsBlank)) == Body(where)
    decreases |where|
  {
    if where != "" && IsBlank(where[0]) { BodyAfterBlanks(where[1..]); }
  }

  lemma {:induction false} BodyAfterVerticals(s: string)
    ensures Body(TrimLeft(s, IsVertical)) == Body(s)
    decreases |s|
  {
    if s != "" && IsVertical(s[0]) { BodyAfterVerticals(s[1..]); }
  }

  /** A word that starts with a vertical space. */
  lemma VerticalStep(s: string)
    requires s != "" && IsVertical(s[0])
    ensures Step(s) == Emit(Ident(s[..RunLength(s, EndsWord)]), RunLength(s, EndsWord)) && RunLength(s, EndsWord) > 0
  {
    hide ClassifyWord;
    IsIdentifier(s[..RunLength(s, EndsWord)], 0);
  }

  /** The run of vertical spaces and what follows it, as the word scanner sees them. */
  lemma {:induction false} RunOverVerticals(s: string)
    ensures |TrimLeft(s, IsVertical)| <= |s| && TrimLeft(s, IsVertical) == s[|s| - |TrimLeft(s, IsVertical)|..]
    ensures RunLength(s, EndsWord) == |s| - |TrimLeft(s, IsVertical)| + RunLength(TrimLeft(s, IsVertical), EndsWord)
    decreases |s|
  {
    if s != "" && IsVertical(s[0]) { RunOverVerticals(s[1..]); }
  }

  lemma FirstToken(s: string)
    requires s != "" && Step(s).Emit? && Lex(s).Some?
    ensures Lex(s).value != [] && Lex(s).value[0] == Step(s).token
    ensures Lex(s[Step(s).n..]).Some? && Lex(s).value == [Step(s).token] + Lex(s[Step(s).n..]).value
  {
    hide Step;
    LexUnfolds(s);
  }

  /** The first token of a derivable list is a name or a parenthesis. */
  lemma {:induction false} FirstIsNoOperator(t: Tree)
    ensures Yield(t)[0].Ident? || Yield(t)[0] == LParen
  {
    match t
    case OrTree(l, _) => FirstIsNoOperator(l);
    case AndTree(l, _) => FirstIsNoOperator(l);
    case ParenTree(_) =>
    case CondTree(_, _, _) =>
  }

  /** The tokens of the clause itself, which start with a name or a parenthesis. */
  lemma BodyTokens(where: string, n: nat)
    requires ParseWhere(where, n).Root? && EndsWithBlanks(where)
    ensures Body(where) != "" && !IsSpace(Body(where)[0]) && Lex(Body(where)).Some?
    ensures var ts := Lex(Body(where)).value;
      && ts != [] && (ts[0].Ident? || ts[0] == LParen) && Operated(ts)
      && Denotes(ts, n, ParseWhere(where, n).node)
  {
    hide Lex, ParseTokens, TrimLeft, TrimRight, Yield, Operated, IsCondition, Meaning, Holes;
    var body, text := Body(where), TrimSpace(where);
    TrimLeftIsSuffix(where, IsSpace);
    TrimRightIsPrefix(body, IsSpace);
    LexTrimRight(body);
    var ts := Lex(text).value;
    LexIsLexical(text);
    ParserSound(ts, n);
    ParsedIsOperated(text, ts, n);
    var t :| IsCondition(t) && Yield(t) == ts && Holes(t) == n && Meaning(t, 0) == ParseWhere(where, n).node;
    FirstIsNoOperator(t);
  }

  lemma LeadingVertical(where: string)
    requires !LeadsWithBlanks(where)
    ensures var rest := TrimLeft(where, IsBlank); rest != "" && IsVertical(rest[0])
  {
    var rest := TrimLeft(where, IsBlank);
    TrimLeftIsSuffix(where, IsBlank);
    BodyAfterBlanks(where);
  }

  /** The word made of the vertical spaces in front and whatever the word scanner reads on. */
  lemma LeadingWord(where: string)
    requires !LeadsWithBlanks(where) && Lex(where).Some?
    ensures var rest := TrimLeft(where, IsBlank);
      var after := TrimLeft(rest, IsVertical);
      var m, r := |rest| - |after|, RunLength(after, EndsWord);
      && 0 <= m && 0 < m + r <= |rest| && rest[m..] == after && Lex(after[r..]).Some?
      && Lex(where).value == [Ident(rest[..m + r])] + Lex(after[r..]).value
  {
    hide Lex, Step, RunLength, TrimLeft;
    var rest := TrimLeft(where, IsBlank);
    var after := TrimLeft(rest, IsVertical);
    LeadingVertical(where);
    LexTrimLeft(where);
    RunOverVerticals(rest);
    VerticalStep(rest);
    FirstToken(rest);
    var m, r := |rest| - |after|, RunLength(after, EndsWord);
    assert rest[m + r..] == after[r..];
  }

  /** Nor would one with a gap or a parenthesis behind vertical spaces in front. */
  lemma GapFails(where: string, n: nat)
    requires ParseWhere(where, n).Root? && EndsWithBlanks(where) && !LeadsWithBlanks(where)
    requires !LeadsWithOneRun(where) || Body(where)[0] == '('
    ensures !ParseWhere(EffectiveWhere(where, false), n).Root?
  {
    hide Lex, ParseTokens, TrimLeft, TrimRight, Operated, Denotes, Step;
    var wrapped, rest := EffectiveWhere(where, false), TrimLeft(where, IsBlank);
    var after := TrimLeft(rest, IsVertical);
    BodyTokens(where, n);
    TrimLeftIsSuffix(where, IsSpace);
    WrappedLexes(where, n);
    if ParseWhere(wrapped, n).Root? {
      var all, ts := Lex(wrapped).value, Lex(where).value;
      GapTokens(where, n);
      ParsedIsOperated(wrapped, all, n);
      assert all[1] == ts[0] && all[2] == ts[1];
      NoIdentBefore(all, 1);
      assert false;
    }
  }

  lemma GapTokens(where: string, n: nat)
    requires ParseWhere(where, n).Root? && EndsWithBlanks(where) && !LeadsWithBlanks(where) && Lex(where).Some?
    requires !LeadsWithOneRun(where) || Body(where)[0] == '('
    ensures |Lex(where).value| > 1 && Lex(where).value[0].Ident? && !IsOperator(Lex(where).value[1])
  {
    hide Lex, ParseTokens, TrimLeft, TrimRight, Operated, Denotes, Step;
    var rest := TrimLeft(where, IsBlank);
    var after := TrimLeft(rest, IsVertical);
    BodyTokens(where, n);
    LeadingWord(where);
    BodyAfterBlanks(where);
    BodyAfterVerticals(rest);
    SpaceOrBody(after);
    TrimLeftIsSuffix(rest, IsVertical);
    assert EndsWord(after[0]);
    assert RunLength(after, EndsWord) == 0 && after[0..] == after;
    LexTrimLeft(after);
    var next := TrimLeft(after, IsBlank);
    BodyAfterBlanks(after);
    SpaceOrBody(next);
    TrimLeftIsSuffix(after, IsBlank);
    if IsVertical(next[0]) {
      VerticalStep(next);
      FirstToken(next);
    }
  }

  lemma SpaceOrBody(s: string)
    requires Body(s) != ""
    ensures s != "" && (IsSpace(s[0]) || s == Body(s))
  {
  }

  // ---- A name glued to the vertical spaces. ----

  /** The derivation with another name in its first comparison. */
  function Rename(t: Tree, name: string): Tree {
    match t
    case OrTree(l, r) => OrTree(Rename(l, name), r)
    case AndTree(l, r) => AndTree(Rename(l, name), r)
    case ParenTree(e) => t
    case CondTree(_, op, slots) => CondTree(name, op, slots)
  }

  lemma {:induction false} RenamedYield(t: Tree, was: string, name: string, arg: nat)
    requires Yield(t)[0] == Ident(was) && NormalizeIdentifier(name) == NormalizeIdentifier(was)
    ensures Yield(Rename(t, name)) == [Ident(name)] + Yield(t)[1..]
    ensures Holes(Rename(t, name)) == Holes(t) && Meaning(Rename(t, name), arg) == Meaning(t, arg)
  {
    hide NormalizeIdentifier, OperatorTokens, OperandTokens;
    match t
    case OrTree(l, r) => RenamedYield(l, was, name, arg);
    case AndTree(l, r) => RenamedYield(l, was, name, arg);
    case ParenTree(_) =>
    case CondTree(_, op, slots) =>
      assert Yield(t)[1..] == OperatorTokens(op) + OperandTokens(op, slots);
      assert Yield(Rename(t, name)) == [Ident(name)] + (OperatorTokens(op) + OperandTokens(op, slots));
  }

  lemma {:induction false} RenamedIsCondition(t: Tree, name: string)
    ensures IsPrimary(t) ==> IsPrimary(Rename(t, name))
    ensures IsTerm(t) ==> IsTerm(Rename(t, name))
    ensures IsCondition(t) ==> IsCondition(Rename(t, name))
  {
    match t
    case OrTree(l, r) => RenamedIsCondition(l, name);
    case AndTree(l, r) => RenamedIsCondition(l, name);
    case ParenTree(_) =>
    case CondTree(_, _, _) =>
  }

  lemma NormalizeTrims(run: string, word: string)
    requires forall k :: 0 <= k < |run| ==> IsVertical(run[k])
    ensures NormalizeIdentifier(run + word) == NormalizeIdentifier(word)
  {
    TrimOverRun(run, word);
  }

  lemma {:induction false} TrimOverRun(run: string, word: string)
    requires forall k :: 0 <= k < |run| ==> IsVertical(run[k])
    ensures TrimLeft(run + word, IsSpace) == TrimLeft(word, IsSpace)
    decreases |run|
  {
    if run == "" {
      assert run + word == word;
    } else {
      assert (run + word)[1..] == run[1..] + word;
      TrimOverRun(run[1..], word);
    }
  }

  lemma {:induction false} RunIsVertical(s: string)
    ensures |TrimLeft(s, IsVertical)| <= |s|
    ensures forall k :: 0 <= k < |s| - |TrimLeft(s, IsVertical)| ==> IsVertical(s[k])
    decreases |s|
  {
    if s != "" && IsVertical(s[0]) {
      RunIsVertical(s[1..]);
      assert forall k :: 0 < k < |s| ==> s[k] == s[1..][k - 1];
    }
  }

  lemma ClassifiedIdent(word: string)
    requires ClassifyWord(word).Ident?
    ensures ClassifyWord(word) == Ident(word)
  {
    hide ToUpper, ParseInt;
  }

  /** The first name of the clause, where it is one word. */
  lemma FirstName(body: string)
    requires StartsWithWord(body) && Step(body).token.Ident?
    ensures Step(body).token == Ident(body[..RunLength(body, EndsWord)])
  {
    hide ClassifyWord, StringTail, RunLength;
    ClassifiedIdent(body[..Step(body).n]);
  }

  lemma StartIsName(body: string, ts: seq<Token>)
    requires StartsWithWord(body) && Lex(body) == Some(ts) && ts != [] && (ts[0].Ident? || ts[0] == LParen)
    ensures Step(body).token == ts[0] && ts[0] == Ident(body[..RunLength(body, EndsWord)])
    ensures Lex(body[RunLength(body, EndsWord)..]) == Some(ts[1..])
  {
    hide Lex, RunLength;
    FirstToken(body);
    assert Step(body).token != LParen by { NameFirst(body, ts); }
    FirstName(body);
  }

  lemma ClassifiesNoParen(word: string)
    ensures ClassifyWord(word) != LParen
  {
    hide ToUpper, ParseInt;
  }

  /** The clause with its run in front has tokens when what follows the first word has. */
  lemma GluedLexes(where: string)
    requires !LeadsWithBlanks(where) && LeadsWithOneRun(where)
    requires Lex(Body(where)[RunLength(Body(where), EndsWord)..]).Some?
    ensures var rest, body := TrimLeft(where, IsBlank), Body(where);
      var m, r := |rest| - |body|, RunLength(body, EndsWord);
      && 0 <= m && 0 < m + r <= |rest| && rest[m..] == body
      && Lex(where) == Some([Ident(rest[..m + r])] + Lex(body[r..]).value)
  {
    hide Lex, Step, RunLength, TrimLeft;
    var rest, body := TrimLeft(where, IsBlank), Body(where);
    LeadingVertical(where);
    LexTrimLeft(where);
    RunOverVerticals(rest);
    VerticalStep(rest);
    LexUnfolds(rest);
    var m, r := |rest| - |body|, RunLength(body, EndsWord);
    assert rest[m + r..] == body[r..];
  }

  /** One run of vertical spaces directly before a name that is one word does no harm. */
  lemma GluedStays(where: string, n: nat)
    requires ParseWhere(where, n).Root? && EndsWithBlanks(where) && !LeadsWithBlanks(where)
    requires LeadsWithOneRun(where) && StartsWithWord(Body(where))
    ensures ReadsAsTerm(where, n, ParseWhere(where, n).node)
  {
    hide Lex, ParseTokens, TrimLeft, TrimRight, Operated, Step, RunLength, Yield, Holes, Meaning, IsCondition;
    hide NormalizeIdentifier;
    var body, rest, node := Body(where), TrimLeft(where, IsBlank), ParseWhere(where, n).node;
    BodyTokens(where, n);
    var ts := Lex(body).value;
    StartIsName(body, ts);
    var m, r := |rest| - |body|, RunLength(body, EndsWord);
    GluedLexes(where);
    var name := rest[..m + r];
    assert name == rest[..m] + body[..r];
    RunIsVertical(rest);
    NormalizeTrims(rest[..m], body[..r]);
    var t :| IsCondition(t) && Yield(t) == ts && Holes(t) == n && Meaning(t, 0) == node;
    RenamedYield(t, body[..r], name, 0);
    RenamedIsCondition(t, name);
    ParenIsTerm(Rename(t, name));
  }

  lemma ParenIsTerm(t: Tree)
    requires IsCondition(t)
    ensures IsTerm(ParenTree(t)) && Yield(ParenTree(t)) == [LParen] + Yield(t) + [RParen]
    ensures Holes(ParenTree(t)) == Holes(t) && Meaning(ParenTree(t), 0) == Meaning(t, 0)
  {
  }

  // ---- An operator glued to a quoted name. ----

  function FirstOperator(node: Node): Operator {
    match node
    case Both(l, _) => FirstOperator(l)
    case Either(l, _) => FirstOperator(l)
    case Cond(_, op, _) => op
  }

  /** The operator of the first comparison of a token list. */
  function LeadingOperator(ts: seq<Token>): Option<Operator> {
    if ts == [] then None
    else if ts[0] == LParen then LeadingOperator(ts[1..])
    else if |ts| > 1 && ts[1].Op? then Some(ts[1].op)
    else if |ts| > 2 && ts[1] == Not && ts[2] == Op(Like) then Some(NotLike)
    else if |ts| > 2 && ts[1] == Not && ts[2] == Op(In) then Some(NotIn)
    else None
  }

  lemma ComparisonLeads(name: string, op: Operator, rest: seq<Token>)
    ensures LeadingOperator([Ident(name)] + OperatorTokens(op) + rest) == Some(op)
  {
    var all := [Ident(name)] + OperatorTokens(op) + rest;
    assert all[1] == OperatorTokens(op)[0];
    if |OperatorTokens(op)| == 2 { assert all[2] == OperatorTokens(op)[1]; }
  }

  lemma ParenLeads(ts: seq<Token>)
    ensures LeadingOperator([LParen] + ts) == LeadingOperator(ts)
  {
    assert ([LParen] + ts)[1..] == ts;
  }

  lemma {:induction false} LeadsWithOperator(t: Tree, rest: seq<Token>, arg: nat)
    ensures LeadingOperator(Yield(t) + rest) == Some(FirstOperator(Meaning(t, arg)))
    decreases t
  {
    hide NormalizeIdentifier, OperandTokens, SlotOperands, LeadingOperator, OperatorTokens;
    var all := Yield(t) + rest;
    match t
    case OrTree(l, r) =>
      LeadsWithOperator(l, [Or] + Yield(r) + rest, arg);
      assert all == Yield(l) + ([Or] + Yield(r) + rest);
    case AndTree(l, r) =>
      LeadsWithOperator(l, [And] + Yield(r) + rest, arg);
      assert all == Yield(l) + ([And] + Yield(r) + rest);
    case ParenTree(e) =>
      LeadsWithOperator(e, [RParen] + rest, arg);
      ParenLeads(Yield(e) + ([RParen] + rest));
      assert all == [LParen] + (Yield(e) + ([RParen] + rest));
    case CondTree(name, op, slots) =>
      ComparisonLeads(name, op, OperandTokens(op, slots) + rest);
      assert all == [Ident(name)] + OperatorTokens(op) + (OperandTokens(op, slots) + rest);
  }

  /** What the parser reads as the first operator. */
  lemma ParsedOperator(s: string, ts: seq<Token>, n: nat)
    requires Lex(s) == Some(ts) && ParseTokens(ts + [EOF], n).Some?
    ensures LeadingOperator(ts) == Some(FirstOperator(ParseTokens(ts + [EOF], n).value))
  {
    hide Lex, ParseTokens, Yield, IsCondition, Meaning, Holes, LeadingOperator, FirstOperator;
    LexIsLexical(s);
    ParserSound(ts, n);
    var t :| IsCondition(t) && Yield(t) == ts && Meaning(t, 0) == ParseTokens(ts + [EOF], n).value;
    LeadsWithOperator(t, [], 0);
    assert Yield(t) + [] == Yield(t);
  }

  lemma {:induction false} RunSplits(s: string, n: nat)
    requires n <= RunLength(s, EndsWord)
    ensures RunLength(s, EndsWord) == n + RunLength(s[n..], EndsWord)
    decreases n
  {
    if n > 0 {
      RunSplits(s[1..], n - 1);
      assert s[1..][n - 1..] == s[n..];
    }
  }

  /** A word that is an operator spells no symbol. */
  lemma WordOperator(s: string)
    requires s != "" && !EndsWord(s[0]) && Step(s).Emit? && IsOperator(Step(s).token)
    ensures Step(s).n == RunLength(s, EndsWord)
  {
    hide ClassifyWord, StringTail, RunLength;
    if IsQuote(s[0]) { IsIdentifier(s[..Step(s).n], 0); }
  }

  /** The tokens of a clause whose operator follows the quoted name without a gap. */
  lemma GluedOperator(body: string, ts: seq<Token>)
    requires Lex(body) == Some(ts) && ts != [] && ts[0].Ident? && Operated(ts)
    requires body != "" && Step(body).Emit? && RunLength(body, EndsWord) > Step(body).n
    ensures |ts| >= 2 && IsOperator(ts[1])
    ensures Lex(body[RunLength(body, EndsWord)..]) == Some(ts[2..])
  {
    hide Lex, RunLength, Step;
    var n, r := Step(body).n, RunLength(body, EndsWord);
    FirstToken(body);
    var tail := body[n..];
    RunSplits(body, n);
    assert !EndsWord(tail[0]) by { assert tail[0] == body[n]; }
    NotSkipped(tail);
    FirstToken(tail);
    assert ts[1] == Step(tail).token && IsOperator(ts[1]);
    WordOperator(tail);
    assert tail[r - n..] == body[r..];
    assert ts[2..] == ts[1..][1..];
  }

  lemma NotSkipped(s: string)
    requires s != "" && !EndsWord(s[0]) && Lex(s).Some?
    ensures Step(s).Emit?
  {
    hide ClassifyWord, StringTail, RunLength;
  }

  lemma GluedOperatorFails(where: string, n: nat)
    requires ParseWhere(where, n).Root? && EndsWithBlanks(where) && !LeadsWithBlanks(where) && LeadsWithOneRun(where)
    requires Body(where) != "" && Body(where)[0] != '(' && Step(Body(where)).Emit?
    requires RunLength(Body(where), EndsWord) > Step(Body(where)).n
    ensures ParseWhere(EffectiveWhere(where, false), n) != Root(Both(ParseWhere(where, n).node, LIVE_ROW))
  {
    hide Lex, ParseTokens, TrimLeft, TrimRight, Step, RunLength, Denotes, Operated;
    var body, rest, node := Body(where), TrimLeft(where, IsBlank), ParseWhere(where, n).node;
    var wrapped := EffectiveWhere(where, false);
    BodyTokens(where, n);
    BodyOperator(where, n);
    var ts := Lex(body).value;
    NameFirst(body, ts);
    GluedOperator(body, ts);
    GluedLexes(where);
    var r := RunLength(body, EndsWord);
    var glued := Lex(where).value;
    assert glued[1..] == ts[2..];
    TrimLeftIsSuffix(where, IsSpace);
    WrappedLexes(where, n);
    if ParseWhere(wrapped, n) == Root(Both(node, LIVE_ROW)) {
      var all := Lex(wrapped).value;
      ParsedIsOperated(wrapped, all, n);
      ParsedOperator(wrapped, all, n);
      assert all == [LParen] + glued + FILTER_TOKENS;
      OperatorsDiffer(ts, glued, all);
      assert false;
    }
  }

  lemma BodyOperator(where: string, n: nat)
    requires ParseWhere(where, n).Root? && EndsWithBlanks(where)
    ensures Lex(Body(where)).Some? &&
      LeadingOperator(Lex(Body(where)).value) == Some(FirstOperator(ParseWhere(where, n).node))
  {
    hide Lex, ParseTokens, TrimLeft, TrimRight, LeadingOperator, FirstOperator;
    LexTrimRight(Body(where));
    ParsedOperator(TrimSpace(where), Lex(TrimSpace(where)).value, n);
  }

  lemma NameFirst(body: string, ts: seq<Token>)
    requires body != "" && body[0] != '(' && Lex(body) == Some(ts) && Step(body).Emit? && ts != [] &&
      (ts[0].Ident? || ts[0] == LParen)
    ensures ts[0].Ident?
  {
    hide Lex, RunLength, ClassifyWord, StringTail;
    FirstToken(body);
    ClassifiesNoParen(body[..Step(body).n]);
  }

  /** With its first operator token taken away, a list cannot keep its first operator. */
  lemma OperatorsDiffer(ts: seq<Token>, glued: seq<Token>, all: seq<Token>)
    requires |ts| >= 2 && ts[0].Ident? && IsOperator(ts[1]) && Operated(ts) && LeadingOperator(ts).Some?
    requires glued != [] && glued[0].Ident? && glued[1..] == ts[2..]
    requires all == [LParen] + glued + FILTER_TOKENS && Operated(all)
    ensures LeadingOperator(all) != LeadingOperator(ts)
  {
    assert all[1] == glued[0];
    assert |ts| > 2;
    assert all[2] == glued[1] == glued[1..][0] == ts[2];
    assert all[1..][0] == all[1] && all[1..][1] == all[2];
  }

  // ---- The exact condition, by the white space. ----

  /** For a clause that starts with a parenthesis, a bare name or a quoted name without word-ending
      characters, the wrapped clause is the conjunction with the filter exactly when no vertical space is
      trimmed off its end, and those in front, if any, form one run directly before a name that is one word. */
  lemma FilterIffSpaces(where: string, n: nat)
    requires ParseWhere(where, n).Root? && PlainStart(Body(where))
    ensures ParseWhere(EffectiveWhere(where, false), n) == Root(Both(ParseWhere(where, n).node, LIVE_ROW))
      <==> EndsWithBlanks(where) && (LeadsWithBlanks(where) || (LeadsWithOneRun(where) && StartsWithWord(Body(where))))
  {
    hide Lex, ParseTokens, TrimLeft, TrimRight, Step, RunLength, ReadsAsTerm;
    FilterIffTerm(where, n);
    if !EndsWithBlanks(where) {
      assert where != "" by { TrimLeftIsSuffix(where, IsSpace); TrimRightIsPrefix(Body(where), IsSpace); }
      TrailingVerticalFails(where, n);
    } else if LeadsWithBlanks(where) {
      FilterIsConjunction(where, n);
    } else {
      BodyTokens(where, n);
      NotSkippedBody(where, n);
      if !LeadsWithOneRun(where) || Body(where)[0] == '(' {
        GapFails(where, n);
      } else if StartsWithWord(Body(where)) {
        GluedStays(where, n);
      } else {
        var ts := Lex(Body(where)).value;
        NameFirst(Body(where), ts);
        FirstToken(Body(where));
        BareIsWord(Body(where));
        GluedOperatorFails(where, n);
      }
    }
  }

  lemma NotSkippedBody(where: string, n: nat)
    requires Body(where) != "" && !IsSpace(Body(where)[0]) && Lex(Body(where)).Some?
    ensures Step(Body(where)).Emit?
  {
    hide ClassifyWord, StringTail, RunLength, TrimLeft;
  }

  lemma BareIsWord(body: string)
    requires body != "" && body[0] != '(' && Step(body).Emit? && !StartsWithWord(body) && PlainStart(body)
    requires Step(body).token.Ident?
    ensures RunLength(body, EndsWord) > Step(body).n
  {
    hide ClassifyWord, StringTail, RunLength;
  }
}
