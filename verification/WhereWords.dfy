/** How single words and quoted names are read: facts about the tokenizer that several proofs share. */
module WhereWords {
  import opened Values
  import opened Text
  import opened WhereLexer

  // ---- Classification. ----

  /** Space for trimming, a letter for the tokenizer. */
  predicate IsVertical(c: char) { IsSpace(c) && !IsBlank(c) }

  /** Characters no keyword and no number contains. */
  predicate NamesOnly(c: char) { IsVertical(c) || c == '\"' || c == '`' || c == '[' || c == ']' }

  lemma {:induction false} UpperAt(s: string, k: nat)
    requires k < |s|
    ensures |ToUpper(s)| == |s| && ToUpper(s)[k] == UpperChar(s[k])
  {
    if |s| > 1 { UpperAt(s[1..], if k > 0 then k - 1 else 0); }
  }

  lemma NotKeyword(upper: string, k: nat)
    requires k < |upper| && NamesOnly(upper[k])
    ensures upper !in {"AND", "OR", "NOT", "LIKE", "IN", "TRUE", "FALSE", "NULL"}
  {
  }

  lemma IsIdentifier(word: string, k: nat)
    requires k < |word| && NamesOnly(word[k])
    ensures ClassifyWord(word) == Ident(word)
  {
    UpperAt(word, k);
    NotKeyword(ToUpper(word), k);
    hide ToUpper, DigitsValue;
    assert word[k] in word;
    assert ParseFloat(word) == None;
    assert !AllDigits(word);
    if k > 0 { assert word[1..][k - 1] == word[k]; }
  }

  lemma {:induction false} UpperFixed(s: string)
    requires forall k :: 0 <= k < |s| ==> !('a' <= s[k] <= 'z')
    ensures ToUpper(s) == s
  {
    if s != "" { UpperFixed(s[1..]); }
  }

  lemma ConnectivesClassified()
    ensures ClassifyWord("AND") == And && ClassifyWord("OR") == Or && ClassifyWord("NOT") == Not
    ensures ClassifyWord("LIKE") == Op(Like) && ClassifyWord("IN") == Op(In)
  {
    hide ToUpper, ParseInt;
    UpperFixed("AND");
    UpperFixed("OR");
    UpperFixed("NOT");
    UpperFixed("LIKE");
    UpperFixed("IN");
  }

  lemma ConstantsClassified()
    ensures ClassifyWord("TRUE") == Lit(Bool(true)) && ClassifyWord("FALSE") == Lit(Bool(false))
    ensures ClassifyWord("NULL") == Lit(Nil)
  {
    hide ToUpper, ParseInt;
    UpperFixed("TRUE");
    UpperFixed("FALSE");
    UpperFixed("NULL");
  }

  lemma UpperFalse()
    ensures ToUpper("false") == "FALSE"
  {
    assert "false"[1..] == "alse" && "alse"[1..] == "lse" && "lse"[1..] == "se" && "se"[1..] == "e" && "e"[1..] == "";
    assert ToUpper("e") == "E";
    assert ToUpper("se") == "SE";
    assert ToUpper("lse") == "LSE";
    assert ToUpper("alse") == "ALSE";
  }

  lemma FalseClassified()
    ensures ClassifyWord("false") == Lit(Bool(false))
  {
    hide ToUpper, ParseInt;
    UpperFalse();
  }

  // ---- Reading. ----

  /** A word the word scanner reads as one. */
  predicate IsWord(word: string) {
    word != "" && word[0] != '\'' && !IsQuote(word[0]) && forall k :: 0 <= k < |word| ==> !EndsWord(word[k])
  }

  /** A quoted name: nothing closes it before its end. */
  predicate IsQuoted(name: string) {
    && |name| >= 2 && IsQuote(name[0]) && name[|name| - 1] == Closer(name[0])
    && forall k :: 1 <= k < |name| - 1 ==> name[k] != Closer(name[0])
  }

  lemma WordReads(word: string, rest: string)
    requires IsWord(word) && (rest == "" || EndsWord(rest[0]))
    ensures Step(word + rest) == Emit(ClassifyWord(word), |word|)
  {
    hide ClassifyWord, RunLength;
    var s := word + rest;
    assert forall k :: 0 <= k < |word| ==> s[k] == word[k];
    assert s[..|word|] == word && (rest != "" ==> s[|word|] == rest[0]);
    assert RunLength(s, EndsWord) == |word|;
  }

  lemma QuotedReads(name: string, rest: string)
    requires IsQuoted(name)
    ensures Step(name + rest) == Emit(Ident(name), |name|)
  {
    hide ClassifyWord, RunLength;
    var s := name + rest;
    var tail, stop := s[1..], (c: char) => c == Closer(s[0]);
    assert s[0] == name[0] && forall k :: 0 <= k < |name| - 1 ==> tail[k] == name[k + 1];
    assert tail[|name| - 2] == Closer(name[0]);
    assert RunLength(tail, stop) == |name| - 2;
    assert s[..|name|] == name;
    IsIdentifier(name, 0);
  }

  lemma LexWord(word: string, rest: string)
    requires IsWord(word) && (rest == "" || EndsWord(rest[0]))
    ensures Lex(word + rest) == Prepend([ClassifyWord(word)], Lex(rest))
  {
    hide Lex, ClassifyWord, Step;
    WordReads(word, rest);
    LexUnfolds(word + rest);
    assert (word + rest)[|word|..] == rest;
  }

  lemma LexQuoted(name: string, rest: string)
    requires IsQuoted(name)
    ensures Lex(name + rest) == Prepend([Ident(name)], Lex(rest))
  {
    hide Lex, Step;
    QuotedReads(name, rest);
    LexUnfolds(name + rest);
    assert (name + rest)[|name|..] == rest;
  }

  lemma LexAfterBlank(s: string)
    ensures Lex(" " + s) == Lex(s)
  {
    assert Step(" " + s) == Skip(1) && (" " + s)[1..] == s;
  }
}
