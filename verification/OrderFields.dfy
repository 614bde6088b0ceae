/** The order columns a cached list depends on are those its ORDER BY text names. */
module OrderFields {
  import opened Values
  import opened Text
  import opened WhereParser
  import opened OrderClause
  import opened QueryDependencies

  // ---- Words. ----

  lemma FirstWordIsOne(s: string, a: int, b: int, a': int, b': int)
    requires IsFirstWord(s, a, b) && IsFirstWord(s, a', b')
    ensures a == a' && b == b'
  {
    FirstWordAt(s, a, b);
    FirstWordAt(s, a', b');
    hide IsFirstWord;
    assert a == a';
  }

  lemma FirstWordAt(s: string, a: int, b: int)
    requires IsFirstWord(s, a, b)
    ensures 0 <= a < b <= |s| && (b < |s| ==> IsSpace(s[b])) && !IsSpace(s[a])
    ensures (forall k :: 0 <= k < a ==> IsSpace(s[k])) && (forall k :: a <= k < b ==> !IsSpace(s[k]))
  {
    assert forall k :: 0 <= k < a ==> s[..a][k] == s[k];
    assert forall k :: a <= k < b ==> s[a..b][k - a] == s[k];
  }

  /** The words of a text: none if it is blank, else its first word and those behind it. */
  lemma WordsAre(s: string) returns (a: int, b: int)
    ensures Spaces(s) <==> Words(s, IsSpace) == []
    ensures !Spaces(s) ==> IsFirstWord(s, a, b) && Words(s, IsSpace) == [s[a..b]] + Words(s[b..], IsSpace)
  {
    hide TrimLeft;
    var t := TrimLeft(s, IsSpace);
    TrimLeftIsSuffix(s, IsSpace);
    TrimmedHeadIsCut(s, IsSpace);
    a := |s| - |t|;
    b := a;
    if t != "" {
      assert s[a] == t[0];
      var n := RunLength(t, IsSpace);
      b := a + n;
      assert t[..n] == s[a..b] && t[n..] == s[b..];
      assert forall k :: 0 <= k < n ==> s[a..b][k] == t[k];
      assert n < |t| ==> s[b] == t[n];
    }
  }

  /** White space around a text does not change its words. */
  lemma {:induction false} WordsOfPadded(before: string, s: string, after: string)
    requires Spaces(before) && Spaces(after)
    ensures Words(before + s + after, IsSpace) == Words(s, IsSpace)
    decreases |s|
  {
    hide Words;
    var all := before + s + after;
    var a, b := WordsAre(s);
    var a', b' := WordsAre(all);
    if Spaces(s) { return; }
    PaddedFirstWord(before, s, after, a, b);
    FirstWordIsOne(all, |before| + a, |before| + b, a', b');
    assert all[a'..b'] == s[a..b];
    WordsOfPadded("", s[b..], after);
    assert all[b'..] == "" + s[b..] + after;
  }

  lemma PaddedFirstWord(before: string, s: string, after: string, a: int, b: int)
    requires Spaces(before) && Spaces(after) && IsFirstWord(s, a, b)
    ensures var all := before + s + after; !Spaces(all) && IsFirstWord(all, |before| + a, |before| + b)
  {
    var all, n := before + s + after, |before|;
    assert all[..n + a] == before + s[..a];
    assert all[n + a..n + b] == s[a..b];
    assert all[n + a] == s[a] == s[a..b][0];
    if b < |s| { assert all[n + b] == s[b]; }
  }

  lemma WordsOfTrimmed(s: string)
    ensures Words(TrimSpace(s), IsSpace) == Words(s, IsSpace)
  {
    hide Trim, Words;
    var t := TrimSpace(s);
    var i := TrimMeans(s, IsSpace);
    WordsOfPadded(s[..i], t, s[i + |t|..]);
    assert s[..i] + t + s[i + |t|..] == s;
  }

  lemma BlankIffTrimmedAway(s: string)
    ensures Spaces(s) <==> TrimSpace(s) == ""
  {
    hide Trim;
    var t := TrimSpace(s);
    var i := TrimMeans(s, IsSpace);
    if t != "" { assert s[i] == t[0]; }
  }

  // ---- The name in a word. ----

  lemma PieceAtEndIsOne(s: string, sep: char, i: int, i': int)
    requires IsPiece(s, sep, i, |s|) && IsPiece(s, sep, i', |s|)
    ensures i == i'
  {
  }

  lemma NoSpaceTrims(s: string)
    requires NoSpaces(s)
    ensures TrimSpace(s) == s
  {
    if s != "" { TrimKeeps(s, IsSpace); }
  }

  lemma LastPartOfWord(word: string, i: int)
    requires NoSpaces(word) && IsPiece(word, '.', i, |word|)
    ensures TrimSpace(word) == word && NoSpaces(word[i..]) && TrimSpace(word[i..]) == word[i..]
    ensures var parts := Split(word, '.'); parts[|parts| - 1] == word[i..]
  {
    hide Trim, Split, TrimSpace;
    var i' := LastPiece(word, '.');
    PieceAtEndIsOne(word, '.', i, i');
    hide IsPiece;
    NoSpaceTrims(word);
    assert forall k :: 0 <= k < |word| - i ==> word[i..][k] == word[i + k];
    NoSpaceTrims(word[i..]);
  }

  lemma TrimmedHasNoSpaces(s: string, cut: char -> bool)
    requires NoSpaces(s)
    ensures NoSpaces(Trim(s, cut))
  {
    hide Trim;
    var o := TrimMeans(s, cut);
    assert forall k :: 0 <= k < |Trim(s, cut)| ==> Trim(s, cut)[k] == s[o + k];
  }

  /** The steps of normalising, for a word: the last piece, then what its quotes leave. */
  lemma NormalizedIs(word: string, i: int, t: string)
    requires word != "" && NoSpaces(word) && IsPiece(word, '.', i, |word|)
    requires t == Trim(word[i..], c => c == '\"' || c == '`')
    ensures NormalizeOrderIdentifier(word) ==
      if HasAny(word, "()+-*/") || WithoutBrackets(t) == "" then None else Some(WithoutBrackets(t))
  {
    var last := word[i..];
    hide *;
    LastPartOfWord(word, i);
    TrimmedHasNoSpaces(last, c => c == '\"' || c == '`');
    NameHasNoSpaces(t);
    NormalizeUnfolds(word, last, t);
  }

  lemma NormalizeUnfolds(word: string, last: string, t: string)
    requires word != "" && TrimSpace(word) == word && TrimSpace(last) == last
    requires Split(word, '.')[|Split(word, '.')| - 1] == last && t == Trim(last, c => c == '\"' || c == '`')
    requires !HasAny(WithoutBrackets(t), " \t\n\r")
    ensures NormalizeOrderIdentifier(word) ==
      if HasAny(word, "()+-*/") || WithoutBrackets(t) == "" then None else Some(WithoutBrackets(t))
  {
    hide Trim, Split, TrimSpace, WithoutBrackets, HasAny, Unbracket;
    UnbracketIs(t);
  }

  lemma NameHasNoSpaces(t: string)
    requires NoSpaces(t)
    ensures !HasAny(WithoutBrackets(t), " \t\n\r")
  {
    assert NoSpaces(WithoutBrackets(t));
    assert forall c :: c in " \t\n\r" ==> IsSpace(c);
  }

  lemma UnbracketIs(t: string)
    ensures (if t != "" && t[0] == '[' && t[|t| - 1] == ']' then Unbracket(t) else t) == WithoutBrackets(t)
  {
  }

  lemma NamesNothingIn(word: string, i: int, a: int, b: int, t: string)
    requires IsName(word, i, a, b) && t == Trim(word[i..], c => c == '\"' || c == '`')
    ensures !HasAny(word, "()+-*/") && IsPiece(word, '.', i, |word|) && t == word[a..b]
  {
    SliceOfTail(word, i, a, b);
    TailTrims(word, i, a, b);
  }

  lemma SliceOfTail(word: string, i: int, a: int, b: int)
    requires 0 <= i <= a <= b <= |word|
    ensures word[i..][a - i..b - i] == word[a..b]
  {
  }

  lemma TailTrims(word: string, i: int, a: int, b: int)
    requires IsName(word, i, a, b)
    ensures Trim(word[i..], c => c == '\"' || c == '`') == word[i..][a - i..b - i]
  {
    NameEnds(word, i, a, b);
    hide Trim, WithoutBrackets, IsName;
    TrimIs(word[i..], c => c == '\"' || c == '`', a - i, b - i);
  }

  lemma NameEnds(word: string, i: int, a: int, b: int)
    requires IsName(word, i, a, b)
    ensures var s := word[i..];
      && 0 <= a - i < b - i <= |s| && !IsNameQuote(s[a - i]) && !IsNameQuote(s[b - i - 1])
      && (forall k :: 0 <= k < a - i ==> IsNameQuote(s[k])) && (forall k :: b - i <= k < |s| ==> IsNameQuote(s[k]))
  {
    hide WithoutBrackets;
    assert forall k :: 0 <= k < |word| - i ==> word[i..][k] == word[i + k];
  }

  lemma FoundIsName(word: string, i: int, t: string)
    requires word != "" && !HasAny(word, "()+-*/") && IsPiece(word, '.', i, |word|)
    requires t == Trim(word[i..], c => c == '\"' || c == '`') && WithoutBrackets(t) != ""
    ensures Names(word, WithoutBrackets(t))
  {
    hide Trim, WithoutBrackets;
    var o := TrimMeans(word[i..], c => c == '\"' || c == '`');
    var a, b := i + o, i + o + |t|;
    if t == "" { EmptyHasNoBrackets(t); }
    assert forall k :: 0 <= k < |word| - i ==> word[i..][k] == word[i + k];
    assert word[a..b] == t;
    NameHolds(word, i, a, b);
  }

  lemma NameHolds(word: string, i: int, a: int, b: int)
    requires 0 <= i <= a < b <= |word| && !HasAny(word, "()+-*/") && IsPiece(word, '.', i, |word|)
    requires (forall k :: i <= k < a ==> IsNameQuote(word[k])) && (forall k :: b <= k < |word| ==> IsNameQuote(word[k]))
    requires !IsNameQuote(word[a]) && !IsNameQuote(word[b - 1]) && WithoutBrackets(word[a..b]) != ""
    ensures Names(word, WithoutBrackets(word[a..b]))
  {
    hide WithoutBrackets, IsNameQuote;
    assert IsName(word, i, a, b);
  }

  lemma EmptyHasNoBrackets(t: string)
    requires t == ""
    ensures WithoutBrackets(t) == ""
  {
  }

  /** Normalising finds the column a word stands for, if it stands for one. */
  lemma NormalizeFinds(word: string, c: string)
    requires word != "" && NoSpaces(word)
    ensures NormalizeOrderIdentifier(word) == Some(c) <==> Names(word, c)
  {
    hide NormalizeOrderIdentifier, Trim, HasAny, WithoutBrackets, NoSpaces;
    var i := LastPiece(word, '.');
    var quote := (c: char) => c == '\"' || c == '`';
    var t := Trim(word[i..], quote);
    NormalizedIs(word, i, t);
    if i', a, b :| 0 <= i' <= a < b <= |word| && IsName(word, i', a, b) && WithoutBrackets(word[a..b]) == c {
      NamesNothingIn(word, i', a, b, Trim(word[i'..], quote));
      PieceAtEndIsOne(word, '.', i, i');
    }
    hide IsName, IsPiece, Names;
    if NormalizeOrderIdentifier(word) == Some(c) { FoundIsName(word, i, t); }
  }

  lemma NormalizeFindsSome(word: string)
    requires word != "" && NoSpaces(word)
    ensures NormalizeOrderIdentifier(word).Some? <==> NamesSomething(word)
  {
    hide NormalizeOrderIdentifier, IsName, WithoutBrackets;
    if NormalizeOrderIdentifier(word).Some? { NormalizeFinds(word, NormalizeOrderIdentifier(word).value); }
    if i, a, b :| 0 <= i <= a < b <= |word| && IsName(word, i, a, b) {
      assert Names(word, WithoutBrackets(word[a..b]));
      NormalizeFinds(word, WithoutBrackets(word[a..b]));
    }
  }

  // ---- One part. ----

  lemma DirectionMeans(d: string)
    ensures IsDirection(d) <==> ToUpper(d) == "ASC" || ToUpper(d) == "DESC"
  {
    ToUpperMeans(d, "ASC");
    ToUpperMeans(d, "DESC");
    hide ToUpper, UpperChar;
    LettersMean(d);
  }

  lemma LettersMean(d: string)
    ensures |d| == 3 ==> (IsDirection(d) <==> forall k :: 0 <= k < 3 ==> UpperChar(d[k]) == "ASC"[k])
    ensures |d| == 4 ==> (IsDirection(d) <==> forall k :: 0 <= k < 4 ==> UpperChar(d[k]) == "DESC"[k])
  {
  }

  /** What stands behind the name was understood exactly if it is nothing, or one direction. */
  lemma RestIsDirected(rest: string)
    ensures var more := Words(rest, IsSpace);
      IsDirected(rest) <==> more == [] || (|more| == 1 && (ToUpper(more[0]) == "ASC" || ToUpper(more[0]) == "DESC"))
  {
    hide Words, ToUpper, IsDirection;
    var u, v := WordsAre(rest);
    if Spaces(rest) { return; }
    DirectionMeans(rest[u..v]);
    var _, _ := WordsAre(rest[v..]);
    forall u', v' | IsFirstWord(rest, u', v') ensures u' == u && v' == v { FirstWordIsOne(rest, u, v, u', v'); }
  }

  /** A part is understood exactly as its text says. */
  lemma PartMeans(part: string, c: string)
    ensures OrderPart(part).0 == Some(c) <==> PartNames(part, c)
    ensures OrderPart(part).1 <==> IsClear(part)
  {
    hide Words, ToUpper, NormalizeOrderIdentifier, Names, NamesSomething, IsDirected, TrimSpace;
    WordsOfTrimmed(part);
    var a, b := WordsAre(part);
    if Spaces(part) {
      BlankHasNoWord(part);
      return;
    }
    forall a', b' | IsFirstWord(part, a', b') ensures a' == a && b' == b { FirstWordIsOne(part, a, b, a', b'); }
    NormalizeFinds(part[a..b], c);
    NormalizeFindsSome(part[a..b]);
    RestIsDirected(part[b..]);
  }

  lemma BlankHasNoWord(part: string)
    requires Spaces(part)
    ensures forall a, b :: !IsFirstWord(part, a, b)
  {
    forall a, b | 0 <= a < b <= |part| ensures !IsFirstWord(part, a, b) {
      assert part[a..b][0] == part[a];
    }
  }

  // ---- The clause. ----

  lemma {:induction false} PartsAre(clauses: seq<string>, c: string)
    ensures c in OrderParts(clauses).0 <==> exists n :: 0 <= n < |clauses| && OrderPart(clauses[n]).0 == Some(c)
    ensures OrderParts(clauses).1 <==> exists n :: 0 <= n < |clauses| && !OrderPart(clauses[n]).1
    decreases |clauses|
  {
    hide OrderPart;
    if clauses != [] {
      var rest := clauses[1..];
      PartsAre(rest, c);
      assert forall n :: 0 < n < |clauses| ==> rest[n - 1] == clauses[n];
      assert forall n :: 0 <= n < |rest| ==> rest[n] == clauses[n + 1];
    }
  }

  lemma PieceIsElement(s: string, sep: char, i: int, j: int) returns (n: nat)
    requires IsPiece(s, sep, i, j)
    ensures n < |Split(s, sep)| && Split(s, sep)[n] == s[i..j]
  {
    PieceIsSplit(s, sep, i, j);
    if i == 0 { return 0; }
    var m :| 0 <= m < |Split(s, sep)[1..]| && Split(s, sep)[1..][m] == s[i..j];
    n := m + 1;
  }

  /** The columns found are exactly those some part of the clause sorts on, and the clause counts as uncertain
      exactly if some part is of another form. */
  lemma OrderFieldsMean(order: string, c: string)
    ensures c in ParseOrderFields(order).0 <==> Sorts(order, c)
    ensures ParseOrderFields(order).1 <==> IsUnclear(order)
  {
    hide OrderPart, OrderParts, Split, PartNames, IsClear, TrimSpace;
    BlankIffTrimmedAway(order);
    if Spaces(order) {
      forall i, j | IsPiece(order, ',', i, j) ensures !PartNames(order[i..j], c) { BlankSortsNothing(order[i..j], c); }
      return;
    }
    var parts := Split(order, ',');
    PartsAre(parts, c);
    forall n | 0 <= n < |parts| ensures OrderPart(parts[n]).0 == Some(c) ==> Sorts(order, c)
      ensures !OrderPart(parts[n]).1 ==> IsUnclear(order)
    {
      var i, j := SplitIsPiece(order, ',', n);
      PartMeans(parts[n], c);
    }
    forall i, j | IsPiece(order, ',', i, j)
      ensures exists n :: 0 <= n < |parts| && order[i..j] == parts[n]
      ensures OrderPart(order[i..j]).0 == Some(c) <==> PartNames(order[i..j], c)
      ensures OrderPart(order[i..j]).1 <==> IsClear(order[i..j])
    {
      var n := PieceIsElement(order, ',', i, j);
      PartMeans(order[i..j], c);
    }
  }

  /** The loop over the comma parts: the columns the text sorts on, and whether some part is of another form. */
  method CollectOrderFields(order: string) returns (fields: set<string>, uncertain: bool)
    ensures forall c :: c in fields <==> Sorts(order, c)
    ensures uncertain <==> IsUnclear(order)
    ensures (fields, uncertain) == ParseOrderFields(order)
  {
    hide Words, ToUpper, NormalizeOrderIdentifier, TrimSpace, Split, Sorts, IsUnclear, OrderParts;
    fields, uncertain := {}, false;
    if TrimSpace(order) != "" {
      var clauses := Split(order, ',');
      for i := 0 to |clauses|
        invariant forall c :: c in fields <==> exists n :: 0 <= n < i && OrderPart(clauses[n]).0 == Some(c)
        invariant uncertain <==> exists n :: 0 <= n < i && !OrderPart(clauses[n]).1
      {
        var parts := Words(TrimSpace(clauses[i]), IsSpace);
        if parts == [] {
          uncertain := true;
          continue;
        }
        if |parts| > 2 { uncertain := true; }
        if |parts| == 2 && ToUpper(parts[1]) != "ASC" && ToUpper(parts[1]) != "DESC" { uncertain := true; }
        var field := NormalizeOrderIdentifier(parts[0]);
        if field.None? {
          uncertain := true;
          continue;
        }
        fields := fields + {field.value};
      }
      forall c ensures c in fields <==> c in OrderParts(clauses).0 { PartsAre(clauses, c); }
      PartsAre(clauses, "");
    }
    forall c ensures c in fields <==> Sorts(order, c) { OrderFieldsMean(order, c); }
    OrderFieldsMean(order, "");
    assert fields == ParseOrderFields(order).0;
  }

  lemma BlankSortsNothing(part: string, c: string)
    requires Spaces(part)
    ensures !PartNames(part, c)
  {
    BlankHasNoWord(part);
  }

  // ---- Plain clauses. ----

  /** A column with an optional direction, and the white space around them. */
  datatype OrderItem = OrderItem(before: string, name: string, gap: string, direction: string, after: string)

  /** A name without white space, punctuation of its own or a comma. */
  predicate IsPlain(item: OrderItem) {
    && item.name != "" && NoSpaces(item.name) && (forall k :: 0 <= k < |item.name| ==> item.name[k] !in "()+-*/.,\"`[]")
    && Spaces(item.before) && Spaces(item.gap) && Spaces(item.after)
    && (item.direction == "" || (IsDirection(item.direction) && item.gap != ""))
  }

  function ItemText(item: OrderItem): string {
    item.before + item.name + item.gap + item.direction + item.after
  }

  /** The items, separated by commas. */
  function ListText(items: seq<OrderItem>): string
    requires items != []
  {
    ItemText(items[0]) + (if |items| == 1 then "" else "," + ListText(items[1..]))
  }

  function ItemTexts(items: seq<OrderItem>): seq<string> {
    seq(|items|, k requires 0 <= k < |items| => ItemText(items[k]))
  }

  lemma {:induction false} SplitBeforeComma(part: string, rest: string)
    requires ',' !in part
    ensures Split(part, ',') == [part] && Split(part + ("," + rest), ',') == [part] + Split(rest, ',')
    decreases |part|
  {
    var all := part + ("," + rest);
    if part == "" {
      assert all == "," + rest && all[1..] == rest;
    } else {
      SplitBeforeComma(part[1..], rest);
      assert all[1..] == part[1..] + ("," + rest) && part == [part[0]] + part[1..];
    }
  }

  lemma ItemHasNoComma(item: OrderItem)
    requires IsPlain(item)
    ensures ',' !in ItemText(item)
  {
    assert !IsSpace(',');
  }

  lemma {:induction false} ListSplits(items: seq<OrderItem>)
    requires items != [] && forall k :: 0 <= k < |items| ==> IsPlain(items[k])
    ensures Split(ListText(items), ',') == ItemTexts(items)
    decreases |items|
  {
    hide Split, IsPlain, ItemText;
    ItemHasNoComma(items[0]);
    var text := ItemText(items[0]);
    if |items| == 1 {
      SplitBeforeComma(text, "");
      assert text + "" == text;
    } else {
      ListSplits(items[1..]);
      SplitBeforeComma(text, ListText(items[1..]));
      assert ItemTexts(items) == [text] + ItemTexts(items[1..]);
    }
  }

  lemma PlainNames(name: string)
    requires name != "" && forall k :: 0 <= k < |name| ==> name[k] !in "()+-*/.,\"`[]"
    ensures Names(name, name)
  {
    assert name[0..|name|] == name;
    assert IsName(name, 0, 0, |name|);
  }

  lemma PlainWords(item: OrderItem)
    requires IsPlain(item)
    ensures Words(ItemText(item), IsSpace) == [item.name] + if item.direction == "" then [] else [item.direction]
  {
    hide Words, IsDirection;
    var text, n := ItemText(item), |item.before|;
    var m := n + |item.name|;
    assert text[n..m] == item.name && text[..n] == item.before;
    assert m < |text| ==> text[m] == (item.gap + item.direction + item.after)[0];
    assert IsFirstWord(text, n, m);
    var a, b := WordsAre(text);
    assert text[n] == item.name[0];
    FirstWordIsOne(text, a, b, n, m);
    assert text[m..] == item.gap + item.direction + item.after;
    WordsOfPadded(item.gap, item.direction, item.after);
    DirectionIsWord(item.direction);
  }

  lemma DirectionIsWord(d: string)
    requires d == "" || IsDirection(d)
    ensures Words(d, IsSpace) == if d == "" then [] else [d]
  {
    hide Words;
    var a, b := WordsAre(d);
    if d != "" {
      assert NoSpaces(d);
      assert IsFirstWord(d, 0, |d|) by { assert d[0..|d|] == d; }
      FirstWordIsOne(d, a, b, 0, |d|);
      var _, _ := WordsAre(d[|d|..]);
    }
  }

  lemma PlainPart(item: OrderItem)
    requires IsPlain(item)
    ensures OrderPart(ItemText(item)) == (Some(item.name), true)
  {
    hide Words, ToUpper, NormalizeOrderIdentifier, TrimSpace, ItemText, Names, IsDirection;
    WordsOfTrimmed(ItemText(item));
    PlainWords(item);
    PlainNames(item.name);
    NormalizeFinds(item.name, item.name);
    DirectionMeans(item.direction);
  }

  /** A list of plain names in any layout, with directions in any case, gives exactly those names and is certain. */
  lemma PlainListIsUnderstood(items: seq<OrderItem>, c: string)
    requires items != [] && forall k :: 0 <= k < |items| ==> IsPlain(items[k])
    ensures c in ParseOrderFields(ListText(items)).0 <==> exists k :: 0 <= k < |items| && items[k].name == c
    ensures !ParseOrderFields(ListText(items)).1
  {
    ListIsNotBlank(items);
    hide OrderParts, Split, TrimSpace, IsPlain, ListText, ItemTexts;
    BlankIffTrimmedAway(ListText(items));
    ListSplits(items);
    PlainParts(items, c);
  }

  lemma PlainParts(items: seq<OrderItem>, c: string)
    requires forall k :: 0 <= k < |items| ==> IsPlain(items[k])
    ensures c in OrderParts(ItemTexts(items)).0 <==> exists k :: 0 <= k < |items| && items[k].name == c
    ensures !OrderParts(ItemTexts(items)).1
  {
    hide OrderPart, OrderParts, IsPlain, ItemText;
    var texts := ItemTexts(items);
    forall k | 0 <= k < |items| ensures OrderPart(texts[k]) == (Some(items[k].name), true) {
      PlainPart(items[k]);
    }
    hide ItemTexts;
    PartsAre(texts, c);
  }

  lemma ListIsNotBlank(items: seq<OrderItem>)
    requires items != [] && IsPlain(items[0])
    ensures !Spaces(ListText(items))
  {
    var item := items[0];
    assert ListText(items)[|item.before|] == item.name[0];
  }
}
