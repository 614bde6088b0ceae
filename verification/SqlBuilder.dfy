/** Rewriting query text on its way to the driver: slices in `IN (?)`, and numbered placeholders. */
module SqlBuilder {
  import opened Values
  import opened Text

  predicate IsDigit(c: char) { '0' <= c <= '9' }

  predicate IsWordChar(c: char) { c == '_' || IsDigit(c) || 'A' <= c <= 'Z' || 'a' <= c <= 'z' }

  predicate IsMark(c: char) { c == '?' }

  predicate NoMarks(s: string) { forall k :: 0 <= k < |s| ==> !IsMark(s[k]) }

  // ---- What a query text with arguments says. ----

  /** A character of the statement, the value of a parameter, or a reference to a parameter that is not there. */
  datatype Piece = Ch(c: char) | Val(v: Value) | Unbound

  /** Question marks take the arguments in order. */
  function Fill(s: string, args: seq<Value>): seq<Piece> {
    if s == "" then []
    else if IsMark(s[0]) && args != [] then [Val(args[0])] + Fill(s[1..], args[1..])
    else [Ch(s[0])] + Fill(s[1..], args)
  }

  function Chars(s: string): seq<Piece> { seq(|s|, i requires 0 <= i < |s| => Ch(s[i])) }

  /** A slice written out as the contents of IN's parentheses. */
  function Contents(elems: seq<Value>): seq<Piece> {
    if elems == [] then Chars("NULL")
    else if |elems| == 1 then [Val(elems[0])]
    else [Val(elems[0])] + Chars(", ") + Contents(elems[1..])
  }

  predicate BlankBetween(s: string, a: nat, b: nat) { b <= |s| && forall k :: a <= k < b ==> IsBlank(s[k]) }

  /** `left` ends in a word IN at `word` and an open parenthesis at `open`. */
  predicate OpensAt(left: string, word: nat, open: nat) {
    && word + 2 <= open < |left|
    && UpperChar(left[word]) == 'I' && UpperChar(left[word + 1]) == 'N'
    && (word > 0 ==> !IsWordChar(left[word - 1]))
    && BlankBetween(left, word + 2, open)
    && left[open] == '('
    && BlankBetween(left, open + 1, |left|)
  }

  predicate ClosesAt(right: string, close: nat) {
    close < |right| && BlankBetween(right, 0, close) && right[close] == ')'
  }

  ghost predicate OpensIn(left: string) { exists word: nat, open: nat :: OpensAt(left, word, open) }

  ghost predicate Closes(right: string) { exists close: nat :: ClosesAt(right, close) }

  /** Position `i` is all there is between the parentheses of an IN. */
  ghost predicate InAt(where: string, i: nat)
    requires i < |where|
  {
    OpensIn(where[..i]) && Closes(where[i + 1..])
  }

  function Later(args: seq<Value>): seq<Value> { if args == [] then [] else args[1..] }

  /** What a placeholder stands for, given the arguments from its own on. */
  ghost function SlotMeaning(expands: bool, args: seq<Value>): seq<Piece> {
    if args == [] then [Ch('?')] else if expands && args[0].List? then Contents(args[0].elems) else [Val(args[0])]
  }

  /** What the caller means: as `Fill`, with a slice given to `IN (?)` written out. */
  ghost function Meaning(where: string, i: nat, args: seq<Value>): seq<Piece>
    requires i <= |where|
    decreases |where| - i
  {
    if i == |where| then []
    else if IsMark(where[i]) then SlotMeaning(InAt(where, i), args) + Meaning(where, i + 1, Later(args))
    else [Ch(where[i])] + Meaning(where, i + 1, args)
  }

  // ---- The rewriting. ----

  datatype Expansion = Expansion(text: string, args: seq<Value>)

  function Marks(n: nat): string { if n == 0 then "NULL" else if n == 1 then "?" else "?, " + Marks(n - 1) }

  /** What one placeholder and its argument become, in the text and in the arguments. */
  ghost function Slot(expands: bool, args: seq<Value>): Expansion {
    if args == [] then Expansion("?", [])
    else if expands && args[0].List? then Expansion(Marks(|args[0].elems|), args[0].elems)
    else Expansion("?", [args[0]])
  }

  ghost function Expand(s: string, args: seq<Value>): Expansion
    decreases |s|
  {
    var n := RunLength(s, IsMark);
    if n == |s| then Expansion(s, [])
    else
      var left, rest := s[..n], s[n + 1..];
      var slot := Slot(OpensIn(left) && Closes(rest), args);
      var e := Expand(rest, Later(args));
      Expansion(left + (slot.text + e.text), slot.args + e.args)
  }

  // ---- The test of one placeholder reads no further than its neighbours. ----

  lemma OpensInSuffix(left: string, p: nat)
    requires p <= |left|
    requires p == 0 || left[p - 1] == '?' || (exists k :: p <= k < |left| && left[k] == ')' && BlankBetween(left, p, k))
    ensures OpensIn(left) <==> OpensIn(left[p..])
  {
    var tail := left[p..];
    assert forall k :: 0 <= k < |tail| ==> tail[k] == left[p + k];
    if OpensIn(left) {
      var word: nat, open: nat :| OpensAt(left, word, open);
      assert word >= p;
      assert OpensAt(tail, word - p, open - p);
    }
    if OpensIn(tail) {
      var word: nat, open: nat :| OpensAt(tail, word, open);
      assert OpensAt(left, word + p, open + p);
    }
  }

  // ---- Expansion keeps the meaning. ----

  lemma {:induction false} FillPlain(x: string, t: string, args: seq<Value>)
    requires NoMarks(x)
    ensures Fill(x + t, args) == Chars(x) + Fill(t, args)
  {
    if x == "" {
      assert x + t == t;
    } else {
      assert (x + t)[1..] == x[1..] + t;
      FillPlain(x[1..], t, args);
      assert Chars(x) == [Ch(x[0])] + Chars(x[1..]);
    }
  }

  lemma FillMark(v: Value, t: string, args: seq<Value>)
    ensures Fill("?" + t, [v] + args) == [Val(v)] + Fill(t, args)
  {
    assert ("?" + t)[1..] == t && ([v] + args)[1..] == args;
  }

  lemma {:induction false} FillMarks(elems: seq<Value>, t: string, args: seq<Value>)
    ensures Fill(Marks(|elems|) + t, elems + args) == Contents(elems) + Fill(t, args)
  {
    hide Fill;
    if elems == [] {
      assert elems + args == args;
      FillPlain("NULL", t, args);
    } else {
      var rest := elems[1..];
      assert elems + args == [elems[0]] + (rest + args);
      if |elems| == 1 {
        assert rest + args == args;
        FillMark(elems[0], t, args);
      } else {
        var more := Marks(|rest|) + t;
        assert Marks(|elems|) + t == "?" + (", " + more);
        FillMark(elems[0], ", " + more, rest + args);
        FillPlain(", ", more, rest + args);
        FillMarks(rest, t, args);
      }
    }
  }

  lemma CharsFirst(x: string)
    requires x != ""
    ensures Chars(x) == [Ch(x[0])] + Chars(x[1..])
  {
  }

  lemma {:induction false} MeaningPlain(where: string, i: nat, j: nat, args: seq<Value>)
    requires i <= j <= |where| && forall k :: i <= k < j ==> !IsMark(where[k])
    ensures Meaning(where, i, args) == Chars(where[i..j]) + Meaning(where, j, args)
    decreases j - i
  {
    var x := where[i..j];
    if i < j {
      assert x[0] == where[i] && x[1..] == where[i + 1..j];
      CharsFirst(x);
      hide Chars, SlotMeaning, InAt;
      MeaningPlain(where, i + 1, j, args);
    }
  }

  lemma SlotOfNothing(expands: bool)
    ensures Slot(expands, []) == Expansion("?", []) && Later([]) == []
  {
  }

  lemma {:induction false} ExpandedNothing(s: string)
    ensures Expand(s, []) == Expansion(s, [])
    decreases |s|
  {
    hide *;
    var left, rest := SplitAtMark(s);
    if s == left {
      PlainStays(s, []);
    } else {
      ExpandedNothing(rest);
      SlotOfNothing(OpensIn(left) && Closes(rest));
      ExpandStep(left, rest, []);
      Assoc(left, "?", rest);
    }
  }

  lemma SlotFill(expands: bool, args: seq<Value>, e: Expansion)
    requires args == [] ==> e.args == []
    ensures var slot := Slot(expands, args);
      Fill(slot.text + e.text, slot.args + e.args) == SlotMeaning(expands, args) + Fill(e.text, e.args)
  {
    if args == [] {
      assert ("?" + e.text)[1..] == e.text;
    } else if expands && args[0].List? {
      FillMarks(args[0].elems, e.text, e.args);
    } else {
      FillMark(args[0], e.text, e.args);
    }
  }

  /** The text up to the first placeholder, the placeholder, and the rest. */
  lemma ExpandStep(left: string, rest: string, args: seq<Value>)
    requires NoMarks(left)
    ensures var e := Expand(rest, Later(args));
      var slot := Slot(OpensIn(left) && Closes(rest), args);
      Expand(left + "?" + rest, args) == Expansion(left + (slot.text + e.text), slot.args + e.args)
  {
    hide Closes, OpensIn, Slot;
    var s := left + "?" + rest;
    FirstMark(left, rest);
    assert s[..|left|] == left && s[|left| + 1..] == rest;
  }

  lemma {:induction false} FirstMark(left: string, rest: string)
    requires NoMarks(left)
    ensures RunLength(left + "?" + rest, IsMark) == |left|
  {
    var s := left + "?" + rest;
    assert s[|left|] == '?' && forall k :: 0 <= k < |left| ==> s[k] == left[k];
  }

  /** Every text is plain or splits at its first placeholder. */
  lemma SplitAtMark(s: string) returns (left: string, rest: string)
    ensures NoMarks(left)
    ensures s == left || s == left + "?" + rest
  {
    var n := RunLength(s, IsMark);
    left, rest := s[..n], if n < |s| then s[n + 1..] else "";
  }

  lemma AtMark(where: string, p: nat, left: string, rest: string)
    requires p <= |where| && where[p..] == left + "?" + rest && NoMarks(left)
    ensures var i := p + |left|;
      && i < |where| && where[i] == '?' && rest == where[i + 1..] && left == where[p..i] && left == where[..i][p..]
      && forall k :: p <= k < i ==> !IsMark(where[k])
  {
    var s, i := where[p..], p + |left|;
    assert forall k :: 0 <= k < |s| ==> s[k] == where[p + k];
    assert s[|left|] == '?';
    assert rest == s[|left| + 1..];
    assert forall k :: p <= k < i ==> where[k] == left[k - p];
  }

  lemma MeaningAtMark(where: string, i: nat, args: seq<Value>)
    requires i < |where| && where[i] == '?'
    ensures Meaning(where, i, args) ==
      SlotMeaning(OpensIn(where[..i]) && Closes(where[i + 1..]), args) + Meaning(where, i + 1, Later(args))
  {
  }

  lemma PlainStays(s: string, args: seq<Value>)
    requires NoMarks(s)
    ensures Expand(s, args) == Expansion(s, [])
  {
  }

  lemma MeaningStep(where: string, p: nat, left: string, rest: string, args: seq<Value>)
    requires p <= |where| && (p == 0 || where[p - 1] == '?') && where[p..] == left + "?" + rest && NoMarks(left)
    ensures p + |left| < |where| && where[p + |left|] == '?' && rest == where[p + |left| + 1..]
    ensures Meaning(where, p, args) ==
      Chars(left) + (SlotMeaning(OpensIn(left) && Closes(rest), args) + Meaning(where, p + |left| + 1, Later(args)))
  {
    hide *;
    var i := p + |left|;
    AtMark(where, p, left, rest);
    OpensInSuffix(where[..i], p);
    MeaningPlain(where, p, i, args);
    MeaningAtMark(where, i, args);
  }

  lemma ExpandFillStep(left: string, rest: string, args: seq<Value>)
    requires NoMarks(left)
    ensures var s, e := Expand(left + "?" + rest, args), Expand(rest, Later(args));
      Fill(s.text, s.args) == Chars(left) + (SlotMeaning(OpensIn(left) && Closes(rest), args) + Fill(e.text, e.args))
  {
    ExpandStep(left, rest, args);
    if args == [] { ExpandedNothing(rest); }
    var e, slot := Expand(rest, Later(args)), Slot(OpensIn(left) && Closes(rest), args);
    SlotFill(OpensIn(left) && Closes(rest), args, e);
    hide *;
    FillPlain(left, slot.text + e.text, slot.args + e.args);
  }

  lemma PlainMeaning(where: string, p: nat, args: seq<Value>)
    requires p <= |where| && NoMarks(where[p..])
    ensures Fill(Expand(where[p..], args).text, Expand(where[p..], args).args) == Meaning(where, p, args)
  {
    var s := where[p..];
    PlainStays(s, args);
    FillPlain(s, "", []);
    assert s + "" == s == where[p..|where|];
    assert forall k :: p <= k < |where| ==> where[k] == s[k - p];
    MeaningPlain(where, p, |where|, args);
    assert Fill("", []) == [] == Meaning(where, |where|, args);
  }

  /** Filling in the arguments after expansion says what the caller meant, whatever the number of arguments. */
  lemma {:induction false} ExpandKeepsMeaning(where: string, p: nat, args: seq<Value>)
    requires p <= |where| && (p == 0 || where[p - 1] == '?')
    ensures Fill(Expand(where[p..], args).text, Expand(where[p..], args).args) == Meaning(where, p, args)
    decreases |where| - p
  {
    hide *;
    var left, rest := SplitAtMark(where[p..]);
    if where[p..] == left {
      PlainMeaning(where, p, args);
    } else {
      MeaningStep(where, p, left, rest, args);
      ExpandKeepsMeaning(where, p + |left| + 1, Later(args));
      ExpandFillStep(left, rest, args);
    }
  }

  // ---- As many placeholders as arguments. ----

  function Count(s: string): nat { multiset(s)['?'] }

  lemma {:induction false} CountOfMarks(n: nat)
    ensures Count(Marks(n)) == n
  {
    if n == 0 {
      assert multiset("NULL") == multiset{'N', 'U', 'L', 'L'};
    } else if n > 1 {
      CountOfMarks(n - 1);
      assert multiset("?, ") == multiset{'?', ',', ' '};
    }
  }

  lemma SlotShape(expands: bool, args: seq<Value>)
    ensures var slot := Slot(expands, args);
      && slot.text != "" && (slot.text[0] == '?' || slot.text[0] == 'N')
      && Count(slot.text) == |slot.args| + if args == [] then 1 else 0
  {
    assert multiset("?") == multiset{'?'};
    if args != [] && args[0].List? { CountOfMarks(|args[0].elems|); }
  }

  lemma CountJoin(a: string, b: string)
    ensures Count(a + b) == Count(a) + Count(b)
    ensures NoMarks(a) ==> Count(a) == 0
    ensures Count("?") == 1
  {
    if NoMarks(a) { assert '?' !in a; }
    assert multiset("?") == multiset{'?'};
  }

  /** Placeholders in excess of the arguments stay in excess, and arguments in excess are dropped. */
  lemma {:induction false} ExpandKeepsCount(s: string, args: seq<Value>)
    ensures var e := Expand(s, args);
      Count(e.text) == |e.args| + if Count(s) > |args| then Count(s) - |args| else 0
    decreases |s|
  {
    hide *;
    var left, rest := SplitAtMark(s);
    if s == left {
      PlainStays(s, args);
      CountJoin(s, "");
    } else {
      ExpandStep(left, rest, args);
      ExpandKeepsCount(rest, Later(args));
      LaterLength(args);
      if args == [] { ExpandedNothing(rest); }
      var e, slot := Expand(rest, Later(args)), Slot(OpensIn(left) && Closes(rest), args);
      SlotShape(OpensIn(left) && Closes(rest), args);
      CountJoin(left, slot.text + e.text);
      CountJoin(slot.text, e.text);
      CountJoin(left + "?", rest);
      CountJoin(left, "?");
    }
  }

  lemma LaterLength(args: seq<Value>)
    ensures |Later(args)| == if args == [] then 0 else |args| - 1
  {
  }

  // ---- Expanding twice. ----

  /** Some `IN (?)` is given a slice of exactly one element that is itself a slice. */
  ghost predicate Nests(s: string, args: seq<Value>)
    decreases |s|
  {
    var n := RunLength(s, IsMark);
    n < |s| && args != [] &&
    ((OpensIn(s[..n]) && Closes(s[n + 1..]) && NestedSlice(args[0])) || Nests(s[n + 1..], args[1..]))
  }

  predicate NestedSlice(v: Value) { v.List? && |v.elems| == 1 && v.elems[0].List? }

  lemma NestsStep(left: string, rest: string, args: seq<Value>)
    requires NoMarks(left) && args != []
    ensures Nests(left + "?" + rest, args) <==>
      (OpensIn(left) && Closes(rest) && NestedSlice(args[0])) || Nests(rest, args[1..])
  {
    hide OpensIn, Closes, NestedSlice;
    var s := left + "?" + rest;
    FirstMark(left, rest);
    assert s[..|left|] == left && s[|left| + 1..] == rest;
  }

  lemma ClosesHead(left: string, t: string)
    requires t != "" && (t[0] == '?' || t[0] == 'N' || t[0] == ',')
    ensures Closes(left + t) <==> Closes(left)
  {
    var s := left + t;
    assert forall k :: 0 <= k < |left| ==> s[k] == left[k];
    assert s[|left|] == t[0];
    if Closes(s) { var k: nat :| ClosesAt(s, k); assert ClosesAt(left, k); }
    if Closes(left) { var k: nat :| ClosesAt(left, k); assert ClosesAt(s, k); }
  }

  lemma ClosesKept(s: string, args: seq<Value>)
    ensures Closes(Expand(s, args).text) <==> Closes(s)
  {
    hide *;
    var left, rest := SplitAtMark(s);
    if s == left {
      PlainStays(s, args);
    } else {
      ExpandStep(left, rest, args);
      var e, slot := Expand(rest, Later(args)), Slot(OpensIn(left) && Closes(rest), args);
      SlotShape(OpensIn(left) && Closes(rest), args);
      ClosesHead(left, slot.text + e.text);
      assert s == left + ("?" + rest);
      ClosesHead(left, "?" + rest);
    }
  }

  lemma Assoc(a: string, b: string, c: string)
    ensures a + b + c == a + (b + c)
  {
  }

  lemma OpensBehind(x: string, left: string, rest: string)
    requires Closes(left + ("?" + rest))
    ensures OpensIn(x + left) <==> OpensIn(left)
  {
    ClosesHead(left, "?" + rest);
    var k: nat :| ClosesAt(left, k);
    var front := x + left;
    assert forall j :: 0 <= j < |left| ==> front[|x| + j] == left[j];
    assert front[|x| + k] == ')' && BlankBetween(front, |x|, |x| + k);
    OpensInSuffix(front, |x|);
    assert front[|x|..] == left;
  }

  /** Plain text in front of a closing parenthesis changes nothing of what follows. */
  lemma PlainInFront(x: string, t: string, args: seq<Value>)
    requires NoMarks(x) && Closes(t)
    ensures Expand(x + t, args) == Expansion(x + Expand(t, args).text, Expand(t, args).args)
  {
    hide *;
    var left, rest := SplitAtMark(t);
    NoMarksJoin(x, left);
    if t == left {
      PlainStays(t, args);
      PlainStays(x + t, args);
    } else {
      Assoc(left, "?", rest);
      OpensBehind(x, left, rest);
      ExpandStep(left, rest, args);
      ExpandStep(x + left, rest, args);
      Assoc(x + left, "?", rest);
      Assoc(x, left, "?" + rest);
      var e, slot := Expand(rest, Later(args)), Slot(OpensIn(left) && Closes(rest), args);
      Assoc(x, left, slot.text + e.text);
    }
  }

  lemma NoMarksJoin(a: string, b: string)
    requires NoMarks(a) && NoMarks(b)
    ensures NoMarks(a + b)
  {
  }

  /** A placeholder that is not expanded keeps its argument. */
  lemma MarkStays(left: string, rest: string, v: Value, args: seq<Value>)
    requires NoMarks(left) && !(OpensIn(left) && Closes(rest) && v.List?)
    ensures Expand(left + ("?" + rest), [v] + args) ==
      Expansion(left + ("?" + Expand(rest, args).text), [v] + Expand(rest, args).args)
  {
    assert Slot(OpensIn(left) && Closes(rest), [v] + args) == Expansion("?", [v]);
    assert Later([v] + args) == args by { assert ([v] + args)[1..] == args; }
    hide *;
    Assoc(left, "?", rest);
    ExpandStep(left, rest, [v] + args);
  }

  lemma CommaOpensNothing(t: string)
    ensures !OpensIn(", ") && !Closes(", " + t) && NoMarks(", ")
  {
    assert !Closes("") && "" + (", " + t) == ", " + t;
    ClosesHead("", ", " + t);
  }

  lemma MarksStep(elems: seq<Value>, t: string, args: seq<Value>)
    requires elems != []
    ensures elems + args == [elems[0]] + (elems[1..] + args)
    ensures |elems| == 1 ==> Marks(|elems|) + t == "?" + t && elems[1..] + args == args
    ensures |elems| > 1 ==> Marks(|elems|) + t == "?" + (", " + (Marks(|elems[1..]|) + t))
  {
  }

  /** The placeholders of a written-out slice are not expanded again. */
  lemma {:induction false} ListedStays(elems: seq<Value>, t: string, args: seq<Value>)
    requires elems != []
    ensures var e := Expand(t, args);
      Expand(", " + (Marks(|elems|) + t), elems + args) == Expansion(", " + (Marks(|elems|) + e.text), elems + e.args)
    decreases |elems|
  {
    hide *;
    var e, rest := Expand(t, args), elems[1..];
    MarksStep(elems, t, args);
    MarksStep(elems, e.text, e.args);
    if |elems| == 1 {
      CommaOpensNothing("");
      MarkStays(", ", t, elems[0], args);
    } else {
      var more := ", " + (Marks(|rest|) + t);
      CommaOpensNothing(Marks(|rest|) + t);
      ListedStays(rest, t, args);
      MarkStays(", ", more, elems[0], rest + args);
    }
  }

  /** A placeholder given a slice is left alone once it is expanded. */
  lemma SliceStays(left: string, elems: seq<Value>, e: Expansion)
    requires NoMarks(left) && Closes(e.text) && !(|elems| == 1 && elems[0].List?)
    ensures var twice := Expand(e.text, e.args);
      Expand(left + (Marks(|elems|) + e.text), elems + e.args) ==
        Expansion(left + (Marks(|elems|) + twice.text), elems + twice.args)
  {
    var twice := Expand(e.text, e.args);
    if elems == [] {
      assert Marks(0) == "NULL" && NoMarks("NULL");
      hide *;
      assert elems + e.args == e.args && elems + twice.args == twice.args;
      NoMarksJoin(left, "NULL");
      Assoc(left, "NULL", e.text);
      Assoc(left, "NULL", twice.text);
      PlainInFront(left + "NULL", e.text, e.args);
    } else {
      assert |elems| == 1 ==> !elems[0].List?;
      hide *;
      ListStays(left, elems, e);
    }
  }

  lemma SlotOfFirst(expands: bool, args: seq<Value>)
    requires args != []
    ensures Later(args) == args[1..]
    ensures Slot(expands, args) == if expands && args[0].List? then Expansion(Marks(|args[0].elems|), args[0].elems)
      else Expansion("?", [args[0]])
  {
  }

  /** A slot already expanded is left alone, and so the second expansion is that of the rest. */
  lemma SlotStays(left: string, rest: string, args: seq<Value>)
    requires NoMarks(left) && args != []
    requires !(OpensIn(left) && Closes(rest) && NestedSlice(args[0]))
    ensures var e, once := Expand(rest, args[1..]), Expand(left + "?" + rest, args);
      var slot, twice := Slot(OpensIn(left) && Closes(rest), args), Expand(e.text, e.args);
      && once == Expansion(left + (slot.text + e.text), slot.args + e.args)
      && Expand(once.text, once.args) == Expansion(left + (slot.text + twice.text), slot.args + twice.args)
  {
    var e, v := Expand(rest, args[1..]), args[0];
    assert OpensIn(left) && Closes(rest) && v.List? ==> !(|v.elems| == 1 && v.elems[0].List?);
    hide *;
    SlotOfFirst(OpensIn(left) && Closes(rest), args);
    ExpandStep(left, rest, args);
    ClosesKept(rest, args[1..]);
    if OpensIn(left) && Closes(rest) && v.List? {
      SliceStays(left, v.elems, e);
    } else {
      MarkStays(left, e.text, v, e.args);
    }
  }

  lemma ListStays(left: string, elems: seq<Value>, e: Expansion)
    requires NoMarks(left) && elems != [] && (|elems| == 1 ==> !elems[0].List?)
    ensures var twice := Expand(e.text, e.args);
      Expand(left + (Marks(|elems|) + e.text), elems + e.args) ==
        Expansion(left + (Marks(|elems|) + twice.text), elems + twice.args)
  {
    hide *;
    var twice, rest := Expand(e.text, e.args), elems[1..];
    MarksStep(elems, e.text, e.args);
    MarksStep(elems, twice.text, twice.args);
    if |elems| == 1 {
      MarkStays(left, e.text, elems[0], e.args);
    } else {
      CommaOpensNothing(Marks(|rest|) + e.text);
      ListedStays(rest, e.text, e.args);
      MarkStays(left, ", " + (Marks(|rest|) + e.text), elems[0], rest + e.args);
    }
  }

  lemma OtherText(n: nat, a: string, b: string)
    requires n != 1 && Closes(b)
    ensures Marks(n) + a != "?" + b
  {
    var x, y := Marks(n) + a, "?" + b;
    var k: nat :| ClosesAt(b, k);
    if n == 0 {
      assert x[0] == 'N';
    } else {
      assert x[1] == ',' && y[1] == b[0];
    }
  }

  lemma SlotOfList(v: Value, args: seq<Value>)
    requires v.List?
    ensures Slot(true, [v] + args) == Expansion(Marks(|v.elems|), v.elems)
    ensures Later([v] + args) == args
    ensures |v.elems| == 1 ==> Marks(|v.elems|) == "?" && v.elems == [v.elems[0]] && v.elems[0] != v
  {
    assert ([v] + args)[1..] == args;
  }

  /** A nested slice is expanded once more. */
  lemma NestedMoves(left: string, rest: string, args: seq<Value>)
    requires NoMarks(left) && args != []
    requires OpensIn(left) && Closes(rest) && NestedSlice(args[0])
    ensures var once := Expand(left + "?" + rest, args); Expand(once.text, once.args) != once
  {
    var inner := args[0].elems[0].elems;
    var slice := args[0].elems[0];
    assert args[0].elems == [slice] && args == [args[0]] + args[1..];
    hide *;
    var e := Expand(rest, args[1..]);
    SlotOfList(args[0], args[1..]);
    ExpandStep(left, rest, args);
    ClosesKept(rest, args[1..]);
    var once := [slice] + e.args;
    assert Expand(left + "?" + rest, args) == Expansion(left + ("?" + e.text), once);
    Assoc(left, "?", e.text);
    SlotOfList(slice, e.args);
    ExpandStep(left, e.text, once);
    var again := Expand(e.text, e.args);
    if |inner| == 1 {
      assert (inner + again.args)[0] == inner[0] != once[0];
    } else {
      OtherText(|inner|, again.text, e.text);
      SameTail(left, Marks(|inner|) + again.text, "?" + e.text);
    }
  }

  /** Expanding twice is expanding once, exactly unless a slice of one slice is given to an `IN (?)`. */
  lemma {:induction false} ExpandTwice(s: string, args: seq<Value>)
    ensures var e := Expand(s, args); Expand(e.text, e.args) == e <==> !Nests(s, args)
    decreases |s|
  {
    var left, rest := SplitAtMark(s);
    if s == left {
      PlainStays(s, args);
      PlainStays(s, []);
    } else if args == [] {
      ExpandedNothing(s);
    } else {
      NestsStep(left, rest, args);
      if OpensIn(left) && Closes(rest) && NestedSlice(args[0]) {
        NestedMoves(left, rest, args);
      } else {
        hide *;
        ExpandTwice(rest, args[1..]);
        SlotStays(left, rest, args);
        var e, slot := Expand(rest, args[1..]), Slot(OpensIn(left) && Closes(rest), args);
        var twice := Expand(e.text, e.args);
        SameTail(left + slot.text, e.text, twice.text);
        Assoc(left, slot.text, e.text);
        Assoc(left, slot.text, twice.text);
        SameTail(slot.args, e.args, twice.args);
      }
    }
  }

  lemma SameTail<T>(a: seq<T>, b: seq<T>, c: seq<T>)
    ensures a + b == a + c <==> b == c
  {
    assert (a + b)[|a|..] == b && (a + c)[|a|..] == c;
  }

  // ---- The loops. ----

  method SkipBlanksLeft(s: string, from: nat) returns (p: nat)
    requires from <= |s|
    ensures p <= from && BlankBetween(s, p, from) && (p > 0 ==> !IsBlank(s[p - 1]))
  {
    p := from;
    while p > 0 && IsBlank(s[p - 1])
      invariant p <= from && BlankBetween(s, p, from)
    {
      p := p - 1;
    }
  }

  method SkipBlanksRight(s: string, from: nat) returns (p: nat)
    requires from <= |s|
    ensures from <= p <= |s| && BlankBetween(s, from, p) && (p < |s| ==> !IsBlank(s[p]))
  {
    p := from;
    while p < |s| && IsBlank(s[p])
      invariant from <= p <= |s| && BlankBetween(s, from, p)
    {
      p := p + 1;
    }
  }

  predicate WordInEndsAt(s: string, end: nat) {
    && 2 <= end <= |s|
    && UpperChar(s[end - 2]) == 'I' && UpperChar(s[end - 1]) == 'N'
    && (end == 2 || !IsWordChar(s[end - 3]))
  }

  lemma OpensWhere(left: string, l: nat, w: nat)
    requires l <= |left| && BlankBetween(left, l, |left|) && (l > 0 ==> !IsBlank(left[l - 1]))
    requires l > 0 ==> w < l && BlankBetween(left, w, l - 1) && (w > 0 ==> !IsBlank(left[w - 1]))
    ensures OpensIn(left) <==> l > 0 && left[l - 1] == '(' && WordInEndsAt(left, w)
  {
    if OpensIn(left) {
      var word: nat, open: nat :| OpensAt(left, word, open);
      assert open + 1 == l by { assert !IsBlank(left[open]); }
      assert word + 2 == w by { assert !IsBlank(left[word + 1]); }
    }
    if l > 0 && left[l - 1] == '(' && WordInEndsAt(left, w) {
      assert OpensAt(left, w - 2, l - 1);
    }
  }

  lemma ClosesWhere(right: string, r: nat)
    requires r <= |right| && BlankBetween(right, 0, r) && (r < |right| ==> !IsBlank(right[r]))
    ensures Closes(right) <==> r < |right| && right[r] == ')'
  {
    if Closes(right) {
      var close: nat :| ClosesAt(right, close);
      assert close == r;
    }
    if r < |right| && right[r] == ')' { assert ClosesAt(right, r); }
  }

  method IsInPlaceholder(where: string, i: nat) returns (inClause: bool)
    requires i < |where|
    ensures inClause <==> InAt(where, i)
  {
    var left := SkipBlanksLeft(where, i);
    var right := SkipBlanksRight(where, i + 1);
    inClause := false;
    ghost var wordEnd := 0;
    if left > 0 {
      var end := SkipBlanksLeft(where, left - 1);
      inClause := where[left - 1] == '(' && right < |where| && where[right] == ')' && WordInEndsAt(where, end);
      wordEnd := end;
    }
    assert forall k :: 0 <= k < i ==> where[..i][k] == where[k];
    OpensWhere(where[..i], left, wordEnd);
    ghost var after := where[i + 1..];
    assert forall k :: 0 <= k < |after| ==> after[k] == where[i + 1 + k];
    ClosesWhere(after, right - i - 1);
  }

  lemma {:induction false} MarksGrow(n: nat)
    requires n > 0
    ensures Marks(n + 1) == Marks(n) + ", ?"
  {
    if n > 1 { MarksGrow(n - 1); }
  }

  method WritePlaceholders(elems: seq<Value>) returns (marks: string, copied: seq<Value>)
    ensures marks == Marks(|elems|) && copied == elems
  {
    if elems == [] { return "NULL", []; }
    marks, copied := "?", [elems[0]];
    for j := 1 to |elems|
      invariant marks == Marks(j) && copied == elems[..j]
    {
      MarksGrow(j);
      marks, copied := marks + ", ?", copied + [elems[j]];
    }
  }

  method ExpandSlot(where: string, i: nat, args: seq<Value>) returns (text: string, used: seq<Value>)
    requires i < |where|
    ensures Expansion(text, used) == Slot(InAt(where, i), args)
  {
    var inClause := IsInPlaceholder(where, i);
    hide InAt;
    if inClause && args != [] && args[0].List? {
      text, used := WritePlaceholders(args[0].elems);
    } else {
      text, used := "?", if args == [] then [] else [args[0]];
    }
  }

  method ExpandInClauses(where: string, args: seq<Value>) returns (newWhere: string, newArgs: seq<Value>)
    ensures Expansion(newWhere, newArgs) == Expand(where, args)
    ensures Fill(newWhere, newArgs) == Meaning(where, 0, args)
    ensures Count(where) == |args| ==> Count(newWhere) == |newArgs|
  {
    hide *;
    newWhere, newArgs := "", [];
    var i, argIdx := 0, 0;
    ghost var p, done := 0, "";
    assert where[0..] == where && args[0..] == args;
    NothingAt(where, 0);
    while i < |where|
      invariant p <= i <= |where| && (p == 0 || where[p - 1] == '?') && NoMarks(where[p..i])
      invariant argIdx <= |args|
      invariant newWhere == done + where[p..i]
      invariant var e := Expand(where[p..], args[argIdx..]);
        Expand(where, args) == Expansion(done + e.text, newArgs + e.args)
    {
      if where[i] != '?' {
        newWhere := newWhere + [where[i]];
        NextChar(where, p, i);
        i := i + 1;
      } else {
        var text, used := ExpandSlot(where, i, args[argIdx..]);
        ghost var left, e := where[p..i], Expand(where[i + 1..], Later(args[argIdx..]));
        ExpandAt(where, p, i, args[argIdx..]);
        Assoc(done, left, text + e.text);
        Assoc(done + left, text, e.text);
        assert newArgs + (used + e.args) == newArgs + used + e.args;
        newWhere, newArgs := newWhere + text, newArgs + used;
        LaterSlice(args, argIdx);
        if argIdx < |args| { argIdx := argIdx + 1; }
        i := i + 1;
        p, done := i, newWhere;
        NothingAt(where, i);
      }
    }
    assert where[p..i] == where[p..];
    PlainStays(where[p..], args[argIdx..]);
    ExpandKeepsMeaning(where, 0, args);
    ExpandKeepsCount(where, args);
  }

  lemma NextChar(where: string, p: nat, i: nat)
    requires p <= i < |where| && NoMarks(where[p..i]) && where[i] != '?'
    ensures where[p..i + 1] == where[p..i] + [where[i]] && NoMarks(where[p..i + 1])
  {
  }

  lemma NothingAt(where: string, i: nat)
    requires i <= |where|
    ensures where[i..i] == "" && NoMarks(where[i..i])
  {
  }

  lemma LaterSlice(args: seq<Value>, k: nat)
    requires k <= |args|
    ensures Later(args[k..]) == if k < |args| then args[k + 1..] else args[k..]
  {
  }

  lemma ExpandAt(where: string, p: nat, i: nat, args: seq<Value>)
    requires p <= i < |where| && where[i] == '?' && NoMarks(where[p..i]) && (p == 0 || where[p - 1] == '?')
    ensures var e, slot := Expand(where[i + 1..], Later(args)), Slot(InAt(where, i), args);
      Expand(where[p..], args) == Expansion(where[p..i] + (slot.text + e.text), slot.args + e.args)
  {
    hide OpensIn, Closes, Expand, Slot;
    assert where[p..] == where[p..i] + "?" + where[i + 1..];
    assert where[..i][p..] == where[p..i];
    OpensInSuffix(where[..i], p);
    ExpandStep(where[p..i], where[i + 1..], args);
  }
}
