/** Numbered placeholders: what a PostgreSQL server reads is what the question marks said. */
module Rebinding {
  import opened Values
  import opened Text
  import opened WhereLexer
  import opened SqlBuilder

  function Placeholder(dialect: Dialect, index: nat): string { if dialect == Postgres then "$" + Itoa(index) else "?" }

  function Rebound(dialect: Dialect, query: string, index: nat): string {
    if query == "" then ""
    else if IsMark(query[0]) then Placeholder(dialect, index) + Rebound(dialect, query[1..], index + 1)
    else [query[0]] + Rebound(dialect, query[1..], index)
  }

  lemma ReboundAt(dialect: Dialect, query: string, i: nat, index: nat)
    requires i < |query|
    ensures Rebound(dialect, query[i..], index) ==
      if query[i] == '?' then Placeholder(dialect, index) + Rebound(dialect, query[i + 1..], index + 1)
      else [query[i]] + Rebound(dialect, query[i + 1..], index)
  {
    var rest := query[i..];
    assert rest[0] == query[i] && rest[1..] == query[i + 1..];
  }

  method Rebind(dialect: Dialect, query: string) returns (result: string)
    ensures result == Rebound(dialect, query, 1)
  {
    result := "";
    var idx := 1;
    assert query[0..] == query;
    for i := 0 to |query|
      invariant result + Rebound(dialect, query[i..], idx) == Rebound(dialect, query, 1)
    {
      hide *;
      ReboundAt(dialect, query, i, idx);
      if query[i] == '?' {
        Assoc(result, Placeholder(dialect, idx), Rebound(dialect, query[i + 1..], idx + 1));
        result := result + Placeholder(dialect, idx);
        idx := idx + 1;
      } else {
        Assoc(result, [query[i]], Rebound(dialect, query[i + 1..], idx));
        result := result + [query[i]];
      }
    }
  }

  // ---- Reading numbered placeholders. ----

  predicate NotDigit(c: char) { !IsDigit(c) }

  function Param(index: nat, args: seq<Value>): Piece {
    if 1 <= index <= |args| then Val(args[index - 1]) else Unbound
  }

  /** `$` and a run of digits refer to an argument by its number. */
  function Read(s: string, args: seq<Value>): seq<Piece>
    decreases |s|
  {
    if s == "" then []
    else
      var n := if s[0] == '$' then RunLength(s[1..], NotDigit) else 0;
      if n == 0 then [Ch(s[0])] + Read(s[1..], args)
      else [Param(DigitsValue(s[1..][..n]), args)] + Read(s[1..][n..], args)
  }

  predicate StartsDigit(s: string) { s != "" && IsDigit(s[0]) }

  predicate ClashAt(s: string, i: nat) { i + 1 < |s| && (s[i] == '?' || s[i] == '$') && IsDigit(s[i + 1]) }

  /** A digit directly behind a placeholder or a dollar sign. */
  ghost predicate Clashes(s: string) { exists i: nat :: ClashAt(s, i) }

  lemma ClashFirst(c: char, s: string)
    ensures Clashes([c] + s) <==> Clashes(s) || ((c == '?' || c == '$') && StartsDigit(s))
  {
    var t := [c] + s;
    assert forall k :: 0 <= k < |s| ==> t[k + 1] == s[k];
    if Clashes(t) {
      var i: nat :| ClashAt(t, i);
      if i > 0 { assert ClashAt(s, i - 1); }
    }
    if Clashes(s) {
      var i: nat :| ClashAt(s, i);
      assert ClashAt(t, i + 1);
    }
    if (c == '?' || c == '$') && StartsDigit(s) { assert ClashAt(t, 0); }
  }

  lemma DigitRun(digits: string, t: string)
    requires AllDigits(digits)
    ensures var n := RunLength(digits + t, NotDigit);
      && n >= |digits| && (n == |digits| <==> !StartsDigit(t))
      && !StartsDigit((digits + t)[n..])
  {
    var s := digits + t;
    assert forall k :: 0 <= k < |digits| ==> s[k] == digits[k];
    assert t != "" ==> s[|digits|] == t[0];
  }

  lemma ReadOther(c: char, s: string, args: seq<Value>)
    requires c != '$' || !StartsDigit(s)
    ensures Read([c] + s, args) == [Ch(c)] + Read(s, args)
  {
    assert ([c] + s)[1..] == s;
  }

  lemma ReadParam(digits: string, t: string, args: seq<Value>)
    requires digits != "" && AllDigits(digits) && !StartsDigit(t)
    ensures Read("$" + digits + t, args) == [Param(DigitsValue(digits), args)] + Read(t, args)
  {
    var s := "$" + digits + t;
    DigitRun(digits, t);
    assert s[1..] == digits + t;
    assert (digits + t)[..|digits|] == digits && (digits + t)[|digits|..] == t;
  }

  /** A parameter swallows every digit behind its dollar sign. */
  lemma ReadSwallows(digits: string, t: string, args: seq<Value>)
    requires digits != "" && AllDigits(digits)
    ensures var pieces := Read("$" + digits + t, args);
      pieces != [] && !pieces[0].Ch? && (|pieces| > 1 && pieces[1].Ch? ==> !IsDigit(pieces[1].c))
  {
    var s, tail := "$" + digits + t, digits + t;
    DigitRun(digits, t);
    var n := RunLength(tail, NotDigit);
    assert s[1..] == tail;
    var rest := tail[n..];
    assert Read(s, args)[1..] == Read(rest, args);
    assert rest != "" && Read(rest, args)[0].Ch? ==> Read(rest, args)[0].c == rest[0];
  }

  lemma ReboundStart(q: string, k: nat)
    ensures StartsDigit(Rebound(Postgres, q, k)) <==> StartsDigit(q)
  {
  }

  /** PostgreSQL reads the arguments the question marks took, exactly when no placeholder or dollar sign has a digit
      behind it. */
  lemma {:induction false} RebindKeepsMeaning(q: string, k: nat, args: seq<Value>)
    requires k >= 1 && k - 1 + Count(q) <= |args|
    ensures Read(Rebound(Postgres, q, k), args) == Fill(q, args[k - 1..]) <==> !Clashes(q)
  {
    if q == "" { return; }
    var c, rest := q[0], q[1..];
    assert q == [c] + rest;
    ClashFirst(c, rest);
    CountJoin([c], rest);
    if c == '?' {
      var tail := Rebound(Postgres, rest, k + 1);
      assert args[k - 1..][1..] == args[k..];
      ReboundStart(rest, k + 1);
      ItoaReads(k);
      assert Rebound(Postgres, q, k) == "$" + Itoa(k) + tail;
      if StartsDigit(rest) {
        ReadSwallows(Itoa(k), tail, args);
        assert Fill(q, args[k - 1..])[1] == Ch(rest[0]);
      } else {
        ReadParam(Itoa(k), tail, args);
        RebindKeepsMeaning(rest, k + 1, args);
        SameTail([Val(args[k - 1])], Read(tail, args), Fill(rest, args[k..]));
      }
    } else {
      var tail := Rebound(Postgres, rest, k);
      ReboundStart(rest, k);
      if c == '$' && StartsDigit(rest) {
        assert tail == tail[..1] + tail[1..];
        assert "$" + tail == "$" + tail[..1] + tail[1..];
        ReadSwallows(tail[..1], tail[1..], args);
      } else {
        ReadOther(c, tail, args);
        RebindKeepsMeaning(rest, k, args);
        SameTail([Ch(c)], Read(tail, args), Fill(rest, args[k - 1..]));
      }
    }
  }

  /** The other dialects keep their question marks. */
  lemma {:induction false} RebindIsIdentity(dialect: Dialect, q: string, k: nat)
    requires dialect != Postgres
    ensures Rebound(dialect, q, k) == q
  {
    if q != "" { RebindIsIdentity(dialect, q[1..], if IsMark(q[0]) then k + 1 else k); }
  }

  // ---- Expansion followed by rebinding. ----

  ghost predicate ClashBetween(a: string, b: string) {
    a != "" && (a[|a| - 1] == '?' || a[|a| - 1] == '$') && StartsDigit(b)
  }

  lemma {:induction false} ClashJoin(a: string, b: string)
    ensures Clashes(a + b) <==> Clashes(a) || Clashes(b) || ClashBetween(a, b)
  {
    hide Clashes;
    if a == "" {
      assert a + b == b;
      ClashNone();
    } else {
      var c, rest := a[0], a[1..];
      ClashJoin(rest, b);
      assert a == [c] + rest && a + b == [c] + (rest + b);
      ClashFirst(c, rest);
      ClashFirst(c, rest + b);
    }
  }

  lemma ClashNone()
    ensures !Clashes("") && !Clashes("NULL") && !Clashes("?, ")
  {
  }

  lemma {:induction false} ClashInMarks(n: nat)
    ensures !Clashes(Marks(n)) && !StartsDigit(Marks(n)) && Marks(n) != ""
  {
    ClashNone();
    if n > 1 {
      ClashInMarks(n - 1);
      ClashJoin("?, ", Marks(n - 1));
    }
  }

  lemma ClosingIsNoDigit(s: string)
    requires Closes(s)
    ensures !StartsDigit(s)
  {
    var k: nat :| ClosesAt(s, k);
  }

  lemma SlotClash(expands: bool, args: seq<Value>, rest: string, t: string)
    requires StartsDigit(t) <==> StartsDigit(rest)
    requires expands ==> Closes(rest)
    requires Clashes(t) <==> Clashes(rest)
    ensures var s := Slot(expands, args).text; !StartsDigit(s + t) && (Clashes(s + t) <==> Clashes("?" + rest))
  {
    var s := Slot(expands, args).text;
    if expands { ClosingIsNoDigit(rest); }
    if args != [] && args[0].List? { ClashInMarks(|args[0].elems|); }
    ClashInMarks(1);
    ClashJoin(s, t);
    ClashJoin("?", rest);
  }

  lemma {:induction false} ExpandKeepsClashes(s: string, args: seq<Value>)
    ensures var t := Expand(s, args).text; (Clashes(t) <==> Clashes(s)) && (StartsDigit(t) <==> StartsDigit(s))
    decreases |s|
  {
    hide Expand, Clashes, OpensIn, Closes, Slot, Later, NoMarks;
    var left, rest := SplitAtMark(s);
    if s == left {
      PlainStays(s, args);
    } else {
      ExpandStep(left, rest, args);
      ExpandKeepsClashes(rest, Later(args));
      var e, slot := Expand(rest, Later(args)), Slot(OpensIn(left) && Closes(rest), args);
      SlotClash(OpensIn(left) && Closes(rest), args, rest, e.text);
      Assoc(left, "?", rest);
      ClashJoin(left, slot.text + e.text);
      ClashJoin(left, "?" + rest);
      SlotShape(OpensIn(left) && Closes(rest), args);
    }
  }

  /** A query with enough arguments reaches PostgreSQL with the caller's meaning, exactly unless it clashes. */
  lemma PreparedKeepsMeaning(where: string, args: seq<Value>)
    requires Count(where) <= |args|
    ensures var e := Expand(where, args);
      Read(Rebound(Postgres, e.text, 1), e.args) == Meaning(where, 0, args) <==> !Clashes(where)
  {
    hide *;
    var e := Expand(where, args);
    assert where[0..] == where && e.args[0..] == e.args;
    ExpandKeepsMeaning(where, 0, args);
    ExpandKeepsCount(where, args);
    ExpandKeepsClashes(where, args);
    RebindKeepsMeaning(e.text, 1, e.args);
  }
}
