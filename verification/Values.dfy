/** Typed column and argument values, and the string helpers the query text goes through. */
module Values {

  datatype Option<+T> = None | Some(value: T)

  /** The static type of a column, as far as the matcher distinguishes types. */
  datatype Kind = BoolKind | IntKind | FloatKind | StringKind | TimeKind | ListKind

  /** `Nil` is an untyped nil argument, `Null` a nil pointer of a known type, `Ref` a pointer that is not
      nil, `List` a slice argument of IN, `untyped` if its element type is the empty interface. */
  datatype Value =
    | Nil
    | Null(kind: Kind)
    | Bool(b: bool)
    | Int(i: int)
    | Float(f: real)
    | Str(s: string)
    | Time(t: int)
    | Ref(target: Value)
    | List(elems: seq<Value>, untyped: bool)

  datatype Dialect = MySQL | Postgres | SQLite

  type Column = string

  /** A flat row: one value per column of the model. */
  type Row = map<Column, Value>

  predicate AgreeOn(columns: set<Column>, r: Row, r': Row) {
    forall c :: c in columns ==> (c in r <==> c in r') && (c in r ==> r[c] == r'[c])
  }
}

/** ASCII versions of the `strings` functions used on WHERE and ORDER text. */
module Text {

  predicate IsSpace(c: char) {
    c == ' ' || c == '\t' || c == '\n' || c == '\r' || c == '\U{0B}' || c == '\U{0C}'
  }

  /** What the tokenizers skip. */
  predicate IsBlank(c: char) { c == ' ' || c == '\t' || c == '\n' || c == '\r' }

  function TrimLeft(s: string, cut: char -> bool): string {
    if s != "" && cut(s[0]) then TrimLeft(s[1..], cut) else s
  }

  function TrimRight(s: string, cut: char -> bool): string {
    if s != "" && cut(s[|s| - 1]) then TrimRight(s[..|s| - 1], cut) else s
  }

  function Trim(s: string, cut: char -> bool): string {
    TrimRight(TrimLeft(s, cut), cut)
  }

  function TrimSpace(s: string): string {
    Trim(s, IsSpace)
  }

  function UpperChar(c: char): char {
    if 'a' <= c <= 'z' then ((c as int) - 32) as char else c
  }

  function ToUpper(s: string): string {
    if s == "" then "" else [UpperChar(s[0])] + ToUpper(s[1..])
  }

  /** The pieces between separators; always at least one. */
  function Split(s: string, sep: char): (parts: seq<string>)
    ensures |parts| >= 1
  {
    if s == "" then [""]
    else
      var rest := Split(s[1..], sep);
      if s[0] == sep then [""] + rest else [[s[0]] + rest[0]] + rest[1..]
  }

  /** The maximal runs of characters not in `blank`. */
  function Words(s: string, blank: char -> bool): (words: seq<string>)
    decreases |s|
  {
    var t := TrimLeft(s, blank);
    TrimLeftIsSuffix(s, blank);
    if t == "" then []
    else
      var n := RunLength(t, blank);
      [t[..n]] + Words(t[n..], blank)
  }

  /** Length of the leading run of characters not in `stop`. */
  function RunLength(s: string, stop: char -> bool): (n: nat)
    ensures n <= |s|
    ensures s != "" && !stop(s[0]) ==> n >= 1
    ensures forall k :: 0 <= k < n ==> !stop(s[k])
    ensures n < |s| ==> stop(s[n])
  {
    if s == "" || stop(s[0]) then 0 else 1 + RunLength(s[1..], stop)
  }

  lemma TrimLeftIsSuffix(s: string, cut: char -> bool)
    ensures |TrimLeft(s, cut)| <= |s|
    ensures TrimLeft(s, cut) == s[|s| - |TrimLeft(s, cut)|..]
    ensures TrimLeft(s, cut) != "" ==> !cut(TrimLeft(s, cut)[0])
  {
  }

  lemma TrimRightIsPrefix(s: string, cut: char -> bool)
    ensures |TrimRight(s, cut)| <= |s|
    ensures TrimRight(s, cut) == s[..|TrimRight(s, cut)|]
    ensures TrimRight(s, cut) != "" ==> !cut(TrimRight(s, cut)[|TrimRight(s, cut)| - 1])
  {
  }

  /** A string whose two ends are not cut is left alone. */
  lemma TrimKeeps(s: string, cut: char -> bool)
    requires s != "" && !cut(s[0]) && !cut(s[|s| - 1])
    ensures Trim(s, cut) == s
  {
  }

  lemma {:induction false} TrimmedHeadIsCut(s: string, cut: char -> bool)
    ensures |TrimLeft(s, cut)| <= |s| && forall k :: 0 <= k < |s| - |TrimLeft(s, cut)| ==> cut(s[k])
    decreases |s|
  {
    if s != "" && cut(s[0]) {
      TrimmedHeadIsCut(s[1..], cut);
      assert forall k :: 0 < k < |s| ==> s[k] == s[1..][k - 1];
    }
  }

  lemma {:induction false} TrimmedTailIsCut(s: string, cut: char -> bool)
    ensures forall k :: |TrimRight(s, cut)| <= k < |s| ==> cut(s[k])
    decreases |s|
  {
    if s != "" && cut(s[|s| - 1]) {
      TrimmedTailIsCut(s[..|s| - 1], cut);
      assert forall k :: 0 <= k < |s| - 1 ==> s[k] == s[..|s| - 1][k];
    }
  }

  /** What trimming leaves: the text from `i` on, with nothing but cut characters before and after it, and none
      at its own ends. */
  lemma TrimMeans(s: string, cut: char -> bool) returns (i: nat)
    ensures var t := Trim(s, cut);
      && i + |t| <= |s| && t == s[i..i + |t|]
      && (forall k :: 0 <= k < i ==> cut(s[k])) && (forall k :: i + |t| <= k < |s| ==> cut(s[k]))
      && (t != "" ==> !cut(t[0]) && !cut(t[|t| - 1]))
  {
    hide TrimLeft, TrimRight;
    var l := TrimLeft(s, cut);
    TrimLeftIsSuffix(s, cut);
    i := |s| - |l|;
    TrimRightIsPrefix(l, cut);
    TrimmedHeadIsCut(s, cut);
    TrimmedTailIsCut(l, cut);
    assert forall k :: 0 <= k < |l| ==> l[k] == s[i + k];
    var t := Trim(s, cut);
    assert t == l[..|t|];
    assert forall k :: i + |t| <= k < |s| ==> s[k] == l[k - i];
    if t != "" { assert t[0] == l[0]; }
  }

  // ---- What splitting means. ----

  /** `s[i..j]` is one of the pieces between separators. */
  predicate IsPiece(s: string, sep: char, i: int, j: int) {
    && 0 <= i <= j <= |s| && (i == 0 || s[i - 1] == sep) && (j == |s| || s[j] == sep)
    && forall k :: i <= k < j ==> s[k] != sep
  }

  lemma PieceShifts(s: string, sep: char, i: int, j: int)
    requires s != "" && 1 <= i <= j <= |s| && (i == 1 ==> s[0] == sep)
    ensures IsPiece(s, sep, i, j) <==> IsPiece(s[1..], sep, i - 1, j - 1)
    ensures s[i..j] == s[1..][i - 1..j - 1]
  {
    assert forall k :: 1 <= k < |s| ==> s[k] == s[1..][k - 1];
  }

  /** Every piece is in the split: the one at the start comes first, the others come later. */
  lemma {:induction false} PieceIsSplit(s: string, sep: char, i: int, j: int)
    requires IsPiece(s, sep, i, j)
    ensures if i == 0 then Split(s, sep)[0] == s[..j] else s[i..j] in Split(s, sep)[1..]
    decreases |s|
  {
    if s == "" { return; }
    if i == 0 {
      if s[0] != sep {
        FirstPieceShifts(s, sep, j);
        PieceIsSplit(s[1..], sep, 0, j - 1);
        assert s[..j] == [s[0]] + s[1..][..j - 1];
      }
    } else {
      assert i == 1 ==> s[0] == sep;
      PieceShifts(s, sep, i, j);
      PieceIsSplit(s[1..], sep, i - 1, j - 1);
      var rest := Split(s[1..], sep);
      if s[0] == sep {
        assert Split(s, sep)[1..] == rest;
        if i == 1 { assert s[1..][..j - 1] == rest[0]; }
      } else {
        assert Split(s, sep)[1..] == rest[1..];
      }
    }
  }

  lemma FirstPieceShifts(s: string, sep: char, j: int)
    requires s != "" && s[0] != sep && 1 <= j <= |s|
    ensures IsPiece(s, sep, 0, j) <==> IsPiece(s[1..], sep, 0, j - 1)
  {
    assert forall k :: 1 <= k < |s| ==> s[k] == s[1..][k - 1];
  }

  /** Every element of the split is a piece. */
  lemma {:induction false} SplitIsPiece(s: string, sep: char, n: nat) returns (i: int, j: int)
    requires n < |Split(s, sep)|
    ensures IsPiece(s, sep, i, j) && Split(s, sep)[n] == s[i..j] && (n == 0 <==> i == 0)
    decreases |s|
  {
    if s == "" { return 0, 0; }
    var rest := Split(s[1..], sep);
    if s[0] == sep {
      if n == 0 { return 0, 0; }
      i, j := SplitIsPiece(s[1..], sep, n - 1);
      PieceShifts(s, sep, i + 1, j + 1);
    } else {
      i, j := SplitIsPiece(s[1..], sep, n);
      if n == 0 {
        FirstPieceShifts(s, sep, j + 1);
        assert s[..j + 1] == [s[0]] + s[1..][..j];
        return 0, j + 1;
      }
      PieceShifts(s, sep, i + 1, j + 1);
    }
    i, j := i + 1, j + 1;
  }

  /** The last element of the split is the text behind the last separator. */
  lemma LastPiece(s: string, sep: char) returns (i: int)
    ensures IsPiece(s, sep, i, |s|) && Split(s, sep)[|Split(s, sep)| - 1] == s[i..]
  {
    var j;
    i, j := SplitEndsText(s, sep);
    assert s[i..|s|] == s[i..];
  }

  lemma {:induction false} SplitEndsText(s: string, sep: char) returns (i: int, j: int)
    ensures j == |s| && IsPiece(s, sep, i, j) && Split(s, sep)[|Split(s, sep)| - 1] == s[i..j]
    ensures |Split(s, sep)| == 1 <==> i == 0
    decreases |s|
  {
    if s == "" { return 0, 0; }
    i, j := SplitEndsText(s[1..], sep);
    if s[0] != sep && i == 0 {
      FirstPieceShifts(s, sep, j + 1);
      assert s[..j + 1] == [s[0]] + s[1..][..j];
      return 0, j + 1;
    }
    PieceShifts(s, sep, i + 1, j + 1);
    i, j := i + 1, j + 1;
  }

  /** Trimming leaves what stands between cut characters. */
  lemma TrimIs(s: string, cut: char -> bool, a: int, b: int)
    requires 0 <= a < b <= |s| && !cut(s[a]) && !cut(s[b - 1])
    requires (forall k :: 0 <= k < a ==> cut(s[k])) && (forall k :: b <= k < |s| ==> cut(s[k]))
    ensures Trim(s, cut) == s[a..b]
  {
    var i := TrimMeans(s, cut);
    hide Trim;
    var t := Trim(s, cut);
    assert i <= a < i + |t|;
    assert i == a;
    assert i + |t| == b;
  }

  // ---- Case. ----

  /** A word has the upper-case form exactly if each letter is the given one in either case. */
  lemma {:induction false} ToUpperMeans(word: string, upper: string)
    ensures ToUpper(word) == upper <==>
      |word| == |upper| && forall k :: 0 <= k < |word| ==> UpperChar(word[k]) == upper[k]
    decreases |word|
  {
    if word != "" && upper != "" {
      ToUpperMeans(word[1..], upper[1..]);
      assert upper == [upper[0]] + upper[1..];
      assert forall k :: 0 < k < |word| ==> word[k] == word[1..][k - 1];
      assert forall k :: 0 < k < |upper| ==> upper[k] == upper[1..][k - 1];
    }
  }
}
