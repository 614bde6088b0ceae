/** What an ORDER BY text names, stated on the text itself: comma-separated parts, each a column and perhaps a
    direction. */
module OrderClause {
  import opened Text

  predicate Spaces(s: string) { forall k :: 0 <= k < |s| ==> IsSpace(s[k]) }

  predicate NoSpaces(s: string) { forall k :: 0 <= k < |s| ==> !IsSpace(s[k]) }

  /** `part[a..b]` is the first word of the part. */
  predicate IsFirstWord(part: string, a: int, b: int) {
    && 0 <= a < b <= |part| && Spaces(part[..a]) && NoSpaces(part[a..b]) && (b == |part| || IsSpace(part[b]))
  }

  predicate IsNameQuote(c: char) { c == '\"' || c == '`' }

  /** The last dot-separated piece of the word starts at `i`, and is `word[a..b]` without its quotes. */
  predicate IsName(word: string, i: int, a: int, b: int) {
    && 0 <= i <= a < b <= |word|
    && (forall k :: 0 <= k < |word| ==> word[k] !in "()+-*/")
    && (i == 0 || word[i - 1] == '.') && (forall k :: i <= k < |word| ==> word[k] != '.')
    && (forall k :: i <= k < a ==> IsNameQuote(word[k])) && (forall k :: b <= k < |word| ==> IsNameQuote(word[k]))
    && !IsNameQuote(word[a]) && !IsNameQuote(word[b - 1])
    && WithoutBrackets(word[a..b]) != ""
  }

  function WithoutBrackets(s: string): string {
    if |s| >= 2 && s[0] == '[' && s[|s| - 1] == ']' then s[1..|s| - 1] else s
  }

  /** The word stands for the column. */
  predicate Names(word: string, c: string) {
    exists i, a, b :: 0 <= i <= a < b <= |word| && IsName(word, i, a, b) && WithoutBrackets(word[a..b]) == c
  }

  predicate NamesSomething(word: string) {
    exists i, a, b :: 0 <= i <= a < b <= |word| && IsName(word, i, a, b)
  }

  /** ASC or DESC, in any mixture of cases. */
  predicate IsDirection(d: string) {
    || (|d| == 3 && d[0] in "Aa" && d[1] in "Ss" && d[2] in "Cc")
    || (|d| == 4 && d[0] in "Dd" && d[1] in "Ee" && d[2] in "Ss" && d[3] in "Cc")
  }

  predicate PartNames(part: string, c: string) {
    exists a, b :: 0 <= a < b <= |part| && IsFirstWord(part, a, b) && Names(part[a..b], c)
  }

  /** Behind the name there is nothing, or a direction. */
  predicate IsDirected(rest: string) {
    Spaces(rest) ||
    exists u, v :: 0 <= u < v <= |rest| && IsFirstWord(rest, u, v) && IsDirection(rest[u..v]) && Spaces(rest[v..])
  }

  predicate IsClear(part: string) {
    exists a, b :: 0 <= a < b <= |part| && IsFirstWord(part, a, b) && NamesSomething(part[a..b]) &&
      IsDirected(part[b..])
  }

  /** Some part of the clause sorts on the column. */
  predicate Sorts(order: string, c: string) {
    exists i, j :: 0 <= i <= j <= |order| && IsPiece(order, ',', i, j) && PartNames(order[i..j], c)
  }

  /** Some part of a clause that is not empty is of another form. */
  predicate IsUnclear(order: string) {
    !Spaces(order) && exists i, j :: 0 <= i <= j <= |order| && IsPiece(order, ',', i, j) && !IsClear(order[i..j])
  }
}
