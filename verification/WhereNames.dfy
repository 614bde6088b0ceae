/** Which column an identifier of a WHERE clause stands for. */
module WhereNames {
  import opened Text
  import opened WhereParser

  /** A column name without white space, dots, quotes, backslashes or brackets. */
  predicate IsPlainName(c: string) {
    c != "" && forall k :: 0 <= k < |c| ==> !IsSpace(c[k]) && c[k] !in ".\\\"`'[]"
  }

  /** The name bare, between quotes of either kind, or in brackets. */
  predicate IsQuotedName(text: string, c: string) {
    text == c || text == "\"" + c + "\"" || text == "`" + c + "`" || text == "[" + c + "]"
  }

  lemma QuotedNameTrims(text: string, c: string)
    requires IsPlainName(c) && IsQuotedName(text, c)
    ensures TrimSpace(text) == text && '.' !in text && text != "" && !IsSpace(text[|text| - 1])
    ensures var bare := Trim(text, c => c == '\\' || c == '\"' || c == '`' || c == '\'');
      bare == c || bare == "[" + c + "]"
  {
    hide Trim;
    var mark := (c: char) => c == '\\' || c == '\"' || c == '`' || c == '\'';
    TrimKeeps(text, IsSpace);
    if text == c {
      TrimKeeps(text, mark);
    } else if text[0] == '[' {
      TrimKeeps(text, mark);
    } else {
      TrimIs(text, mark, 1, |c| + 1);
      assert text[1..|c| + 1] == c;
    }
  }

  lemma BracketsGo(bare: string, c: string)
    requires IsPlainName(c) && (bare == c || bare == "[" + c + "]")
    ensures (if bare != "" && bare[0] == '[' && bare[|bare| - 1] == ']' then Unbracket(bare) else bare) == c
  {
    if bare != c {
      assert bare[|bare| - 1] == ']' && bare[..|bare| - 1] == "[" + c;
      assert ("[" + c)[1..] == c;
    }
  }

  /** Behind the last dot. */
  lemma LastPart(s: string, text: string)
    requires '.' !in text && |text| <= |s| && s[|s| - |text|..] == text
    requires |text| < |s| ==> s[|s| - |text| - 1] == '.'
    ensures var parts := Split(s, '.'); parts[|parts| - 1] == text
  {
    hide Split;
    var i := LastPiece(s, '.');
    assert forall k :: |s| - |text| <= k < |s| ==> s[k] == text[k - (|s| - |text|)];
    assert i == |s| - |text|;
  }

  lemma NormalizedIs(name: string, text: string, c: string)
    requires IsPlainName(c) && IsQuotedName(text, c) && TrimSpace(name) != ""
    requires var parts := Split(TrimSpace(name), '.'); parts[|parts| - 1] == text
    ensures NormalizeIdentifier(name) == c
  {
    hide TrimSpace, Split, IsQuotedName, IsPlainName, Unbracket;
    QuotedNameTrims(text, c);
    BracketsGo(Trim(text, c => c == '\\' || c == '\"' || c == '`' || c == '\''), c);
  }

  lemma QualifiedTrims(prefix: string, text: string) returns (i: nat)
    requires text != "" && !IsSpace(text[|text| - 1])
    ensures i <= |prefix| && TrimSpace(prefix + "." + text) == (prefix + "." + text)[i..]
  {
    hide Trim;
    var s := prefix + "." + text;
    i := TrimMeans(s, IsSpace);
    assert s[|prefix|] == '.' && !IsSpace('.');
    assert s[|s| - 1] == text[|text| - 1];
    var t := Trim(s, IsSpace);
    assert i + |t| == |s|;
  }

  /** A plain name stands for that column, quoted or not, behind any qualification or none. */
  lemma NameStandsForColumn(prefix: string, text: string, c: string)
    requires IsPlainName(c) && IsQuotedName(text, c)
    ensures NormalizeIdentifier(text) == c && NormalizeIdentifier(prefix + "." + text) == c
  {
    hide NormalizeIdentifier, TrimSpace, Split, IsQuotedName, IsPlainName;
    QuotedNameTrims(text, c);
    LastPart(text, text);
    NormalizedIs(text, text, c);
    var s := prefix + "." + text;
    var i := QualifiedTrims(prefix, text);
    var whole := s[i..];
    assert whole[|whole| - |text|..] == text && whole[|whole| - |text| - 1] == '.';
    LastPart(whole, text);
    NormalizedIs(s, text, c);
  }
}
