/** Tokens of a WHERE clause and the tokenizer. */
module WhereLexer {
  import opened Values
  import opened Text

  datatype Operator = Eq | Ne | NeAngle | Lt | Gt | Le | Ge | Like | In | NotLike | NotIn

  datatype Token =
    | Ident(name: string)
    | Op(op: Operator)
    | Hole
    | Lit(value: Value)
    | And
    | Or
    | Not
    | LParen
    | RParen
    | Comma
    | EOF

  /** `strconv.ParseFloat`. Nothing about it is fixed except that it rejects words
      holding an identifier quote or bracket, a vertical tab or a form feed. */
  type FloatReader = f: string -> Option<real> |
      forall w: string :: '\"' in w || '`' in w || '[' in w || ']' in w || '\U{0B}' in w || '\U{0C}' in w ==>
        f(w) == None
    witness (w => None)

  const ParseFloat: FloatReader

  const MIN_INT64 := -0x8000_0000_0000_0000
  const MAX_INT64 := 0x7FFF_FFFF_FFFF_FFFF

  predicate AllDigits(s: string) {
    forall k :: 0 <= k < |s| ==> '0' <= s[k] <= '9'
  }

  function DigitsValue(s: string): nat
    requires AllDigits(s)
  {
    if s == "" then 0 else 10 * DigitsValue(s[..|s| - 1]) + ((s[|s| - 1] as int) - ('0' as int))
  }

  function DigitChar(d: nat): char
    requires d < 10
  {
    ('0' as int + d) as char
  }

  /** Decimal digits, without a sign. */
  function Itoa(n: nat): string { if n < 10 then [DigitChar(n)] else Itoa(n / 10) + [DigitChar(n % 10)] }

  lemma {:induction false} ItoaReads(n: nat)
    ensures Itoa(n) != "" && AllDigits(Itoa(n)) && DigitsValue(Itoa(n)) == n
  {
    if n >= 10 {
      ItoaReads(n / 10);
      assert Itoa(n)[..|Itoa(n)| - 1] == Itoa(n / 10);
    } else {
      assert Itoa(n)[..0] == "";
    }
  }

  /** `strconv.ParseInt(word, 10, 64)`. */
  function ParseInt(word: string): Option<int> {
    var signed := word != "" && (word[0] == '+' || word[0] == '-');
    var digits := if signed then word[1..] else word;
    if digits == "" || !AllDigits(digits) then None
    else
      var n: int := DigitsValue(digits);
      var n := if signed && word[0] == '-' then -n else n;
      if MIN_INT64 <= n <= MAX_INT64 then Some(n) else None
  }

  function ClassifyWord(word: string): Token {
    var upper := ToUpper(word);
    if upper == "AND" then And
    else if upper == "OR" then Or
    else if upper == "NOT" then Not
    else if upper == "LIKE" then Op(Like)
    else if upper == "IN" then Op(In)
    else if upper == "TRUE" then Lit(Bool(true))
    else if upper == "FALSE" then Lit(Bool(false))
    else if upper == "NULL" then Lit(Nil)
    else if ParseInt(word).Some? then Lit(Int(ParseInt(word).value))
    else if ParseFloat(word).Some? then Lit(Float(ParseFloat(word).value))
    else Ident(word)
  }

  predicate IsSymbol(c: char) { c == '=' || c == '<' || c == '>' || c == '!' }

  /** What ends an unquoted word. */
  predicate EndsWord(c: char) {
    IsBlank(c) || c == '(' || c == ')' || c == ',' || c == '?' || IsSymbol(c)
  }

  /** One turn of the tokenizer: skip or emit over `n` characters, or give up. */
  datatype LexStep = Skip(n: nat) | Emit(token: Token, n: nat) | Bad

  function SymbolStep(s: string): (r: LexStep)
    requires s != "" && IsSymbol(s[0])
    ensures !r.Bad? ==> r.Emit? && 1 <= r.n <= |s|
  {
    if |s| > 1 && s[0] == '>' && s[1] == '=' then Emit(Op(Ge), 2)
    else if |s| > 1 && s[0] == '<' && s[1] == '=' then Emit(Op(Le), 2)
    else if |s| > 1 && s[0] == '!' && s[1] == '=' then Emit(Op(Ne), 2)
    else if |s| > 1 && s[0] == '<' && s[1] == '>' then Emit(Op(NeAngle), 2)
    else if s[0] == '=' then Emit(Op(Eq), 1)
    else if s[0] == '>' then Emit(Op(Gt), 1)
    else if s[0] == '<' then Emit(Op(Lt), 1)
    else Bad
  }

  /** The text of a string literal and the characters it takes, after the opening quote. */
  function StringTail(s: string): (r: Option<(string, nat)>)
    ensures r.Some? ==> 1 <= r.value.1 <= |s|
  {
    if s == "" then None
    else if s[0] != '\'' then
      var rest := StringTail(s[1..]);
      if rest.None? then None else Some(([s[0]] + rest.value.0, rest.value.1 + 1))
    else if |s| > 1 && s[1] == '\'' then
      var rest := StringTail(s[2..]);
      if rest.None? then None else Some(("'" + rest.value.0, rest.value.1 + 2))
    else Some(("", 1))
  }

  function Closer(open: char): char { if open == '[' then ']' else open }

  predicate IsQuote(c: char) { c == '`' || c == '\"' || c == '[' }

  function QuotedStep(s: string): (r: LexStep)
    requires s != "" && IsQuote(s[0])
    ensures !r.Bad? ==> r.Emit? && 1 <= r.n <= |s|
  {
    var n := RunLength(s[1..], c => c == Closer(s[0]));
    if n + 1 >= |s| then Bad else Emit(ClassifyWord(s[..n + 2]), n + 2)
  }

  function Step(s: string): (r: LexStep)
    requires s != ""
    ensures !r.Bad? ==> 1 <= r.n <= |s|
  {
    var c := s[0];
    if IsBlank(c) then Skip(1)
    else if c == '(' then Emit(LParen, 1)
    else if c == ')' then Emit(RParen, 1)
    else if c == ',' then Emit(Comma, 1)
    else if c == '?' then Emit(Hole, 1)
    else if IsSymbol(c) then SymbolStep(s)
    else if c == '\'' then
      var lit := StringTail(s[1..]);
      if lit.None? then Bad else Emit(Lit(Str(lit.value.0)), lit.value.1 + 1)
    else if IsQuote(c) then QuotedStep(s)
    else
      var n := RunLength(s, EndsWord);
      Emit(ClassifyWord(s[..n]), n)
  }

  function Prepend(ts: seq<Token>, rest: Option<seq<Token>>): Option<seq<Token>> {
    if rest.None? then None else Some(ts + rest.value)
  }

  /** The tokens of `s`, without the final EOF. */
  function Lex(s: string): Option<seq<Token>>
    decreases |s|
  {
    if s == "" then Some([])
    else match Step(s)
      case Bad => None
      case Skip(n) => Lex(s[n..])
      case Emit(t, n) => Prepend([t], Lex(s[n..]))
  }

  function Tokenize(s: string): Option<seq<Token>> {
    if Lex(s).None? then None else Some(Lex(s).value + [EOF])
  }

  method ScanQuotedIdentifier(s: string, i: nat) returns (r: Option<nat>)
    requires i < |s| && IsQuote(s[i])
    ensures r.None? <==> QuotedStep(s[i..]).Bad?
    ensures r.Some? ==> i < r.value <= |s| && QuotedStep(s[i..]) == Emit(ClassifyWord(s[i..r.value]), r.value - i)
  {
    hide ClassifyWord;
    var close := Closer(s[i]);
    var j := i + 1;
    ghost var stop := (c: char) => c == Closer(s[i..][0]);
    while j < |s| && s[j] != close
      invariant i < j <= |s|
      invariant RunLength(s[i + 1..], stop) == j - i - 1 + RunLength(s[j..], stop)
    {
      assert s[j..][1..] == s[j + 1..];
      j := j + 1;
    }
    assert s[i..][1..] == s[i + 1..];
    if j >= |s| { return None; }
    assert s[i..][..j + 1 - i] == s[i..j + 1];
    return Some(j + 1);
  }

  /** `rest` with `n` more characters read in front of it, which contribute `text`. */
  function After(text: string, n: nat, rest: Option<(string, nat)>): Option<(string, nat)> {
    if rest.None? then None else Some((text + rest.value.0, n + rest.value.1))
  }

  lemma StringTailUnfolds(s: string, j: nat)
    requires j < |s|
    ensures s[j] != '\'' ==> StringTail(s[j..]) == After([s[j]], 1, StringTail(s[j + 1..]))
    ensures s[j] == '\'' && j + 1 < |s| && s[j + 1] == '\'' ==>
      StringTail(s[j..]) == After("'", 2, StringTail(s[j + 2..]))
    ensures s[j] == '\'' && (j + 1 == |s| || s[j + 1] != '\'') ==> StringTail(s[j..]) == Some(("", 1))
  {
    assert s[j..][1..] == s[j + 1..];
    if j + 1 < |s| { assert s[j..][2..] == s[j + 2..]; }
  }

  lemma AfterTwice(text: string, n: nat, more: string, m: nat, rest: Option<(string, nat)>)
    ensures After(text, n, After(more, m, rest)) == After(text + more, n + m, rest)
    ensures After("", 0, rest) == rest
  {
    if rest.Some? {
      assert text + (more + rest.value.0) == text + more + rest.value.0;
      assert "" + rest.value.0 == rest.value.0;
    }
  }

  method ScanStringLiteral(s: string, i: nat) returns (r: Option<(string, nat)>)
    requires i < |s| && s[i] == '\''
    ensures r == StringTail(s[i + 1..])
  {
    hide StringTail;
    var text := "";
    var j := i + 1;
    AfterTwice("", 0, "", 0, StringTail(s[j..]));
    while j < |s|
      invariant i < j <= |s|
      invariant StringTail(s[i + 1..]) == After(text, j - i - 1, StringTail(s[j..]))
    {
      StringTailUnfolds(s, j);
      if s[j] != '\'' {
        AfterTwice(text, j - i - 1, [s[j]], 1, StringTail(s[j + 1..]));
        text := text + [s[j]];
        j := j + 1;
      } else if j + 1 < |s| && s[j + 1] == '\'' {
        AfterTwice(text, j - i - 1, "'", 2, StringTail(s[j + 2..]));
        text := text + "'";
        j := j + 2;
      } else {
        assert text + "" == text;
        return Some((text, j - i));
      }
    }
    assert StringTail(s[j..]) == None by { StringTailOfEmpty(s[j..]); }
    r := None;
  }

  lemma StringTailOfEmpty(s: string)
    requires s == ""
    ensures StringTail(s) == None
  {
  }

  method ScanWord(s: string, i: nat) returns (j: nat)
    requires i <= |s|
    ensures j == i + RunLength(s[i..], EndsWord) <= |s|
  {
    j := i;
    while j < |s| && !EndsWord(s[j])
      invariant i <= j <= |s|
      invariant RunLength(s[i..], EndsWord) == j - i + RunLength(s[j..], EndsWord)
    {
      assert s[j..][1..] == s[j + 1..];
      j := j + 1;
    }
  }

  /** The tokenizer loop: terminates on every input and yields exactly `Lex` and a final EOF. */
  method TokenizeWhere(s: string) returns (r: Option<seq<Token>>)
    ensures r == Tokenize(s)
  {
    hide ClassifyWord, SymbolStep, QuotedStep, StringTail, RunLength;
    var tokens: seq<Token> := [];
    var i := 0;
    assert s[0..] == s;
    assert Lex(s).Some? ==> [] + Lex(s).value == Lex(s).value;
    while i < |s|
      invariant i <= |s|
      invariant Lex(s) == Prepend(tokens, Lex(s[i..]))
    {
      var c := s[i];
      ghost var here := s[i..];
      if IsBlank(c) {
        assert Step(here) == Skip(1) && here[1..] == s[i + 1..];
        i := i + 1;
        continue;
      }
      var token, next := EOF, i + 1;
      if c == '(' { token := LParen; }
      else if c == ')' { token := RParen; }
      else if c == ',' { token := Comma; }
      else if c == '?' { token := Hole; }
      else if IsSymbol(c) {
        var step := SymbolStep(s[i..]);
        if step.Bad? { return None; }
        token, next := step.token, i + step.n;
      } else if c == '\'' {
        var lit := ScanStringLiteral(s, i);
        assert here[1..] == s[i + 1..];
        if lit.None? { return None; }
        token, next := Lit(Str(lit.value.0)), i + 1 + lit.value.1;
      } else if IsQuote(c) {
        var end := ScanQuotedIdentifier(s, i);
        if end.None? { return None; }
        token, next := ClassifyWord(s[i..end.value]), end.value;
      } else {
        next := ScanWord(s, i);
        assert here[..next - i] == s[i..next];
        token := ClassifyWord(s[i..next]);
      }
      EmitAdvances(s, i, token, next, tokens);
      tokens := tokens + [token];
      i := next;
    }
    assert s[i..] == "" && tokens + [] == tokens;
    r := Some(tokens + [EOF]);
  }

  lemma LexUnfolds(s: string)
    requires s != ""
    ensures Step(s).Emit? ==> Lex(s) == Prepend([Step(s).token], Lex(s[Step(s).n..]))
    ensures Step(s).Skip? ==> Lex(s) == Lex(s[Step(s).n..])
    ensures Step(s).Bad? ==> Lex(s) == None
  {
  }

  lemma EmitAdvances(s: string, i: nat, token: Token, next: nat, tokens: seq<Token>)
    requires i < next <= |s| && Step(s[i..]) == Emit(token, next - i)
    requires Lex(s) == Prepend(tokens, Lex(s[i..]))
    ensures Lex(s) == Prepend(tokens + [token], Lex(s[next..]))
  {
    hide *;
    LexUnfolds(s[i..]);
    PrependTwice(tokens, token, Lex(s[next..]));
    assert s[i..][next - i..] == s[next..];
  }

  lemma PrependTwice(tokens: seq<Token>, token: Token, rest: Option<seq<Token>>)
    ensures Prepend(tokens, Prepend([token], rest)) == Prepend(tokens + [token], rest)
  {
    if rest.Some? {
      assert tokens + ([token] + rest.value) == tokens + [token] + rest.value;
    }
  }
}
