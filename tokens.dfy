/** The tokenizer (src/token.rs): a query string becomes a sequence of
  * identifier, parenthesis and reference tokens, each with its span.
  *
  * The combinator expression of the source is modelled as a recursive
  * function over the character sequence and a position. Its four rules are
  * tried in the source's priority order at each token start; inline
  * whitespace may separate tokens and may lead or trail. `Lexeme` and `Tiles`
  * describe the same language declaratively, and `TokenizeIsTiling` proves
  * that the tokenizer returns exactly the tilings they describe. */
module Tokens {
  import opened Wrappers

  /** Half-open range [start, end) of character offsets into the query. */
  datatype Span = Span(start: nat, end: nat)

  datatype Token =
    | Ident(name: string, span: Span)
    | LParen(span: Span)
    | RParen(span: Span)
    | Ref(value: string, span: Span)

  /** The offset of the first character that no rule accepts. */
  datatype LexError = Unexpected(at: nat)

  // Character classes, as Rust's `char::is_ascii_*` define them.

  predicate IsAsciiAlphabetic(c: char) { 'a' <= c <= 'z' || 'A' <= c <= 'Z' }

  predicate IsAsciiAlphanumeric(c: char) { IsAsciiAlphabetic(c) || '0' <= c <= '9' }

  predicate IsAsciiPunctuation(c: char) {
    '!' <= c <= '/' || ':' <= c <= '@' || '[' <= c <= '`' || '{' <= c <= '~'
  }

  /** chumsky's inline whitespace: a space or a tab, never a line break. */
  predicate IsInlineWhitespace(c: char) { c == ' ' || c == '\t' }

  /** A character allowed between double quotes. */
  predicate IsQuotedChar(c: char) {
    (IsAsciiAlphanumeric(c) || IsAsciiPunctuation(c)) && c != '"'
  }

  predicate IsIdentStart(c: char) { IsAsciiAlphabetic(c) || c == '_' }

  predicate IsIdentContinue(c: char) { IsAsciiAlphanumeric(c) || c == '_' }

  /** A character of a path-like reference such as `feature/my-branch`. */
  predicate IsPathChar(c: char) { IsAsciiAlphanumeric(c) || c == '/' || c == '-' || c == '_' }

  predicate IsIdentifier(w: string) {
    |w| > 0 && IsIdentStart(w[0]) && forall k :: 1 <= k < |w| ==> IsIdentContinue(w[k])
  }

  /** The end of the longest run of characters satisfying `p` from `i`:
    * every character before it satisfies `p`, the one at it does not. */
  function Scan(s: string, i: nat, p: char -> bool): (j: nat)
    requires i <= |s|
    ensures i <= j <= |s|
    ensures forall k :: i <= k < j ==> p(s[k])
    ensures j == |s| || !p(s[j])
    decreases |s| - i
  {
    if i == |s| || !p(s[i]) then i else Scan(s, i + 1, p)
  }

  /** Rule 1: `(` and `)` are one-character tokens. */
  function LexParen(s: string, i: nat): (r: Option<(Token, nat)>)
    requires i < |s|
    ensures r.Some? <==> s[i] == '(' || s[i] == ')'
    ensures r.Some? ==> r.value.1 == i + 1 && r.value.0.span == Span(i, i + 1) && Lexeme(s, r.value.0)
  {
    if s[i] == '(' then Some((LParen(Span(i, i + 1)), i + 1))
    else if s[i] == ')' then Some((RParen(Span(i, i + 1)), i + 1))
    else None
  }

  /** Rule 2: a non-empty run of quoted characters between double quotes;
    * the value is the inner text and the span includes the quotes. */
  function LexQuoted(s: string, i: nat): (r: Option<(Token, nat)>)
    requires i < |s|
    ensures r.Some? ==> r.value.0.Ref? && r.value.0.span == Span(i, r.value.1)
    ensures r.Some? ==> QuotedLexeme(s, r.value.0.value, r.value.0.span)
    ensures s[i] != '"' ==> r.None?
  {
    if s[i] != '"' then None
    else
      var j := Scan(s, i + 1, IsQuotedChar);
      if j > i + 1 && j < |s| && s[j] == '"' then Some((Ref(s[i + 1..j], Span(i, j + 1)), j + 1))
      else None
  }

  /** Rule 3: an identifier, kept only when a next character exists and is
    * none of `/`, `-`, `_` (that character is looked at, not consumed). */
  function LexIdent(s: string, i: nat): (r: Option<(Token, nat)>)
    requires i < |s|
    ensures r.Some? ==> r.value.0.Ident? && r.value.0.span == Span(i, r.value.1)
    ensures r.Some? ==>
      && i < r.value.1 < |s| && r.value.0.name == s[i..r.value.1] && IsIdentifier(r.value.0.name)
      && !IsIdentContinue(s[r.value.1]) && s[r.value.1] !in "/-_"
    ensures !IsIdentStart(s[i]) ==> r.None?
  {
    if !IsIdentStart(s[i]) then None
    else
      var j := Scan(s, i + 1, IsIdentContinue);
      if j < |s| && s[j] !in "/-_" then Some((Ident(s[i..j], Span(i, j)), j))
      else None
  }

  /** Rule 4: a non-empty run of path characters. The source separates runs
    * by `/`, but each run already takes `/`, so the whole run is one token. */
  function LexPath(s: string, i: nat): (r: Option<(Token, nat)>)
    requires i < |s|
    ensures r.Some? <==> IsPathChar(s[i])
    ensures r.Some? ==>
      && r.value.0.Ref? && r.value.0.span == Span(i, r.value.1)
      && AllPathChars(s, i, r.value.1) && RightBounded(s, r.value.1)
      && r.value.0.value == s[i..r.value.1]
  {
    var j := Scan(s, i, IsPathChar);
    if j > i then Some((Ref(s[i..j], Span(i, j)), j)) else None
  }

  /** The first of the four rules that accepts the input at `i`. */
  function LexToken(s: string, i: nat): (r: Option<(Token, nat)>)
    requires i < |s|
    ensures r.Some? ==> i < r.value.1 <= |s| && r.value.0.span == Span(i, r.value.1)
  {
    var paren := LexParen(s, i);
    if paren.Some? then paren
    else
      var quoted := LexQuoted(s, i);
      if quoted.Some? then quoted
      else
        var ident := LexIdent(s, i);
        if ident.Some? then ident
        else LexPath(s, i)
  }

  /** Skip inline whitespace; at the end of the input stop, otherwise lex one
    * token and go on. Fails where no rule accepts a character. */
  function TokenizeFrom(s: string, i: nat): (r: Result<seq<Token>, LexError>)
    requires i <= |s|
    ensures r.Failure? ==> i <= r.error.at < |s|
    ensures r.Success? ==> forall k :: 0 <= k < |r.value| ==> i <= r.value[k].span.start < r.value[k].span.end <= |s|
    decreases |s| - i
  {
    var p := Scan(s, i, IsInlineWhitespace);
    if p == |s| then Success([])
    else
      match LexToken(s, p)
      case None => Failure(Unexpected(p))
      case Some((t, q)) =>
        match TokenizeFrom(s, q)
        case Success(ts) => Success([t] + ts)
        case Failure(e) => Failure(e)
  }

  /** The tokenizer followed by `end()`: the whole string must be consumed. */
  function Tokenize(s: string): (r: Result<seq<Token>, LexError>)
    ensures r.Success? ==> Tiles(s, 0, r.value)
    ensures r.Failure? ==> r.error.at < |s| && !IsInlineWhitespace(s[r.error.at]) && LexToken(s, r.error.at).None?
  {
    var r := TokenizeFrom(s, 0);
    if r.Success? then TokenizeFromSound(s, 0); r
    else TokenizeFromFailure(s, 0); r
  }

  // ---------------------------------------------------------------------
  // The lexical language, stated declaratively.

  predicate AllWhitespace(s: string, i: nat, j: nat) {
    i <= j <= |s| && forall k :: i <= k < j ==> IsInlineWhitespace(s[k])
  }

  predicate AllPathChars(s: string, i: nat, j: nat) {
    i <= j <= |s| && forall k :: i <= k < j ==> IsPathChar(s[k])
  }

  /** No path character immediately before `i`: a word starting at `i` is not
    * the tail of a longer run. */
  predicate LeftBounded(s: string, i: nat) {
    i == 0 || (i <= |s| && !IsPathChar(s[i - 1]))
  }

  /** No path character at `j`: a word ending at `j` is not cut short. */
  predicate RightBounded(s: string, j: nat) {
    j == |s| || (j < |s| && !IsPathChar(s[j]))
  }

  /** A quoted literal at `sp` whose inner text is `value`. */
  predicate QuotedLexeme(s: string, value: string, sp: Span) {
    && sp.start + 2 < sp.end <= |s|
    && s[sp.start] == '"' && s[sp.end - 1] == '"'
    && (forall k :: sp.start + 1 <= k < sp.end - 1 ==> IsQuotedChar(s[k]))
    && value == s[sp.start + 1..sp.end - 1]
  }

  /** A maximal run of path characters at `sp` that does not qualify as an
    * identifier token: it is not an identifier, or it ends the input. */
  predicate PathLexeme(s: string, value: string, sp: Span) {
    && sp.start < sp.end <= |s|
    && AllPathChars(s, sp.start, sp.end)
    && LeftBounded(s, sp.start) && RightBounded(s, sp.end)
    && value == s[sp.start..sp.end]
    && (sp.end == |s| || !IsIdentifier(value))
  }

  /** What each token kind is in terms of the characters at its span. */
  predicate Lexeme(s: string, t: Token) {
    var sp := t.span;
    sp.start < sp.end <= |s| &&
    match t
    case LParen(_) => sp.end == sp.start + 1 && s[sp.start] == '('
    case RParen(_) => sp.end == sp.start + 1 && s[sp.start] == ')'
    case Ident(name, _) =>
      && name == s[sp.start..sp.end] && IsIdentifier(name)
      && sp.end < |s| && LeftBounded(s, sp.start) && RightBounded(s, sp.end)
    case Ref(value, _) => QuotedLexeme(s, value, sp) || PathLexeme(s, value, sp)
  }

  /** From `i` on, `s` is inline whitespace and the lexemes `ts` in order. */
  predicate Tiles(s: string, i: nat, ts: seq<Token>)
    decreases |ts|
  {
    if ts == [] then AllWhitespace(s, i, |s|)
    else
      var sp := ts[0].span;
      AllWhitespace(s, i, sp.start) && Lexeme(s, ts[0]) && Tiles(s, sp.end, ts[1..])
  }

  /** Where a token may start: not inside a run of path characters. */
  predicate Boundary(s: string, i: nat) {
    i <= |s| && (LeftBounded(s, i) || RightBounded(s, i))
  }

  // ---------------------------------------------------------------------
  // Lemmas

  /** A run that ends where `p` first fails is the one `Scan` finds. */
  lemma ScanUnique(s: string, i: nat, j: nat, p: char -> bool)
    requires i <= j <= |s|
    requires forall k :: i <= k < j ==> p(s[k])
    requires j == |s| || !p(s[j])
    ensures Scan(s, i, p) == j
  {
    var r := Scan(s, i, p);
    assert r <= j by { if r < |s| { assert !p(s[r]); } }
  }

  /** Whatever rule accepts at a token boundary, the token is a lexeme over
    * exactly the characters consumed, and a boundary follows it. */
  lemma LexTokenSound(s: string, p: nat)
    requires p < |s|
    requires LeftBounded(s, p) || !IsPathChar(s[p])
    requires LexToken(s, p).Some?
    ensures LexToken(s, p).value.0.span == Span(p, LexToken(s, p).value.1)
    ensures Lexeme(s, LexToken(s, p).value.0)
    ensures Boundary(s, LexToken(s, p).value.1)
  {
    if LexParen(s, p).Some? || LexQuoted(s, p).Some? {
    } else if LexIdent(s, p).Some? {
      var j := Scan(s, p + 1, IsIdentContinue);
      var w := s[p..j];
      assert forall k :: 1 <= k < |w| ==> w[k] == s[p + k];
    } else {
      var q := Scan(s, p, IsPathChar);
      var w := s[p..q];
      if IsIdentStart(s[p]) && q < |s| {
        var j := Scan(s, p + 1, IsIdentContinue);
        assert j < |s|;
        assert s[j] in "/-_";
        assert IsPathChar(s[j]) && !IsIdentContinue(s[j]);
        assert w[j - p] == s[j];
      }
    }
  }

  /** A token never starts with whitespace. */
  lemma LexemeStartsSolid(s: string, t: Token)
    requires Lexeme(s, t)
    ensures !IsInlineWhitespace(s[t.span.start])
  {
    if t.Ref? && !QuotedLexeme(s, t.value, t.span) {
      assert IsPathChar(s[t.span.start]);
    }
  }

  /** Every lexeme is what the tokenizer reads at its start. */
  lemma LexemeLexes(s: string, t: Token)
    requires Lexeme(s, t)
    ensures LexToken(s, t.span.start) == Some((t, t.span.end))
  {
    var sp := t.span;
    match t
    case LParen(_) =>
    case RParen(_) =>
    case Ident(name, _) =>
      assert forall k :: sp.start + 1 <= k < sp.end ==> s[k] == name[k - sp.start];
      ScanUnique(s, sp.start + 1, sp.end, IsIdentContinue);
    case Ref(value, _) =>
      if QuotedLexeme(s, value, sp) {
        ScanUnique(s, sp.start + 1, sp.end - 1, IsQuotedChar);
      } else {
        assert IsPathChar(s[sp.start]);
        assert LexParen(s, sp.start).None? && LexQuoted(s, sp.start).None?;
        if IsIdentStart(s[sp.start]) {
          var j := Scan(s, sp.start + 1, IsIdentContinue);
          if j == sp.end {
            assert IsIdentifier(value) by {
              assert forall k :: 1 <= k < |value| ==> value[k] == s[sp.start + k];
            }
            assert LexIdent(s, sp.start).None?;
          } else {
            assert IsPathChar(s[j]) && !IsIdentContinue(s[j]);
            assert LexIdent(s, sp.start).None?;
          }
        }
        ScanUnique(s, sp.start, sp.end, IsPathChar);
      }
  }

  /** Soundness: what the tokenizer returns from a boundary is a tiling. */
  lemma {:induction false} TokenizeFromSound(s: string, i: nat)
    requires Boundary(s, i)
    requires TokenizeFrom(s, i).Success?
    ensures Tiles(s, i, TokenizeFrom(s, i).value)
    decreases |s| - i
  {
    var p := Scan(s, i, IsInlineWhitespace);
    if p < |s| {
      var (t, q) := LexToken(s, p).value;
      assert LeftBounded(s, p) || !IsPathChar(s[p]) by {
        if p > i { assert IsInlineWhitespace(s[p - 1]); }
      }
      LexTokenSound(s, p);
      TokenizeFromSound(s, q);
      var ts := TokenizeFrom(s, i).value;
      assert ts[0] == t && ts[1..] == TokenizeFrom(s, q).value;
    }
  }

  /** Completeness: every tiling is what the tokenizer returns. */
  lemma {:induction false} TilesTokenize(s: string, i: nat, ts: seq<Token>)
    requires Tiles(s, i, ts)
    ensures i <= |s| && TokenizeFrom(s, i) == Success(ts)
    decreases |ts|
  {
    if ts == [] {
      ScanUnique(s, i, |s|, IsInlineWhitespace);
    } else {
      var t := ts[0];
      LexemeStartsSolid(s, t);
      ScanUnique(s, i, t.span.start, IsInlineWhitespace);
      LexemeLexes(s, t);
      TilesTokenize(s, t.span.end, ts[1..]);
      assert [t] + ts[1..] == ts;
    }
  }

  /** The tokenizer succeeds with `ts` exactly when `ts` tiles the whole
    * string; it fails exactly when no tiling exists. */
  lemma TokenizeIsTiling(s: string, ts: seq<Token>)
    ensures Tokenize(s) == Success(ts) <==> Tiles(s, 0, ts)
    ensures Tokenize(s).Failure? ==> !Tiles(s, 0, ts)
  {
    if Tokenize(s) == Success(ts) {
      TokenizeFromSound(s, 0);
    }
    if Tiles(s, 0, ts) {
      TilesTokenize(s, 0, ts);
    }
  }

  /** On failure the reported offset holds a non-blank character that none
    * of the four rules accepts. */
  lemma {:induction false} TokenizeFromFailure(s: string, i: nat)
    requires i <= |s|
    requires TokenizeFrom(s, i).Failure?
    ensures var p := TokenizeFrom(s, i).error.at;
      i <= p < |s| && !IsInlineWhitespace(s[p]) && LexToken(s, p).None?
    decreases |s| - i
  {
    var p := Scan(s, i, IsInlineWhitespace);
    if LexToken(s, p).Some? {
      TokenizeFromFailure(s, LexToken(s, p).value.1);
    }
  }

  /** The tokens of a tiling lie inside the string, each one non-empty, in
    * strictly increasing, non-overlapping order. */
  lemma {:induction false} TilesOrdered(s: string, i: nat, ts: seq<Token>)
    requires Tiles(s, i, ts)
    ensures forall k :: 0 <= k < |ts| ==> i <= ts[k].span.start < ts[k].span.end <= |s|
    ensures forall j, k :: 0 <= j < k < |ts| ==> ts[j].span.end <= ts[k].span.start
    decreases |ts|
  {
    if ts != [] {
      TilesOrdered(s, ts[0].span.end, ts[1..]);
      forall k | 0 <= k < |ts| ensures i <= ts[k].span.start < ts[k].span.end <= |s| {
        if k > 0 { assert ts[k] == ts[1..][k - 1]; }
      }
      forall j, k | 0 <= j < k < |ts| ensures ts[j].span.end <= ts[k].span.start {
        assert ts[k] == ts[1..][k - 1];
        if j > 0 { assert ts[j] == ts[1..][j - 1]; }
      }
    }
  }
}
