/** The library entry points (src/lib.rs): `Parse` chains the tokenizer, the
  * syntax builder and the query builder, tagging a failure with its stage;
  * `ExpandRefs` classifies the query's nodes, calling the provider's
  * `locals()` once per `Locals` node; `QueryIter` yields the results.
  *
  * The provider (the `Git` trait of src/git.rs) is a parameter: a function
  * from the call index k to what the k-th call of `locals()` returns, so any
  * sequence of answers a provider can give is covered. The git subprocess
  * behind the real provider is not part of this model. */
module RefSelect {
  import opened Wrappers
  import Tokens
  import Ast
  import Ir

  // ---------------------------------------------------------------------
  // Query::parse

  datatype QueryStringParseError =
    | TokenizeString(lexError: Tokens.LexError)
    | ParseAstFromTokens(astError: Ast.AstError)
    | ParseQueryFromAst(queryError: Ir.QueryFromAstError)

  /** The three stages in turn, each required to consume all of its input.
    * The source resets a parsing context first; here every stage returns a
    * fresh value, so the result depends on the query string alone. */
  function Parse(query: string): (r: Result<Ir.Query, QueryStringParseError>)
    ensures r.Success? ==>
      && Tokens.Tokenize(query).Success?
      && Ast.ParseAst(Tokens.Tokenize(query).value) == Success(Ast.Ast(Ir.LowerAll(r.value.nodes)))
    ensures r.Failure? && r.error.ParseAstFromTokens? ==>
      && Tokens.Tokenize(query).Success?
      && var ts := Tokens.Tokenize(query).value;
         r.error.astError.at < |ts| && (ts[r.error.astError.at].LParen? || ts[r.error.astError.at].RParen?)
  {
    match Tokens.Tokenize(query)
    case Failure(e) => Failure(TokenizeString(e))
    case Success(tokens) =>
      match Ast.ParseAst(tokens)
      case Failure(e) => Failure(ParseAstFromTokens(e))
      case Success(ast) =>
        match Ir.BuildQuery(ast.nodes)
        case Failure(e) => Failure(ParseQueryFromAst(e))
        case Success(q) => Success(q)
  }

  /** A failure names the first stage that failed, with that stage's own
    * error, and no later stage has run. A tokenizer failure points at a
    * non-blank character where no rule applies: the string has no tiling. */
  lemma ParseFailureStage(query: string)
    requires Parse(query).Failure?
    ensures var e := Parse(query).error;
      && (e.TokenizeString? <==> Tokens.Tokenize(query).Failure?)
      && (e.TokenizeString? ==>
            && e.lexError == Tokens.Tokenize(query).error
            && e.lexError.at < |query|
            && !Tokens.IsInlineWhitespace(query[e.lexError.at])
            && Tokens.LexToken(query, e.lexError.at).None?
            && forall ts :: !Tokens.Tiles(query, 0, ts))
      && (e.ParseAstFromTokens? <==>
            Tokens.Tokenize(query).Success? && Ast.ParseAst(Tokens.Tokenize(query).value).Failure?)
      && (e.ParseQueryFromAst? <==>
            && Tokens.Tokenize(query).Success?
            && Ast.ParseAst(Tokens.Tokenize(query).value).Success?
            && Ir.BuildQuery(Ast.ParseAst(Tokens.Tokenize(query).value).value.nodes)
               == Failure(e.queryError))
  {
    var e := Parse(query).error;
    match Tokens.Tokenize(query)
    case Failure(lexError) =>
      assert e == TokenizeString(lexError);
      forall ts ensures !Tokens.Tiles(query, 0, ts) {
        Tokens.TokenizeIsTiling(query, ts);
      }
    case Success(tokens) =>
      match Ast.ParseAst(tokens)
      case Failure(astError) =>
        assert e == ParseAstFromTokens(astError);
      case Success(ast) =>
        assert e == ParseQueryFromAst(Ir.BuildQuery(ast.nodes).error);
  }

  /** A parsed query string is inline whitespace and lexemes whose words and
    * parentheses are exactly those of the query written back as syntax:
    * each reference a word, each `Locals` the word `locals` and `()`. */
  lemma ParseSound(query: string)
    requires Parse(query).Success?
    ensures Tokens.Tokenize(query).Success?
    ensures Tokens.Tiles(query, 0, Tokens.Tokenize(query).value)
    ensures Ast.Shapes(Tokens.Tokenize(query).value) == Ast.FlattenAll(Ir.LowerAll(Parse(query).value.nodes))
  {
    var ts := Tokens.Tokenize(query).value;
    Tokens.TokenizeIsTiling(query, ts);
    Ast.ParseAstFlattens(ts);
  }

  /** Conversely, a string whose tokens spell the syntax of a query (bare
    * references as identifier or reference tokens, parentheses anywhere)
    * parses into exactly that query. */
  lemma ParseComplete(query: string, qs: seq<Ir.QueryNode>)
    requires Tokens.Tokenize(query).Success?
    requires Ast.Spells(Tokens.Tokenize(query).value, Ir.LowerAll(qs))
    ensures Parse(query) == Success(Ir.Query(qs))
  {
    Ast.RenderParses(Tokens.Tokenize(query).value, Ir.LowerAll(qs));
    Ir.BuildQueryLowered(qs);
  }

  // ---------------------------------------------------------------------
  // Where the query's nodes stand in the string

  /** The words of a shape sequence, in order. */
  function Words(ss: seq<Ast.Shape>): seq<Ast.Shape>
    decreases |ss|
  {
    if ss == [] then [] else (if ss[0].Word? then [ss[0]] else []) + Words(ss[1..])
  }

  /** The word a query node is written as: a reference's value or `locals`. */
  function Head(q: Ir.QueryNode): Ast.Shape {
    match q
    case Ref(value, span) => Ast.Word(value, span)
    case Locals(span) => Ast.Word(Ir.LocalsName, span)
  }

  /** A word stands in the string at its span: its text is the characters
    * there, or those between the quotes of a quoted literal. */
  predicate WordAt(s: string, w: Ast.Shape) {
    && w.Word?
    && w.span.start < w.span.end <= |s|
    && (w.text == s[w.span.start..w.span.end] || Tokens.QuotedLexeme(s, w.text, w.span))
  }

  lemma {:induction false} WordsConcat(a: seq<Ast.Shape>, b: seq<Ast.Shape>)
    ensures Words(a + b) == Words(a) + Words(b)
    decreases |a|
  {
    if a == [] {
      assert a + b == b;
    } else {
      var w := if a[0].Word? then [a[0]] else [];
      assert (a + b)[0] == a[0];
      assert (a + b)[1..] == a[1..] + b;
      assert Words(a + b) == w + Words(a[1..] + b);
      assert Words(a) == w + Words(a[1..]);
      WordsConcat(a[1..], b);
    }
  }

  /** Written back as syntax, a query's words are its nodes' heads. */
  lemma {:induction false} QueryWords(qs: seq<Ir.QueryNode>)
    ensures Words(Ast.FlattenAll(Ir.LowerAll(qs))) == seq(|qs|, k requires 0 <= k < |qs| => Head(qs[k]))
    decreases |qs|
  {
    var ns := Ir.LowerAll(qs);
    if qs != [] {
      assert ns[0] == Ir.Lower(qs[0]) && ns[1..] == Ir.LowerAll(qs[1..]);
      var first := Ast.Flatten(ns[0]);
      WordsConcat(first, Ast.FlattenAll(ns[1..]));
      if qs[0].Locals? {
        assert Ast.FlattenAll(ns[0].args) == [];
        assert first == [Head(qs[0]), Ast.Open, Ast.Close];
        assert first[1..] == [Ast.Open, Ast.Close] && first[1..][1..] == [Ast.Close];
        assert first[1..][1..][1..] == [];
        assert Words(first[1..][1..]) == [];
        assert !first[1..][0].Word?;
        assert Words(first[1..]) == Words(first[1..][1..]);
      } else {
        assert first[1..] == [];
      }
      assert Words(first) == [Head(qs[0])];
      QueryWords(qs[1..]);
    }
  }

  /** The words of a tiling stand in the string at their spans, from `i` on,
    * left to right and without overlapping. */
  lemma {:induction false} TilesWords(s: string, i: nat, ts: seq<Tokens.Token>)
    requires Tokens.Tiles(s, i, ts)
    ensures var ws := Words(Ast.Shapes(ts));
      && (forall k :: 0 <= k < |ws| ==> WordAt(s, ws[k]) && i <= ws[k].span.start)
      && (forall j, k :: 0 <= j < k < |ws| ==> ws[j].span.end <= ws[k].span.start)
    decreases |ts|
  {
    if ts != [] {
      var t := ts[0];
      var rest := Ast.Shapes(ts[1..]);
      assert Ast.Shapes(ts) == [Ast.ShapeOf(t)] + rest;
      assert ([Ast.ShapeOf(t)] + rest)[1..] == rest;
      TilesWords(s, t.span.end, ts[1..]);
      var ws := Words(Ast.Shapes(ts));
      if Ast.ShapeOf(t).Word? {
        assert ws == [Ast.ShapeOf(t)] + Words(rest);
        assert WordAt(s, Ast.ShapeOf(t));
        forall k | 1 <= k < |ws| ensures ws[k] == Words(rest)[k - 1] { }
      } else {
        assert ws == Words(rest);
      }
    }
  }

  /** The nodes of a parsed query stand in the string in order: each node's
    * span lies inside the string and holds its reference's value (between
    * quotes for a quoted literal) or the word `locals`, and the spans of
    * successive nodes do not overlap. */
  lemma ParseOrdered(query: string)
    requires Parse(query).Success?
    ensures var qs := Parse(query).value.nodes;
      && (forall k :: 0 <= k < |qs| ==> WordAt(query, Head(qs[k])))
      && (forall j, k :: 0 <= j < k < |qs| ==> qs[j].span.end <= qs[k].span.start)
  {
    var qs := Parse(query).value.nodes;
    var ts := Tokens.Tokenize(query).value;
    ParseSound(query);
    TilesWords(query, 0, ts);
    QueryWords(qs);
    var ws := Words(Ast.Shapes(ts));
    assert forall k :: 0 <= k < |qs| ==> ws[k] == Head(qs[k]);
  }

  // ---------------------------------------------------------------------
  // Query::expand_refs

  /** What a call of the provider's `locals()` returns: every listed
    * reference, each one a name or an item error, or an initialisation
    * error. */
  type LocalsResult<E, I> = Result<seq<Result<string, E>>, I>

  /** The state `expand_refs` hands to the iterator: the literal references,
    * and the provider's results in call order. */
  datatype Expansion<E> = Expansion(refs: seq<Result<string, E>>, queries: seq<seq<Result<string, E>>>)

  /** The values of the `Ref` nodes, in query order. */
  function RefValues(nodes: seq<Ir.QueryNode>): seq<string>
    decreases |nodes|
  {
    if nodes == [] then []
    else
      var last := nodes[|nodes| - 1];
      RefValues(nodes[..|nodes| - 1]) + (if last.Ref? then [last.value] else [])
  }

  /** The number of `Locals` nodes. */
  function LocalsCount(nodes: seq<Ir.QueryNode>): nat
    decreases |nodes|
  {
    if nodes == [] then 0
    else LocalsCount(nodes[..|nodes| - 1]) + (if nodes[|nodes| - 1].Locals? then 1 else 0)
  }

  function Oks<E>(values: seq<string>): seq<Result<string, E>> {
    seq(|values|, k requires 0 <= k < |values| => Success(values[k]))
  }

  function Concat<T>(xss: seq<seq<T>>): seq<T>
    decreases |xss|
  {
    if xss == [] then [] else xss[0] + Concat(xss[1..])
  }

  function TotalLength<T>(xss: seq<seq<T>>): nat
    decreases |xss|
  {
    if xss == [] then 0 else |xss[0]| + TotalLength(xss[1..])
  }

  /** Everything an iterator started from `e` yields, in order. */
  function Yield<E>(e: Expansion<E>): seq<Result<string, E>> {
    e.refs + Concat(e.queries)
  }

  lemma {:induction false} LocalsCountPrefix(nodes: seq<Ir.QueryNode>, j: nat)
    requires j <= |nodes|
    ensures LocalsCount(nodes[..j]) <= LocalsCount(nodes)
    decreases |nodes|
  {
    if j < |nodes| {
      assert nodes[..|nodes| - 1][..j] == nodes[..j];
      LocalsCountPrefix(nodes[..|nodes| - 1], j);
    } else {
      assert nodes[..j] == nodes;
    }
  }

  /** One pass over the nodes: a `Ref` is kept as a literal result, a
    * `Locals` calls the provider, and the first initialisation error is
    * returned at once. `calls` is how many times `locals()` was called.
    * The provider is called once per `Locals` node, in node order, up to and
    * including the first one that fails; the expansion succeeds exactly when
    * every call succeeds, and then holds every `Ref` value in query order and
    * every provider result unchanged, in call order. */
  method ExpandRefs<E, I>(query: Ir.Query, locals: nat -> LocalsResult<E, I>)
    returns (r: Result<Expansion<E>, I>, calls: nat)
    ensures calls <= LocalsCount(query.nodes)
    ensures r.Success? <==> forall k :: 0 <= k < LocalsCount(query.nodes) ==> locals(k).Success?
    ensures r.Success? ==>
      && calls == LocalsCount(query.nodes)
      && r.value.refs == Oks(RefValues(query.nodes))
      && |r.value.queries| == calls
      && forall k :: 0 <= k < calls ==> locals(k) == Success(r.value.queries[k])
    ensures r.Failure? ==>
      && 0 < calls
      && locals(calls - 1) == Failure(r.error)
      && forall k :: 0 <= k < calls - 1 ==> locals(k).Success?
  {
    var nodes := query.nodes;
    var refs: seq<Result<string, E>> := [];
    var queries: seq<seq<Result<string, E>>> := [];
    calls := 0;
    var i := 0;
    while i < |nodes|
      invariant 0 <= i <= |nodes|
      invariant refs == Oks(RefValues(nodes[..i]))
      invariant calls == LocalsCount(nodes[..i]) && |queries| == calls
      invariant forall k :: 0 <= k < calls ==> locals(k) == Success(queries[k])
      decreases |nodes| - i
    {
      assert nodes[..i + 1][..i] == nodes[..i];
      if nodes[i].Ref? {
        refs := refs + [Success(nodes[i].value)];
      } else {
        var result := locals(calls);
        calls := calls + 1;
        if result.Failure? {
          LocalsCountPrefix(nodes, i + 1);
          r := Failure(result.error);
          return;
        }
        queries := queries + [result.value];
      }
      i := i + 1;
    }
    assert nodes[..i] == nodes;
    r := Success(Expansion(refs, queries));
  }

  /** The number of items yielded is the number of literal references plus
    * the lengths of all provider results. */
  lemma {:induction false} ConcatLength<T>(xss: seq<seq<T>>)
    ensures |Concat(xss)| == TotalLength(xss)
    decreases |xss|
  {
    if xss != [] {
      ConcatLength(xss[1..]);
    }
  }

  // ---------------------------------------------------------------------
  // GitQueryIter

  /** The iterator `expand_refs` returns: a buffer of results still to yield,
    * then the provider results not yet moved into the buffer. `Next` never
    * calls the provider: it only has what `ExpandRefs` already obtained. */
  class QueryIter<E> {
    var refs: seq<Result<string, E>>
    var queries: seq<seq<Result<string, E>>>

    /** The items still to come, in the order `Next` yields them. */
    function Remaining(): seq<Result<string, E>>
      reads this
    {
      refs + Concat(queries)
    }

    constructor (expansion: Expansion<E>)
      ensures refs == expansion.refs && queries == expansion.queries
      ensures Remaining() == Yield(expansion)
    {
      refs := expansion.refs;
      queries := expansion.queries;
    }

    /** Drain the buffer; when it is empty, move the next provider result
    * into it and try again; with nothing left, return `None`. Each call
    * yields the first remaining item, and `None` exactly when nothing
    * remains, after which every further call returns `None` again. */
    method Next() returns (item: Option<Result<string, E>>)
      modifies this
      ensures item.None? <==> old(Remaining()) == []
      ensures item.Some? ==> item.value == old(Remaining())[0] && Remaining() == old(Remaining())[1..]
      ensures item.None? ==> Remaining() == []
    {
      while refs == [] && queries != []
        invariant Remaining() == old(Remaining())
        decreases |queries|
      {
        assert Concat(queries) == queries[0] + Concat(queries[1..]);
        refs := queries[0];
        queries := queries[1..];
      }
      if refs != [] {
        item := Some(refs[0]);
        refs := refs[1..];
      } else {
        item := None;
      }
    }
  }

  /** Pulls items with `Next` until it returns `None`: the items come out as
    * `Remaining` listed them, and the iterator is left empty. */
  method Collect<E>(it: QueryIter<E>) returns (items: seq<Result<string, E>>)
    modifies it
    ensures items == old(it.Remaining()) && it.Remaining() == []
  {
    items := [];
    while true
      invariant old(it.Remaining()) == items + it.Remaining()
      decreases |it.Remaining()|
    {
      var next := it.Next();
      if next.None? {
        return;
      }
      items := items + [next.value];
    }
  }

  /** The results of the first `n` calls of `locals()`: each call's items,
    * or nothing for a call that failed. */
  function ProviderItems<E, I>(locals: nat -> LocalsResult<E, I>, n: nat): seq<seq<Result<string, E>>> {
    seq(n, k requires 0 <= k < n => if locals(k).Success? then locals(k).value else [])
  }

  /** `expand_refs`, then the returned iterator drained. On success the
    * items are every literal reference in query order, then every item of
    * every `locals()` call in call order, and their number is the sum of
    * the two. On failure nothing is yielded and the error is the first
    * failing call's. */
  method Select<E, I>(query: Ir.Query, locals: nat -> LocalsResult<E, I>)
    returns (r: Result<seq<Result<string, E>>, I>, calls: nat)
    ensures calls <= LocalsCount(query.nodes)
    ensures r.Success? <==> forall k :: 0 <= k < LocalsCount(query.nodes) ==> locals(k).Success?
    ensures r.Success? ==>
      && calls == LocalsCount(query.nodes)
      && r.value == Oks(RefValues(query.nodes)) + Concat(ProviderItems(locals, calls))
      && |r.value| == |RefValues(query.nodes)| + TotalLength(ProviderItems(locals, calls))
    ensures r.Failure? ==>
      && 0 < calls
      && locals(calls - 1) == Failure(r.error)
      && forall k :: 0 <= k < calls - 1 ==> locals(k).Success?
  {
    var expansion;
    expansion, calls := ExpandRefs(query, locals);
    if expansion.Failure? {
      r := Failure(expansion.error);
      return;
    }
    assert expansion.value.queries == ProviderItems(locals, calls);
    var it := new QueryIter(expansion.value);
    var items := Collect(it);
    ConcatLength(ProviderItems(locals, calls));
    r := Success(items);
  }
}
