/** The syntax builder (src/ast.rs): the recursive grammar
  *   node := IDENT '(' node* ')' | IDENT | REF
  * over the token stream, with `node*` up to the end of the stream at the
  * top level.
  *
  * `ParseNode` and `ParseNodes` are the two mutually recursive rules. Each
  * takes a position and returns the node(s) read and the position after
  * them. Like the source's `choice`, a call that does not complete falls
  * back to reading its identifier as a bare reference. */
module Ast {
  import opened Wrappers
  import Tokens

  /** A bare reference, or a call whose span is that of its identifier (the
    * source's `Call` carries the identifier and no span of its own). */
  datatype AstNode =
    | Ref(value: string, span: Tokens.Span)
    | Call(name: string, span: Tokens.Span, args: seq<AstNode>)

  datatype Ast = Ast(nodes: seq<AstNode>)

  /** The index of the first token the top-level `node*` could not read. */
  datatype AstError = UnexpectedToken(at: nat)

  /** One node at `i`: a complete call if there is one, otherwise a bare
    * identifier or a literal reference; nothing at `(`, `)` or the end. */
  function ParseNode(ts: seq<Tokens.Token>, i: nat): (r: Option<(AstNode, nat)>)
    requires i <= |ts|
    ensures r.Some? ==> i < r.value.1 <= |ts|
    decreases |ts| - i, 0
  {
    if i == |ts| then None
    else
      match ts[i]
      case Ident(name, span) =>
        if i + 1 < |ts| && ts[i + 1].LParen? then
          var (args, j) := ParseNodes(ts, i + 2);
          if j < |ts| && ts[j].RParen? then Some((Call(name, span, args), j + 1))
          else Some((AstNode.Ref(name, span), i + 1))
        else Some((AstNode.Ref(name, span), i + 1))
      case Ref(value, span) => Some((AstNode.Ref(value, span), i + 1))
      case LParen(_) => None
      case RParen(_) => None
  }

  /** `node*`: the nodes read one after another from `i`, and where the
    * first one that cannot be read starts. */
  function ParseNodes(ts: seq<Tokens.Token>, i: nat): (r: (seq<AstNode>, nat))
    requires i <= |ts|
    ensures i <= r.1 <= |ts|
    ensures r.1 == |ts| || ParseNode(ts, r.1).None?
    decreases |ts| - i, 1
  {
    match ParseNode(ts, i)
    case None => ([], i)
    case Some((n, j)) =>
      var (rest, k) := ParseNodes(ts, j);
      ([n] + rest, k)
  }

  /** The top-level `node*` followed by `end()`. */
  function ParseAst(ts: seq<Tokens.Token>): (r: Result<Ast, AstError>)
    ensures r.Failure? ==> r.error.at < |ts| && (ts[r.error.at].LParen? || ts[r.error.at].RParen?)
  {
    var (nodes, j) := ParseNodes(ts, 0);
    if j == |ts| then Success(Ast(nodes)) else Failure(UnexpectedToken(j))
  }

  // ---------------------------------------------------------------------
  // Flattening trees back to tokens

  /** A token as far as the tree records it: identifiers and references are
    * both words with their text and span; parentheses are bare. */
  datatype Shape = Word(text: string, span: Tokens.Span) | Open | Close

  function ShapeOf(t: Tokens.Token): Shape {
    match t
    case Ident(name, span) => Word(name, span)
    case Ref(value, span) => Word(value, span)
    case LParen(_) => Open
    case RParen(_) => Close
  }

  function Shapes(ts: seq<Tokens.Token>): seq<Shape> {
    seq(|ts|, k requires 0 <= k < |ts| => ShapeOf(ts[k]))
  }

  function Flatten(n: AstNode): seq<Shape>
    decreases n
  {
    match n
    case Ref(value, span) => [Word(value, span)]
    case Call(name, span, args) => [Word(name, span), Open] + FlattenAll(args) + [Close]
  }

  function FlattenAll(ns: seq<AstNode>): seq<Shape>
    decreases ns
  {
    if ns == [] then [] else Flatten(ns[0]) + FlattenAll(ns[1..])
  }

  /** The token stream a tree is read from: references as literal tokens,
    * calls as identifier, `(`, arguments, `)`. The tree keeps no span for
    * parentheses, and the parser ignores them, so they reuse the call's. */
  function Render(n: AstNode): seq<Tokens.Token>
    decreases n
  {
    match n
    case Ref(value, span) => [Tokens.Ref(value, span)]
    case Call(name, span, args) =>
      [Tokens.Ident(name, span), Tokens.LParen(span)] + RenderAll(args) + [Tokens.RParen(span)]
  }

  function RenderAll(ns: seq<AstNode>): seq<Tokens.Token>
    decreases ns
  {
    if ns == [] then [] else Render(ns[0]) + RenderAll(ns[1..])
  }

  /** Parentheses balance (no `)` without an open `(`, none left open at the
    * end) and every `(` comes directly after a word. `depth` counts the open
    * parentheses; `afterWord` says whether the previous shape was a word. */
  predicate Bracketed(ss: seq<Shape>, depth: nat, afterWord: bool)
    decreases |ss|
  {
    if ss == [] then depth == 0
    else
      match ss[0]
      case Word(_, _) => Bracketed(ss[1..], depth, true)
      case Open => afterWord && Bracketed(ss[1..], depth + 1, false)
      case Close => depth > 0 && Bracketed(ss[1..], depth - 1, false)
  }

  /** Token `t` can stand where a rendering has `r`. A parenthesis may be
    * anywhere, since the syntax builder never looks at where it is. A call's
    * name must be that identifier token. A bare reference may be a reference
    * token or an identifier token with the same text and span, because the
    * tokenizer makes most bare words identifiers. */
  predicate Reads(t: Tokens.Token, r: Tokens.Token) {
    match r
    case LParen(_) => t.LParen?
    case RParen(_) => t.RParen?
    case Ident(_, _) => t == r
    case Ref(value, span) => t == r || t == Tokens.Ident(value, span)
  }

  /** From `i` on, `ts` begins with tokens that read as `rs`. */
  predicate Fits(ts: seq<Tokens.Token>, i: nat, rs: seq<Tokens.Token>) {
    i + |rs| <= |ts| && forall k :: 0 <= k < |rs| ==> Reads(ts[i + k], rs[k])
  }

  /** The whole stream `ts` is a way of writing the trees `ns`. */
  predicate Spells(ts: seq<Tokens.Token>, ns: seq<AstNode>) {
    |ts| == |RenderAll(ns)| && Fits(ts, 0, RenderAll(ns))
  }

  /** Every `(` in `ts[i..j]` comes right after an identifier in that range. */
  predicate ParensAfterIdents(ts: seq<Tokens.Token>, i: nat, j: nat)
    requires j <= |ts|
  {
    forall k :: i <= k < j && ts[k].LParen? ==> i < k && ts[k - 1].Ident?
  }

  // ---------------------------------------------------------------------
  // Lemmas

  lemma FitsConcat(ts: seq<Tokens.Token>, i: nat, a: seq<Tokens.Token>, b: seq<Tokens.Token>)
    requires Fits(ts, i, a + b)
    ensures Fits(ts, i, a) && Fits(ts, i + |a|, b)
  {
    forall k | 0 <= k < |a| ensures Reads(ts[i + k], a[k]) {
      assert (a + b)[k] == a[k];
    }
    forall k | 0 <= k < |b| ensures Reads(ts[i + |a| + k], b[k]) {
      assert (a + b)[|a| + k] == b[k];
    }
  }

  /** A rendering is never empty and starts with a word token. */
  lemma RenderStartsWithWord(n: AstNode)
    ensures |Render(n)| > 0 && (Render(n)[0].Ident? || Render(n)[0].Ref?)
  {
  }

  lemma ShapesSlice(ts: seq<Tokens.Token>, i: nat, j: nat, k: nat)
    requires i <= j <= k <= |ts|
    ensures Shapes(ts[i..k]) == Shapes(ts[i..j]) + Shapes(ts[j..k])
  {
  }

  lemma ShapesSingle(ts: seq<Tokens.Token>, i: nat)
    requires i < |ts|
    ensures Shapes(ts[i..i + 1]) == [ShapeOf(ts[i])]
  {
  }

  /** An identifier, `(`, tokens flattening to `args`, and `)` flatten as
    * the call. */
  lemma CallShapes(ts: seq<Tokens.Token>, i: nat, k: nat, name: string, span: Tokens.Span, args: seq<AstNode>)
    requires i + 2 <= k < |ts|
    requires ts[i] == Tokens.Ident(name, span) && ts[i + 1].LParen? && ts[k].RParen?
    requires FlattenAll(args) == Shapes(ts[i + 2..k])
    ensures Flatten(Call(name, span, args)) == Shapes(ts[i..k + 1])
  {
    ShapesSlice(ts, i, i + 2, k + 1);
    ShapesSlice(ts, i + 2, k, k + 1);
    assert Shapes(ts[i..i + 2]) == [Word(name, span), Open];
    ShapesSingle(ts, k);
  }

  /** A node that parses flattens to the shapes of the tokens it consumed. */
  lemma {:induction false} ParseNodeFlattens(ts: seq<Tokens.Token>, i: nat)
    requires i <= |ts| && ParseNode(ts, i).Some?
    ensures Flatten(ParseNode(ts, i).value.0) == Shapes(ts[i..ParseNode(ts, i).value.1])
    decreases |ts| - i, 0
  {
    var (n, j) := ParseNode(ts, i).value;
    ShapesSingle(ts, i);
    if && ts[i].Ident? && i + 1 < |ts| && ts[i + 1].LParen?
       && ParseNodes(ts, i + 2).1 < |ts| && ts[ParseNodes(ts, i + 2).1].RParen? {
      var (args, k) := ParseNodes(ts, i + 2);
      ParseNodesFlattens(ts, i + 2);
      CallShapes(ts, i, k, ts[i].name, ts[i].span, args);
      assert n == Call(ts[i].name, ts[i].span, args) && j == k + 1;
    } else {
      assert j == i + 1;
      assert Flatten(n) == [ShapeOf(ts[i])];
    }
  }

  /** The nodes read by `node*` flatten to the shapes of the tokens consumed. */
  lemma {:induction false} ParseNodesFlattens(ts: seq<Tokens.Token>, i: nat)
    requires i <= |ts|
    ensures FlattenAll(ParseNodes(ts, i).0) == Shapes(ts[i..ParseNodes(ts, i).1])
    decreases |ts| - i, 1
  {
    var (ns, k) := ParseNodes(ts, i);
    match ParseNode(ts, i)
    case None =>
    case Some((n, j)) =>
      ParseNodeFlattens(ts, i);
      ParseNodesFlattens(ts, j);
      ShapesSlice(ts, i, j, k);
      assert ns[0] == n && ns[1..] == ParseNodes(ts, j).0;
  }

  /** A tree read from the whole token stream gives the stream back when
    * flattened, up to identifiers read as bare references and the spans of
    * parentheses. */
  lemma ParseAstFlattens(ts: seq<Tokens.Token>)
    requires ParseAst(ts).Success?
    ensures FlattenAll(ParseAst(ts).value.nodes) == Shapes(ts)
  {
    ParseNodesFlattens(ts, 0);
    assert ts[0..|ts|] == ts;
  }

  /** A rendered node is read back, whatever follows it except `(`: a bare
    * reference written as an identifier token would otherwise start a call. */
  lemma {:induction false} RenderParsesNode(ts: seq<Tokens.Token>, i: nat, n: AstNode)
    requires Fits(ts, i, Render(n))
    requires i + |Render(n)| == |ts| || !ts[i + |Render(n)|].LParen?
    ensures ParseNode(ts, i) == Some((n, i + |Render(n)|))
    decreases n, 0
  {
    var r := Render(n);
    assert Reads(ts[i + 0], r[0]);
    match n
    case Ref(_, _) =>
    case Call(name, span, args) =>
      var inner := RenderAll(args);
      var m := |inner|;
      var open := [Tokens.Ident(name, span), Tokens.LParen(span)];
      assert r == open + inner + [Tokens.RParen(span)];
      FitsConcat(ts, i, open + inner, [Tokens.RParen(span)]);
      FitsConcat(ts, i, open, inner);
      assert Reads(ts[i + 1], open[1]);
      assert Reads(ts[i + 2 + m + 0], [Tokens.RParen(span)][0]);
      RenderParsesNodes(ts, i + 2, args);
  }

  /** Rendered nodes followed by `)` or the end of the stream are read back
    * by `node*`, which stops right after them. */
  lemma {:induction false} RenderParsesNodes(ts: seq<Tokens.Token>, i: nat, ns: seq<AstNode>)
    requires Fits(ts, i, RenderAll(ns))
    requires i + |RenderAll(ns)| == |ts| || ts[i + |RenderAll(ns)|].RParen?
    ensures ParseNodes(ts, i) == (ns, i + |RenderAll(ns)|)
    decreases ns, 1
  {
    if ns != [] {
      var head := Render(ns[0]);
      var tail := RenderAll(ns[1..]);
      assert RenderAll(ns) == head + tail;
      FitsConcat(ts, i, head, tail);
      if ns[1..] != [] {
        RenderStartsWithWord(ns[1..][0]);
        assert tail == Render(ns[1..][0]) + RenderAll(ns[1..][1..]);
        assert Reads(ts[i + |head| + 0], tail[0]);
      }
      RenderParsesNode(ts, i, ns[0]);
      RenderParsesNodes(ts, i + |head|, ns[1..]);
      assert [ns[0]] + ns[1..] == ns;
    }
  }

  /** Any token stream that spells a sequence of trees builds back into
    * exactly those trees. */
  lemma RenderParses(ts: seq<Tokens.Token>, ns: seq<AstNode>)
    requires Spells(ts, ns)
    ensures ParseAst(ts) == Success(Ast(ns))
  {
    RenderParsesNodes(ts, 0, ns);
  }

  /** Flattened trees are bracketed, and leave the flag saying whether the
    * last shape was a word (a bare reference) or a `)` (a call). */
  lemma {:induction false} FlattenBracketed(n: AstNode, rest: seq<Shape>, depth: nat, afterWord: bool)
    ensures Bracketed(Flatten(n) + rest, depth, afterWord) == Bracketed(rest, depth, n.Ref?)
    decreases n, 0
  {
    match n
    case Ref(_, _) =>
      assert (Flatten(n) + rest)[1..] == rest;
    case Call(name, span, args) =>
      var inner := FlattenAll(args) + ([Close] + rest);
      assert Flatten(n) + rest == [Word(name, span), Open] + inner;
      assert ([Word(name, span), Open] + inner)[1..] == [Open] + inner;
      assert ([Open] + inner)[1..] == inner;
      FlattenAllBracketed(args, [Close] + rest, depth + 1, false);
      assert ([Close] + rest)[1..] == rest;
  }

  lemma {:induction false} FlattenAllBracketed(ns: seq<AstNode>, rest: seq<Shape>, depth: nat, afterWord: bool)
    ensures Bracketed(FlattenAll(ns) + rest, depth, afterWord)
         == Bracketed(rest, depth, if ns == [] then afterWord else ns[|ns| - 1].Ref?)
    decreases ns, 1
  {
    if ns == [] {
      assert FlattenAll(ns) + rest == rest;
    } else {
      var tail := FlattenAll(ns[1..]) + rest;
      assert FlattenAll(ns) + rest == Flatten(ns[0]) + tail;
      FlattenBracketed(ns[0], tail, depth, afterWord);
      assert Bracketed(FlattenAll(ns) + rest, depth, afterWord) == Bracketed(tail, depth, ns[0].Ref?);
      FlattenAllBracketed(ns[1..], rest, depth, ns[0].Ref?);
      if |ns| == 1 {
        assert ns[1..] == [];
        assert FlattenAll(ns[1..]) + rest == rest;
      } else {
        assert ns[|ns| - 1] == ns[1..][|ns[1..]| - 1];
      }
    }
  }

  /** Within the tokens a node consumes, every `(` directly follows an
    * identifier: the one that names the call. */
  lemma {:induction false} ParseNodeParens(ts: seq<Tokens.Token>, i: nat)
    requires i <= |ts| && ParseNode(ts, i).Some?
    ensures ParensAfterIdents(ts, i, ParseNode(ts, i).value.1)
    decreases |ts| - i, 0
  {
    if && ts[i].Ident? && i + 1 < |ts| && ts[i + 1].LParen?
       && ParseNodes(ts, i + 2).1 < |ts| && ts[ParseNodes(ts, i + 2).1].RParen? {
      ParseNodesParens(ts, i + 2);
    }
  }

  lemma {:induction false} ParseNodesParens(ts: seq<Tokens.Token>, i: nat)
    requires i <= |ts|
    ensures ParensAfterIdents(ts, i, ParseNodes(ts, i).1)
    decreases |ts| - i, 1
  {
    match ParseNode(ts, i)
    case None =>
    case Some((n, j)) =>
      ParseNodeParens(ts, i);
      ParseNodesParens(ts, j);
  }

  /** A token stream that builds into a tree has balanced parentheses, and
    * each `(` comes right after an identifier token: so `foo(`, a stray `)`,
    * a `(` with nothing before it, and a `(` after a quoted or path-like
    * reference all make the syntax builder fail. */
  lemma ParseAstBracketed(ts: seq<Tokens.Token>)
    requires ParseAst(ts).Success?
    ensures Bracketed(Shapes(ts), 0, false)
    ensures forall k :: 0 <= k < |ts| && ts[k].LParen? ==> 0 < k && ts[k - 1].Ident?
  {
    ParseNodesParens(ts, 0);
    var ns := ParseAst(ts).value.nodes;
    ParseAstFlattens(ts);
    FlattenAllBracketed(ns, [], 0, false);
    assert FlattenAll(ns) + [] == FlattenAll(ns);
  }
}
