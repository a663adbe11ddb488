# git-ref-select: the query pipeline in Dafny

git-ref-select reads a small query language and lists git references. A
query such as `"main" locals()` goes through three stages:

1. The tokenizer (`Tokens`, src/token.rs) splits the string into
   identifiers, parentheses and references. A reference is either a quoted
   literal or a path-like word such as `feature/my-branch`.
2. The syntax builder (`Ast`, src/ast.rs) reads the tokens as trees. A tree
   is a reference or a call `name(args)`.
3. The query builder (`Ir`, src/ir.rs) checks every top-level tree. The
   only call it accepts is `locals()`.

`RefSelect` (src/lib.rs) holds the rest:

- `Parse` chains the three stages. A failure is tagged with the stage that
  failed.
- `ExpandRefs` walks the query once. It keeps the literal references and
  calls the provider's `locals()` once per `Locals` node.
- The `QueryIter` class yields every literal reference, then every item
  each provider call returned, in call order.

The provider is the `Git` trait of src/git.rs. Here it is a function
parameter that gives the result of the k-th call of `locals()`. Every
sequence of answers a provider could give is therefore covered.

`Scenarios` works through concrete queries end to end.

What is proved:

- The tokenizer returns exactly the tilings of the string by lexemes, and
  it fails exactly when no tiling exists. A lexeme is described by the
  characters at its span.
- A parsed syntax tree flattens back to the tokens it was read from.
  Conversely, every rendering of a tree is read back as that tree.
- Parsed tokens are bracketed: parentheses balance, and every `(` follows a
  word.
- The query builder is all-or-nothing and reports the first rejected node.
  Every query is rebuilt from its own syntax.
- A parsed query's nodes lie in the string left to right and carry the text
  at their spans.
- `ExpandRefs` calls the provider once per `Locals` node, in order, and
  stops at the first failed call.
- `QueryIter.Next` yields the remaining items one at a time and then stops
  for good.

Two behaviours of the code are worth knowing:

- The iterator yields every literal reference before any provider result
  (src/lib.rs:126-141), whatever the order of the nodes in the query.
  `Scenarios.SelectLocalsThenMain` shows `locals() main` yielding `main`
  first.
- The look-ahead after an identifier (src/token.rs:56) needs a next
  character, so it fails at the end of the input. A word that ends the
  query is therefore a `Ref` token, not an identifier. This changes nothing
  downstream, because a lone identifier becomes a reference anyway.

## Model

| member | source | states |
|---|---|---|
| Tokens.LexParen | src/token.rs:41-42 | a token is read exactly when the character is `(` or `)`; it is that one character |
| Tokens.LexQuoted | src/token.rs:45-53 | only a `"` can start a quoted literal; what is read is a reference spanning the quotes, whose value is the non-empty run of ASCII letters, digits and punctuation other than `"` between them |
| Tokens.LexIdent | src/token.rs:54-56 | only an identifier start can start one; what is read is the identifier at its span, followed by a character that is neither an identifier character nor `/`, `-`, `_` (so never at the end of the input) |
| Tokens.LexPath | src/token.rs:57-65 | a path token is read exactly when the character is a path character; it is the maximal run of path characters, with that run as its value |
| Tokens.TokenizeFrom | src/token.rs:68-71 | the tokens read lie inside the rest of the string, with non-empty spans; a failure points inside the rest of the string |
| Tokens.Tokenize | src/lib.rs:25-26 | a successful tokenization tiles the whole string; a failure points at a non-blank character where no rule applies |
| Tokens.LexToken | src/token.rs:40-67 | the first rule that applies consumes at least one character and stays inside the string |
| Tokens.LexTokenSound | src/token.rs:40-67 | at a token boundary, whichever rule fires yields a lexeme spanning exactly the characters consumed, and a token boundary follows it |
| Tokens.LexemeLexes | src/token.rs:40-67 | conversely, every lexeme (parenthesis, quoted literal, identifier followed by a character other than `/`, `-`, `_`, maximal path run) is what the rules read at its start |
| Tokens.TokenizeFromSound | src/token.rs:68-71 | whitespace-separated tokens read from a boundary tile the rest of the string |
| Tokens.TilesTokenize | src/token.rs:68-71 | every tiling of the rest of the string is what the tokenizer returns |
| Tokens.TokenizeIsTiling | src/token.rs:39-71 | the tokenizer followed by end of input succeeds with `ts` exactly when `ts` tiles the whole string, and fails exactly when no tiling exists |
| Tokens.TokenizeFromFailure | src/token.rs:40-71 | a tokenizer failure points at a non-blank character inside the string where none of the four rules applies |
| Tokens.TilesOrdered | src/token.rs:68-71 | token spans are non-empty, inside the string, and in increasing, non-overlapping order |
| Ast.ParseNode | src/ast.rs:29-44 | a node that is read consumes at least one token and stays inside the stream |
| Ast.ParseNodes | src/ast.rs:13-19 | `node*` stops at the end of the stream or at a token where no node can start |
| Ast.ParseAst | src/lib.rs:35-36 | a syntax build fails only at a parenthesis token inside the stream |
| Ast.ParseNodeParens | src/ast.rs:29-44 | inside the tokens a node consumes, every `(` comes right after an identifier token |
| Ast.ParseNodesParens | src/ast.rs:13-19 | inside the tokens `node*` consumes, every `(` comes right after an identifier token |
| Ast.ParseNodeFlattens | src/ast.rs:29-44 | a node read flattens to the words and parentheses of exactly the tokens it consumed; a lone identifier becomes a reference with the identifier's text and span |
| Ast.ParseNodesFlattens | src/ast.rs:13-19 | the nodes read by `node*` flatten to the tokens consumed |
| Ast.ParseAstFlattens | src/ast.rs:13-19 | a successful syntax build flattens to the whole token stream |
| Ast.RenderParsesNode | src/ast.rs:29-44 | a stream that spells a node (a bare reference from a `Ref` or an identifier token with its text and span, a call from an identifier, `(`, its arguments and `)`) and is not followed by `(` is read back as that node |
| Ast.RenderParsesNodes | src/ast.rs:29-44 | a stream that spells a sequence of nodes, followed by `)` or the end of the stream, is read back by `node*`, which stops right after them |
| Ast.RenderParses | src/ast.rs:13-19 | every stream that spells a sequence of trees (bare words as `Ref` or identifier tokens, parentheses wherever they stand) builds back into exactly those trees |
| Ast.FlattenBracketed | src/ast.rs:29-44 | a flattened tree is bracketed, and ends on a word exactly when it is a bare reference |
| Ast.FlattenAllBracketed | src/ast.rs:13-19 | a flattened sequence of trees is bracketed, and ends on a word exactly when its last tree is a reference |
| Ast.ParseAstBracketed | src/ast.rs:13-19 | the tokens of a successful syntax build are bracketed: no `)` without a `(`, none left open, every `(` right after an identifier token (never after a quoted or path reference) |
| Ir.ValidateNode | src/ir.rs:33-53 | a reference passes unchanged; `locals` with no arguments becomes `Locals` with the identifier's span; `locals` with arguments fails with the call; any other name fails with the name and span; an accepted node lowers back to its tree |
| Ir.BuildQuery | src/ir.rs:13-19 | a built query has one node per tree, and lowering gives the trees back |
| Ir.BuildQueryAllOrNothing | src/ir.rs:13-19 | the build succeeds exactly when every tree validates; otherwise it returns the error of the first tree that does not |
| Ir.BuildQueryLowered | src/ir.rs:30-55 | every query is built back from its own syntax trees |
| RefSelect.Parse | src/lib.rs:18-55 | a parsed query is built from the syntax trees of the string's tokens; a syntax-builder failure points at a parenthesis token of the string's tokens |
| RefSelect.ParseFailureStage | src/lib.rs:18-55 | a parse failure names the first stage that failed and carries that stage's own error; a tokenizer failure points at a character no rule accepts, and the string then has no tiling |
| RefSelect.ParseSound | src/lib.rs:18-55 | a parsed string is tiled by its tokens, and those tokens' words and parentheses are the query's own syntax |
| RefSelect.ParseComplete | src/lib.rs:18-55 | a string whose tokens spell the syntax of a query (bare references as `Ref` or identifier tokens, parentheses wherever they stand) parses into exactly that query |
| RefSelect.QueryWords | src/ir.rs:33-53 | written back as syntax, a query's words are its nodes' reference values and `locals`, in order |
| RefSelect.TilesWords | src/token.rs:45-65 | the words of a tiling stand at their spans in the string, left to right and without overlapping |
| RefSelect.ParseOrdered | src/lib.rs:18-55 | each node of a parsed query lies in the string and holds its reference's text (between quotes for a literal) or `locals`; successive nodes do not overlap |
| RefSelect.ExpandRefs | src/lib.rs:57-77 | `locals()` is called once per `Locals` node, in node order, up to the first failure; the expansion succeeds exactly when every call does, with every `Ref` value in query order and every provider result unchanged in call order; otherwise it returns the first initialisation error |
| RefSelect.ConcatLength | src/lib.rs:126-141 | the number of provider items drained is the sum of the lengths of the provider results |
| RefSelect.Select | src/lib.rs:57-141 | expanding a query and draining its iterator succeeds exactly when every `locals()` call does; it then yields the literal references followed by the concatenated provider results, `|refs| + total length` items; otherwise it stops at the first failed call with its error |
| RefSelect.QueryIter.constructor | src/lib.rs:72-76 | the iterator starts from the expansion's literal results and provider results |
| RefSelect.QueryIter.Next | src/lib.rs:126-141 | yields the first remaining item and drops it; returns `None` exactly when nothing remains, and nothing remains after it |
| RefSelect.Collect | src/lib.rs:126-141 | draining the iterator yields its remaining items in order and leaves it empty |
| Scenarios.TokenizeMainThenLocals | src/token.rs:40-71 | `"main" locals()` is a quoted literal whose value drops the quotes, an identifier, `(` and `)` |
| Scenarios.ParseMainThenLocals | src/lib.rs:18-55 | `"main" locals()` parses into a reference and a `Locals` node |
| Scenarios.TokenizeTwoBranches | src/token.rs:54-65 | `feature/x main` is two reference tokens: a slashed name is a path, and a word at the end of the input is not an identifier |
| Scenarios.ParseTwoBranches | src/lib.rs:18-55 | `feature/x main` parses into two references |
| Scenarios.TokenizeLocalsWithArgument | src/token.rs:54-56 | in `locals(x)` both words are identifiers, because a parenthesis follows each |
| Scenarios.ParseLocalsWithArgument | src/ir.rs:41-47 | `locals(x)` fails in the query builder with an argument-count error carrying the call |
| Scenarios.TokenizeUnknownCall | src/token.rs:40-71 | `upstream()` is an identifier, `(` and `)` |
| Scenarios.ParseUnknownCall | src/ir.rs:48-50 | `upstream()` fails in the query builder as an invalid call carrying its name and span |
| Scenarios.TokenizeUnclosedCall | src/token.rs:40-71 | `main(` is an identifier and `(` |
| Scenarios.ParseUnclosedCall | src/ast.rs:33-40 | in `main(` the call alternative fails and the identifier falls back to a reference; the syntax builder fails, and the model reports the offset of the `(` token it cannot read |
| Scenarios.ParseSpaceInQuotes | src/token.rs:45-53 | a quoted literal cannot hold a space, so the tokenizer fails; the model reports offset 0, where the unreadable token starts |
| Scenarios.TokenizeMainDev | src/token.rs:54-65 | in `main dev` the first word is an identifier (a space follows it) and the last a reference token |
| Scenarios.ParseMainDev | src/ast.rs:29-44 | the identifier `main` is read as a bare reference: `main dev` parses into two references |
| Scenarios.TokenizeParenAfterPath | src/token.rs:57-65 | `my-branch()` is a path reference, `(` and `)` |
| Scenarios.ParseParenAfterPath | src/ast.rs:33-40 | a `(` after a path reference cannot open a call: the syntax builder fails at token 1 |
| Scenarios.SelectTwoBranches | src/lib.rs:57-141 | a query with one `locals()` call and the one literal `main`, run against a provider listing `dev` and `feature/x`, yields `main`, `dev`, `feature/x` |
| Scenarios.SelectMainThenLocals | src/lib.rs:18-141 | the string `"main" locals()` parses into the query that, with a provider listing `dev` and `feature/x`, yields `main`, `dev`, `feature/x` |
| Scenarios.SelectWithBrokenProvider | src/lib.rs:68 | a failing `locals()` ends the expansion after one call, with that call's error |
| Scenarios.TokenizeLocalsThenMain | src/token.rs:40-71 | `locals() main` is an identifier, `(`, `)` and a reference token |
| Scenarios.ParseLocalsThenMain | src/lib.rs:18-55 | `locals() main` parses into a `Locals` node, then a reference |
| Scenarios.SelectLocalsThenMain | src/lib.rs:126-141 | the string `locals() main` parses into the query that yields the literal `main` before the provider's results, although `locals()` comes first in the query |

## Left out

- RefSelect.Parse: each stage reports one error value. The source returns a list of chumsky errors with their expected and found tokens. The model keeps the stage and the query builder's error for the first rejected node. For the tokenizer and the syntax builder it reports its own offset, where the token that cannot be read starts. chumsky reports the furthest position any alternative reached, which can lie further on: offset 2 rather than 0 for `"a b"`, the end of input rather than the `(` for `main(`.
- Ir.BuildQuery: the query builder's `Unexpected` error variant, which chumsky builds on its own, is not modelled. When a tree is rejected, the model reports that tree's own error.
- Tokens.LexIdent: identifiers are ASCII (`[A-Za-z_][A-Za-z0-9_]*`). chumsky's `ident()` also accepts Unicode XID identifiers.
- Spans count characters, while the source counts bytes. The two agree on ASCII input, and every token the model accepts is ASCII.
- RefSelect.QueryIter.Next: each provider result is a finished sequence. In the source it is a lazy iterator, collected into a buffer when the iterator reaches it, so the model does not capture when the provider produces each item.
- The `git` field of `GitQueryIter` and the provider's `query_refs` operation are not modelled, because the core never uses them.
- The git command-line provider (src/git/cli.rs) and the program entry point (src/main.rs) are not part of this model: they do subprocess and terminal I/O.
- The `ParsingContext` of `Query::parse` and the trace logging are left out. Each stage here returns a fresh value, so nothing is shared between parses.
- The unused `recursive` wrapper around the query-node parser (src/ir.rs:32) adds no behaviour and has no counterpart here.
