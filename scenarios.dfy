/** Worked queries: what the pipeline makes of a few concrete query
  * strings, and what the iterator yields for a concrete provider. */
module Scenarios {
  import opened Wrappers
  import Tokens
  import Ast
  import Ir
  import RefSelect

  /** A quoted literal, then the `locals` query. */
  const MainThenLocals: string := "\"main\" locals()"

  /** The tokens of `MainThenLocals`: the quotes are part of the literal's
    * span but not of its value, and `locals` is an identifier because a
    * parenthesis follows it. */
  lemma TokenizeMainThenLocals()
    ensures Tokens.Tokenize(MainThenLocals) == Success([
      Tokens.Ref("main", Tokens.Span(0, 6)), Tokens.Ident("locals", Tokens.Span(7, 13)),
      Tokens.LParen(Tokens.Span(13, 14)), Tokens.RParen(Tokens.Span(14, 15))])
  {
    var s := MainThenLocals;
    var ts := [
      Tokens.Ref("main", Tokens.Span(0, 6)), Tokens.Ident("locals", Tokens.Span(7, 13)),
      Tokens.LParen(Tokens.Span(13, 14)), Tokens.RParen(Tokens.Span(14, 15))];
    assert Tokens.Lexeme(s, ts[0]) by {
      assert s[1] == 'm' && s[2] == 'a' && s[3] == 'i' && s[4] == 'n';
      assert s[1..5] == "main";
      assert Tokens.QuotedLexeme(s, "main", Tokens.Span(0, 6));
    }
    assert Tokens.Lexeme(s, ts[1]) by {
      assert s[7..13] == "locals";
      assert Tokens.IsIdentifier("locals");
    }
    assert Tokens.Lexeme(s, ts[2]) && Tokens.Lexeme(s, ts[3]);
    assert Tokens.Tiles(s, 15, ts[4..]);
    assert Tokens.Tiles(s, 14, ts[3..]);
    assert Tokens.Tiles(s, 13, ts[2..]);
    assert Tokens.Tiles(s, 6, ts[1..]) by {
      assert Tokens.AllWhitespace(s, 6, 7);
    }
    assert Tokens.Tiles(s, 0, ts);
    Tokens.TokenizeIsTiling(s, ts);
  }

  /** The query `MainThenLocals` parses into. */
  const MainThenLocalsQuery: Ir.Query :=
    Ir.Query([Ir.Ref("main", Tokens.Span(0, 6)), Ir.Locals(Tokens.Span(7, 13))])

  /** The tokens of `MainThenLocals` spell the syntax of its query. */
  lemma RenderMainThenLocals()
    ensures Ast.Spells([
              Tokens.Ref("main", Tokens.Span(0, 6)), Tokens.Ident("locals", Tokens.Span(7, 13)),
              Tokens.LParen(Tokens.Span(13, 14)), Tokens.RParen(Tokens.Span(14, 15))],
            Ir.LowerAll(MainThenLocalsQuery.nodes))
  {
    var qs := MainThenLocalsQuery.nodes;
    var ns := Ir.LowerAll(qs);
    assert ns == [Ast.AstNode.Ref("main", Tokens.Span(0, 6)), Ast.Call("locals", Tokens.Span(7, 13), [])];
    assert ns[1..][1..] == [];
    assert Ast.RenderAll([]) == [];
    assert Ast.Render(ns[1]) == [Tokens.Ident("locals", Tokens.Span(7, 13)),
      Tokens.LParen(Tokens.Span(7, 13)), Tokens.RParen(Tokens.Span(7, 13))];
    assert Ast.RenderAll(ns[1..]) == Ast.Render(ns[1]);
    assert Ast.RenderAll(ns) == [
      Tokens.Ref("main", Tokens.Span(0, 6)), Tokens.Ident("locals", Tokens.Span(7, 13)),
      Tokens.LParen(Tokens.Span(7, 13)), Tokens.RParen(Tokens.Span(7, 13))];
  }

  /** `MainThenLocals` parses into a reference and a `Locals` node. */
  lemma ParseMainThenLocals()
    ensures RefSelect.Parse(MainThenLocals) == Success(MainThenLocalsQuery)
  {
    TokenizeMainThenLocals();
    RenderMainThenLocals();
    RefSelect.ParseComplete(MainThenLocals, MainThenLocalsQuery.nodes);
  }

  lemma TokenizeTwoBranches()
    ensures Tokens.Tokenize("feature/x main") ==
      Success([Tokens.Ref("feature/x", Tokens.Span(0, 9)), Tokens.Ref("main", Tokens.Span(10, 14))])
  {
    var s := "feature/x main";
    var ts := [Tokens.Ref("feature/x", Tokens.Span(0, 9)), Tokens.Ref("main", Tokens.Span(10, 14))];
    assert Tokens.Lexeme(s, ts[0]) by {
      assert s[0..9] == "feature/x";
      assert !Tokens.IsIdentifier("feature/x") by {
        assert !Tokens.IsIdentContinue("feature/x"[7]);
      }
    }
    assert Tokens.Lexeme(s, ts[1]) by {
      assert s[10..14] == "main";
    }
    assert Tokens.Tiles(s, 14, ts[2..]);
    assert Tokens.Tiles(s, 9, ts[1..]) by {
      assert Tokens.AllWhitespace(s, 9, 10);
    }
    assert Tokens.Tiles(s, 0, ts);
    Tokens.TokenizeIsTiling(s, ts);
  }

  /** The tokens of `feature/x main` spell two references. */
  lemma RenderTwoBranches()
    ensures Ast.Spells(
              [Tokens.Ref("feature/x", Tokens.Span(0, 9)), Tokens.Ref("main", Tokens.Span(10, 14))],
              Ir.LowerAll([Ir.Ref("feature/x", Tokens.Span(0, 9)), Ir.Ref("main", Tokens.Span(10, 14))]))
  {
    var qs := [Ir.Ref("feature/x", Tokens.Span(0, 9)), Ir.Ref("main", Tokens.Span(10, 14))];
    var ns := Ir.LowerAll(qs);
    assert ns == [Ast.AstNode.Ref("feature/x", Tokens.Span(0, 9)), Ast.AstNode.Ref("main", Tokens.Span(10, 14))];
    assert ns[1..][1..] == [];
    assert Ast.RenderAll(ns[1..][1..]) == [];
    assert Ast.RenderAll(ns[1..]) == [Tokens.Ref("main", Tokens.Span(10, 14))];
    assert Ast.RenderAll(ns) == [Tokens.Ref("feature/x", Tokens.Span(0, 9)), Tokens.Ref("main", Tokens.Span(10, 14))];
  }

  /** A word that ends the input is a reference even when it is spelled like
    * an identifier, and a branch name with a slash is always a reference. */
  lemma ParseTwoBranches()
    ensures RefSelect.Parse("feature/x main") == Success(Ir.Query([
      Ir.Ref("feature/x", Tokens.Span(0, 9)), Ir.Ref("main", Tokens.Span(10, 14))]))
  {
    TokenizeTwoBranches();
    RenderTwoBranches();
    RefSelect.ParseComplete("feature/x main",
      [Ir.Ref("feature/x", Tokens.Span(0, 9)), Ir.Ref("main", Tokens.Span(10, 14))]);
  }

  lemma TokenizeLocalsWithArgument()
    ensures Tokens.Tokenize("locals(x)") == Success([
      Tokens.Ident("locals", Tokens.Span(0, 6)), Tokens.LParen(Tokens.Span(6, 7)),
      Tokens.Ident("x", Tokens.Span(7, 8)), Tokens.RParen(Tokens.Span(8, 9))])
  {
    var s := "locals(x)";
    var ts := [
      Tokens.Ident("locals", Tokens.Span(0, 6)), Tokens.LParen(Tokens.Span(6, 7)),
      Tokens.Ident("x", Tokens.Span(7, 8)), Tokens.RParen(Tokens.Span(8, 9))];
    assert Tokens.Lexeme(s, ts[0]) by {
      assert s[0..6] == "locals";
      assert Tokens.IsIdentifier("locals");
    }
    assert Tokens.Lexeme(s, ts[2]) by {
      assert s[7..8] == "x";
    }
    assert ts[1..][1..][1..][1..] == [];
    Tokens.TokenizeIsTiling(s, ts);
  }

  /** `locals` takes no arguments: the call is rejected whole. */
  lemma ParseLocalsWithArgument()
    ensures RefSelect.Parse("locals(x)") == Failure(RefSelect.ParseQueryFromAst(Ir.IncorrectArgCount(
      Ast.Call("locals", Tokens.Span(0, 6), [Ast.AstNode.Ref("x", Tokens.Span(7, 8))]))))
  {
    TokenizeLocalsWithArgument();
    var ts := Tokens.Tokenize("locals(x)").value;
    var x := Ast.AstNode.Ref("x", Tokens.Span(7, 8));
    assert Ast.ParseNode(ts, 2) == Some((x, 3));
    assert Ast.ParseNodes(ts, 3) == ([], 3);
    assert [x] + [] == [x];
    assert Ast.ParseNodes(ts, 2) == ([x], 3);
    var call := Ast.Call("locals", Tokens.Span(0, 6), [x]);
    assert Ast.ParseNode(ts, 0) == Some((call, 4));
    assert Ast.ParseNodes(ts, 4) == ([], 4);
    assert [call] + [] == [call];
    assert Ast.ParseNodes(ts, 0) == ([call], 4);
  }

  lemma TokenizeUnknownCall()
    ensures Tokens.Tokenize("upstream()") == Success([
      Tokens.Ident("upstream", Tokens.Span(0, 8)), Tokens.LParen(Tokens.Span(8, 9)),
      Tokens.RParen(Tokens.Span(9, 10))])
  {
    var s := "upstream()";
    var ts := [
      Tokens.Ident("upstream", Tokens.Span(0, 8)), Tokens.LParen(Tokens.Span(8, 9)),
      Tokens.RParen(Tokens.Span(9, 10))];
    assert Tokens.Lexeme(s, ts[0]) by {
      assert s[0..8] == "upstream";
      assert Tokens.IsIdentifier("upstream");
    }
    assert ts[1..][1..][1..] == [];
    Tokens.TokenizeIsTiling(s, ts);
  }

  /** Only `locals` is a known call. */
  lemma ParseUnknownCall()
    ensures RefSelect.Parse("upstream()") ==
      Failure(RefSelect.ParseQueryFromAst(Ir.InvalidCall("upstream", Tokens.Span(0, 8))))
  {
    TokenizeUnknownCall();
    var ts := Tokens.Tokenize("upstream()").value;
    assert Ast.ParseNodes(ts, 2) == ([], 2);
    var call := Ast.Call("upstream", Tokens.Span(0, 8), []);
    assert Ast.ParseNode(ts, 0) == Some((call, 3));
    assert Ast.ParseNodes(ts, 3) == ([], 3);
    assert [call] + [] == [call];
    assert Ast.ParseNodes(ts, 0) == ([call], 3);
  }

  lemma TokenizeUnclosedCall()
    ensures Tokens.Tokenize("main(") ==
      Success([Tokens.Ident("main", Tokens.Span(0, 4)), Tokens.LParen(Tokens.Span(4, 5))])
  {
    var s := "main(";
    var ts := [Tokens.Ident("main", Tokens.Span(0, 4)), Tokens.LParen(Tokens.Span(4, 5))];
    assert Tokens.Lexeme(s, ts[0]) by {
      assert s[0..4] == "main";
      assert Tokens.IsIdentifier("main");
    }
    assert ts[1..][1..] == [];
    Tokens.TokenizeIsTiling(s, ts);
  }

  /** An unclosed call: the identifier falls back to a reference, and the
    * syntax builder stops at the parenthesis it cannot use. */
  lemma ParseUnclosedCall()
    ensures RefSelect.Parse("main(") == Failure(RefSelect.ParseAstFromTokens(Ast.UnexpectedToken(1)))
  {
    TokenizeUnclosedCall();
    var ts := Tokens.Tokenize("main(").value;
    assert Ast.ParseNodes(ts, 2) == ([], 2);
    assert Ast.ParseNode(ts, 0) == Some((Ast.AstNode.Ref("main", Tokens.Span(0, 4)), 1));
    assert Ast.ParseNodes(ts, 1) == ([], 1);
  }

  lemma TokenizeMainDev()
    ensures Tokens.Tokenize("main dev") ==
      Success([Tokens.Ident("main", Tokens.Span(0, 4)), Tokens.Ref("dev", Tokens.Span(5, 8))])
  {
    var s := "main dev";
    var ts := [Tokens.Ident("main", Tokens.Span(0, 4)), Tokens.Ref("dev", Tokens.Span(5, 8))];
    assert Tokens.Lexeme(s, ts[0]) by {
      assert s[0..4] == "main";
      assert Tokens.IsIdentifier("main");
    }
    assert Tokens.Lexeme(s, ts[1]) by {
      assert s[5..8] == "dev";
    }
    assert Tokens.Tiles(s, 8, ts[2..]);
    assert Tokens.Tiles(s, 4, ts[1..]) by {
      assert Tokens.AllWhitespace(s, 4, 5);
    }
    assert Tokens.Tiles(s, 0, ts);
    Tokens.TokenizeIsTiling(s, ts);
  }

  /** An identifier token spells a bare reference with its text and span. */
  lemma RenderMainDev()
    ensures Ast.Spells(
              [Tokens.Ident("main", Tokens.Span(0, 4)), Tokens.Ref("dev", Tokens.Span(5, 8))],
              Ir.LowerAll([Ir.Ref("main", Tokens.Span(0, 4)), Ir.Ref("dev", Tokens.Span(5, 8))]))
  {
    var qs := [Ir.Ref("main", Tokens.Span(0, 4)), Ir.Ref("dev", Tokens.Span(5, 8))];
    var ns := Ir.LowerAll(qs);
    assert ns == [Ast.AstNode.Ref("main", Tokens.Span(0, 4)), Ast.AstNode.Ref("dev", Tokens.Span(5, 8))];
    assert ns[1..][1..] == [];
    assert Ast.RenderAll(ns[1..][1..]) == [];
    assert Ast.RenderAll(ns[1..]) == [Tokens.Ref("dev", Tokens.Span(5, 8))];
    assert Ast.RenderAll(ns) == [Tokens.Ref("main", Tokens.Span(0, 4)), Tokens.Ref("dev", Tokens.Span(5, 8))];
  }

  /** A bare word followed by a space is an identifier token, and the syntax
    * builder reads it as a reference. */
  lemma ParseMainDev()
    ensures RefSelect.Parse("main dev") == Success(Ir.Query([
      Ir.Ref("main", Tokens.Span(0, 4)), Ir.Ref("dev", Tokens.Span(5, 8))]))
  {
    TokenizeMainDev();
    RenderMainDev();
    RefSelect.ParseComplete("main dev", [Ir.Ref("main", Tokens.Span(0, 4)), Ir.Ref("dev", Tokens.Span(5, 8))]);
  }

  lemma TokenizeParenAfterPath()
    ensures Tokens.Tokenize("my-branch()") == Success([
      Tokens.Ref("my-branch", Tokens.Span(0, 9)), Tokens.LParen(Tokens.Span(9, 10)),
      Tokens.RParen(Tokens.Span(10, 11))])
  {
    var s := "my-branch()";
    var ts := [
      Tokens.Ref("my-branch", Tokens.Span(0, 9)), Tokens.LParen(Tokens.Span(9, 10)),
      Tokens.RParen(Tokens.Span(10, 11))];
    assert Tokens.Lexeme(s, ts[0]) by {
      assert s[0..9] == "my-branch";
      assert !Tokens.IsIdentifier("my-branch") by {
        assert !Tokens.IsIdentContinue("my-branch"[2]);
      }
    }
    assert Tokens.Lexeme(s, ts[1]) && Tokens.Lexeme(s, ts[2]);
    assert Tokens.Tiles(s, 11, ts[3..]);
    assert Tokens.Tiles(s, 10, ts[2..]);
    assert Tokens.Tiles(s, 9, ts[1..]);
    assert Tokens.Tiles(s, 0, ts);
    Tokens.TokenizeIsTiling(s, ts);
  }

  /** Only an identifier can name a call: a `(` after a path-like reference
    * stops the syntax builder. */
  lemma ParseParenAfterPath()
    ensures RefSelect.Parse("my-branch()") == Failure(RefSelect.ParseAstFromTokens(Ast.UnexpectedToken(1)))
  {
    TokenizeParenAfterPath();
    var ts := Tokens.Tokenize("my-branch()").value;
    assert Ast.ParseNode(ts, 0) == Some((Ast.AstNode.Ref("my-branch", Tokens.Span(0, 9)), 1));
    assert Ast.ParseNodes(ts, 1) == ([], 1);
  }

  /** A quoted literal may not hold a space: no rule applies at the quote. */
  lemma ParseSpaceInQuotes()
    ensures RefSelect.Parse("\"a b\"") == Failure(RefSelect.TokenizeString(Tokens.Unexpected(0)))
  {
    var s := "\"a b\"";
    assert Tokens.Scan(s, 0, Tokens.IsInlineWhitespace) == 0;
    assert Tokens.Scan(s, 1, Tokens.IsQuotedChar) == 2;
    assert Tokens.LexQuoted(s, 0).None?;
    assert Tokens.LexToken(s, 0).None?;
    assert Tokens.TokenizeFrom(s, 0) == Failure(Tokens.Unexpected(0));
    assert Tokens.Tokenize(s) == Failure(Tokens.Unexpected(0));
  }

  /** A provider that lists two branches on its first call. */
  function TwoBranches(k: nat): RefSelect.LocalsResult<string, string> {
    if k == 0 then Success([Success("dev"), Success("feature/x")]) else Failure("no more calls")
  }

  /** A provider whose `locals()` cannot start. */
  function Broken(k: nat): RefSelect.LocalsResult<string, string> {
    Failure("git exited with status 128")
  }

  /** One reference and one call of `locals()`. */
  lemma MainThenLocalsCounts()
    ensures RefSelect.LocalsCount(MainThenLocalsQuery.nodes) == 1
    ensures RefSelect.RefValues(MainThenLocalsQuery.nodes) == ["main"]
  {
    var nodes := MainThenLocalsQuery.nodes;
    assert nodes[..1] == [Ir.Ref("main", Tokens.Span(0, 6))];
    assert nodes[..1][..0] == [];
  }

  /** A query with one `locals()` call and the one literal `main`, run
    * against `TwoBranches`, wherever the literal stands: `main` first, then
    * the two branches the provider lists. */
  method SelectTwoBranches(query: Ir.Query) returns (items: seq<Result<string, string>>)
    requires RefSelect.LocalsCount(query.nodes) == 1
    requires RefSelect.RefValues(query.nodes) == ["main"]
    ensures items == [Success("main"), Success("dev"), Success("feature/x")]
  {
    var r, calls := RefSelect.Select(query, TwoBranches);
    assert TwoBranches(0).Success?;
    assert r.Success?;
    var provided := RefSelect.ProviderItems(TwoBranches, calls);
    assert provided == [[Success("dev"), Success("feature/x")]];
    assert RefSelect.Concat(provided) == [Success("dev"), Success("feature/x")] by {
      assert provided[1..] == [];
    }
    items := r.value;
  }

  /** The whole run for `MainThenLocals`: the string parses into `query`,
    * and running `query` yields the literal first, then what the provider
    * listed, in its order. */
  method SelectMainThenLocals() returns (query: Ir.Query, items: seq<Result<string, string>>)
    ensures RefSelect.Parse(MainThenLocals) == Success(query)
    ensures items == [Success("main"), Success("dev"), Success("feature/x")]
  {
    ParseMainThenLocals();
    query := MainThenLocalsQuery;
    MainThenLocalsCounts();
    items := SelectTwoBranches(query);
  }

  /** An initialisation error ends the expansion at the first `locals()`
    * call; no iterator is made. */
  method SelectWithBrokenProvider() returns (r: Result<RefSelect.Expansion<string>, string>, calls: nat)
    ensures r == Failure("git exited with status 128") && calls == 1
  {
    var query := MainThenLocalsQuery;
    MainThenLocalsCounts();
    r, calls := RefSelect.ExpandRefs(query, Broken);
    assert !Broken(0).Success?;
  }

  /** A `locals()` call, then a branch name. */
  const LocalsThenMain: string := "locals() main"

  const LocalsThenMainQuery: Ir.Query :=
    Ir.Query([Ir.Locals(Tokens.Span(0, 6)), Ir.Ref("main", Tokens.Span(9, 13))])

  lemma TokenizeLocalsThenMain()
    ensures Tokens.Tokenize(LocalsThenMain) == Success([
      Tokens.Ident("locals", Tokens.Span(0, 6)), Tokens.LParen(Tokens.Span(6, 7)),
      Tokens.RParen(Tokens.Span(7, 8)), Tokens.Ref("main", Tokens.Span(9, 13))])
  {
    var s := LocalsThenMain;
    var ts := [
      Tokens.Ident("locals", Tokens.Span(0, 6)), Tokens.LParen(Tokens.Span(6, 7)),
      Tokens.RParen(Tokens.Span(7, 8)), Tokens.Ref("main", Tokens.Span(9, 13))];
    assert Tokens.Lexeme(s, ts[0]) by {
      assert s[0..6] == "locals";
      assert Tokens.IsIdentifier("locals");
    }
    assert Tokens.Lexeme(s, ts[3]) by {
      assert s[9..13] == "main";
    }
    assert Tokens.Lexeme(s, ts[1]) && Tokens.Lexeme(s, ts[2]);
    assert Tokens.Tiles(s, 13, ts[4..]);
    assert Tokens.Tiles(s, 8, ts[3..]) by {
      assert Tokens.AllWhitespace(s, 8, 9);
    }
    assert Tokens.Tiles(s, 7, ts[2..]);
    assert Tokens.Tiles(s, 6, ts[1..]);
    assert Tokens.Tiles(s, 0, ts);
    Tokens.TokenizeIsTiling(s, ts);
  }

  /** The tokens of `LocalsThenMain` spell the syntax of its query. */
  lemma RenderLocalsThenMain()
    ensures Ast.Spells([
              Tokens.Ident("locals", Tokens.Span(0, 6)), Tokens.LParen(Tokens.Span(6, 7)),
              Tokens.RParen(Tokens.Span(7, 8)), Tokens.Ref("main", Tokens.Span(9, 13))],
            Ir.LowerAll(LocalsThenMainQuery.nodes))
  {
    var ns := Ir.LowerAll(LocalsThenMainQuery.nodes);
    assert ns == [Ast.Call("locals", Tokens.Span(0, 6), []), Ast.AstNode.Ref("main", Tokens.Span(9, 13))];
    assert ns[1..][1..] == [];
    assert Ast.RenderAll([]) == [];
    assert Ast.RenderAll(ns[1..]) == [Tokens.Ref("main", Tokens.Span(9, 13))];
    assert Ast.Render(ns[0]) == [Tokens.Ident("locals", Tokens.Span(0, 6)),
      Tokens.LParen(Tokens.Span(0, 6)), Tokens.RParen(Tokens.Span(0, 6))];
    assert Ast.RenderAll(ns) == [
      Tokens.Ident("locals", Tokens.Span(0, 6)), Tokens.LParen(Tokens.Span(0, 6)),
      Tokens.RParen(Tokens.Span(0, 6)), Tokens.Ref("main", Tokens.Span(9, 13))];
  }

  /** `LocalsThenMain` parses into a `Locals` node and then a reference. */
  lemma ParseLocalsThenMain()
    ensures RefSelect.Parse(LocalsThenMain) == Success(LocalsThenMainQuery)
  {
    TokenizeLocalsThenMain();
    RenderLocalsThenMain();
    RefSelect.ParseComplete(LocalsThenMain, LocalsThenMainQuery.nodes);
  }

  lemma LocalsThenMainCounts()
    ensures RefSelect.LocalsCount(LocalsThenMainQuery.nodes) == 1
    ensures RefSelect.RefValues(LocalsThenMainQuery.nodes) == ["main"]
  {
    var nodes := LocalsThenMainQuery.nodes;
    assert nodes[..1] == [Ir.Locals(Tokens.Span(0, 6))];
    assert nodes[..1][..0] == [];
  }

  /** The literal reference comes out before the provider's results even
    * though the `locals()` call precedes it in the query: every literal is
    * yielded before any provider result. */
  method SelectLocalsThenMain() returns (query: Ir.Query, items: seq<Result<string, string>>)
    ensures RefSelect.Parse(LocalsThenMain) == Success(query)
    ensures items == [Success("main"), Success("dev"), Success("feature/x")]
  {
    ParseLocalsThenMain();
    query := LocalsThenMainQuery;
    LocalsThenMainCounts();
    items := SelectTwoBranches(query);
  }
}
