/** The query builder (src/ir.rs): semantic validation of the top-level
  * syntax nodes into query nodes. References pass through; the only call
  * that is recognised is `locals` with no arguments. Validation is all or
  * nothing: the first rejected node fails the whole stage. */
module Ir {
  import opened Wrappers
  import Tokens
  import Ast

  datatype QueryNode =
    | Ref(value: string, span: Tokens.Span)
    | Locals(span: Tokens.Span)

  /** A validated query: its nodes in the order the expansion emits them. */
  datatype Query = Query(nodes: seq<QueryNode>)

  datatype QueryFromAstError =
    | IncorrectArgCount(call: Ast.AstNode)
    | InvalidCall(name: string, span: Tokens.Span)

  /** The name of the one built-in query. */
  const LocalsName: string := "locals"

  /** The syntax node a query node is validated from. */
  function Lower(q: QueryNode): Ast.AstNode {
    match q
    case Ref(value, span) => Ast.AstNode.Ref(value, span)
    case Locals(span) => Ast.Call(LocalsName, span, [])
  }

  function LowerAll(qs: seq<QueryNode>): seq<Ast.AstNode> {
    seq(|qs|, k requires 0 <= k < |qs| => Lower(qs[k]))
  }

  /** One top-level node. A node is accepted exactly when it is the lowering
    * of the query node produced; a call named `locals` with arguments is an
    * argument-count error carrying the call, any other call name an invalid
    * call carrying the identifier, whatever its arguments. */
  function ValidateNode(n: Ast.AstNode): (r: Result<QueryNode, QueryFromAstError>)
    ensures r.Success? ==> Lower(r.value) == n
    ensures r.Failure? <==> n.Call? && (n.name != LocalsName || n.args != [])
    ensures r == Failure(IncorrectArgCount(n)) <==> n.Call? && n.name == LocalsName && n.args != []
    ensures n.Call? ==> (r == Failure(InvalidCall(n.name, n.span)) <==> n.name != LocalsName)
  {
    match n
    case Ref(value, span) => Success(Ref(value, span))
    case Call(name, span, args) =>
      if name == LocalsName then
        if |args| == 0 then Success(Locals(span)) else Failure(IncorrectArgCount(n))
      else Failure(InvalidCall(name, span))
  }

  /** `QueryNode::parser().repeated()` followed by `end()`: every top-level
    * node validated, in order. On success there is one query node per
    * syntax node, and lowering gives the syntax nodes back (so nested
    * arguments never reach the query). */
  function BuildQuery(nodes: seq<Ast.AstNode>): (r: Result<Query, QueryFromAstError>)
    ensures r.Success? ==> LowerAll(r.value.nodes) == nodes
  {
    if nodes == [] then Success(Query([]))
    else
      match ValidateNode(nodes[0])
      case Failure(e) => Failure(e)
      case Success(q) =>
        match BuildQuery(nodes[1..])
        case Failure(e) => Failure(e)
        case Success(rest) =>
          assert LowerAll([q] + rest.nodes) == [nodes[0]] + nodes[1..];
          Success(Query([q] + rest.nodes))
  }

  /** Validation is all or nothing: it succeeds exactly when every node is
    * accepted, and otherwise reports the error of the first rejected node. */
  lemma {:induction false} BuildQueryAllOrNothing(nodes: seq<Ast.AstNode>)
    ensures BuildQuery(nodes).Success? <==> forall k :: 0 <= k < |nodes| ==> ValidateNode(nodes[k]).Success?
    ensures BuildQuery(nodes).Failure? ==>
      exists k :: 0 <= k < |nodes| && ValidateNode(nodes[k]) == Failure(BuildQuery(nodes).error)
        && forall j :: 0 <= j < k ==> ValidateNode(nodes[j]).Success?
  {
    if nodes != [] {
      BuildQueryAllOrNothing(nodes[1..]);
      if ValidateNode(nodes[0]).Success? {
        assert forall k :: 1 <= k < |nodes| ==> nodes[k] == nodes[1..][k - 1];
        if BuildQuery(nodes).Failure? {
          var k :| 0 <= k < |nodes[1..]| && ValidateNode(nodes[1..][k]) == Failure(BuildQuery(nodes).error)
            && forall j :: 0 <= j < k ==> ValidateNode(nodes[1..][j]).Success?;
          assert forall j :: 1 <= j < k + 1 ==> nodes[j] == nodes[1..][j - 1];
          assert ValidateNode(nodes[k + 1]) == Failure(BuildQuery(nodes).error);
        }
      } else {
        assert ValidateNode(nodes[0]) == Failure(BuildQuery(nodes).error);
      }
    }
  }

  /** Every query is built from its lowering. */
  lemma {:induction false} BuildQueryLowered(qs: seq<QueryNode>)
    ensures BuildQuery(LowerAll(qs)) == Success(Query(qs))
    decreases |qs|
  {
    var nodes := LowerAll(qs);
    if qs != [] {
      assert nodes[1..] == LowerAll(qs[1..]);
      BuildQueryLowered(qs[1..]);
      assert [qs[0]] + qs[1..] == qs;
    }
  }
}
