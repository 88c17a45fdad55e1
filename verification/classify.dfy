/** Node classification: the flags a candidate statement sets, the one-level
    unwrapping of an arrow function and the name a declaration carries. */
module Classify {
  import opened Wrappers
  import opened Ast
  import opened Record

  /** The node processing continues on: the statement itself, or the arrow
      function an expression statement wraps. */
  datatype Node = StatementNode(stmt: Statement) | ArrowNode(fn: Function)

  /** `update`: `isAsync` and `isGenerator` come from the statement's own
      function or from the one its expression is; `isExpression` is the negated
      `expression` field of the statement, which for a declaration is the
      parser's flag and for an expression statement is the (present) inner node. */
  function Update(s: Statement, r: ResultRecord): (r': ResultRecord)
    requires IsCandidate(s)
    ensures r'.isAsync <==> FunctionOf(s).Some? && FunctionOf(s).value.isAsync
    ensures r'.isGenerator <==> FunctionOf(s).Some? && FunctionOf(s).value.isGenerator
    ensures r'.isExpression <==> s.FunctionDeclaration? && !s.fn.expression
    ensures r' == r.(isAsync := r'.isAsync, isGenerator := r'.isGenerator, isExpression := r'.isExpression)
  {
    // node.async / node.generator exist on declarations only
    var ownAsync := s.FunctionDeclaration? && s.fn.isAsync;
    var ownGenerator := s.FunctionDeclaration? && s.fn.isGenerator;
    // node.expression.async: on a declaration `expression` is a boolean, whose `async` is undefined
    var exprAsync := match s
      case ExpressionStatement(FunctionExpression(fn)) => fn.isAsync
      case ExpressionStatement(ArrowFunctionExpression(fn)) => fn.isAsync
      case _ => false;
    var exprGenerator := match s
      case ExpressionStatement(FunctionExpression(fn)) => fn.isGenerator
      case ExpressionStatement(ArrowFunctionExpression(fn)) => fn.isGenerator
      case _ => false;
    var noExpression := match s
      case FunctionDeclaration(_, fn) => !fn.expression
      case _ => false;
    r.(isAsync := ownAsync || exprAsync,
       isGenerator := ownGenerator || exprGenerator,
       isExpression := noExpression)
  }

  /** `visitArrows`: an expression statement wrapping an arrow function marks
      the record as an arrow and hands on the inner function; anything else
      passes through untouched. */
  function VisitArrows(s: Statement, r: ResultRecord): (res: (Node, ResultRecord))
    ensures res.1.isArrow <==> r.isArrow || IsArrowStatement(s)
    ensures res.1 == r.(isArrow := res.1.isArrow)
    ensures IsArrowStatement(s) ==> res.0 == ArrowNode(s.expression.fn)
    ensures !IsArrowStatement(s) ==> res.0 == StatementNode(s)
  {
    match s
    case ExpressionStatement(ArrowFunctionExpression(fn)) => (ArrowNode(fn), r.(isArrow := true))
    case _ => (StatementNode(s), r)
  }

  /** `visitFunctions`: a declaration names the record after its identifier,
      or `anonymous` when the identifier covers no text. */
  function VisitFunctions(node: Node, r: ResultRecord): (r': ResultRecord)
    ensures r' == r.(name := r'.name)
    ensures node.StatementNode? && node.stmt.FunctionDeclaration? ==>
              r'.name == (if node.stmt.id.span.start == node.stmt.id.span.end then Anonymous else node.stmt.id.name)
    ensures !(node.StatementNode? && node.stmt.FunctionDeclaration?) ==> r' == r
  {
    match node
    case StatementNode(FunctionDeclaration(id, _)) =>
      r.(name := if id.span.start == id.span.end then Anonymous else id.name)
    case _ => r
  }

  /** The `!node.body && !node.params` test: only function nodes carry a body
      and parameters, so an expression statement left unwrapped is skipped. */
  function Target(node: Node): (r: Option<Function>)
    ensures r.Some? <==> node.ArrowNode? || node.stmt.FunctionDeclaration?
  {
    match node
    case ArrowNode(fn) => Some(fn)
    case StatementNode(FunctionDeclaration(_, fn)) => Some(fn)
    case StatementNode(_) => None
  }
}
