/** The syntax tree the external parser hands to the pipeline, reduced to the
    node kinds and fields the pipeline reads. Offsets index the text that was
    parsed, half-open: a node covers `text[start..end]`. */
module Ast {
  import opened Wrappers

  datatype Span = Span(start: nat, end: nat)

  /** The identifier of a function declaration together with its position. */
  datatype Ident = Ident(name: string, span: Span)

  /** One entry of a function's parameter list. */
  datatype Param =
    | Identifier(name: string)
    | AssignmentPattern(left: string, right: Span)
    | RestElement(argument: string)

  /** The fields shared by function declarations, function expressions and
      arrow functions. `expression` is the parser's own flag on function
      nodes (false for every declaration). */
  datatype Function = Function(
    isAsync: bool,
    isGenerator: bool,
    expression: bool,
    params: seq<Param>,
    body: Span)

  datatype Expression =
    | FunctionExpression(fn: Function)
    | ArrowFunctionExpression(fn: Function)
    | OtherExpression

  /** A top-level statement; every kind other than the two below is `OtherStatement`. */
  datatype Statement =
    | FunctionDeclaration(id: Ident, fn: Function)
    | ExpressionStatement(expression: Expression)
    | OtherStatement

  /** The parser returns either a file node holding a program, or a program node. */
  datatype Tree = File(program: seq<Statement>) | Program(body: seq<Statement>)

  /** `(ast.program ? ast.program : ast).body`. */
  function TopLevel(t: Tree): seq<Statement>
  {
    match t
    case File(p) => p
    case Program(b) => b
  }

  /** Only expression statements and function declarations are looked at. */
  predicate IsCandidate(s: Statement)
  {
    s.FunctionDeclaration? || s.ExpressionStatement?
  }

  predicate IsArrowStatement(s: Statement)
  {
    s.ExpressionStatement? && s.expression.ArrowFunctionExpression?
  }

  /** The candidates whose parameters and body get extracted. */
  predicate IsFunctionBearing(s: Statement)
  {
    s.FunctionDeclaration? || IsArrowStatement(s)
  }

  /** The function a statement declares or wraps, if any. */
  function FunctionOf(s: Statement): Option<Function>
  {
    match s
    case FunctionDeclaration(_, fn) => Some(fn)
    case ExpressionStatement(FunctionExpression(fn)) => Some(fn)
    case ExpressionStatement(ArrowFunctionExpression(fn)) => Some(fn)
    case _ => None
  }

  predicate InBounds(sp: Span, n: nat)
  {
    sp.start <= sp.end <= n
  }

  /** A default's right-hand side lies inside a text of length `n`. */
  predicate ParamInBounds(p: Param, n: nat)
  {
    p.AssignmentPattern? ==> InBounds(p.right, n)
  }

  predicate ParamsInBounds(ps: seq<Param>, n: nat)
  {
    forall i :: 0 <= i < |ps| ==> ParamInBounds(ps[i], n)
  }

  /** Every offset the pipeline slices with lies inside a text of length `n`. */
  predicate WellFormedFunction(fn: Function, n: nat)
  {
    InBounds(fn.body, n) && ParamsInBounds(fn.params, n)
  }
}
