/** The `parseFunction` main loop: normalise, parse once, walk the top-level
    statements, resolve the name. */
module Pipeline {
  import opened Wrappers
  import opened Strings
  import opened Ast
  import opened Record
  import opened Normalize
  import opened Classify
  import opened Params
  import opened Body
  import opened Name

  /** What a call can throw: the parser's own diagnostic, passed on unchanged,
      or the reference error of reading a variable before its initialisation. */
  datatype Thrown = ParserError(message: string) | ReferenceError(identifier: string)

  /** The parser: source text to tree, or the error it throws. */
  type Parser = string -> Result<Tree, string>

  /** The body of the `forEach` over the top-level statements. */
  function Step(r: ResultRecord, s: Statement): (r': ResultRecord)
    ensures r'.orig == r.orig && r'.valid == r.valid
    ensures r'.isNamed == r.isNamed && r'.isAnonymous == r.isAnonymous
    ensures !IsCandidate(s) ==> r' == r
    ensures r'.isArrow <==> r.isArrow || IsArrowStatement(s)
    ensures r.params == Join(r.args) ==> r'.params == Join(r'.args)
    ensures ArgsHaveDefaults(r) ==> ArgsHaveDefaults(r')
  {
    if !IsCandidate(s) then r
    else
      var r1 := Update(s, r);
      var visited := VisitArrows(s, r1);
      var node := visited.0;
      var r3 := VisitFunctions(node, visited.1);
      match Target(node)
      case None => r3
      case Some(fn) => FixBody(fn.body, VisitParams(fn.params, r3))
  }

  /** All statements in source order, each one working on the record the previous one left. */
  function Walk(r: ResultRecord, stmts: seq<Statement>): (r': ResultRecord)
    ensures r'.orig == r.orig && r'.valid == r.valid
    ensures r'.isNamed == r.isNamed && r'.isAnonymous == r.isAnonymous
    ensures r'.isArrow <==> r.isArrow || exists i :: 0 <= i < |stmts| && IsArrowStatement(stmts[i])
    ensures r.params == Join(r.args) ==> r'.params == Join(r'.args)
    ensures ArgsHaveDefaults(r) ==> ArgsHaveDefaults(r')
    decreases |stmts|
  {
    if |stmts| == 0 then r
    else
      var r' := Walk(Step(r, stmts[0]), stmts[1..]);
      assert forall i :: 0 < i < |stmts| ==> stmts[i] == stmts[1..][i - 1];
      r'
  }

  /** `parseFunction` with line 24 read as intended: invalid input returns the
      initial record without calling the parser; otherwise the parser's error
      propagates, or the walked record is returned after name resolution. */
  function ParseFunction(code: Code, parse: Parser): (out: Result<ResultRecord, Thrown>)
    ensures !GetDefaults(code).valid ==> out == Success(GetDefaults(code))
    ensures GetDefaults(code).valid ==> (out.Failure? <==> parse(GetDefaults(code).orig).Failure?)
    ensures out.Failure? ==> parse(GetDefaults(code).orig).Failure? &&
                             out.error == ParserError(parse(GetDefaults(code).orig).error)
    ensures out.Success? ==> out.value.valid == GetDefaults(code).valid && out.value.orig == GetDefaults(code).orig
    ensures out.Success? && out.value.valid ==>
              && (out.value.isAnonymous <==> out.value.name == Anonymous)
              && (out.value.isNamed <==> !out.value.isAnonymous)
              && out.value.name != Placeholder
              && out.value.params == Join(out.value.args)
              && ArgsHaveDefaults(out.value)
  {
    var result := GetDefaults(code);
    if !result.valid then Success(result)
    else
      match parse(result.orig)
      case Failure(e) => Failure(ParserError(e))
      case Success(ast) => Success(FixName(Walk(result, TopLevel(ast))))
  }

  /** Invalid input never reaches the parser: any two parsers give the same
      all-defaults record, whose `isAnonymous` is false although its name is `anonymous`. */
  lemma ParserNotReached(code: Code, p1: Parser, p2: Parser)
    requires !GetDefaults(code).valid
    ensures ParseFunction(code, p1) == ParseFunction(code, p2)
    ensures ParseFunction(code, p1).Success?
    ensures var v := ParseFunction(code, p1).value;
              !v.valid && AllDefaults(v) && v.orig == "" && v.name == Anonymous && !v.isAnonymous
  {
  }

  lemma {:induction false} WalkSkipsNonCandidates(r: ResultRecord, stmts: seq<Statement>)
    requires forall i :: 0 <= i < |stmts| ==> !IsCandidate(stmts[i])
    ensures Walk(r, stmts) == r
    decreases |stmts|
  {
    if |stmts| > 0 {
      assert !IsCandidate(stmts[0]);
      assert forall i :: 0 <= i < |stmts[1..]| ==> stmts[1..][i] == stmts[i + 1];
      WalkSkipsNonCandidates(r, stmts[1..]);
    }
  }

  /** The statement at `k` is the only one the loop looks at. */
  ghost predicate OnlyCandidate(stmts: seq<Statement>, k: int)
  {
    && 0 <= k < |stmts|
    && forall i :: 0 <= i < |stmts| && i != k ==> !IsCandidate(stmts[i])
  }

  /** Statements of other kinds leave the record alone, so a single candidate
      decides the walk. */
  lemma {:induction false} WalkSingleCandidate(r: ResultRecord, stmts: seq<Statement>, k: int)
    requires OnlyCandidate(stmts, k)
    ensures Walk(r, stmts) == Step(r, stmts[k])
    decreases |stmts|
  {
    if k == 0 {
      assert forall i :: 0 <= i < |stmts[1..]| ==> stmts[1..][i] == stmts[i + 1];
      WalkSkipsNonCandidates(Step(r, stmts[0]), stmts[1..]);
    } else {
      assert !IsCandidate(stmts[0]);
      assert forall i :: 0 <= i < |stmts[1..]| ==> stmts[1..][i] == stmts[i + 1];
      WalkSingleCandidate(r, stmts[1..], k - 1);
    }
  }

  /** What one function-bearing statement does to the record it is given. */
  lemma StepOnFunction(r: ResultRecord, s: Statement)
    requires IsFunctionBearing(s)
    ensures var fn := FunctionOf(s).value;
            var v := Step(r, s);
            && v.args == (if |fn.params| > 0 then r.args + Names(fn.params) else [])
            && v.params == Join(v.args)
            && v.defaults == (if |fn.params| > 0 then AddDefaults(r.defaults, fn.params, r.orig) else r.defaults)
            && v.body == StripBraces(Slice(r.orig, fn.body.start, fn.body.end))
            && v.isAsync == fn.isAsync && v.isGenerator == fn.isGenerator
            && (v.isExpression <==> s.FunctionDeclaration? && !fn.expression)
            && v.name == (if s.FunctionDeclaration? then
                            (if s.id.span.start == s.id.span.end then Anonymous else s.id.name)
                          else r.name)
  {
    var fn := FunctionOf(s).value;
    var r1 := Update(s, r);
    var visited := VisitArrows(s, r1);
    var r3 := VisitFunctions(visited.0, visited.1);
    assert Target(visited.0) == Some(fn);
    var r4 := VisitParams(fn.params, r3);
    assert Step(r, s) == FixBody(fn.body, r4);
    assert r3.args == r.args && r3.defaults == r.defaults && r3.orig == r.orig;
    if |fn.params| > 0 {
      assert r4.args == r.args + Names(fn.params);
    }
  }

  /** `parseFunction` with line 24 as written: the parse result is itself
      called, and its argument reads `ast` while `ast` is still being
      initialised, so every valid input that parses ends in a ReferenceError. */
  function ParseFunctionAsWritten(code: Code, parse: Parser): (out: Result<ResultRecord, Thrown>)
    ensures !GetDefaults(code).valid ==> out == Success(GetDefaults(code))
    ensures GetDefaults(code).valid ==> out.Failure?
    ensures GetDefaults(code).valid && parse(GetDefaults(code).orig).Success? ==> out == Failure(ReferenceError("ast"))
  {
    var result := GetDefaults(code);
    if !result.valid then Success(result)
    else
      match parse(result.orig)
      case Failure(e) => Failure(ParserError(e))
      case Success(_) => Failure(ReferenceError("ast"))
  }

  /** The two readings agree on invalid input and on parser errors, and
      differ on every valid input that parses: the intended one returns a
      valid record where the written one throws. */
  lemma AsWrittenDiffersFromIntended(code: Code, parse: Parser)
    ensures !GetDefaults(code).valid || parse(GetDefaults(code).orig).Failure? ==>
              ParseFunctionAsWritten(code, parse) == ParseFunction(code, parse)
    ensures GetDefaults(code).valid && parse(GetDefaults(code).orig).Success? ==>
              && ParseFunction(code, parse).Success? && ParseFunction(code, parse).value.valid
              && ParseFunctionAsWritten(code, parse) == Failure(ReferenceError("ast"))
  {
  }
}
