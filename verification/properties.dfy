/** What one call of `parseFunction` reports about the function it finds, and
    how several candidates in one text combine. */
module Properties {
  import opened Wrappers
  import opened Strings
  import opened Ast
  import opened Record
  import opened Normalize
  import opened Params
  import opened Body
  import opened Name
  import opened Pipeline

  /** The name a function-bearing statement ends up reporting. */
  function ReportedName(s: Statement): string
  {
    if s.FunctionDeclaration? && s.id.span.start != s.id.span.end && s.id.name != Placeholder
    then s.id.name
    else Anonymous
  }

  /** The input is valid and the parser returns a tree whose only candidate
      statement, at `k`, is a function declaration or an arrow function, with
      offsets inside the parsed text. */
  ghost predicate OneFunction(code: Code, parse: Parser, k: int)
  {
    var d := GetDefaults(code);
    && d.valid
    && parse(d.orig).Success?
    && var stmts := TopLevel(parse(d.orig).value);
       && OnlyCandidate(stmts, k)
       && IsFunctionBearing(stmts[k])
       && WellFormedFunction(FunctionOf(stmts[k]).value, |d.orig|)
  }

  /** The candidate statement of a one-function text. */
  ghost function Candidate(code: Code, parse: Parser, k: int): Statement
    requires OneFunction(code, parse, k)
  {
    TopLevel(parse(GetDefaults(code).orig).value)[k]
  }

  /** The record of a one-function text is the resolved result of its single candidate step. */
  lemma OneFunctionStep(code: Code, parse: Parser, k: int)
    requires OneFunction(code, parse, k)
    ensures ParseFunction(code, parse) == Success(FixName(Step(GetDefaults(code), Candidate(code, parse, k))))
  {
    WalkSingleCandidate(GetDefaults(code), TopLevel(parse(GetDefaults(code).orig).value), k);
  }

  /** For a text holding one function, `args` lists its parameter names, one
      per node in list order, and `params` joins them. */
  lemma OneFunctionArgs(code: Code, parse: Parser, k: int)
    requires OneFunction(code, parse, k)
    ensures ParseFunction(code, parse).Success?
    ensures var ps := FunctionOf(Candidate(code, parse, k)).value.params;
            var v := ParseFunction(code, parse).value;
            && |v.args| == |ps|
            && (forall i :: 0 <= i < |ps| ==> v.args[i] == NameOf(ps[i]))
            && v.params == Join(v.args)
  {
    OneFunctionCollections(code, parse, k);
  }

  /** For a text holding one function, `defaults` has exactly one key per
      distinct name in `args`, and a name's value is the exact default source
      of its last occurrence, or none when that occurrence has no default. */
  lemma OneFunctionDefaults(code: Code, parse: Parser, k: int)
    requires OneFunction(code, parse, k)
    ensures ParseFunction(code, parse).Success?
    ensures var orig := GetDefaults(code).orig;
            var ps := FunctionOf(Candidate(code, parse, k)).value.params;
            var v := ParseFunction(code, parse).value;
            && v.defaults.Keys == (set i | 0 <= i < |v.args| :: v.args[i])
            && (forall i :: 0 <= i < |ps| ==> NameOf(ps[i]) in v.defaults)
            && (forall i :: 0 <= i < |ps| && LastWithName(ps, i) ==>
                  v.defaults[NameOf(ps[i])] ==
                    (if ps[i].AssignmentPattern? then Some(orig[ps[i].right.start..ps[i].right.end]) else None))
  {
    var orig := GetDefaults(code).orig;
    var ps := FunctionOf(Candidate(code, parse, k)).value.params;
    OneFunctionCollections(code, parse, k);
    FreshDefaults(ps, orig);
    assert forall i :: 0 <= i < |ps| ==> NameOf(ps[i]) == Names(ps)[i];
  }

  lemma OneFunctionCollections(code: Code, parse: Parser, k: int)
    requires OneFunction(code, parse, k)
    ensures ParseFunction(code, parse).Success?
    ensures var v := ParseFunction(code, parse).value;
            var ps := FunctionOf(Candidate(code, parse, k)).value.params;
            && v.args == Names(ps)
            && v.defaults == AddDefaults(map[], ps, GetDefaults(code).orig)
            && ParamsInBounds(ps, |GetDefaults(code).orig|)
  {
    var d := GetDefaults(code);
    var ps := FunctionOf(Candidate(code, parse, k)).value.params;
    OneFunctionStep(code, parse, k);
    StepOnFunction(d, Candidate(code, parse, k));
    assert |ps| == 0 ==> AddDefaults(map[], ps, d.orig) == map[];
  }

  /** For a text holding one function, the body is the function body's source
      with one brace pair removed, the flags come from the function node, and
      the name is the declared identifier unless it is empty or the placeholder. */
  lemma OneFunctionShape(code: Code, parse: Parser, k: int)
    requires OneFunction(code, parse, k)
    ensures ParseFunction(code, parse).Success?
    ensures var orig := GetDefaults(code).orig;
            var s := Candidate(code, parse, k);
            var fn := FunctionOf(s).value;
            var v := ParseFunction(code, parse).value;
            && v.valid && v.orig == orig
            && v.body == StripBraces(orig[fn.body.start..fn.body.end])
            && (v.isArrow <==> IsArrowStatement(s))
            && v.isAsync == fn.isAsync
            && v.isGenerator == fn.isGenerator
            && (v.isExpression <==> s.FunctionDeclaration? && !fn.expression)
            && v.name == ReportedName(s)
            && (v.isAnonymous <==> v.name == Anonymous)
            && (v.isNamed <==> v.name != Anonymous)
  {
    OneFunctionStep(code, parse, k);
    StepOnFunction(GetDefaults(code), Candidate(code, parse, k));
  }

  /** A parenthesised function expression is an expression statement without
      body or parameters of its own: its flags are recorded, nothing else is. */
  lemma WrappedFunctionExpressionSkipped(code: Code, parse: Parser, k: int)
    requires GetDefaults(code).valid && parse(GetDefaults(code).orig).Success?
    requires OnlyCandidate(TopLevel(parse(GetDefaults(code).orig).value), k)
    requires TopLevel(parse(GetDefaults(code).orig).value)[k].ExpressionStatement?
    requires TopLevel(parse(GetDefaults(code).orig).value)[k].expression.FunctionExpression?
    ensures ParseFunction(code, parse).Success?
    ensures var fn := TopLevel(parse(GetDefaults(code).orig).value)[k].expression.fn;
            var v := ParseFunction(code, parse).value;
            && v.args == [] && v.params == "" && v.body == "" && v.defaults == map[]
            && v.name == Anonymous && v.isAnonymous && !v.isArrow && !v.isExpression
            && v.isAsync == fn.isAsync && v.isGenerator == fn.isGenerator
  {
    WalkSingleCandidate(GetDefaults(code), TopLevel(parse(GetDefaults(code).orig).value), k);
  }

  /** Arguments keep being appended across candidates: two declarations with
      parameters report both lists, in order, and the second one's name and body. */
  lemma ArgsAccumulateAcrossCandidates(r: ResultRecord, id1: Ident, f1: Function, id2: Ident, f2: Function)
    requires r.args == []
    requires |f1.params| > 0 && |f2.params| > 0
    ensures var v := Walk(r, [FunctionDeclaration(id1, f1), FunctionDeclaration(id2, f2)]);
            && v.args == Names(f1.params) + Names(f2.params)
            && v.params == Join(Names(f1.params) + Names(f2.params))
            && v.body == FixBody(f2.body, r).body
            && v.name == (if id2.span.start == id2.span.end then Anonymous else id2.name)
  {
    var s1 := FunctionDeclaration(id1, f1);
    var s2 := FunctionDeclaration(id2, f2);
    WalkTwo(r, s1, s2);
    StepOnFunction(r, s1);
    StepOnFunction(Step(r, s1), s2);
  }

  /** A later candidate without parameters empties `args` but keeps the
      defaults already recorded, so `defaults` can name parameters `args` no longer lists. */
  lemma EmptyParamsResetArgsOnly(r: ResultRecord, id1: Ident, f1: Function, id2: Ident, f2: Function)
    requires r.args == [] && r.defaults == map[]
    requires |f1.params| > 0 && |f2.params| == 0
    ensures var v := Walk(r, [FunctionDeclaration(id1, f1), FunctionDeclaration(id2, f2)]);
            && v.args == [] && v.params == ""
            && v.defaults.Keys == ParamNames(f1.params)
            && NameOf(f1.params[0]) in v.defaults
  {
    var s1 := FunctionDeclaration(id1, f1);
    var s2 := FunctionDeclaration(id2, f2);
    WalkTwo(r, s1, s2);
    StepOnFunction(r, s1);
    StepOnFunction(Step(r, s1), s2);
  }

  lemma WalkTwo(r: ResultRecord, s1: Statement, s2: Statement)
    ensures Walk(r, [s1, s2]) == Step(Step(r, s1), s2)
  {
    var stmts := [s1, s2];
    assert stmts[1..] == [s2];
    assert Walk(r, stmts) == Walk(Step(r, s1), [s2]);
    assert [s2][1..] == [];
    assert Walk(Step(r, s1), [s2]) == Walk(Step(Step(r, s1), s2), []);
  }
}
