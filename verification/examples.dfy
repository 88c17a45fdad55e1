/** Concrete calls taken from the test suite's expected records. */
module Examples {
  import opened Wrappers
  import opened Strings
  import opened Ast
  import opened Record
  import opened Normalize
  import opened Params
  import opened Body
  import opened Pipeline
  import opened Properties

  /** A parser that returns the given tree whatever it is handed. */
  function Returns(t: Tree): Parser
  {
    (s: string) => Success(t)
  }

  /** A text in which `f` occurs only as its first character has at most
      one match of the pattern, at the start. */
  lemma OnlyLeadingF(s: string)
    requires |s| > 0 && 'f' !in s[1..]
    ensures forall j: nat, e: nat :: 0 < j ==> !MatchSpan(s, j, e)
  {
    forall j | 0 < j < |s| ensures s[j] != 'f' {
      assert s[j] == s[1..][j - 1];
    }
    forall j: nat, e: nat | MatchSpan(s, j, e) ensures s[j] == 'f' {
      assert s[j] == s[j..j + |Keyword|][0];
    }
  }

  /** The text the rewrite produces from `function (` followed by `rest`. */
  lemma RewriteLeading(rest: string)
    requires |rest| > 0 && rest[0] == '('
    ensures Rewrite("function " + rest) == "function " + Placeholder + rest
  {
    var s := "function " + rest;
    assert s[..8] == Keyword;
    assert s[8] == ' ' && s[9] == '(';
    assert MatchSpan(s, 0, 9);
    RewriteInsertsPlaceholder(s, 0);
    assert s[..9] == "function ";
    assert s[9..] == rest;
  }

  /** The middle piece of a three-part text is recovered by slicing at its offsets. */
  lemma MiddleSlice(a: string, b: string, c: string)
    ensures (a + b + c)[|a|..|a| + |b|] == b
  {
  }

  const AnonymousStatements: string := "return c * 3"
  const AnonymousBody: string := "{" + AnonymousStatements + "}"
  const AnonymousRest: string := "(c) " + AnonymousBody
  const AnonymousText: string := "function " + AnonymousRest
  const AnonymousOrig: string := "function " + Placeholder + AnonymousRest
  const AnonymousTree: Tree :=
    File([FunctionDeclaration(Ident(Placeholder, Span(9, 37)),
                              Function(false, false, false, [Identifier("c")], Span(41, 55)))])

  lemma AnonymousRewrite()
    ensures GetDefaults(Str(AnonymousText)).orig == AnonymousOrig
  {
    RewriteLeading(AnonymousRest);
  }

  lemma AnonymousBodySlice(orig: string)
    requires orig == AnonymousOrig
    ensures StripBraces(orig[41..55]) == "return c * 3"
  {
    assert orig == ("function " + Placeholder + "(c) ") + AnonymousBody + "";
    MiddleSlice("function " + Placeholder + "(c) ", AnonymousBody, "");
    StripWrapped(AnonymousStatements);
  }

  /** `function (c) {return c * 3}` is a text holding one function. */
  lemma AnonymousOneFunction(code: Code, parse: Parser)
    requires code == Str(AnonymousText) && parse == Returns(AnonymousTree)
    ensures OneFunction(code, parse, 0) && GetDefaults(code).orig == AnonymousOrig
    ensures Candidate(code, parse, 0) == TopLevel(AnonymousTree)[0]
  {
    AnonymousRewrite();
    assert OnlyCandidate(TopLevel(AnonymousTree), 0);
  }

  /** It reports an anonymous function, neither arrow, async nor generator,
      with body `return c * 3`. */
  lemma AnonymousShape(code: Code, parse: Parser)
    requires code == Str(AnonymousText) && parse == Returns(AnonymousTree)
    ensures ParseFunction(code, parse).Success?
    ensures var v := ParseFunction(code, parse).value;
            && v.valid && v.name == Anonymous && v.isAnonymous && !v.isNamed
            && v.body == "return c * 3"
            && !v.isArrow && !v.isAsync && !v.isGenerator && v.isExpression
  {
    AnonymousOneFunction(code, parse);
    OneFunctionShape(code, parse, 0);
    AnonymousBodySlice(GetDefaults(code).orig);
  }

  /** Its one argument is `c`, which has no default. */
  lemma AnonymousSingleParam(code: Code, parse: Parser)
    requires code == Str(AnonymousText) && parse == Returns(AnonymousTree)
    ensures ParseFunction(code, parse).Success?
    ensures var v := ParseFunction(code, parse).value;
            v.args == ["c"] && v.params == "c" && v.defaults == map["c" := None]
  {
    AnonymousOneFunction(code, parse);
    OneFunctionCollections(code, parse, 0);
    var v := ParseFunction(code, parse).value;
    assert v.args == ["c"];
    assert v.params == "c";
  }

  const DefaultSource: string := "{foo: \"ba)r\", baz: 123}"
  const DefaultsHead: string := "function " + Placeholder + "(a = "
  const DefaultsSignatureEnd: string := ", cb, ...restArgs) "
  const DefaultsStatements: string := "return a * 3"
  const DefaultsBody: string := "{" + DefaultsStatements + "}"
  const DefaultsTail: string := DefaultsSignatureEnd + DefaultsBody
  const DefaultsRest: string := "(a = " + DefaultSource + DefaultsTail
  const DefaultsText: string := "function " + DefaultsRest
  const DefaultsOrig: string := DefaultsHead + DefaultSource + DefaultsTail
  const DefaultsParams: seq<Param> :=
    [AssignmentPattern("a", Span(42, 65)), Identifier("cb"), RestElement("restArgs")]

  /** Only the anonymous signature is touched by the rewrite. */
  lemma DefaultsRewrite()
    ensures GetDefaults(Str(DefaultsText)).orig == DefaultsOrig
  {
    RewriteLeading(DefaultsRest);
  }

  /** Three parameters of the three kinds contribute their three names, in
      order, joined by `, `. */
  lemma ThreeParamNames(a: string, b: string, c: string, right: Span, r: ResultRecord)
    requires r.args == []
    ensures var v := VisitParams([AssignmentPattern(a, right), Identifier(b), RestElement(c)], r);
            v.args == [a, b, c] && v.params == a + Separator + (b + Separator + c)
  {
    var v := VisitParams([AssignmentPattern(a, right), Identifier(b), RestElement(c)], r);
    assert v.args == [a, b, c];
    assert [a, b, c][1..] == [b, c];
    assert [b, c][1..] == [c];
    assert Join([b, c]) == b + Separator + c;
    assert Join([a, b, c]) == a + Separator + Join([b, c]);
  }

  /** The defaulted parameter records its default's exact source text; the
      plain and the rest parameter record none. */
  lemma ThreeParamDefaults(ps: seq<Param>, r: ResultRecord)
    requires ps == DefaultsParams && r.defaults == map[] && r.orig == DefaultsOrig
    ensures var v := VisitParams(ps, r);
            v.defaults == map["a" := Some("{foo: \"ba)r\", baz: 123}"), "cb" := None, "restArgs" := None]
  {
    var v := VisitParams(ps, r);
    MiddleSlice(DefaultsHead, DefaultSource, DefaultsTail);
    assert DefaultOf(ps[0], r.orig) == Some(DefaultSource);
    assert LastWithName(ps, 0) && LastWithName(ps, 1) && LastWithName(ps, 2);
    assert ParamNames(ps) == {"a", "cb", "restArgs"} by {
      assert NameOf(ps[0]) == "a" && NameOf(ps[1]) == "cb" && NameOf(ps[2]) == "restArgs";
    }
  }

  /** The braced body of the same test loses exactly its outer braces. */
  lemma DefaultsBodySlice(r: ResultRecord)
    requires r.orig == DefaultsOrig
    ensures FixBody(Span(84, 98), r).body == "return a * 3"
  {
    assert r.orig == (DefaultsHead + DefaultSource + DefaultsSignatureEnd) + DefaultsBody + "";
    MiddleSlice(DefaultsHead + DefaultSource + DefaultsSignatureEnd, DefaultsBody, "");
    StripWrapped(DefaultsStatements);
  }

  const NamedText: string := "function namedFn () {}"
  const NamedTree: Tree :=
    File([FunctionDeclaration(Ident("namedFn", Span(9, 16)),
                              Function(false, false, false, [], Span(20, 22)))])

  lemma NamedRewrite()
    ensures GetDefaults(Str(NamedText)).orig == NamedText
  {
    var s := NamedText;
    OnlyLeadingF(s);
    assert SpacesEnd(s, 9) == 9;
    assert SpacesEnd(s, 8) == 9;
    assert MatchEndAt(s, 0) == None;
    assert NoMatch(s);
  }

  /** A declared name is kept; an empty parameter list and an empty block
      give no arguments and an empty body. */
  lemma NamedEmpty()
    ensures ParseFunction(Str(NamedText), Returns(NamedTree)).Success?
    ensures var v := ParseFunction(Str(NamedText), Returns(NamedTree)).value;
            && v.valid && v.name == "namedFn" && v.isNamed && !v.isAnonymous
            && v.args == [] && v.params == "" && v.body == "" && v.defaults == map[]
  {
    var code := Str(NamedText);
    var parse := Returns(NamedTree);
    NamedRewrite();
    assert OnlyCandidate(TopLevel(NamedTree), 0);
    assert OneFunction(code, parse, 0);
    OneFunctionArgs(code, parse, 0);
    OneFunctionDefaults(code, parse, 0);
    OneFunctionShape(code, parse, 0);
    assert NamedText[20..22] == "{}";
    StripWrapped("");
  }

  const ArrowText: string := "() => {}"
  const ArrowTree: Tree :=
    Program([ExpressionStatement(ArrowFunctionExpression(Function(false, false, false, [], Span(6, 8))))])

  /** An arrow function is anonymous, marked as an arrow and not as an expression. */
  lemma EmptyArrow()
    ensures ParseFunction(Str(ArrowText), Returns(ArrowTree)).Success?
    ensures var v := ParseFunction(Str(ArrowText), Returns(ArrowTree)).value;
            && v.valid && v.isArrow && !v.isExpression && v.name == Anonymous && v.isAnonymous
            && v.args == [] && v.params == "" && v.body == "" && v.orig == ArrowText
  {
    var code := Str(ArrowText);
    var parse := Returns(ArrowTree);
    assert ArrowText[0..8][0] != Keyword[0];
    assert GetDefaults(code).orig == ArrowText;
    assert OnlyCandidate(TopLevel(ArrowTree), 0);
    assert OneFunction(code, parse, 0);
    OneFunctionArgs(code, parse, 0);
    OneFunctionShape(code, parse, 0);
    assert ArrowText[6..8] == "{}";
    StripWrapped("");
  }

  /** The empty string and a non-string, non-callable value are invalid. */
  lemma InvalidInputs(parse: Parser)
    ensures ParseFunction(Str(""), parse) == ParseFunction(Other, parse)
    ensures ParseFunction(Other, parse).Success?
    ensures var v := ParseFunction(Other, parse).value;
            !v.valid && AllDefaults(v) && v.orig == ""
  {
  }

  /** As written, the same test input throws instead of returning its record. */
  lemma AsWrittenThrowsOnTestInput()
    ensures ParseFunctionAsWritten(Str(AnonymousText), Returns(AnonymousTree)) == Failure(ReferenceError("ast"))
    ensures ParseFunction(Str(AnonymousText), Returns(AnonymousTree)).Success?
  {
    AnonymousRewrite();
  }
}
