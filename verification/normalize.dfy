/** Input normalisation: turning the argument into source text, the
    placeholder rewrite of an anonymous `function (` and the initial record. */
module Normalize {
  import opened Wrappers
  import opened Record

  /** What `parseFunction` may be called with: a string, a callable (carrying
      the text its `toString` returns) or any other value. */
  datatype Code = Str(text: string) | Callable(source: string) | Other

  const Keyword: string := "function"

  /** The identifier put in place of a missing function name; the `$1` in the
      replacement text stays literal because the pattern has no capture group. */
  const Placeholder: string := "____foo$1o__i3n8v$al4i1d____"

  /** The text the pattern `function *\(` is replaced with. */
  const Replacement: string := "function " + Placeholder + "("

  /** The pattern `function *\(` matches `s[i..e+1]`: the keyword, zero or more
      spaces, then the parenthesis at `e`. */
  predicate MatchSpan(s: string, i: nat, e: nat)
  {
    && i + |Keyword| <= e < |s|
    && s[i..i + |Keyword|] == Keyword
    && s[e] == '('
    && forall k :: i + |Keyword| <= k < e ==> s[k] == ' '
  }

  /** `s[i..e+1]` is the leftmost match of the pattern in `s`. */
  ghost predicate IsFirstMatch(s: string, i: nat, e: nat)
  {
    MatchSpan(s, i, e) && forall j: nat, e': nat :: j < i ==> !MatchSpan(s, j, e')
  }

  ghost predicate NoMatch(s: string)
  {
    forall j: nat, e: nat :: !MatchSpan(s, j, e)
  }

  lemma MatchSpanUnique(s: string, i: nat, e: nat, e': nat)
    requires MatchSpan(s, i, e) && MatchSpan(s, i, e')
    ensures e == e'
  {
  }

  /** The first index at or after `j` that does not hold a space. */
  function SpacesEnd(s: string, j: nat): (e: nat)
    requires j <= |s|
    ensures j <= e <= |s|
    ensures forall k :: j <= k < e ==> s[k] == ' '
    ensures e < |s| ==> s[e] != ' '
    decreases |s| - j
  {
    if j < |s| && s[j] == ' ' then SpacesEnd(s, j + 1) else j
  }

  /** Where a match starting at `i` ends, if one does. */
  function MatchEndAt(s: string, i: nat): (r: Option<nat>)
    ensures r.Some? ==> MatchSpan(s, i, r.value)
    ensures r.None? ==> forall e: nat :: !MatchSpan(s, i, e)
  {
    if i + |Keyword| <= |s| && s[i..i + |Keyword|] == Keyword then
      var e := SpacesEnd(s, i + |Keyword|);
      if e < |s| && s[e] == '(' then Some(e) else None
    else None
  }

  datatype Match = Match(start: nat, paren: nat)

  /** The leftmost match starting at or after `i`. */
  function FirstMatchFrom(s: string, i: nat): (r: Option<Match>)
    ensures r.Some? ==> i <= r.value.start && MatchSpan(s, r.value.start, r.value.paren)
    ensures r.Some? ==> forall j: nat, e: nat :: i <= j < r.value.start ==> !MatchSpan(s, j, e)
    ensures r.None? ==> forall j: nat, e: nat :: i <= j ==> !MatchSpan(s, j, e)
    decreases |s| - i
  {
    if |s| < i + |Keyword| then None
    else
      match MatchEndAt(s, i)
      case Some(e) => Some(Match(i, e))
      case None => FirstMatchFrom(s, i + 1)
  }

  /** `s.replace(/function *\(/, "function " + Placeholder + "(")`: only the
      leftmost match is replaced, and text without a match is returned as is. */
  function Rewrite(s: string): (r: string)
    ensures NoMatch(s) ==> r == s
    ensures forall i: nat, e: nat :: IsFirstMatch(s, i, e) ==> r == s[..i] + Replacement + s[e + 1..]
    ensures |r| == 0 <==> |s| == 0
  {
    match FirstMatchFrom(s, 0)
    case None => s
    case Some(m) =>
      FirstMatchIsFound(s, m);
      s[..m.start] + Replacement + s[m.paren + 1..]
  }

  lemma FirstMatchIsFound(s: string, m: Match)
    requires FirstMatchFrom(s, 0) == Some(m)
    ensures forall i: nat, e: nat :: IsFirstMatch(s, i, e) ==> i == m.start && e == m.paren
  {
    forall i: nat, e: nat | IsFirstMatch(s, i, e)
      ensures i == m.start && e == m.paren
    {
      if i < m.start {
      } else if m.start < i {
      } else {
        MatchSpanUnique(s, i, e, m.paren);
      }
    }
  }

  /** With exactly one space between the keyword and the parenthesis, the
      rewrite inserts the placeholder right before the parenthesis. */
  lemma RewriteInsertsPlaceholder(s: string, i: nat)
    requires IsFirstMatch(s, i, i + |Keyword| + 1)
    ensures Rewrite(s) == s[..i + |Keyword| + 1] + Placeholder + s[i + |Keyword| + 1..]
  {
    var p := i + |Keyword| + 1;
    assert Rewrite(s) == s[..i] + Replacement + s[p + 1..];
    Regroup(s, i, p);
  }

  lemma Regroup(s: string, i: nat, p: nat)
    requires i + |Keyword| + 1 == p < |s|
    requires s[i..i + |Keyword|] == Keyword && s[p - 1] == ' ' && s[p] == '('
    ensures s[..i] + Replacement + s[p + 1..] == s[..p] + Placeholder + s[p..]
  {
    var head := Keyword + " ";
    assert Replacement == head + Placeholder + "(";
    assert s[i..p] == head by {
      assert s[i..p] == s[i..p - 1] + [s[p - 1]];
    }
    assert s[..p] == s[..i] + head by {
      assert s[..p] == s[..i] + s[i..p];
    }
    assert s[p..] == "(" + s[p + 1..] by {
      assert s[p..] == [s[p]] + s[p + 1..];
    }
  }

  /** The text `parseFunction` works on: a callable's source, a string as is,
      nothing for other values. */
  function SourceText(code: Code): Option<string>
  {
    match code
    case Str(t) => Some(t)
    case Callable(src) => Some(src)
    case Other => None
  }

  /** `getDefaults`: the initial record, valid exactly when the input yields a
      non-empty text, whose `orig` is that text after the rewrite. */
  function GetDefaults(code: Code): (r: ResultRecord)
    ensures AllDefaults(r)
    ensures r.valid <==> (code.Str? && code.text != "") || (code.Callable? && code.source != "")
    ensures r.valid ==> r.orig == Rewrite(SourceText(code).value)
    ensures !r.valid ==> r.orig == ""
  {
    var text := SourceText(code);
    Hiddens(if text.Some? then Some(Rewrite(text.value)) else None)
  }
}
