/** Body extraction: slice the body's source and drop one enclosing brace pair. */
module Body {
  import opened Strings
  import opened Ast
  import opened Record

  /** The first character is `{` and the last is `}` (`charCodeAt` is NaN on
      an empty string, so "" is not braced). */
  predicate Braced(b: string)
  {
    |b| > 0 && b[0] == '{' && b[|b| - 1] == '}'
  }

  /** `slice(1, -1)` when braced, the text unchanged otherwise. */
  function StripBraces(b: string): (r: string)
    ensures Braced(b) ==> |b| >= 2 && "{" + r + "}" == b
    ensures !Braced(b) ==> r == b
    ensures |r| == |b| || |r| + 2 == |b|
  {
    if Braced(b) then b[1..|b| - 1] else b
  }

  /** Exactly one pair is removed: wrapping a text in braces and stripping
      gives that text back, even when it is itself braced. */
  lemma StripWrapped(x: string)
    ensures StripBraces("{" + x + "}") == x
  {
    var b := "{" + x + "}";
    assert Braced(b);
    assert b[1..|b| - 1] == x;
  }

  /** `fixBody`: the body is the node's source with one brace pair removed;
      nothing else in the record changes. */
  function FixBody(span: Span, r: ResultRecord): (r': ResultRecord)
    ensures r' == r.(body := r'.body)
    ensures InBounds(span, |r.orig|) && Braced(r.orig[span.start..span.end]) ==>
              r'.body == r.orig[span.start + 1..span.end - 1]
    ensures InBounds(span, |r.orig|) && !Braced(r.orig[span.start..span.end]) ==>
              r'.body == r.orig[span.start..span.end]
  {
    var b := Slice(r.orig, span.start, span.end);
    r.(body := StripBraces(b))
  }
}
