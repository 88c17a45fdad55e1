/** The JavaScript string operations the introspection pipeline relies on. */
module Strings {

  /** The separator `Array.prototype.join` is called with when `params` is built. */
  const Separator: string := ", "

  /** `String.prototype.slice(start, end)` for non-negative offsets: the end is
      clamped to the length and a crossed or empty range gives "". */
  function Slice(s: string, start: nat, end: nat): (r: string)
    ensures start <= end <= |s| ==> r == s[start..end]
    ensures end <= start || |s| <= start ==> r == ""
    ensures |r| <= |s|
  {
    var to := if end < |s| then end else |s|;
    if start < to then s[start..to] else ""
  }

  /** `xs.join(", ")`. */
  function Join(xs: seq<string>): string
  {
    if |xs| == 0 then ""
    else if |xs| == 1 then xs[0]
    else xs[0] + Separator + Join(xs[1..])
  }

  /** `s.split(", ")`: the pieces between occurrences of the separator, read left to right. */
  function Split(s: string): (r: seq<string>)
    ensures |r| > 0
    decreases |s|
  {
    if |s| < 2 then [s]
    else if s[0] == ',' && s[1] == ' ' then [""] + Split(s[2..])
    else
      var rest := Split(s[1..]);
      [[s[0]] + rest[0]] + rest[1..]
  }

  /** JavaScript identifiers never contain a comma. */
  predicate NoComma(x: string)
  {
    ',' !in x
  }

  lemma {:induction false} SplitNoComma(x: string)
    requires NoComma(x)
    ensures Split(x) == [x]
    decreases |x|
  {
    if |x| >= 2 {
      assert x[0] in x;
      assert NoComma(x[1..]) by {
        forall c | c in x[1..] ensures c in x { }
      }
      SplitNoComma(x[1..]);
      assert [x[0]] + x[1..] == x;
    }
  }

  lemma {:induction false} SplitAfterPiece(x: string, t: string)
    requires NoComma(x)
    ensures Split(x + Separator + t) == [x] + Split(t)
    decreases |x|
  {
    var s := x + Separator + t;
    if |x| == 0 {
      assert s == ", " + t;
      assert s[2..] == t;
    } else {
      assert x[0] in x;
      assert s[0] == x[0];
      assert NoComma(x[1..]) by {
        forall c | c in x[1..] ensures c in x { }
      }
      assert s[1..] == x[1..] + Separator + t;
      SplitAfterPiece(x[1..], t);
      assert [x[0]] + x[1..] == x;
    }
  }

  /** The joined parameter string determines the list it was joined from:
      splitting it at the separator gives the list back. */
  lemma {:induction false} SplitJoin(xs: seq<string>)
    requires |xs| > 0
    requires forall i :: 0 <= i < |xs| ==> NoComma(xs[i])
    ensures Split(Join(xs)) == xs
    decreases |xs|
  {
    if |xs| == 1 {
      SplitNoComma(xs[0]);
    } else {
      SplitAfterPiece(xs[0], Join(xs[1..]));
      SplitJoin(xs[1..]);
      assert [xs[0]] + xs[1..] == xs;
    }
  }

  /** The length of a joined list: every piece plus one separator between neighbours. */
  function TotalLength(xs: seq<string>): nat
  {
    if |xs| == 0 then 0 else |xs[0]| + TotalLength(xs[1..])
  }

  lemma {:induction false} JoinLength(xs: seq<string>)
    requires |xs| > 0
    ensures |Join(xs)| == TotalLength(xs) + |Separator| * (|xs| - 1)
    decreases |xs|
  {
    if |xs| > 1 {
      JoinLength(xs[1..]);
    }
  }
}
