/** Parameter extraction: one name per parameter node, the joined `params`
    string and the name-to-default-source map. */
module Params {
  import opened Wrappers
  import opened Strings
  import opened Ast
  import opened Record

  /** The name a parameter contributes. */
  function NameOf(p: Param): string
  {
    match p
    case Identifier(n) => n
    case AssignmentPattern(left, _) => left
    case RestElement(arg) => arg
  }

  /** The default a parameter records: the source of its right-hand side, or none. */
  function DefaultOf(p: Param, orig: string): Option<string>
  {
    match p
    case AssignmentPattern(_, right) => Some(Slice(orig, right.start, right.end))
    case _ => None
  }

  /** The names of a parameter list, one per node, in list order. */
  function Names(ps: seq<Param>): (r: seq<string>)
    ensures |r| == |ps|
    ensures forall i :: 0 <= i < |ps| ==> r[i] == NameOf(ps[i])
  {
    if |ps| == 0 then [] else [NameOf(ps[0])] + Names(ps[1..])
  }

  ghost function ParamNames(ps: seq<Param>): set<string>
  {
    set i | 0 <= i < |ps| :: NameOf(ps[i])
  }

  /** No later parameter has the same name as `ps[i]`. */
  ghost predicate LastWithName(ps: seq<Param>, i: int)
    requires 0 <= i < |ps|
  {
    forall j :: i < j < |ps| ==> NameOf(ps[j]) != NameOf(ps[i])
  }

  /** How the names and last occurrences of a list relate to those of its tail. */
  lemma ParamNamesCons(ps: seq<Param>)
    requires |ps| > 0
    ensures ParamNames(ps) == {NameOf(ps[0])} + ParamNames(ps[1..])
    ensures forall i :: 0 < i < |ps| && LastWithName(ps, i) ==> LastWithName(ps[1..], i - 1)
    ensures LastWithName(ps, 0) ==> NameOf(ps[0]) !in ParamNames(ps[1..])
  {
    forall n | n in ParamNames(ps) ensures n in {NameOf(ps[0])} + ParamNames(ps[1..]) {
      var i :| 0 <= i < |ps| && NameOf(ps[i]) == n;
      if i > 0 { assert NameOf(ps[1..][i - 1]) == n; }
    }
    forall n | n in ParamNames(ps[1..]) ensures n in ParamNames(ps) {
      var i :| 0 <= i < |ps[1..]| && NameOf(ps[1..][i]) == n;
      assert NameOf(ps[i + 1]) == n;
    }
  }

  /** `defaults[name] = ...` for each parameter in turn: every name gains an
      entry, the last parameter with a name decides its value, and keys no
      parameter names keep theirs. */
  function AddDefaults(d: map<string, Option<string>>, ps: seq<Param>, orig: string): (r: map<string, Option<string>>)
    ensures r.Keys == d.Keys + ParamNames(ps)
    ensures forall i :: 0 <= i < |ps| && LastWithName(ps, i) ==> r[NameOf(ps[i])] == DefaultOf(ps[i], orig)
    ensures forall k :: k in d && k !in ParamNames(ps) ==> r[k] == d[k]
    decreases |ps|
  {
    if |ps| == 0 then d
    else
      var d' := d[NameOf(ps[0]) := DefaultOf(ps[0], orig)];
      var r := AddDefaults(d', ps[1..], orig);
      ParamNamesCons(ps);
      r
  }

  /** `visitParams`: a non-empty list appends its names to `args` and records
      their defaults; an empty list resets `args`. Either way `params` is the
      joined `args`, and no other field changes. */
  function VisitParams(ps: seq<Param>, r: ResultRecord): (r': ResultRecord)
    ensures r'.params == Join(r'.args)
    ensures |ps| == 0 ==> r'.args == [] && r'.params == "" && r'.defaults == r.defaults
    ensures |ps| > 0 ==> |r'.args| == |r.args| + |ps| && r'.args[..|r.args|] == r.args
    ensures |ps| > 0 ==> forall i :: 0 <= i < |ps| ==> r'.args[|r.args| + i] == NameOf(ps[i])
    ensures |ps| > 0 ==> r'.defaults == AddDefaults(r.defaults, ps, r.orig)
    ensures ArgsHaveDefaults(r) ==> ArgsHaveDefaults(r')
    ensures r' == r.(args := r'.args, params := r'.params, defaults := r'.defaults)
  {
    if |ps| > 0 then
      var args := r.args + Names(ps);
      var defaults := AddDefaults(r.defaults, ps, r.orig);
      AppendedNamesHaveDefaults(r.args, r.defaults, ps, r.orig);
      r.(args := args, defaults := defaults, params := Join(args))
    else
      r.(params := "", args := [])
  }

  lemma AppendedNamesHaveDefaults(args: seq<string>, d: map<string, Option<string>>, ps: seq<Param>, orig: string)
    ensures (forall i :: 0 <= i < |args| ==> args[i] in d) ==>
              forall i :: 0 <= i < |args + Names(ps)| ==> (args + Names(ps))[i] in AddDefaults(d, ps, orig)
  {
    var all := args + Names(ps);
    forall j | |args| <= j < |all| ensures all[j] in ParamNames(ps) {
      assert all[j] == NameOf(ps[j - |args|]);
    }
  }

  /** With in-bounds offsets a default is exactly the source text of its right-hand side. */
  lemma DefaultIsExactSlice(p: Param, orig: string)
    requires p.AssignmentPattern? && InBounds(p.right, |orig|)
    ensures DefaultOf(p, orig) == Some(orig[p.right.start..p.right.end])
  {
  }

  /** Identifiers never contain commas, so `params` can be split back into `args`. */
  lemma ParamsDetermineArgs(ps: seq<Param>, r: ResultRecord)
    requires |ps| > 0
    requires forall i :: 0 <= i < |r.args| ==> NoComma(r.args[i])
    requires forall i :: 0 <= i < |ps| ==> NoComma(NameOf(ps[i]))
    ensures Split(VisitParams(ps, r).params) == VisitParams(ps, r).args
  {
    var r' := VisitParams(ps, r);
    forall i | 0 <= i < |r'.args| ensures NoComma(r'.args[i]) {
      if i >= |r.args| {
        assert r'.args[|r.args| + (i - |r.args|)] == NameOf(ps[i - |r.args|]);
      } else {
        assert r'.args[..|r.args|][i] == r.args[i];
      }
    }
    SplitJoin(r'.args);
  }

  /** The defaults a fresh record collects from one parameter list: one key
      per distinct name, each holding its last occurrence's exact default
      source, or none when that occurrence has no default. */
  lemma FreshDefaults(ps: seq<Param>, orig: string)
    requires ParamsInBounds(ps, |orig|)
    ensures var m := AddDefaults(map[], ps, orig);
            && m.Keys == (set i | 0 <= i < |Names(ps)| :: Names(ps)[i])
            && (forall i :: 0 <= i < |ps| && LastWithName(ps, i) ==>
                  m[NameOf(ps[i])] ==
                    (if ps[i].AssignmentPattern? then Some(orig[ps[i].right.start..ps[i].right.end]) else None))
  {
    var names := Names(ps);
    assert ParamNames(ps) == (set i | 0 <= i < |names| :: names[i]) by {
      forall n | n in ParamNames(ps) ensures n in (set i | 0 <= i < |names| :: names[i]) {
        var i :| 0 <= i < |ps| && NameOf(ps[i]) == n;
        assert names[i] == n;
      }
    }
  }
}
