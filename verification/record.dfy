/** The record `parseFunction` returns. */
module Record {
  import opened Wrappers

  /** The name reported for a function without one. */
  const Anonymous: string := "anonymous"

  /** `defaults` maps a parameter name to its default's source text, or to
      `None` (JavaScript `undefined`) when it has none. */
  datatype ResultRecord = ResultRecord(
    name: string,
    body: string,
    args: seq<string>,
    params: string,
    defaults: map<string, Option<string>>,
    orig: string,
    valid: bool,
    isArrow: bool,
    isAsync: bool,
    isNamed: bool,
    isAnonymous: bool,
    isGenerator: bool,
    isExpression: bool)

  /** Every field except `orig` and `valid` holds its initial value. */
  predicate AllDefaults(r: ResultRecord)
  {
    && r.name == Anonymous && r.body == "" && r.args == [] && r.params == ""
    && r.defaults == map[]
    && !r.isArrow && !r.isAsync && !r.isNamed && !r.isAnonymous
    && !r.isGenerator && !r.isExpression
  }

  /** Every collected argument name has an entry in `defaults`. */
  predicate ArgsHaveDefaults(r: ResultRecord)
  {
    forall i :: 0 <= i < |r.args| ==> r.args[i] in r.defaults
  }

  /** The initial record for normalised input `code`; `None` stands for the
      `false` that non-string input is turned into. */
  function Hiddens(code: Option<string>): (r: ResultRecord)
    ensures AllDefaults(r)
    ensures r.valid <==> code.Some? && |code.value| > 0
    ensures r.orig == (if code.Some? then code.value else "")
  {
    var orig := match code case Some(c) => c case None => "";
    ResultRecord(Anonymous, "", [], "", map[], orig, code.Some? && |orig| > 0,
                 false, false, false, false, false, false)
  }
}
