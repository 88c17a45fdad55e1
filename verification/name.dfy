/** Name resolution: undo the placeholder and derive the named/anonymous flags. */
module Name {
  import opened Record
  import opened Normalize

  /** `fixName`: the placeholder becomes `anonymous`, every other name is kept,
      and `isAnonymous`/`isNamed` say whether the final name is `anonymous`. */
  function FixName(r: ResultRecord): (r': ResultRecord)
    ensures r'.isAnonymous <==> r'.name == Anonymous
    ensures r'.isNamed <==> !r'.isAnonymous
    ensures r'.name != Placeholder
    ensures r'.name == Anonymous <==> r.name == Anonymous || r.name == Placeholder
    ensures r.name != Placeholder ==> r'.name == r.name
    ensures r' == r.(name := r'.name, isAnonymous := r'.isAnonymous, isNamed := r'.isNamed)
  {
    var name := if r.name == Placeholder then Anonymous else r.name;
    r.(name := name, isAnonymous := name == Anonymous, isNamed := name != Anonymous)
  }

  /** Resolving a resolved record changes nothing. */
  lemma FixNameIdempotent(r: ResultRecord)
    ensures FixName(FixName(r)) == FixName(r)
  {
  }
}
