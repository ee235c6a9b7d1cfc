/** The read-time filter of `GraphConfig` and `VideoGraph.visualize`: which node classes are
    hidden, and whether an edge is drawn. The stored graph is never changed by it. */
module Config {
  import opened Node

  /** `GraphConfig.omits`: `other` is always hidden, `FirstAid` too unless `firstaid` is set. */
  function Omits(firstaid: bool): (omit: seq<string>)
    ensures |omit| == (if firstaid then 1 else 2) && omit[0] == ClassName(Other)
    ensures ClassName(Other) in omit
    ensures ClassName(FirstAid) in omit <==> !firstaid
    ensures forall c: NodeClass :: ClassName(c) in omit ==> c == Other || c == FirstAid
  {
    if firstaid then ["other"] else ["other", "FirstAid"]
  }

  /** The test in `visualize`: an edge is skipped when either endpoint's class is in `omit`. */
  predicate EdgeShown(c0: NodeClass, c1: NodeClass, omit: seq<string>)
  {
    !(ClassName(c0) in omit || ClassName(c1) in omit)
  }

  /** Under the configured omit list, an edge is drawn exactly when neither endpoint is `other`
      and, unless `firstaid` is set, neither is `FirstAid`. */
  lemma {:induction false} ShownUnderConfig(c0: NodeClass, c1: NodeClass, firstaid: bool)
    ensures EdgeShown(c0, c1, Omits(firstaid)) <==>
              c0 != Other && c1 != Other && (firstaid || (c0 != FirstAid && c1 != FirstAid))
  {
    var omit := Omits(firstaid);
    assert ClassName(c0) in omit ==> c0 == Other || c0 == FirstAid;
    assert ClassName(c1) in omit ==> c1 == Other || c1 == FirstAid;
  }
}
