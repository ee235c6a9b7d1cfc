/** A worked run of `VideoGraph` on two cards: `#B&B::x` with `#Pathoma::y`, then `#B&B::x` with
    `#Sketchy::z`. Both directions of the discovery events are counted, so the edge between the
    first two tags has weight 2. */
module Scenario {
  import opened Seqs
  import opened PyStr
  import opened Node
  import opened Edge
  import opened GraphSpec

  const X: string := "#B&B::x"
  const Y: string := "#Pathoma::y"
  const Z: string := "#Sketchy::z"
  const Cards: seq<seq<string>> := [[X, Y], [X, Z]]

  /** `#` appears in `s` only at its start, and `s` starts differently from `m`, so `m`, which
      starts with `#`, does not occur in `s`. */
  lemma {:induction false} Absent(s: string, m: string)
    requires |s| > 0 && |m| > 1 && m[0] == '#'
    requires forall i :: 0 < i < |s| ==> s[i] != '#'
    requires |s| < |m| || s[1] != m[1]
    ensures !Contains(s, m)
  {
    if |m| <= |s| {
      assert s[..|m|][1] == s[1];
    }
    forall i: nat
      ensures !OccursAt(s, m, i)
    {
      if i + |m| <= |s| && i > 0 {
        assert s[i..i + |m|][0] == s[i];
      }
    }
  }

  /** The three tags fall into the classes B&B, Pathoma and Sketchy. */
  lemma {:induction false} ScenarioClasses()
    ensures Classify(X) == BB && Classify(Y) == Pathoma && Classify(Z) == Sketchy
  {
    assert OccursAt(X, "#B&B", 0);
    ClassY();
    ClassZ();
  }

  /** `#Pathoma::y` mentions `#Pathoma` and not `#B&B`. */
  lemma {:induction false} ClassY()
    ensures Classify(Y) == Pathoma
  {
    Absent(Y, "#B&B");
    assert OccursAt(Y, "#Pathoma", 0);
  }

  /** `#Sketchy::z` mentions `#Sketchy` and neither `#B&B` nor `#Pathoma`. */
  lemma {:induction false} ClassZ()
    ensures Classify(Z) == Sketchy
  {
    Absent(Z, "#B&B");
    Absent(Z, "#Pathoma");
    assert OccursAt(Z, "#Sketchy", 0);
  }

  /** The nodes of two cards `[x, y]` and `[x, z]` with distinct tags: `x` keeps `[y]`, `y` keeps
      `[x]` and `z` keeps `[x]`. */
  function Expected(x: string, y: string, z: string): seq<VideoNode>
  {
    [VideoNode(x, [y], Classify(x)), VideoNode(y, [x], Classify(y)), VideoNode(z, [x], Classify(z))]
  }

  /** Removing the second of two distinct tags leaves the first. */
  lemma {:induction false} RemoveLast(a: string, b: string)
    requires a != b
    ensures RemoveFirst([a, b], b) == [a]
  {
    assert [a, b][..1] == [a];
  }

  /** Removing the first of two distinct tags leaves the second. */
  lemma {:induction false} RemoveFront(a: string, b: string)
    requires a != b
    ensures RemoveFirst([a, b], a) == [b]
  {
    var none: seq<string> := [];
    assert [a, b][..1] == [a] && [a][..0] == none;
  }

  /** The node phase on the first card registers `x` and then `y`. */
  lemma {:induction false} FirstCardNodes(x: string, y: string, z: string)
    requires x != y
    ensures NodesOf([[x, y], [x, z]][..1]) == Expected(x, y, z)[..2]
    ensures Tags(Expected(x, y, z)[..2]) == [x, y]
  {
    var none: seq<seq<string>> := [];
    assert [[x, y], [x, z]][..1] == [[x, y]] && [[x, y]][..0] == none;
    FirstCardSteps(x, y, z);
  }

  /** The two steps of the node phase on `[x, y]`, starting from nothing. */
  lemma {:induction false} FirstCardSteps(x: string, y: string, z: string)
    requires x != y
    ensures StepCard([], [x, y], 2) == Expected(x, y, z)[..2]
    ensures Tags(Expected(x, y, z)[..2]) == [x, y]
  {
    var empty: seq<VideoNode> := [];
    var e := Expected(x, y, z);
    assert StepCard(empty, [x, y], 1) == [e[0]] by {
      RemoveFront(x, y);
    }
    TagsSnoc(empty, e[0]);
    TagsSnoc([e[0]], e[1]);
    assert [e[0]] + [e[1]] == e[..2];
    RemoveLast(x, y);
  }

  /** The node phase on the second card registers only `z`. */
  lemma {:induction false} SecondCardNodes(x: string, y: string, z: string)
    requires x != y && x != z && y != z
    requires Tags(Expected(x, y, z)[..2]) == [x, y]
    ensures StepCard(Expected(x, y, z)[..2], [x, z], 2) == Expected(x, y, z)
  {
    var e := Expected(x, y, z);
    RemoveLast(x, z);
    assert StepCard(e[..2], [x, z], 1) == e[..2];
    assert e[..2] + [e[2]] == e;
  }

  /** The node phase registers `x`, `y`, `z` as nodes 0, 1, 2. */
  lemma {:induction false} TwoCardNodes(x: string, y: string, z: string)
    requires x != y && x != z && y != z
    ensures NodesOf([[x, y], [x, z]]) == Expected(x, y, z)
    ensures Tags(Expected(x, y, z)) == [x, y, z]
  {
    var cards := [[x, y], [x, z]];
    var e := Expected(x, y, z);
    FirstCardNodes(x, y, z);
    SecondCardNodes(x, y, z);
    assert cards[..|cards| - 1] == cards[..1];
    TagsSnoc(e[..2], e[2]);
    assert e[..2] + [e[2]] == e;
  }

  /** Python's string order on the three ids used. */
  lemma {:induction false} ScenarioIds()
    ensures Str(0) == "0" && Str(1) == "1" && Str(2) == "2"
    ensures Key("0", "1") == ("0", "1") && Key("1", "0") == ("0", "1") && Key("2", "0") == ("0", "2")
  {
    assert Lt("0", "1") && Lt("0", "2");
    LtTrichotomy("0", "1");
    LtTrichotomy("0", "2");
  }

  /** The keys `build_edges` passes to `add_edge`: `{0, 1}` from node 0, `{0, 1}` again from
      node 1, and `{0, 2}` from node 2. */
  lemma {:induction false} TwoCardEvents(x: string, y: string, z: string)
    requires x != y && x != z && y != z
    ensures Closed(NodesOf([[x, y], [x, z]]))
    ensures Events(NodesOf([[x, y], [x, z]])) == [("0", "1"), ("0", "1"), ("0", "2")]
  {
    TwoCardNodes(x, y, z);
    ScenarioIds();
    CoTagsRegistered([[x, y], [x, z]]);
    var ns := Expected(x, y, z);
    assert IdOf(ns, x) == "0" && IdOf(ns, y) == "1";
    assert NodeEvents(ns, 0, 1) == [("0", "1")];
    assert NodeEvents(ns, 1, 1) == [("0", "1")];
    assert NodeEvents(ns, 2, 1) == [("0", "2")];
    assert EventsUpTo(ns, 1) == [("0", "1")];
    assert EventsUpTo(ns, 2) == [("0", "1"), ("0", "1")];
  }

  /** The edges `add_edge` leaves for the keys `{0, 1}`, `{0, 1}`, `{0, 2}`: weight 2 and weight 1,
      in that order. */
  lemma {:induction false} ScenarioTally()
    ensures Dedup([("0", "1"), ("0", "1"), ("0", "2")]) == [("0", "1"), ("0", "2")]
    ensures Tally([("0", "1"), ("0", "1"), ("0", "2")]) ==
              map[("0", "1") := VideoEdge({"0", "1"}, 2), ("0", "2") := VideoEdge({"0", "2"}, 1)]
  {
    var e: seq<EdgeKey> := [("0", "1"), ("0", "1"), ("0", "2")];
    var none: seq<EdgeKey> := [];
    assert e[..2] == [("0", "1"), ("0", "1")] && e[..2][..1] == [("0", "1")] && e[..2][..1][..0] == none;
    assert Dedup(e[..2]) == [("0", "1")];
    assert Tally(e[..2][..1]) == map[("0", "1") := VideoEdge({"0", "1"}, 1)];
    assert Tally(e[..2]) == map[("0", "1") := VideoEdge({"0", "1"}, 2)];
  }

  /** The worked run: nodes `#B&B::x`, `#Pathoma::y`, `#Sketchy::z` with ids 0, 1, 2 and classes
      B&B, Pathoma, Sketchy; edges `{0, 1}` with weight 2 and `{0, 2}` with weight 1, in that
      order, and no edge between nodes 1 and 2. */
  lemma {:induction false} ScenarioGraph()
    ensures Tags(NodesOf(Cards)) == [X, Y, Z]
    ensures NodesOf(Cards) == [VideoNode(X, [Y], BB), VideoNode(Y, [X], Pathoma), VideoNode(Z, [X], Sketchy)]
    ensures Closed(NodesOf(Cards))
    ensures Dedup(Events(NodesOf(Cards))) == [("0", "1"), ("0", "2")]
    ensures Tally(Events(NodesOf(Cards))) ==
              map[("0", "1") := VideoEdge({"0", "1"}, 2), ("0", "2") := VideoEdge({"0", "2"}, 1)]
  {
    TwoCardNodes(X, Y, Z);
    TwoCardEvents(X, Y, Z);
    ScenarioClasses();
    ScenarioTally();
  }
}
