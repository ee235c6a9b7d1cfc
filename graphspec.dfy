/** What `VideoGraph.build_nodes` and `VideoGraph.build_edges` compute, as functions of the input
    cards, and the properties of the result: a dense first-seen registry, each node's discovery
    card, lookups that cannot fail, the exact edge weights, self-loops and the total weight. */
module GraphSpec {
  import opened Seqs
  import opened PyStr
  import opened Node
  import opened Edge

  /** The tags of a node list, in order. */
  function Tags(ns: seq<VideoNode>): (ts: seq<string>)
    ensures |ts| == |ns| && forall i :: 0 <= i < |ns| ==> ts[i] == ns[i].tag
  {
    if ns == [] then []
    else
      assert forall i :: 0 <= i < |ns| - 1 ==> ns[..|ns| - 1][i] == ns[i];
      Tags(ns[..|ns| - 1]) + [ns[|ns| - 1].tag]
  }

  /** Tags of a node list with one more node on the end. */
  lemma {:induction false} TagsSnoc(ns: seq<VideoNode>, n: VideoNode)
    ensures Tags(ns + [n]) == Tags(ns) + [n.tag]
  {
    assert (ns + [n])[..|ns|] == ns;
  }

  // ---------------------------------------------------------------------------------------------
  // Node phase

  /** One step of `build_nodes`: a tag not yet registered becomes a new node discovered on `card`. */
  function StepTag(ns: seq<VideoNode>, card: seq<string>, tag: string): seq<VideoNode>
    requires tag in card
  {
    if tag in Tags(ns) then ns else ns + [NewNode(tag, card)]
  }

  /** `build_nodes` after the first `j` tags of `card`. */
  function StepCard(ns: seq<VideoNode>, card: seq<string>, j: nat): seq<VideoNode>
    requires j <= |card|
  {
    if j == 0 then ns else StepTag(StepCard(ns, card, j - 1), card, card[j - 1])
  }

  /** The node list (`nodes`, in insertion order) that `build_nodes` produces from `cards`; node
      `i` gets id `str(i)`. */
  function NodesOf(cards: seq<seq<string>>): seq<VideoNode>
  {
    if cards == [] then []
    else
      var c := cards[|cards| - 1];
      StepCard(NodesOf(cards[..|cards| - 1]), c, |c|)
  }

  /** `ns` is what `build_nodes` has registered after scanning the first `i` cards. */
  ghost predicate ScannedUpTo(cards: seq<seq<string>>, ns: seq<VideoNode>, i: nat)
  {
    i <= |cards| && ns == NodesOf(cards[..i])
  }

  /** `ns` is what `build_nodes` has registered after scanning the first `i` cards and the first
      `j` tags of card `i`. */
  ghost predicate ScannedPartway(cards: seq<seq<string>>, ns: seq<VideoNode>, i: nat, j: nat)
  {
    i < |cards| && j <= |cards[i]| && ns == StepCard(NodesOf(cards[..i]), cards[i], j)
  }

  /** Nothing is registered before the first card. */
  lemma {:induction false} ScanBegin(cards: seq<seq<string>>)
    ensures ScannedUpTo(cards, [], 0)
  {
    assert cards[..0] == [];
  }

  /** Starting on card `i`. */
  lemma {:induction false} ScanStart(cards: seq<seq<string>>, ns: seq<VideoNode>, i: nat)
    requires ScannedUpTo(cards, ns, i) && i < |cards|
    ensures ScannedPartway(cards, ns, i, 0)
  {
  }

  /** Scanning tag `j` of card `i` is one StepTag. */
  lemma {:induction false} ScanStep(cards: seq<seq<string>>, ns: seq<VideoNode>, i: nat, j: nat)
    requires ScannedPartway(cards, ns, i, j) && j < |cards[i]|
    ensures ScannedPartway(cards, StepTag(ns, cards[i], cards[i][j]), i, j + 1)
  {
  }

  /** Finishing card `i`. */
  lemma {:induction false} ScanDone(cards: seq<seq<string>>, ns: seq<VideoNode>, i: nat)
    requires i < |cards| && ScannedPartway(cards, ns, i, |cards[i]|)
    ensures ScannedUpTo(cards, ns, i + 1)
  {
    assert cards[..i + 1][..i] == cards[..i];
  }

  /** After the last card, the registered nodes are NodesOf. */
  lemma {:induction false} ScanAll(cards: seq<seq<string>>, ns: seq<VideoNode>)
    requires ScannedUpTo(cards, ns, |cards|)
    ensures ns == NodesOf(cards)
  {
    assert cards[..|cards|] == cards;
  }

  /** Scanning a card keeps the tags those of `Dedup` over everything scanned so far. */
  lemma {:induction false} StepCardTags(ns: seq<VideoNode>, card: seq<string>, j: nat, seen: seq<string>)
    requires j <= |card|
    requires Tags(ns) == Dedup(seen)
    ensures Tags(StepCard(ns, card, j)) == Dedup(seen + card[..j])
  {
    if j == 0 {
      assert seen + card[..0] == seen;
    } else {
      StepCardTags(ns, card, j - 1, seen);
      var t := card[j - 1];
      var prev := StepCard(ns, card, j - 1);
      assert StepCard(ns, card, j) == StepTag(prev, card, t);
      AppendPrefix(seen, card, j);
      DedupSnoc(seen + card[..j - 1], t);
      TagsSnoc(prev, NewNode(t, card));
    }
  }

  /** Scanning a card keeps the nodes already there and appends, for each tag of the scanned part
      that was not yet registered, a node discovered on that card. */
  lemma {:induction false} StepCardKeeps(ns: seq<VideoNode>, card: seq<string>, j: nat)
    requires j <= |card|
    ensures |StepCard(ns, card, j)| >= |ns|
    ensures forall i :: 0 <= i < |ns| ==> StepCard(ns, card, j)[i] == ns[i]
    ensures forall i :: |ns| <= i < |StepCard(ns, card, j)| ==> NewOn(ns, StepCard(ns, card, j)[i], card)
  {
    if j > 0 {
      StepCardKeeps(ns, card, j - 1);
      StepTagKeeps(ns, StepCard(ns, card, j - 1), card, card[j - 1]);
    }
  }

  /** `n` is a node discovered on `card` for a tag that `ns` does not register. */
  ghost predicate NewOn(ns: seq<VideoNode>, n: VideoNode, card: seq<string>)
  {
    n.tag in card && n.tag !in Tags(ns) && n == NewNode(n.tag, card)
  }

  /** One step of the scan of StepCardKeeps. */
  lemma {:induction false} StepTagKeeps(ns: seq<VideoNode>, prev: seq<VideoNode>, card: seq<string>, t: string)
    requires t in card
    requires |prev| >= |ns| && forall i :: 0 <= i < |ns| ==> prev[i] == ns[i]
    requires forall i :: |ns| <= i < |prev| ==> NewOn(ns, prev[i], card)
    ensures |StepTag(prev, card, t)| >= |ns|
    ensures forall i :: 0 <= i < |ns| ==> StepTag(prev, card, t)[i] == ns[i]
    ensures forall i :: |ns| <= i < |StepTag(prev, card, t)| ==> NewOn(ns, StepTag(prev, card, t)[i], card)
  {
    if t !in Tags(prev) {
      assert t !in Tags(ns) by {
        assert forall i :: 0 <= i < |ns| ==> Tags(ns)[i] == Tags(prev)[i];
      }
      assert NewOn(ns, NewNode(t, card), card);
    }
  }

  /** Registry: the node tags are the distinct tags of all cards, in first-seen order (scanning
      cards in input order, tags in card order). */
  lemma {:induction false} NodesTags(cards: seq<seq<string>>)
    ensures Tags(NodesOf(cards)) == Dedup(Flatten(cards))
  {
    if cards != [] {
      var p, c := cards[..|cards| - 1], cards[|cards| - 1];
      assert cards == p + [c];
      NodesTags(p);
      StepCardTags(NodesOf(p), c, |c|, Flatten(p));
      assert c[..|c|] == c;
      FlattenSnoc(p, c);
    }
  }

  /** Registry: every tag of every card has exactly one node, and no tag has two. */
  lemma {:induction false} RegistryComplete(cards: seq<seq<string>>)
    ensures NoDup(Tags(NodesOf(cards)))
    ensures forall k, t :: 0 <= k < |cards| && t in cards[k] ==> t in Tags(NodesOf(cards))
    ensures forall t :: t in Tags(NodesOf(cards)) ==> exists k :: 0 <= k < |cards| && t in cards[k]
  {
    NodesTags(cards);
    DedupNoDup(Flatten(cards));
  }

  /** Registry: the ids are handed out in first-seen order. */
  lemma {:induction false} RegistryOrder(cards: seq<seq<string>>, i: nat, j: nat)
    requires i < j < |NodesOf(cards)|
    ensures NodesOf(cards)[i].tag in Flatten(cards) && NodesOf(cards)[j].tag in Flatten(cards)
    ensures IndexOf(Flatten(cards), NodesOf(cards)[i].tag) < IndexOf(Flatten(cards), NodesOf(cards)[j].tag)
  {
    NodesTags(cards);
    DedupFirstSeen(Flatten(cards), i, j);
  }

  /** The index of the first card that mentions `t`. */
  function FirstCard(cards: seq<seq<string>>, t: string): (k: nat)
    requires t in Flatten(cards)
    ensures k < |cards| && t in cards[k]
    ensures forall k' :: 0 <= k' < k ==> t !in cards[k']
  {
    var p := cards[..|cards| - 1];
    if t in Flatten(p) then
      var k := FirstCard(p, t);
      assert forall k' :: 0 <= k' <= k ==> p[k'] == cards[k'];
      k
    else
      assert forall k' :: 0 <= k' < |cards| - 1 ==> p[k'] == cards[k'];
      |cards| - 1
  }

  /** Node context: each node is built from the first card that mentions its tag, and its co-tag
      list is that card with the first occurrence of the tag removed. */
  lemma {:induction false} NodeContext(cards: seq<seq<string>>, i: nat)
    requires i < |NodesOf(cards)|
    ensures NodesOf(cards)[i].tag in Flatten(cards)
    ensures NodesOf(cards)[i] ==
              NewNode(NodesOf(cards)[i].tag, cards[FirstCard(cards, NodesOf(cards)[i].tag)])
  {
    NodesTags(cards);
    var p, c := cards[..|cards| - 1], cards[|cards| - 1];
    assert cards == p + [c];
    var old_ns := NodesOf(p);
    var ns := NodesOf(cards);
    NodesTags(p);
    StepCardKeeps(old_ns, c, |c|);
    var t := ns[i].tag;
    if i < |old_ns| {
      assert ns[i] == old_ns[i];
      NodeContext(p, i);
      assert p[FirstCard(p, t)] == cards[FirstCard(p, t)];
    } else {
      assert NewOn(old_ns, ns[i], c);
      assert t !in Flatten(p);
    }
  }

  /** Every co-tag of every node is itself a node tag. */
  ghost predicate Closed(ns: seq<VideoNode>)
  {
    forall i, t :: 0 <= i < |ns| && t in ns[i].card ==> t in Tags(ns)
  }

  /** Lookup never fails: in `build_edges`, every co-tag is already in `tag_to_id`, because co-tags
      come from cards that `build_nodes` registered completely. */
  lemma {:induction false} CoTagsRegistered(cards: seq<seq<string>>)
    ensures Closed(NodesOf(cards))
  {
    var ns := NodesOf(cards);
    NodesTags(cards);
    forall i, t | 0 <= i < |ns| && t in ns[i].card
      ensures t in Tags(ns)
    {
      NodeContext(cards, i);
      var k := FirstCard(cards, ns[i].tag);
      RemoveFirstCount(cards[k], ns[i].tag);
      assert multiset(ns[i].card)[t] > 0;
      assert t in cards[k];
    }
  }

  // ---------------------------------------------------------------------------------------------
  // Edge phase

  /** Every key passed to `add_edge` joins two stored nodes. */
  ghost predicate CallsStored(calls: seq<EdgeKey>, nodes: map<string, VideoNode>)
  {
    forall k :: k in calls ==> k.0 in nodes && k.1 in nodes
  }

  /** `tag_to_id[t]`: the id of the node for `t`. */
  function IdOf(ns: seq<VideoNode>, t: string): string
    requires t in Tags(ns)
  {
    Str(IndexOf(Tags(ns), t))
  }

  /** The keys `build_edges` passes to `add_edge` for the first `j` co-tags of node `i`. */
  function NodeEvents(ns: seq<VideoNode>, i: nat, j: nat): seq<EdgeKey>
    requires Closed(ns) && i < |ns| && j <= |ns[i].card|
  {
    if j == 0 then [] else NodeEvents(ns, i, j - 1) + [Key(Str(i), IdOf(ns, ns[i].card[j - 1]))]
  }

  /** The keys `build_edges` passes to `add_edge` for the first `n` nodes, in call order. */
  function EventsUpTo(ns: seq<VideoNode>, n: nat): seq<EdgeKey>
    requires Closed(ns) && n <= |ns|
  {
    if n == 0 then [] else EventsUpTo(ns, n - 1) + NodeEvents(ns, n - 1, |ns[n - 1].card|)
  }

  /** All keys `build_edges` passes to `add_edge`, in call order. */
  function Events(ns: seq<VideoNode>): seq<EdgeKey>
    requires Closed(ns)
  {
    EventsUpTo(ns, |ns|)
  }

  /** `calls` are the keys `build_edges` passes for the first `n` nodes. */
  ghost predicate BuiltUpTo(ns: seq<VideoNode>, calls: seq<EdgeKey>, n: nat)
  {
    Closed(ns) && n <= |ns| && calls == EventsUpTo(ns, n)
  }

  /** `calls` are the keys `build_edges` passes for the first `i` nodes and the first `j`
      co-tags of node `i`. */
  ghost predicate BuiltPartway(ns: seq<VideoNode>, calls: seq<EdgeKey>, i: nat, j: nat)
  {
    Closed(ns) && i < |ns| && j <= |ns[i].card| && calls == EventsUpTo(ns, i) + NodeEvents(ns, i, j)
  }

  /** The graph state left by `VideoGraph(cards)`: the nodes `NodesOf(cards)`, every co-tag
      registered, and the edge dict and its order those of all the `add_edge` calls of
      `build_edges`. */
  ghost predicate BuiltFrom(cards: seq<seq<string>>, ns: seq<VideoNode>, edges: map<EdgeKey, VideoEdge>, order: seq<EdgeKey>)
  {
    ns == NodesOf(cards) && Closed(ns) && Logged(edges, order, Events(ns))
  }

  /** Starting on node `i`. */
  lemma {:induction false} PartwayStart(ns: seq<VideoNode>, calls: seq<EdgeKey>, i: nat)
    requires BuiltUpTo(ns, calls, i) && i < |ns|
    ensures BuiltPartway(ns, calls, i, 0)
  {
    assert EventsUpTo(ns, i) + NodeEvents(ns, i, 0) == EventsUpTo(ns, i);
  }

  /** Finishing node `i`. */
  lemma {:induction false} PartwayDone(ns: seq<VideoNode>, calls: seq<EdgeKey>, i: nat)
    requires Closed(ns) && i < |ns| && BuiltPartway(ns, calls, i, |ns[i].card|)
    ensures BuiltUpTo(ns, calls, i + 1)
  {
  }

  /** The id of the node for a co-tag names the node whose tag it is. */
  lemma {:induction false} IdOfNode(ns: seq<VideoNode>, t: string, b: nat)
    requires NoDup(Tags(ns)) && t in Tags(ns) && b < |ns|
    ensures IdOf(ns, t) == Str(b) <==> t == ns[b].tag
  {
    var x := IndexOf(Tags(ns), t);
    StrInjective(x, b);
    IndexOfNoDup(Tags(ns), b);
  }

  /** The key for node `i` and co-tag `c` joins nodes `a` and `b` exactly when `i` is one of
      them and `c` is the other's tag. */
  lemma {:induction false} EventJoins(ns: seq<VideoNode>, i: nat, c: string, a: nat, b: nat)
    requires NoDup(Tags(ns)) && c in Tags(ns)
    requires i < |ns| && a < |ns| && b < |ns|
    ensures Key(Str(i), IdOf(ns, c)) == Key(Str(a), Str(b)) <==>
              (i == a && c == ns[b].tag) || (i == b && c == ns[a].tag)
  {
    var x := IndexOf(Tags(ns), c);
    KeyInjective(Str(i), Str(x), Str(a), Str(b));
    StrInjective(i, a);
    StrInjective(i, b);
    IdOfNode(ns, c, a);
    IdOfNode(ns, c, b);
  }

  /** Occurrences of `k` among node `i`'s first `j` keys, against its first `j - 1`. */
  lemma {:induction false} NodeEventsSnocCount(ns: seq<VideoNode>, i: nat, j: nat, k: EdgeKey)
    requires Closed(ns) && i < |ns| && 0 < j <= |ns[i].card|
    ensures multiset(NodeEvents(ns, i, j))[k] ==
              multiset(NodeEvents(ns, i, j - 1))[k] + (if Key(Str(i), IdOf(ns, ns[i].card[j - 1])) == k then 1 else 0)
  {
    CountSnoc(NodeEvents(ns, i, j - 1), Key(Str(i), IdOf(ns, ns[i].card[j - 1])), k);
  }

  /** How many of node `i`'s first `j` keys join nodes `a` and `b`: the copies of `b`'s tag among
      those co-tags when `i` is `a`, plus the copies of `a`'s tag when `i` is `b` (counted once
      when `a` and `b` are the same node). */
  lemma {:induction false} NodeEventsCount(ns: seq<VideoNode>, i: nat, j: nat, a: nat, b: nat)
    requires Closed(ns) && NoDup(Tags(ns))
    requires i < |ns| && j <= |ns[i].card| && a < |ns| && b < |ns|
    ensures multiset(NodeEvents(ns, i, j))[Key(Str(a), Str(b))] ==
              (if i == a then multiset(ns[i].card[..j])[ns[b].tag] else 0)
              + (if i == b && a != b then multiset(ns[i].card[..j])[ns[a].tag] else 0)
  {
    if j == 0 {
      assert ns[i].card[..0] == [];
    } else {
      NodeEventsCount(ns, i, j - 1, a, b);
      NodeEventsCountStep(ns, i, j, a, b);
    }
  }

  /** The inductive step of NodeEventsCount, from the first `j - 1` co-tags to the first `j`. */
  lemma {:induction false} NodeEventsCountStep(ns: seq<VideoNode>, i: nat, j: nat, a: nat, b: nat)
    requires Closed(ns) && NoDup(Tags(ns))
    requires i < |ns| && 0 < j <= |ns[i].card| && a < |ns| && b < |ns|
    requires multiset(NodeEvents(ns, i, j - 1))[Key(Str(a), Str(b))] ==
              (if i == a then multiset(ns[i].card[..j - 1])[ns[b].tag] else 0)
              + (if i == b && a != b then multiset(ns[i].card[..j - 1])[ns[a].tag] else 0)
    ensures multiset(NodeEvents(ns, i, j))[Key(Str(a), Str(b))] ==
              (if i == a then multiset(ns[i].card[..j])[ns[b].tag] else 0)
              + (if i == b && a != b then multiset(ns[i].card[..j])[ns[a].tag] else 0)
  {
    var card := ns[i].card;
    var c := card[j - 1];
    var k := Key(Str(a), Str(b));
    NodeEventsSnocCount(ns, i, j, k);
    PrefixCount(card, j, ns[a].tag);
    PrefixCount(card, j, ns[b].tag);
    EventJoins(ns, i, c, a, b);
    CountStep(multiset(NodeEvents(ns, i, j - 1))[k], multiset(card[..j - 1])[ns[a].tag],
              multiset(card[..j - 1])[ns[b].tag], Key(Str(i), IdOf(ns, c)) == k,
              c == ns[a].tag, c == ns[b].tag, i == a, i == b, a == b);
  }

  /** The counting step of NodeEventsCount: one more key, which joins `a` and `b` exactly when the
      co-tag is the tag of the node at the other end. */
  lemma {:induction false} CountStep(m: nat, ca: nat, cb: nat, hit: bool, isTagA: bool, isTagB: bool,
                                     atA: bool, atB: bool, same: bool)
    requires hit <==> (atA && isTagB) || (atB && isTagA)
    requires same ==> (isTagA <==> isTagB)
    requires atA && atB ==> same
    requires atB && same ==> atA
    requires m == (if atA then cb else 0) + (if atB && !same then ca else 0)
    ensures m + (if hit then 1 else 0) ==
              (if atA then cb + (if isTagB then 1 else 0) else 0)
              + (if atB && !same then ca + (if isTagA then 1 else 0) else 0)
  {
  }

  /** How many of the keys of the first `n` nodes join nodes `a` and `b`. */
  lemma {:induction false} EventsUpToCount(ns: seq<VideoNode>, n: nat, a: nat, b: nat)
    requires Closed(ns) && NoDup(Tags(ns))
    requires n <= |ns| && a < |ns| && b < |ns|
    ensures multiset(EventsUpTo(ns, n))[Key(Str(a), Str(b))] ==
              (if a < n then multiset(ns[a].card)[ns[b].tag] else 0)
              + (if b < n && a != b then multiset(ns[b].card)[ns[a].tag] else 0)
  {
    if n > 0 {
      EventsUpToCount(ns, n - 1, a, b);
      var card := ns[n - 1].card;
      NodeEventsCount(ns, n - 1, |card|, a, b);
      assert card[..|card|] == card;
    }
  }

  /** Weight formula: after `build_edges`, nodes `a` and `b` are joined by an edge exactly when
      `b`'s tag is among `a`'s co-tags or `a`'s tag is among `b`'s, and its weight is the number of
      such occurrences, both directions added. For `a == b` this is the self-loop count. */
  lemma {:induction false} WeightFormula(cards: seq<seq<string>>, a: nat, b: nat)
    requires a < |NodesOf(cards)| && b < |NodesOf(cards)|
    ensures Closed(NodesOf(cards))
    ensures var ns := NodesOf(cards);
            var w := multiset(ns[a].card)[ns[b].tag] + (if a != b then multiset(ns[b].card)[ns[a].tag] else 0);
            && (Key(Str(a), Str(b)) in Tally(Events(ns)) <==> w > 0)
            && (Key(Str(a), Str(b)) in Tally(Events(ns)) ==> Tally(Events(ns))[Key(Str(a), Str(b))].weight == w)
  {
    var ns := NodesOf(cards);
    RegistryComplete(cards);
    CoTagsRegistered(cards);
    EventsUpToCount(ns, |ns|, a, b);
    TallyCounts(Events(ns), Key(Str(a), Str(b)));
  }

  /** Every key passed to `add_edge` joins two registered node ids. */
  lemma {:induction false} EventsEndpoints(ns: seq<VideoNode>, n: nat, e: EdgeKey)
    requires Closed(ns) && n <= |ns| && e in EventsUpTo(ns, n)
    ensures exists a: nat, b: nat :: a < |ns| && b < |ns| && e == Key(Str(a), Str(b))
  {
    var prev := EventsUpTo(ns, n - 1);
    if e in prev {
      EventsEndpoints(ns, n - 1, e);
    } else {
      NodeEventsEndpoints(ns, n - 1, |ns[n - 1].card|, e);
    }
  }

  /** Every key passed to `add_edge` for node `i` joins `i` to a registered node id. */
  lemma {:induction false} NodeEventsEndpoints(ns: seq<VideoNode>, i: nat, j: nat, e: EdgeKey)
    requires Closed(ns) && i < |ns| && j <= |ns[i].card| && e in NodeEvents(ns, i, j)
    ensures exists a: nat, b: nat :: a < |ns| && b < |ns| && e == Key(Str(a), Str(b))
  {
    if e in NodeEvents(ns, i, j - 1) {
      NodeEventsEndpoints(ns, i, j - 1, e);
    } else {
      var x := IndexOf(Tags(ns), ns[i].card[j - 1]);
      assert e == Key(Str(i), Str(x));
    }
  }

  /** Self-loops: when no card lists a tag twice, no edge joins a node to itself. */
  lemma {:induction false} NoSelfLoops(cards: seq<seq<string>>)
    requires forall k :: 0 <= k < |cards| ==> NoDup(cards[k])
    ensures Closed(NodesOf(cards))
    ensures forall e :: e in Tally(Events(NodesOf(cards))) ==> e.0 != e.1
  {
    var ns := NodesOf(cards);
    CoTagsRegistered(cards);
    forall e | e in Tally(Events(ns))
      ensures e.0 != e.1
    {
      TallyCounts(Events(ns), e);
      EventsEndpoints(ns, |ns|, e);
      var a: nat, b: nat :| a < |ns| && b < |ns| && e == Key(Str(a), Str(b));
      StrInjective(a, b);
      WeightFormula(cards, a, a);
      NodeContext(cards, a);
      RemoveFirstNoDup(cards[FirstCard(cards, ns[a].tag)], ns[a].tag);
    }
  }

  /** Self-loops: a node has an edge to itself exactly when the card it was discovered on lists
      its tag more than once. */
  lemma {:induction false} SelfLoopIff(cards: seq<seq<string>>, a: nat)
    requires a < |NodesOf(cards)|
    ensures Closed(NodesOf(cards))
    ensures NodesOf(cards)[a].tag in Flatten(cards)
    ensures var ns := NodesOf(cards);
            Key(Str(a), Str(a)) in Tally(Events(ns)) <==>
              multiset(cards[FirstCard(cards, ns[a].tag)])[ns[a].tag] >= 2
  {
    WeightFormula(cards, a, a);
    NodeContext(cards, a);
    var ns := NodesOf(cards);
    NewNodeCard(ns[a].tag, cards[FirstCard(cards, ns[a].tag)]);
  }

  /** Total length of the co-tag lists of the first `n` nodes. */
  function CoTagTotal(ns: seq<VideoNode>, n: nat): nat
    requires n <= |ns|
  {
    if n == 0 then 0 else CoTagTotal(ns, n - 1) + |ns[n - 1].card|
  }

  /** `build_edges` calls `add_edge` once per co-tag. */
  lemma {:induction false} EventsLength(ns: seq<VideoNode>, n: nat)
    requires Closed(ns) && n <= |ns|
    ensures |EventsUpTo(ns, n)| == CoTagTotal(ns, n)
  {
    if n > 0 {
      EventsLength(ns, n - 1);
      NodeEventsLength(ns, n - 1, |ns[n - 1].card|);
    }
  }

  /** Node `i` contributes one `add_edge` call per co-tag. */
  lemma {:induction false} NodeEventsLength(ns: seq<VideoNode>, i: nat, j: nat)
    requires Closed(ns) && i < |ns| && j <= |ns[i].card|
    ensures |NodeEvents(ns, i, j)| == j
  {
    if j > 0 {
      NodeEventsLength(ns, i, j - 1);
    }
  }

  /** Total weight: the weights of all edges, in insertion order, add up to the total length of
      all co-tag lists. */
  lemma {:induction false} TotalWeight(cards: seq<seq<string>>)
    ensures Closed(NodesOf(cards))
    ensures forall k :: k in Dedup(Events(NodesOf(cards))) ==> k in Tally(Events(NodesOf(cards)))
    ensures SumWeights(Dedup(Events(NodesOf(cards))), Tally(Events(NodesOf(cards)))) ==
              CoTagTotal(NodesOf(cards), |NodesOf(cards)|)
  {
    var ns := NodesOf(cards);
    CoTagsRegistered(cards);
    TallyTotal(Events(ns));
    EventsLength(ns, |ns|);
  }
}
