/** `VideoGraph` from anking_graph.py: the registry (`id_counter`, `tag_to_id`, `id_to_tag`), the
    `nodes` and `edges` dicts, the two build phases that fill them in place, and the read-only
    views used for drawing (the edge filter of `visualize`, `node_colors`, the tag list). */
module Graph {
  import opened Seqs
  import opened PyStr
  import opened Node
  import opened Edge
  import opened Config
  import opened GraphSpec
  import opened Registry

  /** The edge fields: `order` lists the keys of `edges` once each, and every edge joins two
      stored nodes. */
  ghost predicate EdgeStore(edges: map<EdgeKey, VideoEdge>, order: seq<EdgeKey>, nodes: map<string, VideoNode>)
  {
    && NoDup(order)
    && (forall k :: k in edges <==> k in order)
    && (forall k :: k in edges ==> k.0 in nodes && k.1 in nodes)
  }

  /** Storing more nodes keeps every call's endpoints stored. */
  lemma {:induction false} CallsStoredGrow(calls: seq<EdgeKey>, nodes: map<string, VideoNode>, d: string, v: VideoNode)
    requires CallsStored(calls, nodes)
    ensures CallsStored(calls, nodes[d := v])
  {
  }

  /** A call between two stored nodes keeps every call's endpoints stored. */
  lemma {:induction false} CallsStoredSnoc(calls: seq<EdgeKey>, nodes: map<string, VideoNode>, a: string, b: string)
    requires CallsStored(calls, nodes) && a in nodes && b in nodes
    ensures CallsStored(calls + [Key(a, b)], nodes)
  {
  }

  /** The edge fields left by calls between stored nodes: the insertion order lists the keys of
      the dict once each, and every stored edge joins two stored nodes. */
  lemma {:induction false} LogStore(calls: seq<EdgeKey>, nodes: map<string, VideoNode>)
    requires CallsStored(calls, nodes)
    ensures EdgeStore(Tally(calls), Dedup(calls), nodes)
  {
    DedupNoDup(calls);
    forall k
      ensures k in Tally(calls) <==> k in Dedup(calls)
    {
      TallyCounts(calls, k);
    }
  }

  /** The `(edge, weight)` pairs `visualize` hands to the drawing library, walking `order` (the
      insertion order of `edges`) and skipping an edge when an endpoint's class is in `omit`. */
  function ShownEdges(order: seq<EdgeKey>, edges: map<EdgeKey, VideoEdge>, nodes: map<string, VideoNode>,
                      omit: seq<string>): seq<(EdgeKey, nat)>
    requires forall k :: k in order ==> k in edges && k.0 in nodes && k.1 in nodes
  {
    if order == [] then []
    else
      var rest := ShownEdges(order[..|order| - 1], edges, nodes, omit);
      var k := order[|order| - 1];
      if EdgeShown(nodes[k.0].nodeClass, nodes[k.1].nodeClass, omit) then rest + [(k, edges[k].weight)]
      else rest
  }

  /** An edge is drawn, with its stored weight, exactly when it is stored and neither endpoint's
      class is omitted. */
  lemma {:induction false} ShownEdgesMember(order: seq<EdgeKey>, edges: map<EdgeKey, VideoEdge>,
                                            nodes: map<string, VideoNode>, omit: seq<string>, k: EdgeKey, w: nat)
    requires forall k :: k in order ==> k in edges && k.0 in nodes && k.1 in nodes
    ensures (k, w) in ShownEdges(order, edges, nodes, omit) <==>
              k in order && w == edges[k].weight && EdgeShown(nodes[k.0].nodeClass, nodes[k.1].nodeClass, omit)
  {
    if order != [] {
      var p := order[..|order| - 1];
      assert order == p + [order[|order| - 1]];
      ShownEdgesMember(p, edges, nodes, omit, k, w);
    }
  }

  /** The endpoints of the drawn edges, each edge contributing its two ids in order. */
  function Endpoints(shown: seq<(EdgeKey, nat)>): (ids: seq<string>)
    ensures forall d :: d in ids <==> exists m :: 0 <= m < |shown| && (d == shown[m].0.0 || d == shown[m].0.1)
  {
    if shown == [] then []
    else
      var e := shown[|shown| - 1];
      var rest := Endpoints(shown[..|shown| - 1]);
      assert forall m :: 0 <= m < |shown| - 1 ==> shown[..|shown| - 1][m] == shown[m];
      rest + [e.0.0, e.0.1]
  }

  /** `G.nodes()` of the drawn graph: ids in the order the drawn edges first mention them. */
  function DrawnNodes(shown: seq<(EdgeKey, nat)>): seq<string>
  {
    Dedup(Endpoints(shown))
  }

  /** Every node of the drawn graph is stored and its class is not omitted. */
  lemma {:induction false} DrawnNodesShown(order: seq<EdgeKey>, edges: map<EdgeKey, VideoEdge>, nodes: map<string, VideoNode>,
                        omit: seq<string>, d: string)
    requires forall k :: k in order ==> k in edges && k.0 in nodes && k.1 in nodes
    requires d in DrawnNodes(ShownEdges(order, edges, nodes, omit))
    ensures d in nodes && nodes[d].NodeClassName() !in omit
  {
    var shown := ShownEdges(order, edges, nodes, omit);
    var m :| 0 <= m < |shown| && (d == shown[m].0.0 || d == shown[m].0.1);
    ShownEdgesMember(order, edges, nodes, omit, shown[m].0, shown[m].1);
  }

  /** The `add_edge` call `build_edges` makes for co-tag `j` of node `i`: the co-tag is registered,
      both ids name stored nodes, and the call is the next one in `Events`. */
  lemma {:induction false} NextEvent(ns: seq<VideoNode>, calls: seq<EdgeKey>, i: nat, j: nat)
    requires NoDup(Tags(ns)) && BuiltPartway(ns, calls, i, j) && j < |ns[i].card|
    ensures Str(i) in NodeMap(ns)
    ensures ns[i].card[j] in TagIds(ns) && TagIds(ns)[ns[i].card[j]] in NodeMap(ns)
    ensures BuiltPartway(ns, calls + [Key(Str(i), TagIds(ns)[ns[i].card[j]])], i, j + 1)
  {
    var t := ns[i].card[j];
    TagIdsSpec(ns, t);
    IdEntries(ns, i);
    IdEntries(ns, IndexOf(Tags(ns), t));
  }

  /** One more `add_edge` call with key `k` turns the dict and insertion order left by `calls`
      into those left by `calls + [k]`. */
  lemma {:induction false} LogStep(calls: seq<EdgeKey>, k: EdgeKey)
    ensures Tally(calls + [k]) == Bump(Tally(calls), k)
    ensures Dedup(calls + [k]) == if k in Tally(calls) then Dedup(calls) else Dedup(calls) + [k]
  {
    TallySnoc(calls, k);
    DedupSnoc(calls, k);
    TallyCounts(calls, k);
  }

  class VideoGraph {
    /** `config.omit`: the node classes hidden when drawing. */
    const omit: seq<string>
    /** The input cards. */
    const cards: seq<seq<string>>
    var idCounter: nat
    var idToTag: map<string, string>
    var tagToId: map<string, string>
    /** The keys of `tag_to_id` in insertion order. */
    var tagOrder: seq<string>
    var nodes: map<string, VideoNode>
    /** The keys of `nodes` in insertion order. */
    var nodeIds: seq<string>
    var edges: map<EdgeKey, VideoEdge>
    /** The keys of `edges` in insertion order. */
    var edgeOrder: seq<EdgeKey>
    /** The nodes in registration order. */
    ghost var nodeSeq: seq<VideoNode>
    /** The keys passed to `add_edge` so far, in call order. */
    ghost var calls: seq<EdgeKey>

    /** The edge dict and its insertion order are those left by the `add_edge` calls so far. */
    ghost predicate EdgeLog()
      reads this`edges, this`edgeOrder, this`calls
    {
      Logged(edges, edgeOrder, calls)
    }

    /** The registry holds the nodes of `nodeSeq`, with distinct tags, node `i` under id `str(i)`;
        the edges are those of the calls made; every call joined two stored nodes. */
    ghost predicate Valid()
      reads this
    {
      Consistent(idCounter, tagOrder, nodeIds, tagToId, idToTag, nodes, nodeSeq, edges, edgeOrder, calls)
    }

    /** The nodes and edges are those `VideoGraph(cards)` builds. */
    ghost predicate Built()
      reads this
    {
      BuiltFrom(cards, nodeSeq, edges, edgeOrder)
    }

    /** `build_edges` has made its calls for the first `n` nodes. */
    ghost predicate EdgesUpTo(n: nat)
      reads this
    {
      BuiltUpTo(nodeSeq, calls, n)
    }

    /** `build_edges` has made its calls for the first `i` nodes and the first `j` co-tags of
        node `i`. */
    ghost predicate EdgesPartway(i: nat, j: nat)
      reads this
    {
      BuiltPartway(nodeSeq, calls, i, j)
    }

    /** `VideoGraph(cards, config)`: builds the nodes, then the edges. */
    constructor (cards: seq<seq<string>>, omit: seq<string>)
      ensures Valid() && Built()
      ensures this.cards == cards && this.omit == omit
    {
      this.cards := cards;
      this.omit := omit;
      idCounter := 0;
      idToTag := map[];
      tagToId := map[];
      tagOrder := [];
      nodes := map[];
      nodeIds := [];
      edges := map[];
      edgeOrder := [];
      nodeSeq := [];
      calls := [];
      new;
      EmptyConsistent();
      BuildNodes();
      BuildEdges();
    }

    /** `add_node`: registers an unregistered `tag` under the next id, discovered on `card`. */
    method AddNode(tag: string, card: seq<string>)
      requires Valid() && tag in card && tag !in tagToId
      modifies this`idCounter, this`idToTag, this`tagToId, this`tagOrder, this`nodes, this`nodeIds, this`nodeSeq
      ensures Valid()
      ensures nodeSeq == old(nodeSeq) + [NewNode(tag, card)]
      ensures idCounter == old(idCounter) + 1
      ensures tagToId == old(tagToId)[tag := Str(old(idCounter))]
      ensures idToTag == old(idToTag)[Str(old(idCounter)) := tag]
      ensures nodes == old(nodes)[Str(old(idCounter)) := NewNode(tag, card)]
      ensures tagOrder == old(tagOrder) + [tag] && nodeIds == old(nodeIds) + [Str(old(idCounter))]
    {
      var node := NewNode(tag, card);
      var tagId := Str(idCounter);
      TagIdsSpec(nodeSeq, tag);
      TagsSnoc(nodeSeq, node);
      NoDupSnoc(tagOrder, tag);
      RegisterSnoc(nodeSeq, node);
      IdsSnoc(idCounter);
      CallsStoredGrow(calls, nodes, tagId, node);
      idToTag := idToTag[tagId := tag];
      tagToId := tagToId[tag := tagId];
      nodes := nodes[tagId := node];
      idCounter := idCounter + 1;
      tagOrder := tagOrder + [tag];
      nodeIds := nodeIds + [tagId];
      nodeSeq := nodeSeq + [node];
    }

    /** `add_edge`: counts one more sighting of the edge between ids `a` and `b`. */
    method AddEdge(a: string, b: string)
      requires EdgeLog()
      modifies this`edges, this`edgeOrder, this`calls
      ensures EdgeLog() && calls == old(calls) + [Key(a, b)]
      ensures edges == Bump(old(edges), Key(a, b))
      ensures edgeOrder == if Key(a, b) in old(edges) then old(edgeOrder) else old(edgeOrder) + [Key(a, b)]
    {
      var edge := Key(a, b);
      LogStep(calls, edge);
      if edge in edges {
        edges := edges[edge := VideoEdge(edges[edge].nodes, edges[edge].weight + 1)];
      } else {
        edges := edges[edge := VideoEdge({edge.0, edge.1}, 1)];
        edgeOrder := edgeOrder + [edge];
      }
      calls := calls + [edge];
    }

    /** `build_nodes`: scans the cards in order and the tags of each card in order, registering
        every tag not seen before. */
    method BuildNodes()
      requires Valid() && nodeSeq == []
      modifies this`idCounter, this`idToTag, this`tagToId, this`tagOrder, this`nodes, this`nodeIds, this`nodeSeq
      ensures Valid() && nodeSeq == NodesOf(cards)
    {
      ScanBegin(cards);
      for i := 0 to |cards|
        invariant Valid() && ScannedUpTo(cards, nodeSeq, i)
      {
        ScanCard(i);
      }
      ScanAll(cards, nodeSeq);
    }

    /** The body of the outer loop of `build_nodes` for card `i`. */
    method ScanCard(i: nat)
      requires Valid() && i < |cards| && ScannedUpTo(cards, nodeSeq, i)
      modifies this`idCounter, this`idToTag, this`tagToId, this`tagOrder, this`nodes, this`nodeIds, this`nodeSeq
      ensures Valid() && ScannedUpTo(cards, nodeSeq, i + 1)
    {
      var card := cards[i];
      ScanStart(cards, nodeSeq, i);
      for j := 0 to |card|
        invariant Valid() && ScannedPartway(cards, nodeSeq, i, j) && card == cards[i]
      {
        ScanStep(cards, nodeSeq, i, j);
        VisitTag(card[j], card);
      }
      ScanDone(cards, nodeSeq, i);
    }

    /** The body of the inner loop of `build_nodes`: registers `tag`, found on `card`, unless it
        is already registered. */
    method VisitTag(tag: string, card: seq<string>)
      requires Valid() && tag in card
      modifies this`idCounter, this`idToTag, this`tagToId, this`tagOrder, this`nodes, this`nodeIds, this`nodeSeq
      ensures Valid() && nodeSeq == StepTag(old(nodeSeq), card, tag)
    {
      TagIdsSpec(nodeSeq, tag);
      if tag !in tagToId {
        AddNode(tag, card);
      }
    }

    /** `build_edges`: for every node in insertion order and every co-tag of it, looks up the
        co-tag's id and adds the edge between the two ids. The lookup cannot miss when every
        co-tag is registered, which `build_nodes` guarantees (`CoTagsRegistered`). */
    method BuildEdges()
      requires Valid() && nodeSeq == NodesOf(cards) && calls == []
      modifies this`edges, this`edgeOrder, this`calls
      ensures Valid() && Built()
    {
      CoTagsRegistered(cards);
      for i := 0 to |nodeIds|
        invariant Valid() && EdgesUpTo(i)
      {
        AddCoTagEdges(i);
      }
    }

    /** The body of the outer loop of `build_edges` for the `i`-th key of `nodes`: one `add_edge`
        per co-tag, in the order of the node's card. */
    method AddCoTagEdges(i: nat)
      requires Valid() && i < |nodeIds| && EdgesUpTo(i)
      modifies this`edges, this`edgeOrder, this`calls
      ensures Valid() && EdgesUpTo(i + 1)
    {
      StartNode(i);
      var node1 := nodeIds[i];
      var card := nodes[node1].card;
      ghost var ns := nodeSeq;
      for j := 0 to |card|
        invariant Valid() && EdgesPartway(i, j) && nodeSeq == ns
      {
        LinkCoTag(node1, card[j], i, j);
      }
      FinishNode(i, card);
    }

    /** Starting on the `i`-th key of `nodes`: it is `str(i)` and names node `i`. */
    lemma StartNode(i: nat)
      requires Valid() && i < |nodeIds| && EdgesUpTo(i)
      ensures nodeIds[i] == Str(i) && Str(i) in nodes && nodes[Str(i)].card == nodeSeq[i].card
      ensures EdgesPartway(i, 0)
    {
      IdEntries(nodeSeq, i);
      PartwayStart(nodeSeq, calls, i);
    }

    /** Finishing node `i`. */
    lemma FinishNode(i: nat, card: seq<string>)
      requires i < |nodeSeq| && card == nodeSeq[i].card && EdgesPartway(i, |card|)
      ensures EdgesUpTo(i + 1)
    {
      PartwayDone(nodeSeq, calls, i);
    }

    /** The body of the inner loop of `build_edges`: the edge between node `i` (id `node1`) and
        its co-tag `j` (tag `node2`); the co-tag's id is looked up in `tag_to_id`. */
    method LinkCoTag(node1: string, node2: string, ghost i: nat, ghost j: nat)
      requires Valid() && EdgesPartway(i, j) && j < |nodeSeq[i].card|
      requires node1 == Str(i) && node2 == nodeSeq[i].card[j]
      modifies this`edges, this`edgeOrder, this`calls
      ensures Valid() && EdgesPartway(i, j + 1)
    {
      NextEvent(nodeSeq, calls, i, j);
      if node2 !in tagToId {
        assert false;
      }
      CallsStoredSnoc(calls, nodes, node1, tagToId[node2]);
      AddEdge(node1, tagToId[node2]);
    }

    /** The edge filter of `visualize`: the stored edges, in insertion order, with their weights,
        leaving out those with an endpoint whose class is in `omit`. Nothing is changed. */
    method VisibleEdges() returns (shown: seq<(EdgeKey, nat)>)
      requires Valid()
      ensures EdgeStore(edges, edgeOrder, nodes)
      ensures shown == ShownEdges(edgeOrder, edges, nodes, omit)
    {
      LogStore(calls, nodes);
      shown := [];
      var i := 0;
      while i < |edgeOrder|
        invariant 0 <= i <= |edgeOrder|
        invariant shown == ShownEdges(edgeOrder[..i], edges, nodes, omit)
      {
        var edge := edgeOrder[i];
        assert edgeOrder[..i + 1][..i] == edgeOrder[..i];
        if !(nodes[edge.0].NodeClassName() in omit || nodes[edge.1].NodeClassName() in omit) {
          shown := shown + [(edge, edges[edge].weight)];
        }
        i := i + 1;
      }
      assert edgeOrder[..|edgeOrder|] == edgeOrder;
    }

    /** `node_colors`: the palette index of each listed node, in the order given. */
    method NodeColors(ids: seq<string>) returns (colors: seq<nat>)
      requires forall d :: d in ids ==> d in nodes
      ensures |colors| == |ids|
      ensures forall k :: 0 <= k < |ids| ==>
                colors[k] == nodes[ids[k]].NodeColorIdx() && colors[k] < 5
                && ClassOfColorIdx(colors[k]) == nodes[ids[k]].nodeClass
    {
      colors := [];
      var k := 0;
      while k < |ids|
        invariant 0 <= k <= |ids|
        invariant |colors| == k
        invariant forall m :: 0 <= m < k ==> colors[m] == nodes[ids[m]].NodeColorIdx()
      {
        colors := colors + [nodes[ids[k]].NodeColorIdx()];
        k := k + 1;
      }
    }

    /** `visualize` without the drawing: the weighted edges handed to the graph, the graph's nodes
        and their palette indices. No node of an omitted class is drawn. */
    method Visualize() returns (shown: seq<(EdgeKey, nat)>, ids: seq<string>, colors: seq<nat>)
      requires Valid()
      ensures EdgeStore(edges, edgeOrder, nodes)
      ensures shown == ShownEdges(edgeOrder, edges, nodes, omit) && ids == DrawnNodes(shown)
      ensures |colors| == |ids|
      ensures forall k :: 0 <= k < |ids| ==>
                ids[k] in nodes && nodes[ids[k]].NodeClassName() !in omit
                && colors[k] == nodes[ids[k]].NodeColorIdx()
    {
      shown := VisibleEdges();
      ids := DrawnNodes(shown);
      forall d | d in ids
        ensures d in nodes && nodes[d].NodeClassName() !in omit
      {
        DrawnNodesShown(edgeOrder, edges, nodes, omit, d);
      }
      colors := NodeColors(ids);
    }

    /** The rows of the tag list written by `output_tag_csv`: each tag with its id, in the
        insertion order of `tag_to_id`. */
    method TagRows() returns (rows: seq<(string, string)>)
      requires Valid()
      ensures |rows| == |nodeSeq|
      ensures forall k :: 0 <= k < |rows| ==> rows[k] == (nodeSeq[k].tag, Str(k))
    {
      rows := [];
      var k := 0;
      while k < |tagOrder|
        invariant 0 <= k <= |tagOrder|
        invariant |rows| == k
        invariant forall m :: 0 <= m < k ==> rows[m] == (nodeSeq[m].tag, Str(m))
      {
        var tag := tagOrder[k];
        TagIdsSpec(nodeSeq, tag);
        IndexOfNoDup(tagOrder, k);
        rows := rows + [(tag, tagToId[tag])];
        k := k + 1;
      }
    }
  }
}
