/** Graph edges (`VideoEdge` and `VideoGraph.add_edge` in anking_graph.py): an edge is keyed by the
    sorted pair of its endpoint ids and carries a weight that goes up by one per sighting. */
module Edge {
  import opened Seqs
  import opened PyStr

  /** The `tuple(sorted(edge))` dict key of an edge. */
  type EdgeKey = (string, string)

  /** `tuple(sorted([a, b]))`: the two ids in Python string order (`sorted` is stable, so the
      pair is left as it is unless `b < a`). */
  function Key(a: string, b: string): (k: EdgeKey)
    ensures k == (a, b) || k == (b, a)
    ensures !Lt(k.1, k.0)
  {
    LtTrichotomy(a, b);
    if Lt(b, a) then (b, a) else (a, b)
  }

  /** The key does not depend on the order in which the two ids are given. */
  lemma {:induction false} KeySymmetric(a: string, b: string)
    ensures Key(a, b) == Key(b, a)
  {
    LtTrichotomy(a, b);
  }

  /** Two keys are equal exactly when they join the same two ids. */
  lemma {:induction false} KeyInjective(a: string, b: string, c: string, d: string)
    ensures Key(a, b) == Key(c, d) <==> (a == c && b == d) || (a == d && b == c)
  {
    LtTrichotomy(a, b);
    LtTrichotomy(c, d);
  }

  /** A `VideoEdge`: its endpoint set (`set(edge)`) and its weight. */
  datatype VideoEdge = VideoEdge(nodes: set<string>, weight: nat)

  /** The effect of `add_edge` with key `k` on the `edges` dict: a present edge gains one unit of
      weight, an absent one is created as `VideoEdge(k)` with weight 1, and nothing else moves. */
  function Bump(edges: map<EdgeKey, VideoEdge>, k: EdgeKey): (r: map<EdgeKey, VideoEdge>)
    ensures r.Keys == edges.Keys + {k}
    ensures r[k].weight == (if k in edges then edges[k].weight + 1 else 1)
    ensures r[k].nodes == (if k in edges then edges[k].nodes else {k.0, k.1})
    ensures forall k' :: k' in edges && k' != k ==> r[k'] == edges[k']
  {
    if k in edges then edges[k := VideoEdge(edges[k].nodes, edges[k].weight + 1)]
    else edges[k := VideoEdge({k.0, k.1}, 1)]
  }

  /** The `edges` dict after `add_edge` has been called once for each key of `keys`, in order,
      starting from an empty dict. Its insertion order is `Dedup(keys)`. */
  function Tally(keys: seq<EdgeKey>): map<EdgeKey, VideoEdge>
  {
    if keys == [] then map[] else Bump(Tally(keys[..|keys| - 1]), keys[|keys| - 1])
  }

  /** The `edges` dict and its insertion order are those left by `add_edge` calls with `calls`. */
  ghost predicate Logged(edges: map<EdgeKey, VideoEdge>, order: seq<EdgeKey>, calls: seq<EdgeKey>)
  {
    edges == Tally(calls) && order == Dedup(calls)
  }

  /** Tally with one more key on the end. */
  lemma {:induction false} TallySnoc(keys: seq<EdgeKey>, k: EdgeKey)
    ensures Tally(keys + [k]) == Bump(Tally(keys), k)
  {
    assert (keys + [k])[..|keys + [k]| - 1] == keys;
  }

  /** The accumulated dict holds an edge for exactly the keys that were added, each with weight
      equal to the number of times its key was added and with its two ids as endpoints. */
  lemma {:induction false} TallyCounts(keys: seq<EdgeKey>, k: EdgeKey)
    ensures k in Tally(keys) <==> k in keys
    ensures k in Tally(keys) ==> Tally(keys)[k].weight == multiset(keys)[k]
    ensures k in Tally(keys) ==> Tally(keys)[k].nodes == {k.0, k.1}
  {
    if keys != [] {
      var p, x := keys[..|keys| - 1], keys[|keys| - 1];
      assert keys == p + [x];
      TallyCounts(p, k);
    }
  }

  /** Sum of the weights of the edges listed in `order`. */
  function SumWeights(order: seq<EdgeKey>, edges: map<EdgeKey, VideoEdge>): nat
    requires forall k :: k in order ==> k in edges
  {
    if order == [] then 0
    else SumWeights(order[..|order| - 1], edges) + edges[order[|order| - 1]].weight
  }

  /** Changing an edge that is not listed leaves the sum alone. */
  lemma {:induction false} SumWeightsOutside(order: seq<EdgeKey>, edges: map<EdgeKey, VideoEdge>, k: EdgeKey, e: VideoEdge)
    requires forall k' :: k' in order ==> k' in edges
    requires k !in order
    ensures SumWeights(order, edges[k := e]) == SumWeights(order, edges)
  {
    if order != [] {
      SumWeightsOutside(order[..|order| - 1], edges, k, e);
    }
  }

  /** Adding one unit of weight to an edge listed once adds one to the sum. */
  lemma {:induction false} SumWeightsBump(order: seq<EdgeKey>, edges: map<EdgeKey, VideoEdge>, k: EdgeKey)
    requires forall k' :: k' in order ==> k' in edges
    requires NoDup(order) && k in order
    ensures SumWeights(order, Bump(edges, k)) == SumWeights(order, edges) + 1
  {
    var p, x := order[..|order| - 1], order[|order| - 1];
    assert order == p + [x];
    if x == k {
      assert k !in p;
      SumWeightsOutside(p, edges, k, Bump(edges, k)[k]);
    } else {
      assert k in p;
      SumWeightsBump(p, edges, k);
    }
  }

  /** The weights of the accumulated dict add up to the number of `add_edge` calls. */
  lemma {:induction false} TallyTotal(keys: seq<EdgeKey>)
    ensures forall k :: k in Dedup(keys) ==> k in Tally(keys)
    ensures SumWeights(Dedup(keys), Tally(keys)) == |keys|
  {
    forall k | k in Dedup(keys)
      ensures k in Tally(keys)
    {
      TallyCounts(keys, k);
    }
    if keys != [] {
      var p, x := keys[..|keys| - 1], keys[|keys| - 1];
      assert keys == p + [x];
      TallyTotal(p);
      DedupSnoc(p, x);
      TallySnoc(p, x);
      forall k | k in p
        ensures k in Tally(p)
      {
        TallyCounts(p, k);
      }
      if x in Dedup(p) {
        DedupNoDup(p);
        SumWeightsBump(Dedup(p), Tally(p), x);
      } else {
        TallyCounts(p, x);
        var d := Dedup(p) + [x];
        assert d[..|d| - 1] == Dedup(p);
        SumWeightsOutside(Dedup(p), Tally(p), x, Bump(Tally(p), x)[x]);
      }
    }
  }
}
