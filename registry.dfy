/** The registry of `VideoGraph` (`id_counter`, `tag_to_id`, `id_to_tag` and the `nodes` dict of
    anking_graph.py) as functions of the list of nodes in registration order: node `i` gets the
    id `str(i)`. */
module Registry {
  import opened Seqs
  import opened PyStr
  import opened Node
  import opened Edge
  import opened GraphSpec

  /** The ids handed out for `n` registrations, in order: `"0"`, `"1"`, ... */
  function Ids(n: nat): (ids: seq<string>)
    ensures |ids| == n && forall i :: 0 <= i < n ==> ids[i] == Str(i)
  {
    if n == 0 then [] else Ids(n - 1) + [Str(n - 1)]
  }

  /** `tag_to_id` after registering the nodes of `ns` in order. */
  function TagIds(ns: seq<VideoNode>): map<string, string>
  {
    if ns == [] then map[] else TagIds(ns[..|ns| - 1])[ns[|ns| - 1].tag := Str(|ns| - 1)]
  }

  /** `id_to_tag` after registering the nodes of `ns` in order. */
  function IdTags(ns: seq<VideoNode>): map<string, string>
  {
    if ns == [] then map[] else IdTags(ns[..|ns| - 1])[Str(|ns| - 1) := ns[|ns| - 1].tag]
  }

  /** The `nodes` dict after registering the nodes of `ns` in order. */
  function NodeMap(ns: seq<VideoNode>): map<string, VideoNode>
  {
    if ns == [] then map[] else NodeMap(ns[..|ns| - 1])[Str(|ns| - 1) := ns[|ns| - 1]]
  }

  /** One more registration extends the three maps by the new node's entries. */
  lemma {:induction false} RegisterSnoc(ns: seq<VideoNode>, n: VideoNode)
    ensures TagIds(ns + [n]) == TagIds(ns)[n.tag := Str(|ns|)]
    ensures IdTags(ns + [n]) == IdTags(ns)[Str(|ns|) := n.tag]
    ensures NodeMap(ns + [n]) == NodeMap(ns)[Str(|ns|) := n]
  {
    assert (ns + [n])[..|ns|] == ns;
  }

  /** One more registration hands out the next id. */
  lemma {:induction false} IdsSnoc(n: nat)
    ensures Ids(n + 1) == Ids(n) + [Str(n)]
  {
  }

  /** With distinct tags, `tag_to_id` holds exactly the registered tags, each mapped to the id of
      its node. */
  lemma {:induction false} TagIdsSpec(ns: seq<VideoNode>, t: string)
    requires NoDup(Tags(ns))
    ensures t in TagIds(ns) <==> t in Tags(ns)
    ensures t in Tags(ns) ==> TagIds(ns)[t] == IdOf(ns, t)
  {
    if ns != [] {
      var p, x := ns[..|ns| - 1], ns[|ns| - 1];
      assert ns == p + [x];
      TagsSnoc(p, x);
      assert Tags(ns) == Tags(p) + [x.tag];
      NoDupSnoc(Tags(p), x.tag);
      TagIdsSpec(p, t);
      if t == x.tag {
        IndexOfNoDup(Tags(ns), |p|);
      } else if t in Tags(p) {
        IndexOfPrefix(Tags(p), x.tag, t);
      }
    }
  }

  /** `id_to_tag` and `nodes` hold exactly the ids handed out. */
  lemma {:induction false} IdKeys(ns: seq<VideoNode>, d: string)
    ensures d in IdTags(ns) <==> d in Ids(|ns|)
    ensures d in NodeMap(ns) <==> d in Ids(|ns|)
  {
    if ns != [] {
      var p, x := ns[..|ns| - 1], ns[|ns| - 1];
      assert ns == p + [x];
      RegisterSnoc(p, x);
      IdKeys(p, d);
    }
  }

  /** Under id `str(i)`, `id_to_tag` holds the tag of node `i` and `nodes` holds node `i`. */
  lemma {:induction false} IdEntries(ns: seq<VideoNode>, i: nat)
    requires i < |ns|
    ensures Str(i) in IdTags(ns) && IdTags(ns)[Str(i)] == ns[i].tag
    ensures Str(i) in NodeMap(ns) && NodeMap(ns)[Str(i)] == ns[i]
  {
    var p, x := ns[..|ns| - 1], ns[|ns| - 1];
    assert ns == p + [x];
    RegisterSnoc(p, x);
    if i < |p| {
      StrInjective(i, |p|);
      IdEntries(p, i);
    }
  }

  /** `tag_to_id` and `id_to_tag` are inverse to each other. */
  lemma {:induction false} RegistryInverse(ns: seq<VideoNode>)
    requires NoDup(Tags(ns))
    ensures forall t :: t in TagIds(ns) ==> TagIds(ns)[t] in IdTags(ns) && IdTags(ns)[TagIds(ns)[t]] == t
    ensures forall d :: d in IdTags(ns) ==> IdTags(ns)[d] in TagIds(ns) && TagIds(ns)[IdTags(ns)[d]] == d
  {
    forall t | t in TagIds(ns)
      ensures TagIds(ns)[t] in IdTags(ns) && IdTags(ns)[TagIds(ns)[t]] == t
    {
      TagIdsSpec(ns, t);
      IdEntries(ns, IndexOf(Tags(ns), t));
    }
    forall d | d in IdTags(ns)
      ensures IdTags(ns)[d] in TagIds(ns) && TagIds(ns)[IdTags(ns)[d]] == d
    {
      IdKeys(ns, d);
      var i := IndexOf(Ids(|ns|), d);
      IdEntries(ns, i);
      TagIdsSpec(ns, ns[i].tag);
      IndexOfNoDup(Tags(ns), i);
    }
  }

  /** The registry fields of a graph account for the nodes of `ns`, registered in order with
      distinct tags: `count` ids handed out, `tagOrder` and `nodeIds` the key orders of
      `tag_to_id` and `nodes`, and the three maps those of TagIds, IdTags and NodeMap. */
  ghost predicate Registered(count: nat, tagOrder: seq<string>, nodeIds: seq<string>, tagToId: map<string, string>,
                             idToTag: map<string, string>, nodes: map<string, VideoNode>, ns: seq<VideoNode>)
  {
    && count == |ns|
    && tagOrder == Tags(ns) && NoDup(tagOrder)
    && nodeIds == Ids(count)
    && tagToId == TagIds(ns) && idToTag == IdTags(ns) && nodes == NodeMap(ns)
  }

  /** The fields of a graph agree: the registry accounts for `ns`, the edge dict and its order
      are those left by the `add_edge` calls `calls`, and every call joined two stored nodes. */
  ghost predicate Consistent(count: nat, tagOrder: seq<string>, nodeIds: seq<string>, tagToId: map<string, string>,
                             idToTag: map<string, string>, nodes: map<string, VideoNode>, ns: seq<VideoNode>,
                             edges: map<EdgeKey, VideoEdge>, edgeOrder: seq<EdgeKey>, calls: seq<EdgeKey>)
  {
    && Registered(count, tagOrder, nodeIds, tagToId, idToTag, nodes, ns)
    && Logged(edges, edgeOrder, calls)
    && CallsStored(calls, nodes)
  }

  /** A new graph, with nothing registered and no edge added, is consistent. */
  lemma {:induction false} EmptyConsistent()
    ensures Consistent(0, [], [], map[], map[], map[], [], map[], [], [])
  {
    assert Tags([]) == [] && Ids(0) == [];
  }
}
