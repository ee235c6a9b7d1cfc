# Anking tag co-occurrence graph, modelled in Dafny

`anking_graph.py` turns a list of study cards, each a list of tags, into a tag co-occurrence
graph. This project models that graph builder.

- **Node phase.** `build_nodes` scans the cards in order and the tags of each card in order.
  Every tag not yet registered gets the next id `str(id_counter)`. It is recorded in `tag_to_id`
  and `id_to_tag`, and a `VideoNode` is stored under its id. The node keeps a copy of the card
  it was found on, with the first occurrence of its own tag removed: this is its co-tag list.
- **Edge phase.** `build_edges` visits the nodes in insertion order and each node's co-tags in
  order. It looks up the co-tag's id and calls `add_edge` with the two ids.
- **`add_edge`.** It keys the edge by the sorted pair of ids. A present edge gains one unit of
  weight; an absent one is created with weight 1.
- **`classify_node`.** It puts each tag in the first matching class, trying `#B&B`, `#Pathoma`,
  `#Sketchy` and `#FirstAid` in that order, with `other` as the fallback. Each class has a
  palette index from 0 to 4.
- **Read-time views.** `GraphConfig.omits` lists the hidden classes. The edge loop of
  `visualize` skips edges with a hidden endpoint, and `node_colors` maps ids to palette indices.
  None of these change the stored graph.

## How the model is built

- `VideoGraph` is a Dafny class.
  - Its dicts are `map` fields. `tag_to_id`, `nodes` and `edges` each have a `seq` of their
    keys in insertion order (Python dicts iterate in insertion order); `id_to_tag` is never
    iterated, so it has none (its key order would be `nodeIds`).
  - `id_counter` is a `nat`.
  - Two ghost fields record the nodes in registration order and the keys passed to `add_edge` so
    far.
  - `Valid()` ties every mutable field to those two ghost fields; `cards` and `omit` are
    constants.
- The methods `AddNode` and `AddEdge` mirror `add_node` and `add_edge`, and `BuildNodes` and
  `BuildEdges` mirror the nested loops of `build_nodes` and `build_edges`. Each is proved
  against reference functions:
  - `NodesOf(cards)` is what the node phase produces.
  - `Events(ns)` is the sequence of keys the edge phase passes to `add_edge`.
  - `Tally(keys)` is the edge dict those calls leave.
  - `Dedup(keys)` is that dict's key order.
- The constructor establishes `Built()`: the nodes are `NodesOf(cards)`, and the edges and
  their order are `Tally` and `Dedup` of `Events(NodesOf(cards))`. The lemmas of `GraphSpec`
  then describe that graph.
- Python semantics are written out where it matters:
  - ids are strings built by `Str` (`str(n)`);
  - `sorted` on two strings is `Key`, using Python's lexicographic `<` (`Lt`);
  - `list.remove` is `RemoveFirst`;
  - substring `in` is `Contains`.

### Two consequences of the code worth knowing

- **Edge weights count discovery events from both ends, not shared cards.** For the cards
  `[["#B&B::x", "#Pathoma::y"], ["#B&B::x", "#Sketchy::z"]]` edge `{0, 1}` has weight **2**:
  `#Pathoma::y` was first seen on the first card, so its co-tag list holds `#B&B::x`, and both
  nodes add the edge. `Scenario.ScenarioGraph` proves the exact outcome (edges `{0, 1}` with
  weight 2 and `{0, 2}` with weight 1, in that order); `GraphSpec.WeightFormula` gives the rule.
- **Self-loops are built when a node's discovery card lists its tag twice.** `list.remove`
  drops only the first copy, and the second copy is a co-tag that leads back to the node
  itself (`GraphSpec.SelfLoopIff`); cards without repeated tags give no self-loops
  (`GraphSpec.NoSelfLoops`).

## Model

| member | source | states |
|---|---|---|
| Config.Omits | anking_graph.py:29-35 | `other` is always hidden, and `FirstAid` is hidden exactly when `firstaid` is off; no other class is ever hidden; the list has one or two entries, `other` first |
| Config.ShownUnderConfig | anking_graph.py:93-96 | under the configured omit list, an edge is drawn iff neither endpoint is `other` and, unless `firstaid` is set, neither is `FirstAid` |
| PyStr.Contains | anking_graph.py:144-159 | substring `in`: true iff the marker occurs at some position of the tag |
| PyStr.LtTrichotomy | anking_graph.py:67 | exactly one of `a < b`, `a == b`, `b < a` holds for Python's string `<`, so `sorted` of two ids is well defined |
| PyStr.LtTrans | anking_graph.py:67 | Python's string `<` is transitive; with trichotomy it is a strict total order |
| PyStr.Digit | anking_graph.py:59 | a digit character for each value below 10, with that value |
| PyStr.Str | anking_graph.py:59 | `str(n)` is a non-empty string of decimal digits (with no leading zero for `n > 0`, `StrCanonical`) |
| PyStr.StrCanonical | anking_graph.py:59 | `str(n)` for `n > 0` does not start with `0`; with `StrRoundTrip` this makes `Str` Python's canonical decimal form |
| PyStr.StrRoundTrip | anking_graph.py:59 | reading back the decimal digits of `str(n)` gives `n` |
| PyStr.StrInjective | anking_graph.py:59 | distinct counters give distinct ids |
| Seqs.RemoveFirstSpec | anking_graph.py:139 | `list.remove(x)` deletes exactly the first occurrence of `x` and keeps the order of the rest |
| Seqs.RemoveFirstCount | anking_graph.py:139 | after `list.remove(x)` the list is one shorter and its multiset loses exactly one `x` |
| Seqs.RemoveFirstNoDup | anking_graph.py:139 | removing `x` from a list without repeats leaves no `x` |
| Node.ColorIdx | anking_graph.py:143-167 | `color_idx` is below 5 and names the node's class and no other |
| Node.ClassifySpec | anking_graph.py:143-167 | classification is total and first-match: B&B iff `#B&B` occurs; Pathoma iff `#Pathoma` occurs and `#B&B` does not; and so on down to `other` when no marker occurs |
| Node.NewNodeCard | anking_graph.py:136-141 | a new node keeps its tag, is classified by it, and its co-tag list is its card with one copy of the tag removed |
| Edge.Key | anking_graph.py:67 | the key is the two ids in Python string order |
| Edge.KeySymmetric | anking_graph.py:67 | the key does not depend on the order in which the ids are given |
| Edge.KeyInjective | anking_graph.py:67 | two keys are equal iff they join the same two ids |
| Edge.Bump | anking_graph.py:66-72 | one `add_edge`: the key is present afterwards; its weight goes up by 1 if it was present, and otherwise it is created with weight 1 and endpoint set `set(edge)`; every other edge is unchanged |
| Edge.TallyCounts | anking_graph.py:66-72 | after any sequence of calls, an edge exists iff its key was added; its weight is the number of times the key was added; its endpoints are the key's two ids |
| Edge.TallyTotal | anking_graph.py:66-72 | the weights of all edges, in insertion order, add up to the number of `add_edge` calls |
| Registry.Ids | anking_graph.py:59-63 | the ids handed out are `"0"` .. `"n-1"`, in order |
| Registry.TagIdsSpec | anking_graph.py:61 | `tag_to_id` holds exactly the registered tags, each mapped to its node's id |
| Registry.IdKeys | anking_graph.py:60-62 | `id_to_tag` and `nodes` hold exactly the ids handed out |
| Registry.IdEntries | anking_graph.py:60-62 | under id `str(i)`, `id_to_tag` holds node `i`'s tag and `nodes` holds node `i` |
| Registry.RegistryInverse | anking_graph.py:57-64 | `tag_to_id` and `id_to_tag` are mutual inverses |
| Registry.EmptyConsistent | anking_graph.py:40-45 | the freshly initialised fields are consistent: nothing registered, no edges |
| GraphSpec.StepCardTags | anking_graph.py:75-78 | scanning a card keeps the registered tags equal to the distinct tags seen so far, in first-seen order |
| GraphSpec.StepCardKeeps | anking_graph.py:75-78 | scanning a card keeps every existing node; each appended node is new and was discovered on that card |
| GraphSpec.NodesTags | anking_graph.py:74-78 | after `build_nodes` the node tags are the distinct tags of all cards in first-seen order |
| GraphSpec.RegistryComplete | anking_graph.py:74-78 | every tag of every card has exactly one node, and every node's tag comes from some card |
| GraphSpec.RegistryOrder | anking_graph.py:74-78 | ids are assigned in first-seen order: a lower id means an earlier first occurrence |
| GraphSpec.FirstCard | anking_graph.py:75-78 | the index of the first card that contains the tag: it contains the tag and no earlier card does |
| GraphSpec.NodeContext | anking_graph.py:76-78 | every node was built from the first card containing its tag, with one copy of the tag removed |
| GraphSpec.CoTagsRegistered | anking_graph.py:82-85 | every co-tag of every node is a registered tag (the lookup at line 85 never fails) |
| GraphSpec.IdOfNode | anking_graph.py:85 | the id looked up for a co-tag is `str(b)` iff the co-tag is node `b`'s tag |
| GraphSpec.EventJoins | anking_graph.py:85 | the key for node `i` and co-tag `c` joins nodes `a` and `b` iff `i` is one of them and `c` is the other's tag |
| GraphSpec.NodeEventsCount | anking_graph.py:82-85 | how many of one node's calls join `a` and `b`: the copies of `b`'s tag among its co-tags if it is `a`, plus the copies of `a`'s tag if it is `b` (once if `a == b`) |
| GraphSpec.EventsUpToCount | anking_graph.py:81-85 | the same count over the calls of the first `n` nodes |
| GraphSpec.WeightFormula | anking_graph.py:80-85 | after `build_edges`, edge `a`-`b` exists iff `w > 0`, and then its weight is `w`, where `w` is the copies of `b`'s tag in `a`'s co-tags plus, for `a != b`, the copies of `a`'s tag in `b`'s co-tags |
| GraphSpec.EventsEndpoints | anking_graph.py:85 | every key passed to `add_edge` joins two registered ids |
| GraphSpec.NodeEventsLength | anking_graph.py:82-85 | a node makes one `add_edge` call per co-tag |
| GraphSpec.EventsLength | anking_graph.py:81-85 | `build_edges` makes one call per co-tag over all nodes |
| GraphSpec.TotalWeight | anking_graph.py:80-85 | after `build_edges` the weights of all edges add up to the total length of all co-tag lists |
| GraphSpec.NoSelfLoops | anking_graph.py:80-85 | if no card repeats a tag, no edge key has equal components |
| GraphSpec.SelfLoopIff | anking_graph.py:136-139 | node `a` has a self-loop iff the card it was discovered on lists its tag at least twice |
| Graph.LogStore | anking_graph.py:66-72 | the edge dict's order lists its keys once each, and every stored edge joins two stored nodes |
| Graph.LogStep | anking_graph.py:66-72 | one more `add_edge` call appends its key to the edge order iff the key is not yet in the dict, and updates the dict by one `Bump` |
| Graph.NextEvent | anking_graph.py:82-85 | in the edge loop, the co-tag is in `tag_to_id`, its id names a stored node, and the call is the next one of `Events` |
| Graph.ShownEdgesMember | anking_graph.py:93-96 | an `(edge, weight)` pair is drawn iff the edge is stored, the weight is its stored weight, and neither endpoint's class is omitted |
| Graph.Endpoints | anking_graph.py:96 | the ids `G.add_edge` adds are exactly the endpoints of the drawn edges |
| Graph.DrawnNodesShown | anking_graph.py:93-98 | every node of the drawn graph is stored, and its class is not omitted |
| Graph.VideoGraph.constructor | anking_graph.py:39-48 | `VideoGraph(cards, config)` leaves a consistent graph whose nodes are `NodesOf(cards)` and whose edges and edge order are those of all `build_edges` calls; the cards are kept unchanged |
| Graph.VideoGraph.AddNode | anking_graph.py:57-64 | registers the tag under `str(id_counter)` in both maps, stores the new node under that id, bumps the counter, appends to both key orders, and keeps the registry consistent |
| Graph.VideoGraph.AddEdge | anking_graph.py:66-72 | the edge dict becomes `Bump(old, Key(a, b))`; the key is appended to the order iff it is new |
| Graph.VideoGraph.BuildNodes | anking_graph.py:74-78 | from an empty registry, leaves exactly the nodes `NodesOf(cards)`, consistently registered |
| Graph.VideoGraph.ScanCard | anking_graph.py:75-78 | one pass of the outer loop registers the new tags of card `i` |
| Graph.VideoGraph.VisitTag | anking_graph.py:76-78 | one pass of the inner loop registers the tag iff it is not yet in `tag_to_id` |
| Graph.VideoGraph.BuildEdges | anking_graph.py:80-85 | after `build_nodes`, leaves the edge dict and order of all calls in `Events(NodesOf(cards))` |
| Graph.VideoGraph.AddCoTagEdges | anking_graph.py:81-85 | one pass of the outer loop makes the calls for the next node in insertion order |
| Graph.VideoGraph.LinkCoTag | anking_graph.py:82-85 | one pass of the inner loop: the lookup succeeds (the `pdb.set_trace()` branch is unreachable) and makes the next call |
| Graph.VideoGraph.VisibleEdges | anking_graph.py:93-96 | the edges kept by the filter, in insertion order, with their weights; nothing is changed |
| Graph.VideoGraph.NodeColors | anking_graph.py:122-127 | a list of the same length and order as the ids, holding each node's `color_idx`, which is below 5 and names the node's class |
| Graph.VideoGraph.Visualize | anking_graph.py:87-98 | the weighted edges handed to the graph, its nodes and their colour indices; no drawn node has an omitted class |
| Graph.VideoGraph.TagRows | anking_graph.py:117-118 | the tag-list rows are `(tag, id)` for each node in `tag_to_id` order, node `i` with id `str(i)` |
| Scenario.ScenarioClasses | anking_graph.py:143-157 | `#B&B::x`, `#Pathoma::y`, `#Sketchy::z` are classed B&B, Pathoma and Sketchy |
| Scenario.TwoCardNodes | anking_graph.py:74-78 | cards `[x, y]`, `[x, z]` with distinct tags give nodes `x`, `y`, `z` with co-tags `[y]`, `[x]`, `[x]` |
| Scenario.TwoCardEvents | anking_graph.py:80-85 | those nodes make the calls `{0, 1}`, `{0, 1}`, `{0, 2}` |
| Scenario.ScenarioTally | anking_graph.py:66-72 | those calls leave edge `{0, 1}` with weight 2 and `{0, 2}` with weight 1, in that order |
| Scenario.ScenarioGraph | anking_graph.py:74-85 | the worked run: three nodes with ids 0, 1, 2 and classes B&B, Pathoma, Sketchy; edges `{0, 1}` with weight 2 and `{0, 2}` with weight 1; no edge `{1, 2}` |

## Left out

- Drawing: the networkx graph, `spring_layout`, `draw_networkx` and `plt.show` in `visualize` (lines 88-108) are calls into libraries. Only what `visualize` hands over is modelled: the filtered weighted edges, the nodes they mention, and the colour indices.
- Floating-point colours: the RGBA `colors` array (lines 49-54) and the `node_color` tuples (lines 146-165) are float data. The model keeps the integer `color_idx` instead.
- File I/O: `output_tag_csv` writes a file and prints a message. Only its data rows are modelled (`TagRows`), not the header row `['tag', 'tag_id']` written at line 116.
- `read_dump`, `main`, argparse and `GraphConfig.__init__` are input parsing and wiring. The cards are a constructor parameter, and `Omits` takes the `firstaid` flag as a parameter.
- The `pdb.set_trace()` at line 84 is modelled as a branch proved unreachable. The one at line 197 belongs to `main`.
- Node.NewNode: `VideoNode.__init__` runs `list.remove` on a fresh `copy` of the card. Nodes are modelled as values, so the removal produces a new sequence instead of changing a list in place. No caller can see the copy, so nothing observable is lost.
- `weight += 1` on the stored `VideoEdge` object is modelled as replacing the dict entry with an edge of weight plus one. Only the dict holds edge objects, so the effect is the same.
- Graph.VideoGraph.AddNode requires the tag to be unregistered and to occur on the card. That is how `build_nodes` calls it. Calling `add_node` for a registered tag would break the inverse maps, and a tag not on the card makes `list.remove` raise `ValueError`; neither case is modelled.
- Graph.VideoGraph.BuildNodes and Graph.VideoGraph.BuildEdges are modelled only as the constructor calls them: `build_nodes` on a fresh graph, then `build_edges` once. Calling either again is not modelled.
- Graph.DrawnNodes: the node order of the drawn graph (`G.nodes()`) is assumed to be networkx's: ids in the order the drawn edges first mention them, the first endpoint before the second. anking_graph.py does not fix this order; it decides the order of the colour list `Visualize` returns.
- The loop bodies of `build_nodes` and `build_edges` are separate methods (`ScanCard`, `VisitTag`, `AddCoTagEdges`, `LinkCoTag`) so that each loop's proof stays small; they do what the bodies do.
- Python `str` of a negative number, and integer overflow, do not arise: `id_counter` only counts up from 0, and Python integers are unbounded.
