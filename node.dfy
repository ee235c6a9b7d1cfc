/** A graph node (`VideoNode` in anking_graph.py): a tag, the co-tag list it was discovered with,
    and the class its tag falls into (`classify_node`). */
module Node {
  import opened Seqs
  import opened PyStr

  /** The five node classes, in the classifier's priority order. */
  datatype NodeClass = BB | Pathoma | Sketchy | FirstAid | Other

  /** The `node_class` string stored on a node. */
  function ClassName(c: NodeClass): string
  {
    match c
    case BB => "B&B"
    case Pathoma => "Pathoma"
    case Sketchy => "Sketchy"
    case FirstAid => "FirstAid"
    case Other => "other"
  }

  /** The class a palette index stands for. */
  function ClassOfColorIdx(i: nat): NodeClass
    requires i < 5
  {
    if i == 0 then BB
    else if i == 1 then Pathoma
    else if i == 2 then Sketchy
    else if i == 3 then FirstAid
    else Other
  }

  /** The `color_idx` stored on a node: an index into the five-colour palette that picks out
      the node's class and no other. */
  function ColorIdx(c: NodeClass): (i: nat)
    ensures i < 5 && ClassOfColorIdx(i) == c
  {
    match c
    case BB => 0
    case Pathoma => 1
    case Sketchy => 2
    case FirstAid => 3
    case Other => 4
  }

  /** `marker` is a substring of `tag`. */
  ghost predicate Mentions(tag: string, marker: string)
  {
    exists i: nat :: OccursAt(tag, marker, i)
  }

  /** `classify_node`: the first of the markers `#B&B`, `#Pathoma`, `#Sketchy`, `#FirstAid` that
      occurs in the tag decides its class (ClassifySpec). */
  function Classify(tag: string): NodeClass
  {
    if Contains(tag, "#B&B") then BB
    else if Contains(tag, "#Pathoma") then Pathoma
    else if Contains(tag, "#Sketchy") then Sketchy
    else if Contains(tag, "#FirstAid") then FirstAid
    else Other
  }

  /** Classification priority and totality: a tag is `B&B` exactly when it mentions `#B&B`,
      `Pathoma` exactly when it mentions `#Pathoma` but not `#B&B`, and so on down the list; a
      tag with none of the four markers is `other`. */
  lemma {:induction false} ClassifySpec(tag: string)
    ensures Classify(tag) == BB <==> Mentions(tag, "#B&B")
    ensures Classify(tag) == Pathoma <==> !Mentions(tag, "#B&B") && Mentions(tag, "#Pathoma")
    ensures Classify(tag) == Sketchy <==>
              !Mentions(tag, "#B&B") && !Mentions(tag, "#Pathoma") && Mentions(tag, "#Sketchy")
    ensures Classify(tag) == FirstAid <==>
              !Mentions(tag, "#B&B") && !Mentions(tag, "#Pathoma") && !Mentions(tag, "#Sketchy")
              && Mentions(tag, "#FirstAid")
    ensures Classify(tag) == Other <==>
              !Mentions(tag, "#B&B") && !Mentions(tag, "#Pathoma") && !Mentions(tag, "#Sketchy")
              && !Mentions(tag, "#FirstAid")
  {
  }

  /** A node: its tag, its co-tag list (`card`) and its class. */
  datatype VideoNode = VideoNode(tag: string, card: seq<string>, nodeClass: NodeClass)
  {
    /** The `node_class` string. */
    function NodeClassName(): string
    {
      ClassName(nodeClass)
    }

    /** The `color_idx` palette index. */
    function NodeColorIdx(): nat
    {
      ColorIdx(nodeClass)
    }
  }

  /** `VideoNode(tag, copy(card))`: the node keeps a copy of the card with the first occurrence of
      its own tag removed (`list.remove`), and is classified by its tag. The caller's card is a
      value here, so it cannot be changed by the removal. */
  function NewNode(tag: string, card: seq<string>): VideoNode
    requires tag in card
  {
    VideoNode(tag, RemoveFirst(card, tag), Classify(tag))
  }

  /** A new node's co-tag list is its card less one copy of its tag. */
  lemma {:induction false} NewNodeCard(tag: string, card: seq<string>)
    requires tag in card
    ensures NewNode(tag, card).tag == tag && NewNode(tag, card).nodeClass == Classify(tag)
    ensures |NewNode(tag, card).card| == |card| - 1
    ensures multiset(NewNode(tag, card).card) == multiset(card) - multiset{tag}
  {
    RemoveFirstCount(card, tag);
  }
}
