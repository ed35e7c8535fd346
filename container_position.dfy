/** Sibling-position bookkeeping of the first mount: `getContainerIndex` and
    `insertContainer` over the parent's element children, modelled as a
    sequence of node identities. */
module ContainerPosition {

  type NodeId = nat

  /** `$(parent).children().index($(element))`: the position of the element
      among the children, or -1 when it is not one of them. */
  function ContainerIndex(children: seq<NodeId>, element: NodeId): (i: int)
    ensures -1 <= i < |children|
    ensures i == -1 <==> element !in children
    ensures 0 <= i ==> children[i] == element && element !in children[..i]
  {
    if |children| == 0 then -1
    else if children[0] == element then 0
    else
      var j := ContainerIndex(children[1..], element);
      assert j >= 0 ==> children[..j + 1] == [children[0]] + children[1..][..j];
      if j == -1 then -1 else j + 1
  }

  /** The children once the element has been moved out of the parent (into
      the staging fragment): the others keep their order. */
  function Detach(children: seq<NodeId>, element: NodeId): (r: seq<NodeId>)
    ensures element in children ==>
              r == children[..ContainerIndex(children, element)]
                   + children[ContainerIndex(children, element) + 1..]
    ensures element in children ==> |r| == |children| - 1
    ensures element in children ==> multiset(r) == multiset(children) - multiset{element}
    ensures element !in children ==> r == children
  {
    var i := ContainerIndex(children, element);
    if i == -1 then children
    else
      assert children == children[..i] + [element] + children[i + 1..];
      children[..i] + children[i + 1..]
  }

  /** `insertContainer(parent, element, index)`: an index at or past the
      number of children appends; otherwise the element goes before the
      child at `index`, where jQuery's `eq` counts a negative index from the
      end and selects nothing (so inserts nothing) below `-length`. */
  function InsertContainer(children: seq<NodeId>, element: NodeId, index: int): (r: seq<NodeId>)
    ensures index >= |children| ==> r == children + [element]
    ensures 0 <= index < |children| ==> r == children[..index] + [element] + children[index..]
    ensures -|children| <= index < 0 ==>
              r == children[..index + |children|] + [element] + children[index + |children|..]
    ensures -|children| <= index ==> multiset(r) == multiset(children) + multiset{element}
    ensures index < -|children| ==> r == children
  {
    if index >= |children| then children + [element]
    else
      var at := if index >= 0 then index else index + |children|;
      if at < 0 then children
      else
        assert children == children[..at] + children[at..];
        children[..at] + [element] + children[at..]
  }

  /** Moving the container out of its parent and inserting it back at the
      index recorded beforehand restores the parent's children exactly. */
  lemma DetachThenInsert(children: seq<NodeId>, element: NodeId)
    requires element in children
    ensures InsertContainer(Detach(children, element), element, ContainerIndex(children, element))
            == children
  {
    var i := ContainerIndex(children, element);
    var before, after := children[..i], children[i + 1..];
    assert children == before + [element] + after;
    InsertBetween(before, after, element);
  }

  /** Inserting at the length of a prefix puts the element right after it. */
  lemma InsertBetween(before: seq<NodeId>, after: seq<NodeId>, element: NodeId)
    ensures InsertContainer(before + after, element, |before|) == before + [element] + after
  {
    var rest := before + after;
    if after != [] {
      assert rest[..|before|] == before && rest[|before|..] == after;
    } else {
      assert rest == before;
    }
  }
}
