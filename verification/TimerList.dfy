/**
 The singly linked lists of skynet_timer.c: a sentinel, the nodes behind it, and
 a pointer to the last one.
 */
module TimerLists {
  import opened Clocks

  class TimerNode {
    const value: Node
    var next: TimerNode?

    constructor (value: Node)
      ensures this.value == value && next == null
    {
      this.value := value;
      next := null;
    }

    method LinkTo(node: TimerNode?)
      modifies this`next
      ensures next == node
    {
      next := node;
    }
  }

  function Values(nodes: seq<TimerNode>): (r: seq<Node>)
    ensures |r| == |nodes|
  {
    seq(|nodes|, i requires 0 <= i < |nodes| => nodes[i].value)
  }

  /** The node at position i, or null past the end. */
  function NodeAt(chain: seq<TimerNode>, i: nat): TimerNode? {
    if i < |chain| then chain[i] else null
  }

  /** Different nodes, each linked to the one after it, the last to none. */
  ghost predicate Linked(chain: seq<TimerNode>)
    reads chain
  {
    && (forall i, j :: 0 <= i < j < |chain| ==> chain[i] != chain[j])
    && (forall i {:trigger chain[i].next} :: 0 <= i < |chain| ==> chain[i].next == NodeAt(chain, i + 1))
  }

  /** The nodes reached from first, as link_clear hands them out. */
  ghost predicate Loose(first: TimerNode?, nodes: seq<TimerNode>)
    reads nodes
  {
    Linked(nodes) && first == NodeAt(nodes, 0)
  }

  lemma LinkedTail(chain: seq<TimerNode>)
    requires Linked(chain) && chain != []
    ensures Linked(chain[1..]) && chain[0] !in chain[1..]
    ensures chain[0].next == NodeAt(chain[1..], 0)
  {
    var rest := chain[1..];
    forall i | 0 <= i < |rest|
      ensures rest[i] == chain[i + 1] != chain[0] && rest[i].next == NodeAt(rest, i + 1)
    {
    }
    assert chain[0].next == NodeAt(chain, 1);
  }

  lemma LooseNext(first: TimerNode?, nodes: seq<TimerNode>)
    requires Loose(first, nodes) && first != null
    ensures nodes != [] && nodes[0] == first && first !in nodes[1..] && Loose(first.next, nodes[1..])
    ensures Values(nodes) == [first.value] + Values(nodes[1..])
  {
    LinkedTail(nodes);
  }

  /** The events of a list's nodes, its sentinel not counted. */
  function Events(chain: seq<TimerNode>): (r: seq<Node>) {
    if chain == [] then [] else Values(chain[1..])
  }

  class LinkList {
    const head: TimerNode  // the sentinel
    var tail: TimerNode
    ghost var chain: seq<TimerNode>

    ghost predicate Valid()
      reads this, chain
    {
      chain != [] && chain[0] == head && tail == chain[|chain| - 1] && Linked(chain)
    }

    /** The sentinel's link decides whether the list is empty. */
    predicate Empty(): (empty: bool)
      requires Valid()
      reads this, chain
      ensures empty <==> Events(chain) == []
    {
      head.next == null
    }

    constructor ()
      ensures Valid() && chain == [head] && fresh(head)
    {
      head := new TimerNode(Node(0, TimerEvent(0, 0)));
      tail, chain := head, [head];
    }

    /** link_clear: empties the list and hands out its nodes. */
    method Clear() returns (first: TimerNode?)
      requires Valid()
      modifies this, head`next
      ensures Valid() && chain == [head] && Loose(first, old(chain)[1..])
    {
      LinkedTail(chain);
      first := head.next;
      head.LinkTo(null);
      tail, chain := head, [head];
    }

    /** link: appends a node. */
    method Link(node: TimerNode)
      requires Valid() && node !in chain
      modifies this, tail`next, node`next
      ensures Valid() && chain == old(chain) + [node]
      ensures Events(chain) == Events(old(chain)) + [node.value]
    {
      tail.LinkTo(node);
      tail := node;
      node.LinkTo(null);
      chain := chain + [node];
    }
  }

  /** Linking other nodes does not disturb a list. */
  twostate lemma Undisturbed(list: LinkList)
    requires old(list.Valid()) && unchanged(list)
    requires forall n :: n in list.chain ==> unchanged(n)
    ensures list.Valid()
  {
    forall i | 0 <= i < |list.chain|
      ensures list.chain[i].next == old(list.chain[i].next)
    {
      assert list.chain[i] in list.chain;
    }
  }
}
