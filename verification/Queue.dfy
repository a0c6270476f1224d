/** The linked queue of libs/queue: pushed at the head, popped at the tail. */
module Queue {
  import opened Bytes

  class Node<T> {
    const data: T
    var next: Node?<T>
    var prev: Node?<T>
    ghost const number: nat

    constructor (data: T, ghost number: nat)
      ensures this.data == data && next == null && prev == null && this.number == number
    {
      this.data, this.number, next, prev := data, number, null, null;
    }
  }

  /** The node after node i. */
  ghost function After<T>(nodes: seq<Node<T>>, i: nat): Node?<T>
    requires i < |nodes|
  {
    if i + 1 < |nodes| then nodes[i + 1] else null
  }

  class Queue<T> {
    var head: Node?<T>
    var tail: Node?<T>
    ghost var nodes: seq<Node<T>>
    ghost var popped: nat

    /** Nodes are numbered in order of arrival. */
    ghost predicate Valid()
      reads this, nodes
    {
      && (forall i | 0 <= i < |nodes| :: nodes[i].number == popped + i && nodes[i].next == After(nodes, i))
      && tail == (if |nodes| > 0 then nodes[0] else null)
      && head == (if |nodes| > 0 then nodes[|nodes| - 1] else null)
    }

    /** Data in the order it will be popped. */
    ghost function Contents(): (s: seq<T>)
      reads this
    {
      Data(nodes)
    }

    constructor ()
      ensures Valid() && Contents() == [] && nodes == []
    {
      head, tail, nodes, popped := null, null, [], 0;
    }

    /** queue_push */
    method Push(data: T)
      requires Valid()
      modifies this, nodes
      ensures Valid() && Contents() == old(Contents()) + [data]
      ensures exists n :: fresh(n) && nodes == old(nodes) + [n]
    {
      ghost var before := nodes;
      var node := new Node(data, popped + |nodes|);
      if head == null && tail == null {
        head := node;
        tail := node;
      } else {
        node.prev := head;
        head.next := node;
        head := node;
      }
      nodes := before + [node];
      DataLast(before, node);
    }

    /** queue_pop */
    method Pop() returns (data: Option<T>)
      requires Valid()
      modifies this, nodes
      ensures Valid() && nodes == if old(nodes) == [] then [] else old(nodes)[1..]
      ensures data == if old(Contents()) == [] then None else Some(old(Contents())[0])
      ensures Contents() == if old(Contents()) == [] then [] else old(Contents())[1..]
    {
      data := None;
      if head != null && tail != null {
        var node := tail;
        data := Some(node.data);
        ghost var before := nodes;
        assert before[0].next == After(before, 0);
        if tail == head {
          assert before[|before| - 1].number == before[0].number;
          tail := null;
          head := null;
        } else {
          tail := tail.next;
          tail.prev := null;
        }
        nodes, popped := before[1..], popped + 1;
        DataFirst(before);
      }
    }
  }

  ghost function Data<T>(nodes: seq<Node<T>>): (s: seq<T>)
    ensures |s| == |nodes|
  {
    seq(|nodes|, i requires 0 <= i < |nodes| => nodes[i].data)
  }

  lemma {:induction false} DataLast<T>(nodes: seq<Node<T>>, n: Node<T>)
    ensures Data(nodes + [n]) == Data(nodes) + [n.data]
  {}

  lemma {:induction false} DataFirst<T>(nodes: seq<Node<T>>)
    requires |nodes| > 0
    ensures Data(nodes)[0] == nodes[0].data && Data(nodes[1..]) == Data(nodes)[1..]
  {}
}
