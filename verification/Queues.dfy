/** The head/last linked queues of buffers and completions. */
module Queues {
  import opened Common

  class Node<T> {
    const value: T
    var next: Node?<T>

    constructor (value: T)
      ensures this.value == value && next == null
    {
      this.value, next := value, null;
    }
  }

  function NodeAt<T>(s: seq<Node<T>>, j: nat): Node?<T> {
    if j < |s| then s[j] else null
  }

  ghost function ValuesOf<T>(s: seq<Node<T>>): (r: seq<T>)
    ensures |r| == |s| && forall j | 0 <= j < |s| :: r[j] == s[j].value
  {
    seq(|s|, j requires 0 <= j < |s| => s[j].value)
  }

  class Queue<T> {
    var head: Node?<T>
    var last: Node?<T>
    ghost var nodes: seq<Node<T>>

    /** `nodes` is what the `next` pointers spell out, and `last` is its end. */
    ghost predicate Valid()
      reads this, nodes
    {
      && head == NodeAt(nodes, 0)
      && last == (if nodes == [] then null else nodes[|nodes| - 1])
      && (forall j {:trigger nodes[j].next} | 0 <= j < |nodes| :: nodes[j].next == NodeAt(nodes, j + 1))
      && forall j, k | 0 <= j < k < |nodes| :: nodes[j] != nodes[k]
    }

    ghost function Contents(): seq<T>
      reads this
    {
      ValuesOf(nodes)
    }

    constructor ()
      ensures Valid() && Contents() == [] && nodes == []
    {
      head, last, nodes := null, null, [];
    }

    /** `queue_buffer` and `queue_completion`: the first asks whether `head` is set, the
        second whether `last` is, and each asserts that the other one agrees. */
    method Put(value: T, addToFront: bool)
      requires Valid()
      modifies this, nodes
      ensures Valid() && fresh(set n | n in nodes && n !in old(nodes))
      ensures Contents() == if addToFront then [value] + old(Contents()) else old(Contents()) + [value]
    {
      var b := new Node(value);
      if head != null {
        assert last != null;
        if addToFront {
          b.next := head;
          head := b;
          nodes := [b] + nodes;
        } else {
          last.next := b;
          last := b;
          nodes := nodes + [b];
        }
      } else {
        assert last == null;
        head, last := b, b;
        nodes := [b];
      }
    }

    /** `dequeue_buffer` and `dequeue_completion` */
    method Take() returns (r: Option<T>)
      requires Valid()
      modifies this
      ensures Valid() && forall n | n in nodes :: n in old(nodes)
      ensures old(Contents()) == [] ==> r == None && Contents() == []
      ensures old(Contents()) != [] ==> r.Some? && old(Contents()) == [r.value] + Contents()
    {
      var b := head;
      if b == null { return None; }
      head := b.next;
      if head == null {
        assert b == last;
        last := null;
      }
      nodes := nodes[1..];
      r := Some(b.value);
    }
  }
}
