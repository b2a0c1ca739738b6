/** std::list as src/EventLoop.cpp uses it: a doubly linked list whose nodes stay
    where they are, so that a pointer to one can be kept in an index. */
module LruLists {
  import opened Connections

  class Node {
    const conn: Connection
    var prev: Node?
    var next: Node?

    constructor (conn: Connection)
      ensures this.conn == conn && prev == null && next == null
    {
      this.conn, prev, next := conn, null, null;
    }
  }

  class LruList {
    var head: Node?
    var tail: Node?
    /** The nodes from head to tail. */
    ghost var nodes: seq<Node>

    ghost predicate Valid()
      reads this, nodes
    {
      && (forall i, j | 0 <= i < j < |nodes| :: nodes[i] != nodes[j])
      && (if nodes == [] then head == null && tail == null
          else && head == nodes[0] && tail == nodes[|nodes| - 1]
               && nodes[0].prev == null && nodes[|nodes| - 1].next == null)
      && (forall i {:trigger nodes[i].prev} | 1 <= i < |nodes| :: nodes[i].prev == nodes[i - 1])
      && (forall i {:trigger nodes[i].next} | 0 <= i < |nodes| - 1 :: nodes[i].next == nodes[i + 1])
    }

    constructor ()
      ensures Valid() && nodes == []
    {
      head, tail, nodes := null, null, [];
    }

    /** Puts a node that is not in the list at its head. */
    method LinkFront(n: Node)
      requires Valid() && n !in nodes
      modifies this, nodes, n
      ensures Valid() && nodes == [n] + old(nodes)
    {
      n.prev, n.next := null, head;
      if head == null {
        tail := n;
      } else {
        head.prev := n;
      }
      head := n;
      nodes := [n] + nodes;
    }

    /** Takes the k-th node out of the list. */
    method Unlink(n: Node, ghost k: nat)
      requires Valid() && k < |nodes| && nodes[k] == n
      modifies this, nodes
      ensures Valid() && nodes == old(nodes)[..k] + old(nodes)[k + 1..]
    {
      if n.prev == null {
        head := n.next;
      } else {
        n.prev.next := n.next;
      }
      if n.next == null {
        tail := n.prev;
      } else {
        n.next.prev := n.prev;
      }
      nodes := nodes[..k] + nodes[k + 1..];
    }

    /** push_front, returning begin(). */
    method PushFront(conn: Connection) returns (n: Node)
      requires Valid()
      modifies this, nodes
      ensures Valid() && nodes == [n] + old(nodes) && fresh(n) && n.conn == conn
    {
      n := new Node(conn);
      LinkFront(n);
    }

    /** splice(begin(), *this, n) */
    method MoveToFront(n: Node, ghost k: nat)
      requires Valid() && k < |nodes| && nodes[k] == n
      modifies this, nodes
      ensures Valid() && nodes == [n] + (old(nodes)[..k] + old(nodes)[k + 1..])
    {
      Unlink(n, k);
      LinkFront(n);
    }
  }
}
