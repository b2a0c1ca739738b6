/** The connection tables of src/EventLoop.cpp and src/TcpServer.cpp: the LRU list,
    the index from descriptors to its nodes, the set of connections to delete at
    the end of the round, and the server's map that owns the connections. */
module EventLoops {
  import opened Sequences
  import opened Kernel
  import opened Buffers
  import opened Connections
  import opened LruLists
  import opened TableSpec

  class TcpServer {
    var clientConnectionMap: map<nat, Connection>

    constructor ()
      ensures clientConnectionMap == map[]
    {
      clientConnectionMap := map[];
    }

    /** The locked part of createconnection. */
    method Insert(conn: Connection)
      modifies this
      ensures clientConnectionMap == old(clientConnectionMap)[conn.fd := conn]
    {
      clientConnectionMap := clientConnectionMap[conn.fd := conn];
    }

    /** deleteconnection, and removeTimeOutConnection, which does the same. */
    method Erase(fd: nat)
      modifies this
      ensures clientConnectionMap == old(clientConnectionMap) - {fd}
    {
      clientConnectionMap := clientConnectionMap - {fd};
    }
  }

  /** `order` lists the nodes' descriptors, and `index` maps exactly those to them. */
  ghost predicate Indexed(nodes: seq<Node>, order: seq<nat>, index: map<nat, Node>) {
    && |order| == |nodes|
    && (forall i | 0 <= i < |order| :: nodes[i].conn.fd == order[i])
    && (forall i | 0 <= i < |order| :: order[i] in index && index[order[i]] == nodes[i])
    && (forall fd | fd in index :: fd in order)
  }

  ghost predicate Alive(nodes: seq<Node>, owners: map<nat, Connection>) {
    forall i | 0 <= i < |nodes| :: nodes[i].conn.fd in owners && owners[nodes[i].conn.fd] == nodes[i].conn
  }

  ghost predicate AllDifferent(nodes: seq<Node>) {
    forall i, j | 0 <= i < j < |nodes| :: nodes[i] != nodes[j]
  }

  ghost function ClosedFds(conns: seq<Connection>): set<nat>
    reads conns
  {
    set conn | conn in conns && conn.disconnect :: conn.fd
  }

  lemma IndexIsDistinct(nodes: seq<Node>, order: seq<nat>, index: map<nat, Node>)
    requires Indexed(nodes, order, index) && AllDifferent(nodes)
    ensures Distinct(order)
  {
  }

  /** Moving the k-th node to the front. */
  lemma IndexMoved(nodes: seq<Node>, order: seq<nat>, index: map<nat, Node>, k: nat)
    requires Indexed(nodes, order, index) && k < |nodes|
    ensures Indexed([nodes[k]] + (nodes[..k] + nodes[k + 1..]), [order[k]] + (order[..k] + order[k + 1..]), index)
  {
    var order' := [order[k]] + (order[..k] + order[k + 1..]);
    forall fd | fd in index ensures fd in order' {
      var i :| 0 <= i < |order| && order[i] == fd;
      assert order'[if i == k then 0 else if i < k then i + 1 else i] == fd;
    }
  }

  /** Removing the k-th node. */
  lemma IndexRemoved(nodes: seq<Node>, order: seq<nat>, index: map<nat, Node>, k: nat)
    requires Indexed(nodes, order, index) && AllDifferent(nodes) && k < |nodes|
    ensures Indexed(nodes[..k] + nodes[k + 1..], order[..k] + order[k + 1..], index - {order[k]})
  {
    IndexIsDistinct(nodes, order, index);
    var order' := order[..k] + order[k + 1..];
    forall fd | fd in index - {order[k]} ensures fd in order' {
      var i :| 0 <= i < |order| && order[i] == fd;
      assert order'[if i < k then i else i - 1] == fd;
    }
  }

  lemma IndexAdded(nodes: seq<Node>, order: seq<nat>, index: map<nat, Node>, n: Node)
    requires Indexed(nodes, order, index) && n.conn.fd !in index
    ensures Indexed([n] + nodes, [n.conn.fd] + order, index[n.conn.fd := n])
  {
    var fds := [n.conn.fd] + order;
    forall fd | fd in index ensures fd in fds {
      var i :| 0 <= i < |order| && order[i] == fd;
      assert fds[i + 1] == fd;
    }
  }

  class EventLoop {
    const list: LruList
    var connectionMap: map<nat, Node>
    var delayDeleteFds: set<nat>
    /** The descriptors of the listed connections, most recently active first. */
    ghost var order: seq<nat>

    /** The index and the list are in bijection. */
    ghost predicate Valid()
      reads this, list, list.nodes
    {
      list.Valid() && Indexed(list.nodes, order, connectionMap)
    }

    /** Every listed connection is alive: the server still owns it. */
    ghost predicate OwnedBy(server: TcpServer)
      reads this, list, list.nodes, server
    {
      Alive(list.nodes, server.clientConnectionMap)
    }

    constructor ()
      ensures Valid() && order == [] && delayDeleteFds == {} && fresh(list)
    {
      list := new LruList();
      connectionMap, delayDeleteFds, order := map[], {}, [];
    }

    lemma NodesDiffer()
      requires Valid()
      ensures AllDifferent(list.nodes) && Distinct(order)
    {
      IndexIsDistinct(list.nodes, order, connectionMap);
    }

    method NewConnection(conn: Connection)
      requires Valid() && conn.fd !in connectionMap
      modifies this, list, list.nodes
      ensures Valid() && order == [conn.fd] + old(order)
      ensures |list.nodes| > 0 && list.nodes[0].conn == conn && fresh(list.nodes[0])
      ensures list.nodes == [list.nodes[0]] + old(list.nodes)
      ensures delayDeleteFds == old(delayDeleteFds)
    {
      hide LruList.Valid;
      hide Indexed;
      var n := list.PushFront(conn);
      IndexAdded(old(list.nodes), order, connectionMap, n);
      connectionMap := connectionMap[conn.fd := n];
      order := [conn.fd] + order;
    }

    lemma IndexHasOrder()
      requires Valid()
      ensures forall fd :: fd in connectionMap <==> fd in order
      ensures |order| == |list.nodes|
    {
    }

    /** Where a listed descriptor stands. */
    lemma Position(fd: nat) returns (k: nat)
      requires Valid() && fd in connectionMap
      ensures k < |order| == |list.nodes| && order[k] == fd && list.nodes[k] == connectionMap[fd]
      ensures Without(order, {fd}) == order[..k] + order[k + 1..]
    {
      k :| 0 <= k < |order| && order[k] == fd;
      NodesDiffer();
      WithoutAt(order, k);
    }

    /** Marks the connection as the most recently active one. */
    method UpdateConnection(fd: nat)
      requires Valid()
      modifies this`order, list, list.nodes
      ensures Valid() && order == ToFront(old(order), fd)
      ensures forall i | 0 <= i < |list.nodes| :: list.nodes[i] in old(list.nodes)
      ensures forall server: TcpServer | old(allocated(server)) :: old(OwnedBy(server)) ==> OwnedBy(server)
    {
      hide LruList.Valid;
      hide Without;
      hide Indexed;
      IndexHasOrder();
      if fd in connectionMap {
        ghost var k := Position(fd);
        IndexMoved(list.nodes, order, connectionMap, k);
        list.MoveToFront(connectionMap[fd], k);
        order := [fd] + (order[..k] + order[k + 1..]);
      }
    }

    method DelayDelete(fd: nat)
      modifies this`delayDeleteFds
      ensures delayDeleteFds == old(delayDeleteFds) + {fd}
    {
      delayDeleteFds := delayDeleteFds + {fd};
    }

    /** One descriptor leaves the list and the index. */
    method Forget(fd: nat)
      requires Valid()
      modifies this`order, this`connectionMap, list, list.nodes
      ensures Valid() && order == Without(old(order), {fd})
      ensures connectionMap == old(connectionMap) - {fd}
      ensures forall i | 0 <= i < |list.nodes| :: list.nodes[i] in old(list.nodes)
    {
      hide LruList.Valid;
      hide Without;
      hide Indexed;
      IndexHasOrder();
      if fd in connectionMap {
        ghost var k := Position(fd);
        NodesDiffer();
        IndexRemoved(list.nodes, order, connectionMap, k);
        list.Unlink(connectionMap[fd], k);
        connectionMap := connectionMap - {fd};
        order := order[..k] + order[k + 1..];
      } else {
        WithoutNone(order, {fd});
      }
    }

    /** The end of a round that has dispatched to these connections: the ones that were
        closed join the set, and then all in it leave. */
    method EndRound(server: TcpServer, dispatched: seq<Connection>)
      requires Valid()
      modifies this, list, list.nodes, server
      ensures Valid() && order == Without(old(order), old(delayDeleteFds) + ClosedFds(dispatched))
      ensures server.clientConnectionMap
        == old(server.clientConnectionMap) - (old(delayDeleteFds) + ClosedFds(dispatched))
      ensures delayDeleteFds == {} && (old(OwnedBy(server)) ==> OwnedBy(server))
    {
      hide LruList.Valid;
      hide Indexed;
      hide Alive;
      hide Without;
      var i := 0;
      while i < |dispatched|
        invariant 0 <= i <= |dispatched|
        invariant Valid() && order == old(order) && server.clientConnectionMap == old(server.clientConnectionMap)
        invariant old(OwnedBy(server)) ==> OwnedBy(server)
        invariant delayDeleteFds == old(delayDeleteFds) + ClosedFds(dispatched[..i])
        modifies `delayDeleteFds
      {
        assert dispatched[..i + 1] == dispatched[..i] + [dispatched[i]];
        if dispatched[i].disconnect {
          DelayDelete(dispatched[i].fd);
        }
        i := i + 1;
      }
      assert dispatched[..i] == dispatched;
      DeleteConnection(server);
    }

    /** The delayed connections leave the list, and then the server. */
    method DeleteConnection(server: TcpServer)
      requires Valid()
      modifies this, list, list.nodes, server
      ensures Valid() && order == Without(old(order), old(delayDeleteFds))
      ensures server.clientConnectionMap == old(server.clientConnectionMap) - old(delayDeleteFds)
      ensures old(OwnedBy(server)) ==> OwnedBy(server)
      ensures delayDeleteFds == {}
      ensures forall i | 0 <= i < |list.nodes| :: list.nodes[i] in old(list.nodes)
    {
      hide LruList.Valid;
      hide Indexed;
      hide Without;
      hide Alive;
      ForgetAll(delayDeleteFds);
      EraseAll(server, delayDeleteFds);
      AliveAfterDelete(old(list.nodes), list.nodes, order, connectionMap,
                       old(server.clientConnectionMap), delayDeleteFds);
      delayDeleteFds := {};
    }

    /** The locked part of deleteConnection, which visits the set in any order. */
    method ForgetAll(fds: set<nat>)
      requires Valid()
      modifies this`order, this`connectionMap, list, list.nodes
      ensures Valid() && order == Without(old(order), fds)
      ensures forall i | 0 <= i < |list.nodes| :: list.nodes[i] in old(list.nodes)
    {
      hide Without;
      hide Valid;
      var left := fds;
      assert fds - left == {};
      WithoutNone(order, {});
      while left != {}
        invariant Valid() && left <= fds
        invariant order == Without(old(order), fds - left)
        invariant forall i | 0 <= i < |list.nodes| :: list.nodes[i] in old(list.nodes)
        decreases |left|
      {
        var fd :| fd in left;
        WithoutTwice(old(order), fds - left, {fd});
        assert fds - (left - {fd}) == fds - left + {fd};
        Forget(fd);
        left := left - {fd};
      }
      assert fds - left == fds;
    }

    /** The callbacks into the server, in any order. */
    method EraseAll(server: TcpServer, fds: set<nat>)
      modifies server
      ensures server.clientConnectionMap == old(server.clientConnectionMap) - fds
    {
      var left := fds;
      while left != {}
        invariant left <= fds
        invariant server.clientConnectionMap == old(server.clientConnectionMap) - (fds - left)
        decreases |left|
      {
        var fd :| fd in left;
        server.Erase(fd);
        left := left - {fd};
      }
    }

    function Empty(): (e: bool)
      requires Valid()
      reads this, list, list.nodes
      ensures e <==> order == []
    {
      list.head == null
    }

    /** back() of the list. */
    method LastNode() returns (n: Node)
      requires Valid() && order != []
      ensures |order| == |list.nodes| && n == list.tail == list.nodes[|order| - 1]
      ensures n.conn.fd == order[|order| - 1]
    {
      n := list.tail;
    }

    /** The last listed connection leaves the index and the list. */
    method PopBack()
      requires Valid() && order != []
      modifies this`order, this`connectionMap, list, list.nodes
      ensures Valid() && order == old(order)[..|old(order)| - 1]
      ensures list.nodes == old(list.nodes)[..|old(order)| - 1]
    {
      hide Indexed;
      var last := LastNode();
      ghost var n := |order| - 1;
      NodesDiffer();
      IndexRemoved(list.nodes, order, connectionMap, n);
      connectionMap := connectionMap - {last.conn.fd};
      list.Unlink(last, n);
      order := order[..n] + order[n + 1..];
    }

    /** The locked part of the time-out sweep. `lasts` are the listed connections'
        time stamps, and `readings` what the clock shows at each test. A weak
        pointer locks when the server still owns the connection. */
    method Sweep(server: TcpServer, readings: seq<int>, interval: int, ghost lasts: seq<int>)
      returns (timeoutFds: seq<nat>)
      requires Valid() && OwnedBy(server) && |lasts| == |order| == |list.nodes| <= |readings|
      requires forall i | 0 <= i < |lasts| :: lasts[i] == list.nodes[i].conn.lastTime
      modifies this`order, this`connectionMap, list, list.nodes
      modifies (set n: Node | n in list.nodes :: n.conn)`isTimedOut
      ensures Valid() && |timeoutFds| == SweepCount(lasts, readings, interval)
      ensures Popped(old(order), timeoutFds, order)
      ensures list.nodes == old(list.nodes)[..|lasts| - |timeoutFds|]
    {
      hide Indexed;
      hide LruList.Valid;
      hide SweepCount;
      timeoutFds := [];
      ghost var left := |lasts|;
      assert lasts[..left] == lasts && readings[0..] == readings;
      while !Empty()
        invariant Valid() && 0 <= left == |lasts| - |timeoutFds| == |order|
        invariant list.nodes == old(list.nodes)[..left]
        invariant Popped(old(order), timeoutFds, order)
        invariant SweepCount(lasts, readings, interval)
          == |timeoutFds| + SweepCount(lasts[..left], readings[|timeoutFds|..], interval)
        decreases left
      {
        SweepNext(lasts, readings, interval, |timeoutFds|);
        var last := LastNode();
        if last.conn.fd in server.clientConnectionMap
          && server.clientConnectionMap[last.conn.fd] == last.conn
        {
          var late := last.conn.IsTimeOut(readings[|timeoutFds|], interval);
          if !late {
            return;
          }
          PopBack();
          timeoutFds := timeoutFds + [last.conn.fd];
          left := left - 1;
        } else {
          assert false;
        }
      }
      SweepNext(lasts, readings, interval, |timeoutFds|);
    }

    /** The time-out sweep: expired connections leave the list, then the server. */
    method RemoveTimeOutConnection(server: TcpServer, readings: seq<int>, interval: int, ghost lasts: seq<int>)
      requires Valid() && OwnedBy(server) && |lasts| == |order| == |list.nodes| <= |readings|
      requires forall i | 0 <= i < |lasts| :: lasts[i] == list.nodes[i].conn.lastTime
      modifies this`order, this`connectionMap, list, list.nodes, server
      modifies (set n: Node | n in list.nodes :: n.conn)`isTimedOut
      ensures Valid() && OwnedBy(server)
      ensures var kept := |lasts| - SweepCount(lasts, readings, interval);
        && order == old(order)[..kept] && list.nodes == old(list.nodes)[..kept]
        && server.clientConnectionMap == old(server.clientConnectionMap) - Members(old(order)[kept..])
    {
      hide Indexed;
      hide LruList.Valid;
      hide SweepCount;
      hide Alive;
      hide Popped;
      ghost var nodes, owners := list.nodes, server.clientConnectionMap;
      DistinctFds();
      var timeoutFds := Sweep(server, readings, interval, lasts);
      PoppedMembers(old(order), timeoutFds, order);
      EraseEach(server, timeoutFds);
      StillAlive(nodes, old(order), owners, |order|);
    }

    method EraseEach(server: TcpServer, fds: seq<nat>)
      modifies server
      ensures server.clientConnectionMap == old(server.clientConnectionMap) - Members(fds)
    {
      var i := 0;
      while i < |fds|
        invariant 0 <= i <= |fds|
        invariant server.clientConnectionMap == old(server.clientConnectionMap) - Members(fds[..i])
      {
        server.Erase(fds[i]);
        assert Members(fds[..i + 1]) == Members(fds[..i]) + {fds[i]};
        i := i + 1;
      }
      assert fds[..i] == fds;
    }

    lemma DistinctFds()
      requires Valid()
      ensures Distinct(order) && |order| == |list.nodes|
      ensures forall i | 0 <= i < |order| :: list.nodes[i].conn.fd == order[i]
    {
      NodesDiffer();
    }
  }

  /** What survives is still alive: the swept descriptors are not among them. */
  lemma StillAlive(nodes: seq<Node>, order: seq<nat>, owners: map<nat, Connection>, kept: nat)
    requires Alive(nodes, owners) && Distinct(order) && |order| == |nodes| && kept <= |order|
    requires forall i | 0 <= i < |order| :: nodes[i].conn.fd == order[i]
    ensures Alive(nodes[..kept], owners - Members(order[kept..]))
  {
  }

  /** One turn of the sweep. */
  lemma SweepNext(lasts: seq<int>, readings: seq<int>, interval: int, k: nat)
    requires k <= |lasts| <= |readings|
    ensures var left := |lasts| - k;
      SweepCount(lasts[..left], readings[k..], interval) ==
        if left > 0 && readings[k] - lasts[left - 1] >= interval
        then 1 + SweepCount(lasts[..left - 1], readings[k + 1..], interval) else 0
  {
    var left := |lasts| - k;
    if left > 0 {
      assert lasts[..left][..left - 1] == lasts[..left - 1] && readings[k..][1..] == readings[k + 1..];
    }
  }

  /** `fds` were taken off the back of `before` one by one, leaving `after`. */
  ghost predicate Popped(before: seq<nat>, fds: seq<nat>, after: seq<nat>) {
    && |before| == |after| + |fds| && after == before[..|after|]
    && forall i | 0 <= i < |fds| :: fds[i] == before[|before| - 1 - i]
  }

  lemma PoppedMembers(before: seq<nat>, fds: seq<nat>, after: seq<nat>)
    requires Popped(before, fds, after)
    ensures |after| <= |before| && after == before[..|after|] && |fds| == |before| - |after|
    ensures Members(fds) == Members(before[|after|..])
  {
    var n := |before|;
    forall x | x in Members(before[|after|..]) ensures x in Members(fds) {
      var i :| |after| <= i < n && before[i] == x;
      assert fds[n - 1 - i] == x;
    }
    forall x | x in Members(fds) ensures x in Members(before[|after|..]) {
      var i :| 0 <= i < |fds| && fds[i] == x;
      assert before[|after|..][n - 1 - i - |after|] == x;
    }
  }

  /** What is left after a deletion is still alive: the descriptors erased are not listed. */
  lemma AliveAfterDelete(before: seq<Node>, after: seq<Node>, order: seq<nat>, index: map<nat, Node>,
                         owners: map<nat, Connection>, fds: set<nat>)
    requires Indexed(after, order, index) && (forall i | 0 <= i < |after| :: after[i] in before)
    requires forall fd | fd in order :: fd !in fds
    ensures Alive(before, owners) ==> Alive(after, owners - fds)
  {
    if Alive(before, owners) {
      forall i | 0 <= i < |after|
        ensures after[i].conn.fd in owners - fds && (owners - fds)[after[i].conn.fd] == after[i].conn
      {
        var j :| 0 <= j < |before| && before[j] == after[i];
        assert order[i] in order;
      }
    }
  }

  lemma AliveAdded(nodes: seq<Node>, owners: map<nat, Connection>, n: Node)
    requires Alive(nodes, owners) && n.conn.fd !in owners
    ensures Alive([n] + nodes, owners[n.conn.fd := n.conn])
  {
  }

  /** TcpServer::createconnection, for a descriptor that accept has just returned.
      The connection is owned before it is listed, and listed before it is watched. */
  method CreateConnection(server: TcpServer, loops: seq<EventLoop>, socket: Socket, fd: nat, now: int)
    returns (conn: Connection)
    requires loops != [] && socket.received == [] && socket.accepted == [] && !socket.failed
    requires var l := loops[fd % |loops|];
      l.Valid() && fd !in l.connectionMap && l.OwnedBy(server) && fd !in server.clientConnectionMap
    modifies server, loops[fd % |loops|], loops[fd % |loops|].list, loops[fd % |loops|].list.nodes
    modifies socket`interest, socket`edge
    ensures conn.Valid() && conn.Echo() && conn.Reason() && conn.Alert(false)
    ensures conn.fd == fd && conn.lastTime == now && conn.socket == socket && !conn.disconnect
    ensures socket.interest == Events(true, false, true)
    ensures server.clientConnectionMap == old(server.clientConnectionMap)[fd := conn]
    ensures var l := loops[fd % |loops|];
      l.Valid() && l.OwnedBy(server) && l.order == [fd] + old(l.order)
  {
    hide LruList.Valid;
    hide Indexed;
    hide Alive;
    hide Echoed;
    hide Buffer.Valid;
    hide Buffer.Contents;
    var l := loops[fd % |loops|];
    conn := new Connection(fd, socket, now);
    server.Insert(conn);
    l.NewConnection(conn);
    AliveAdded(old(l.list.nodes), old(server.clientConnectionMap), l.list.nodes[0]);
    assert l.OwnedBy(server);
    conn.AddToEpoll();
  }
}
