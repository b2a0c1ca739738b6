/** The connection tables of a whole server over time: several event loops and the
    accepting thread share the map that owns the connections, and every lock
    region is one step. The kernel hands out any descriptor that is not open, and
    a connection's descriptor is closed when the map lets it go. */
module ServerSpec {
  import opened Sequences
  import opened TableSpec

  /** n loops; a stamp is taken at most d seconds before its list move. */
  datatype Config = Config(n: nat, d: nat, interval: int)

  datatype Entry = Entry(conn: nat, last: int, moved: int)

  /** What a loop's own thread is in the middle of: having stamped a connection but
      not moved it yet, or calling back into the server for these descriptors. */
  datatype Pc = Idle | Stamped(fd: nat) | Deleting(left: set<nat>) | Sweeping(left: set<nat>)

  datatype Loop = Loop(order: seq<nat>, entries: map<nat, Entry>, delayed: set<nat>, pc: Pc)

  datatype Accepting = Nothing | Accepted(fd: nat, conn: nat, last: int)

  datatype Server = Server(
    owners: map<nat, nat>, loops: seq<Loop>, accepting: Accepting, clock: int,
    born: nat,            // connections are numbered in the order of their creation
    condemned: set<nat>)  // the connections that were closed, or found late by a sweep

  datatype Action =
    | Tick(seconds: nat)
    | Accept(fd: nat)                       // createconnection: into the server's map
    | Enlist                                // newConnection
    | Stamp(i: nat, fd: nat)                // onmessage: m_lasttime
    | Splice(i: nat)                        // onmessage: updateConnection
    | Close(i: nat, fd: nat)                // delayDelete
    | BeginDelete(i: nat)                   // deleteConnection: the lock region
    | Sweep(i: nat, readings: seq<int>)     // removeTimeOutConnection: the lock region
    | Erase(i: nat, fd: nat)                // one callback into the server
    | End(i: nat)

  function Init(c: Config, clock: int): Server {
    Server(map[], seq(c.n, i => Loop([], map[], {}, Idle)), Nothing, clock, 0, {})
  }

  function Leaving(pc: Pc): set<nat> {
    if pc.Deleting? || pc.Sweeping? then pc.left else {}
  }

  predicate Listed(l: Loop) {
    (forall fd | fd in l.entries :: fd in l.order) && (forall fd | fd in l.order :: fd in l.entries)
  }

  function Lasts(l: Loop): (r: seq<int>)
    requires Listed(l)
    ensures |r| == |l.order| && forall i | 0 <= i < |r| :: r[i] == l.entries[l.order[i]].last
  {
    seq(|l.order|, i requires 0 <= i < |l.order| => l.entries[l.order[i]].last)
  }

  // ---- What one loop does to its own tables ---------------------------------

  function Enlisted(l: Loop, fd: nat, e: Entry): Loop {
    l.(order := [fd] + l.order, entries := l.entries[fd := e])
  }

  function StampedAt(l: Loop, fd: nat, now: int): Loop
    requires fd in l.entries
  {
    l.(entries := l.entries[fd := l.entries[fd].(last := now)], pc := Stamped(fd))
  }

  function Spliced(l: Loop, fd: nat, now: int): Loop
    requires fd in l.entries
  {
    l.(order := ToFront(l.order, fd), entries := l.entries[fd := l.entries[fd].(moved := now)], pc := Idle)
  }

  function Deleted(l: Loop): Loop {
    l.(order := Without(l.order, l.delayed), entries := l.entries - l.delayed, pc := Deleting(l.delayed))
  }

  function Kept(l: Loop, readings: seq<int>, interval: int): (k: nat)
    requires Listed(l) && |readings| == |l.order|
    ensures k <= |l.order|
  {
    |l.order| - SweepCount(Lasts(l), readings, interval)
  }

  /** The descriptors that a sweep takes. */
  function Victims(l: Loop, readings: seq<int>, interval: int): set<nat>
    requires Listed(l) && |readings| == |l.order|
  {
    Members(l.order[Kept(l, readings, interval)..])
  }

  /** The listed connections with these descriptors. */
  function Connections(l: Loop, fds: set<nat>): set<nat> {
    set fd | fd in fds && fd in l.entries :: l.entries[fd].conn
  }

  function Swept(l: Loop, kept: nat): Loop
    requires kept <= |l.order|
  {
    var victims := Members(l.order[kept..]);
    l.(order := l.order[..kept], entries := l.entries - victims, pc := Sweeping(victims))
  }

  // ---- Steps -------------------------------------------------------------------

  function With(s: Server, i: nat, l: Loop): Server
    requires i < |s.loops|
  {
    s.(loops := s.loops[i := l])
  }

  /** The state after an action, if the action can happen. */
  function Step(c: Config, s: Server, a: Action): (t: Option<Server>)
    requires c.n > 0 && |s.loops| == c.n
    ensures t.Some? ==> |t.value.loops| == c.n
  {
    match a
    case Tick(seconds) => Some(s.(clock := s.clock + seconds))
    case Accept(fd) =>
      if s.accepting.Nothing? && fd !in s.owners then
        Some(s.(owners := s.owners[fd := s.born], born := s.born + 1,
                accepting := Accepted(fd, s.born, s.clock)))
      else None
    case Enlist =>
      if s.accepting.Accepted? && s.clock - s.accepting.last <= c.d then
        var i, e := s.accepting.fd % c.n, Entry(s.accepting.conn, s.accepting.last, s.clock);
        Some(With(s, i, Enlisted(s.loops[i], s.accepting.fd, e)).(accepting := Nothing))
      else None
    case Stamp(i, fd) =>
      if i < c.n && s.loops[i].pc.Idle? && fd in s.loops[i].entries then
        Some(With(s, i, StampedAt(s.loops[i], fd, s.clock)))
      else None
    case Splice(i) =>
      if i < c.n && s.loops[i].pc.Stamped? && s.loops[i].pc.fd in s.loops[i].entries
         && s.clock - s.loops[i].entries[s.loops[i].pc.fd].last <= c.d then
        Some(With(s, i, Spliced(s.loops[i], s.loops[i].pc.fd, s.clock)))
      else None
    case Close(i, fd) =>
      if i < c.n && s.loops[i].pc.Idle? && fd in s.loops[i].entries then
        Some(With(s, i, s.loops[i].(delayed := s.loops[i].delayed + {fd})).(
          condemned := s.condemned + {s.loops[i].entries[fd].conn}))
      else None
    case BeginDelete(i) =>
      if i < c.n && s.loops[i].pc.Idle? then Some(With(s, i, Deleted(s.loops[i]))) else None
    case Sweep(i, readings) =>
      if i < c.n && s.loops[i].pc.Idle? && Listed(s.loops[i]) && |readings| == |s.loops[i].order|
         && Rising(readings) && (readings != [] ==> s.clock <= readings[0]) then
        var l, victims := s.loops[i], Victims(s.loops[i], readings, c.interval);
        var kept := Kept(l, readings, c.interval);
        Some(With(s, i, Swept(l, kept)).(
          clock := if readings == [] then s.clock else readings[Min(|readings| - kept, |readings| - 1)],
          condemned := s.condemned + Connections(l, victims)))
      else None
    case Erase(i, fd) =>
      if i < c.n && fd in Leaving(s.loops[i].pc) then
        var pc := s.loops[i].pc;
        Some(With(s, i, s.loops[i].(pc := pc.(left := pc.left - {fd}))).(owners := s.owners - {fd}))
      else None
    case End(i) =>
      if i < c.n && s.loops[i].pc == Deleting({}) then
        Some(With(s, i, s.loops[i].(pc := Idle, delayed := {})))
      else if i < c.n && s.loops[i].pc == Sweeping({}) then
        Some(With(s, i, s.loops[i].(pc := Idle)))
      else None
  }

  function Run(c: Config, s: Server, actions: seq<Action>): (t: Option<Server>)
    requires c.n > 0 && |s.loops| == c.n
    ensures t.Some? ==> |t.value.loops| == c.n
    decreases |actions|
  {
    if actions == [] then Some(s)
    else
      var t := Step(c, s, actions[0]);
      if t.None? then None else Run(c, t.value, actions[1..])
  }

  // ---- The invariant -------------------------------------------------------------

  /** A loop's index is in bijection with its list, each listed connection is the one
      that the server owns under its descriptor, and the loop's descriptors are its own. */
  predicate Agrees(l: Loop, i: nat, n: nat, owners: map<nat, nat>)
    requires n > 0
  {
    && Distinct(l.order) && Listed(l)
    && (forall fd | fd in l.order :: fd % n == i && fd in owners && owners[fd] == l.entries[fd].conn)
    && (forall fd | fd in Leaving(l.pc) :: fd % n == i)
    && (forall fd | fd in l.delayed :: fd % n == i)
  }

  /** Most recently moved first. */
  predicate Recent(order: seq<nat>, entries: map<nat, Entry>)
    requires forall fd | fd in order :: fd in entries
  {
    forall i, j | 0 <= i <= j < |order| :: entries[order[i]].moved >= entries[order[j]].moved
  }

  /** The list is in order of the moves, and stamps are recent enough. */
  predicate Timed(l: Loop, clock: int, d: nat)
    requires Listed(l)
  {
    && Recent(l.order, l.entries)
    && (l.pc.Stamped? ==> l.pc.fd in l.order)
    && (forall fd | fd in l.order :: l.entries[fd].moved - d <= l.entries[fd].last)
    && (forall fd | fd in l.order :: l.entries[fd].moved <= clock)
    && (forall fd | fd in l.order ::
          l.entries[fd].last <= if l.pc == Stamped(fd) then clock else l.entries[fd].moved)
  }

  predicate LoopSound(c: Config, l: Loop, i: nat, owners: map<nat, nat>, clock: int)
    requires c.n > 0
  {
    Agrees(l, i, c.n, owners) && Timed(l, clock, c.d)
  }

  predicate AcceptSound(c: Config, s: Server)
    requires c.n > 0 && |s.loops| == c.n
  {
    s.accepting.Accepted? ==>
      var fd, l := s.accepting.fd, s.loops[s.accepting.fd % c.n];
      && fd in s.owners && s.owners[fd] == s.accepting.conn
      && fd !in l.order && s.accepting.last <= s.clock
  }

  /** Every owned connection is listed, or about to be, or about to be erased. */
  predicate NoLeak(c: Config, s: Server)
    requires c.n > 0 && |s.loops| == c.n
  {
    forall fd | fd in s.owners ::
      || fd in s.loops[fd % c.n].order
      || fd in Leaving(s.loops[fd % c.n].pc)
      || (s.accepting.Accepted? && s.accepting.fd == fd)
  }

  predicate Sound(c: Config, s: Server): (sound: bool)
    ensures sound ==> c.n > 0 && |s.loops| == c.n
  {
    && c.n > 0 && |s.loops| == c.n
    && (forall i | 0 <= i < c.n :: LoopSound(c, s.loops[i], i, s.owners, s.clock))
    && AcceptSound(c, s) && NoLeak(c, s)
  }

  // ---- Each loop operation keeps its loop sound --------------------------------------

  /** A loop does not notice the others, nor the accepting thread. */
  lemma LoopFramed(c: Config, l: Loop, i: nat, owners: map<nat, nat>, owners': map<nat, nat>, clock: int, clock': int)
    requires c.n > 0 && LoopSound(c, l, i, owners, clock) && clock <= clock'
    requires forall fd | fd in l.order :: fd in owners' && owners'[fd] == owners[fd]
    ensures LoopSound(c, l, i, owners', clock')
  {
  }

  lemma EnlistSound(c: Config, l: Loop, i: nat, owners: map<nat, nat>, clock: int, fd: nat, e: Entry)
    requires c.n > 0 && LoopSound(c, l, i, owners, clock)
    requires fd % c.n == i && fd in owners && owners[fd] == e.conn && fd !in l.order
    requires e.last <= clock == e.moved && clock - e.last <= c.d
    ensures LoopSound(c, Enlisted(l, fd, e), i, owners, clock)
  {
    EnlistAgrees(l, i, c.n, owners, fd, e);
    EnlistTimed(l, clock, c.d, fd, e);
  }

  lemma EnlistAgrees(l: Loop, i: nat, n: nat, owners: map<nat, nat>, fd: nat, e: Entry)
    requires n > 0 && Agrees(l, i, n, owners)
    requires fd % n == i && fd in owners && owners[fd] == e.conn && fd !in l.order
    ensures Agrees(Enlisted(l, fd, e), i, n, owners)
  {
    var l' := Enlisted(l, fd, e);
    assert forall x :: x in l'.order <==> x == fd || x in l.order;
  }

  lemma EnlistTimed(l: Loop, clock: int, d: nat, fd: nat, e: Entry)
    requires Listed(l) && Timed(l, clock, d) && fd !in l.order
    requires e.last <= clock == e.moved && clock - e.last <= d
    ensures Listed(Enlisted(l, fd, e)) && Timed(Enlisted(l, fd, e), clock, d)
  {
    var l' := Enlisted(l, fd, e);
    assert forall x :: x in l'.order <==> x == fd || x in l.order;
    assert forall x | x in l.order :: l'.entries[x] == l.entries[x];
    FrontRecent(l.order, l'.entries, fd);
  }

  lemma FrontRecent(order: seq<nat>, entries: map<nat, Entry>, fd: nat)
    requires (forall x | x in order :: x in entries) && fd in entries && Recent(order, entries)
    requires forall x | x in order :: entries[x].moved <= entries[fd].moved
    ensures Recent([fd] + order, entries)
  {
  }

  lemma StampSound(c: Config, l: Loop, i: nat, owners: map<nat, nat>, clock: int, fd: nat)
    requires c.n > 0 && LoopSound(c, l, i, owners, clock) && l.pc.Idle? && fd in l.entries
    ensures LoopSound(c, StampedAt(l, fd, clock), i, owners, clock)
  {
  }

  lemma SpliceSound(c: Config, l: Loop, i: nat, owners: map<nat, nat>, clock: int)
    requires c.n > 0 && LoopSound(c, l, i, owners, clock) && l.pc.Stamped?
    requires clock - l.entries[l.pc.fd].last <= c.d
    ensures LoopSound(c, Spliced(l, l.pc.fd, clock), i, owners, clock)
  {
    SpliceAgrees(l, i, c.n, owners, clock);
    SpliceTimed(l, clock, c.d);
  }

  lemma SpliceAgrees(l: Loop, i: nat, n: nat, owners: map<nat, nat>, clock: int)
    requires n > 0 && Agrees(l, i, n, owners) && l.pc.Stamped? && l.pc.fd in l.order
    ensures Agrees(Spliced(l, l.pc.fd, clock), i, n, owners)
  {
    WithoutDistinct(l.order, {l.pc.fd});
    var l' := Spliced(l, l.pc.fd, clock);
    assert forall x :: x in l'.order <==> x in l.order;
  }

  lemma SpliceTimed(l: Loop, clock: int, d: nat)
    requires Listed(l) && Timed(l, clock, d) && l.pc.Stamped?
    requires clock - l.entries[l.pc.fd].last <= d
    ensures var l' := Spliced(l, l.pc.fd, clock); Listed(l') && Timed(l', clock, d)
  {
    hide Recent;
    var fd, l' := l.pc.fd, Spliced(l, l.pc.fd, clock);
    assert forall x :: x in l'.order <==> x in l.order;
    SplicedRecent(l.order, l.entries, fd, clock);
  }

  lemma SplicedRecent(order: seq<nat>, entries: map<nat, Entry>, fd: nat, clock: int)
    requires (forall x | x in order :: x in entries) && Recent(order, entries) && fd in order
    requires forall x | x in order :: entries[x].moved <= clock
    ensures Recent([fd] + Without(order, {fd}), entries[fd := entries[fd].(moved := clock)])
  {
    var rest, entries' := Without(order, {fd}), entries[fd := entries[fd].(moved := clock)];
    WithoutRecent(order, entries, {fd});
    assert forall x | x in rest :: entries'[x] == entries[x];
    FrontRecent(rest, entries', fd);
  }

  lemma {:induction false} WithoutRecent(order: seq<nat>, entries: map<nat, Entry>, fds: set<nat>)
    requires (forall x | x in order :: x in entries) && Recent(order, entries)
    ensures Recent(Without(order, fds), entries)
  {
    if order != [] {
      WithoutRecent(order[1..], entries, fds);
      if order[0] !in fds {
        FrontRecent(Without(order[1..], fds), entries, order[0]);
      }
    }
  }

  lemma RecentAlike(order: seq<nat>, entries: map<nat, Entry>, entries': map<nat, Entry>)
    requires (forall x | x in order :: x in entries) && Recent(order, entries)
    requires forall x | x in order :: x in entries' && entries'[x] == entries[x]
    ensures Recent(order, entries')
  {
  }

  lemma PrefixRecent(order: seq<nat>, entries: map<nat, Entry>, kept: nat)
    requires (forall x | x in order :: x in entries) && Recent(order, entries) && kept <= |order|
    ensures (forall x | x in order[..kept] :: x in entries) && Recent(order[..kept], entries)
  {
  }

  lemma DeleteSound(c: Config, l: Loop, i: nat, owners: map<nat, nat>, clock: int)
    requires c.n > 0 && LoopSound(c, l, i, owners, clock) && l.pc.Idle?
    ensures LoopSound(c, Deleted(l), i, owners, clock)
  {
    DeleteAgrees(l, i, c.n, owners);
    DeleteTimed(l, clock, c.d);
  }

  lemma DeleteAgrees(l: Loop, i: nat, n: nat, owners: map<nat, nat>)
    requires n > 0 && Agrees(l, i, n, owners) && l.pc.Idle?
    ensures Agrees(Deleted(l), i, n, owners)
  {
    WithoutDistinct(l.order, l.delayed);
  }

  lemma DeleteTimed(l: Loop, clock: int, d: nat)
    requires Listed(l) && Timed(l, clock, d) && l.pc.Idle?
    ensures Listed(Deleted(l)) && Timed(Deleted(l), clock, d)
  {
    hide Recent;
    WithoutRecent(l.order, l.entries, l.delayed);
    RecentAlike(Deleted(l).order, l.entries, Deleted(l).entries);
  }

  lemma SweepSound(c: Config, l: Loop, i: nat, owners: map<nat, nat>, clock: int, kept: nat)
    requires c.n > 0 && LoopSound(c, l, i, owners, clock) && l.pc.Idle? && kept <= |l.order|
    ensures LoopSound(c, Swept(l, kept), i, owners, clock)
  {
    SweepAgrees(l, i, c.n, owners, kept);
    SweepTimed(l, clock, c.d, kept);
  }

  lemma SweepAgrees(l: Loop, i: nat, n: nat, owners: map<nat, nat>, kept: nat)
    requires n > 0 && Agrees(l, i, n, owners) && l.pc.Idle? && kept <= |l.order|
    ensures Agrees(Swept(l, kept), i, n, owners)
  {
    KeptOrSwept(l.order, kept);
  }

  lemma SweepTimed(l: Loop, clock: int, d: nat, kept: nat)
    requires Listed(l) && Distinct(l.order) && Timed(l, clock, d) && l.pc.Idle? && kept <= |l.order|
    ensures Listed(Swept(l, kept)) && Timed(Swept(l, kept), clock, d)
  {
    hide Recent;
    KeptOrSwept(l.order, kept);
    PrefixRecent(l.order, l.entries, kept);
    RecentAlike(l.order[..kept], l.entries, Swept(l, kept).entries);
  }

  lemma KeptOrSwept(order: seq<nat>, kept: nat)
    requires Distinct(order) && kept <= |order|
    ensures forall x :: x in order <==> x in order[..kept] || x in Members(order[kept..])
    ensures forall x | x in order[..kept] :: x !in Members(order[kept..])
  {
    assert order == order[..kept] + order[kept..];
  }

  // ---- Every step keeps the invariant --------------------------------------------------

  /** A loop's thread changes its own tables only, and lets go of no connection that
      it is not about to erase. */
  lemma LocalStep(c: Config, s: Server, i: nat, l: Loop, clock: int, condemned: set<nat>)
    requires Sound(c, s) && i < c.n && s.clock <= clock
    requires LoopSound(c, l, i, s.owners, clock)
    requires forall fd | fd in l.order :: fd in s.loops[i].order
    requires forall fd | fd in s.loops[i].order || fd in Leaving(s.loops[i].pc) ::
      fd in l.order || fd in Leaving(l.pc)
    ensures Sound(c, With(s, i, l).(clock := clock, condemned := condemned))
  {
    hide LoopSound;
    forall j | 0 <= j < c.n && j != i ensures LoopSound(c, s.loops[j], j, s.owners, clock) {
      LoopStays(c, s.loops[j], j, s.owners, s.clock, clock);
    }
  }

  lemma StampStep(c: Config, s: Server, i: nat, fd: nat)
    requires Sound(c, s) && Step(c, s, Stamp(i, fd)).Some?
    ensures Sound(c, Step(c, s, Stamp(i, fd)).value)
  {
    StampSound(c, s.loops[i], i, s.owners, s.clock, fd);
    LocalStep(c, s, i, StampedAt(s.loops[i], fd, s.clock), s.clock, s.condemned);
  }

  lemma SpliceStep(c: Config, s: Server, i: nat)
    requires Sound(c, s) && Step(c, s, Splice(i)).Some?
    ensures Sound(c, Step(c, s, Splice(i)).value)
  {
    hide LoopSound;
    var l := s.loops[i];
    SpliceSound(c, l, i, s.owners, s.clock);
    SpliceMembers(c, l, i, s.owners, s.clock);
    LocalStep(c, s, i, Spliced(l, l.pc.fd, s.clock), s.clock, s.condemned);
  }

  lemma SpliceMembers(c: Config, l: Loop, i: nat, owners: map<nat, nat>, clock: int)
    requires c.n > 0 && LoopSound(c, l, i, owners, clock) && l.pc.Stamped? && l.pc.fd in l.entries
    ensures forall fd :: fd in Spliced(l, l.pc.fd, clock).order <==> fd in l.order
  {
  }

  lemma CloseIs(c: Config, s: Server, t: Server, i: nat, fd: nat)
    requires Sound(c, s) && Step(c, s, Close(i, fd)) == Some(t)
    ensures i < c.n && s.loops[i].pc.Idle? && fd in s.loops[i].order && fd in s.owners
    ensures t == With(s, i, s.loops[i].(delayed := s.loops[i].delayed + {fd})).(
                   condemned := s.condemned + {s.owners[fd]})
  {
    assert LoopSound(c, s.loops[i], i, s.owners, s.clock);
  }

  lemma CloseSound(c: Config, l: Loop, i: nat, owners: map<nat, nat>, clock: int, fd: nat)
    requires c.n > 0 && LoopSound(c, l, i, owners, clock) && l.pc == Idle && fd in l.order
    ensures LoopSound(c, l.(delayed := l.delayed + {fd}), i, owners, clock)
  {
  }

  lemma CloseStep(c: Config, s: Server, i: nat, fd: nat)
    requires Sound(c, s) && Step(c, s, Close(i, fd)).Some?
    ensures Sound(c, Step(c, s, Close(i, fd)).value)
  {
    hide Step;
    hide LoopSound;
    var t := Step(c, s, Close(i, fd)).value;
    CloseIs(c, s, t, i, fd);
    CloseSound(c, s.loops[i], i, s.owners, s.clock, fd);
    LocalStep(c, s, i, s.loops[i].(delayed := s.loops[i].delayed + {fd}), s.clock, t.condemned);
  }

  lemma DeleteStep(c: Config, s: Server, i: nat)
    requires Sound(c, s) && Step(c, s, BeginDelete(i)).Some?
    ensures Sound(c, Step(c, s, BeginDelete(i)).value)
  {
    DeleteSound(c, s.loops[i], i, s.owners, s.clock);
    LocalStep(c, s, i, Deleted(s.loops[i]), s.clock, s.condemned);
  }

  lemma SweepStep(c: Config, s: Server, i: nat, readings: seq<int>)
    requires Sound(c, s) && Step(c, s, Sweep(i, readings)).Some?
    ensures Sound(c, Step(c, s, Sweep(i, readings)).value)
  {
    hide SweepCount;
    hide LoopSound;
    var l := s.loops[i];
    var kept := Kept(l, readings, c.interval);
    var t := Step(c, s, Sweep(i, readings)).value;
    SoundIsDistinct(c, l, i, s.owners, s.clock);
    LoopStays(c, l, i, s.owners, s.clock, t.clock);
    SweepSound(c, l, i, s.owners, t.clock, kept);
    KeptOrSwept(l.order, kept);
    LocalStep(c, s, i, Swept(l, kept), t.clock, t.condemned);
  }

  lemma SoundIsDistinct(c: Config, l: Loop, i: nat, owners: map<nat, nat>, clock: int)
    requires c.n > 0 && LoopSound(c, l, i, owners, clock)
    ensures Distinct(l.order) && Listed(l)
  {
  }

  lemma LoopStays(c: Config, l: Loop, i: nat, owners: map<nat, nat>, clock: int, clock': int)
    requires c.n > 0 && LoopSound(c, l, i, owners, clock) && clock <= clock'
    ensures LoopSound(c, l, i, owners, clock')
  {
    LoopFramed(c, l, i, owners, owners, clock, clock');
  }

  function Ended(l: Loop): Loop {
    if l.pc.Deleting? then l.(pc := Idle, delayed := {}) else l.(pc := Idle)
  }

  lemma EndSound(c: Config, l: Loop, i: nat, owners: map<nat, nat>, clock: int)
    requires c.n > 0 && LoopSound(c, l, i, owners, clock) && (l.pc == Deleting({}) || l.pc == Sweeping({}))
    ensures LoopSound(c, Ended(l), i, owners, clock)
  {
  }

  lemma EndIs(c: Config, s: Server, i: nat)
    requires Sound(c, s) && Step(c, s, End(i)).Some?
    ensures i < |s.loops| && (s.loops[i].pc == Deleting({}) || s.loops[i].pc == Sweeping({}))
    ensures Step(c, s, End(i)).value == With(s, i, Ended(s.loops[i]))
    ensures Leaving(s.loops[i].pc) == {} == Leaving(Ended(s.loops[i]).pc)
  {
  }

  lemma EndStep(c: Config, s: Server, i: nat)
    requires Sound(c, s) && Step(c, s, End(i)).Some?
    ensures Sound(c, Step(c, s, End(i)).value)
  {
    hide Step;
    hide LoopSound;
    hide Leaving;
    EndIs(c, s, i);
    EndSound(c, s.loops[i], i, s.owners, s.clock);
    LocalStep(c, s, i, Ended(s.loops[i]), s.clock, s.condemned);
  }

  lemma AcceptStep(c: Config, s: Server, fd: nat)
    requires Sound(c, s) && Step(c, s, Accept(fd)).Some?
    ensures Sound(c, Step(c, s, Accept(fd)).value)
  {
    var t := Step(c, s, Accept(fd)).value;
    forall j | 0 <= j < c.n ensures LoopSound(c, s.loops[j], j, t.owners, t.clock) {
      LoopFramed(c, s.loops[j], j, s.owners, t.owners, s.clock, s.clock);
    }
  }

  lemma EnlistStep(c: Config, s: Server)
    requires Sound(c, s) && Step(c, s, Enlist).Some?
    ensures Sound(c, Step(c, s, Enlist).value)
  {
    hide LoopSound;
    var fd := s.accepting.fd;
    var i, e := fd % c.n, Entry(s.accepting.conn, s.accepting.last, s.clock);
    EnlistSound(c, s.loops[i], i, s.owners, s.clock, fd, e);
    var l := Enlisted(s.loops[i], fd, e);
    assert forall x :: x in l.order <==> x == fd || x in s.loops[i].order;
  }

  /** A connection is erased while it is listed, or while it is being accepted: the
      server loses it under the list, or under createconnection. */
  predicate Clash(c: Config, s: Server, a: Action)
    requires c.n > 0 && |s.loops| == c.n
  {
    && a.Erase?
    && (a.fd in s.loops[a.fd % c.n].order || (s.accepting.Accepted? && s.accepting.fd == a.fd))
  }

  lemma EraseStep(c: Config, s: Server, i: nat, fd: nat)
    requires Sound(c, s) && Step(c, s, Erase(i, fd)).Some? && !Clash(c, s, Erase(i, fd))
    ensures Sound(c, Step(c, s, Erase(i, fd)).value)
  {
    hide LoopSound;
    var t := Step(c, s, Erase(i, fd)).value;
    LeavingIsOwn(c, s, i, fd);
    EraseSound(c, s.loops[i], i, s.owners, s.clock, fd);
    forall j | 0 <= j < c.n && j != i ensures LoopSound(c, t.loops[j], j, t.owners, t.clock) {
      OthersKeep(c, s.loops[j], j, s.owners, s.clock, fd);
    }
  }

  lemma LeavingIsOwn(c: Config, s: Server, i: nat, fd: nat)
    requires Sound(c, s) && i < c.n && fd in Leaving(s.loops[i].pc)
    ensures fd % c.n == i
  {
  }

  lemma OthersKeep(c: Config, l: Loop, j: nat, owners: map<nat, nat>, clock: int, fd: nat)
    requires c.n > 0 && LoopSound(c, l, j, owners, clock) && fd % c.n != j
    ensures LoopSound(c, l, j, owners - {fd}, clock)
  {
    LoopFramed(c, l, j, owners, owners - {fd}, clock, clock);
  }

  lemma EraseSound(c: Config, l: Loop, i: nat, owners: map<nat, nat>, clock: int, fd: nat)
    requires c.n > 0 && LoopSound(c, l, i, owners, clock) && fd in Leaving(l.pc) && fd !in l.order
    ensures LoopSound(c, l.(pc := l.pc.(left := l.pc.left - {fd})), i, owners - {fd}, clock)
  {
  }

  lemma StepSound(c: Config, s: Server, a: Action)
    requires Sound(c, s) && Step(c, s, a).Some? && !Clash(c, s, a)
    ensures Sound(c, Step(c, s, a).value)
  {
    hide LoopSound;
    hide Step;
    hide Clash;
    match a
    case Tick(seconds) => TickStep(c, s, seconds);
    case Accept(fd) => AcceptStep(c, s, fd);
    case Enlist => EnlistStep(c, s);
    case Stamp(i, fd) => StampStep(c, s, i, fd);
    case Splice(i) => SpliceStep(c, s, i);
    case Close(i, fd) => CloseStep(c, s, i, fd);
    case BeginDelete(i) => DeleteStep(c, s, i);
    case Sweep(i, readings) => SweepStep(c, s, i, readings);
    case Erase(i, fd) => EraseStep(c, s, i, fd);
    case End(i) => EndStep(c, s, i);
  }

  /** The server owns what is listed, and what it is accepting. */
  ghost predicate Owned(s: Server) {
    && (forall i, fd | 0 <= i < |s.loops| && fd in s.loops[i].order :: fd in s.owners)
    && (s.accepting.Accepted? ==> s.accepting.fd in s.owners)
  }

  lemma SoundIsOwned(c: Config, s: Server)
    requires Sound(c, s)
    ensures Owned(s)
  {
    forall i, fd | 0 <= i < |s.loops| && fd in s.loops[i].order ensures fd in s.owners {
      assert LoopSound(c, s.loops[i], i, s.owners, s.clock);
    }
  }

  lemma ClashDisowns(c: Config, s: Server, a: Action)
    requires c.n > 0 && |s.loops| == c.n && Step(c, s, a).Some? && Clash(c, s, a)
    ensures !Owned(Step(c, s, a).value)
  {
    var t := Step(c, s, a).value;
    assert t.loops[a.fd % c.n].order == s.loops[a.fd % c.n].order;
    assert a.fd !in t.owners;
  }

  /** A step keeps the invariant, and even ownership alone, if and only if it is no clash. */
  lemma StepSoundExactly(c: Config, s: Server, a: Action)
    requires Sound(c, s) && Step(c, s, a).Some?
    ensures Sound(c, Step(c, s, a).value) <==> !Clash(c, s, a)
    ensures Owned(Step(c, s, a).value) <==> !Clash(c, s, a)
  {
    hide Sound;
    hide Step;
    hide Owned;
    if Clash(c, s, a) {
      ClashDisowns(c, s, a);
    } else {
      StepSound(c, s, a);
    }
    if Sound(c, Step(c, s, a).value) {
      SoundIsOwned(c, Step(c, s, a).value);
    }
  }

  lemma TickStep(c: Config, s: Server, seconds: nat)
    requires Sound(c, s)
    ensures Sound(c, Step(c, s, Tick(seconds)).value)
  {
    hide LoopSound;
    forall j | 0 <= j < c.n ensures LoopSound(c, s.loops[j], j, s.owners, s.clock + seconds) {
      LoopStays(c, s.loops[j], j, s.owners, s.clock, s.clock + seconds);
    }
  }

  predicate ClashFree(c: Config, s: Server, actions: seq<Action>)
    requires c.n > 0 && |s.loops| == c.n && Run(c, s, actions).Some?
    decreases |actions|
  {
    actions == [] || (!Clash(c, s, actions[0]) && ClashFree(c, Step(c, s, actions[0]).value, actions[1..]))
  }

  /** The invariant holds in every state of the run. */
  predicate SoundThroughout(c: Config, s: Server, actions: seq<Action>)
    requires c.n > 0 && |s.loops| == c.n && Run(c, s, actions).Some?
    decreases |actions|
  {
    Sound(c, s) && (actions == [] || SoundThroughout(c, Step(c, s, actions[0]).value, actions[1..]))
  }

  ghost predicate OwnedThroughout(c: Config, s: Server, actions: seq<Action>)
    requires c.n > 0 && |s.loops| == c.n && Run(c, s, actions).Some?
    decreases |actions|
  {
    Owned(s) && (actions == [] || OwnedThroughout(c, Step(c, s, actions[0]).value, actions[1..]))
  }

  /** Whatever the loops' threads and the accepting thread interleave: index and list
      agree, every listed connection is owned, every owned one is listed or on its
      way in or out, and the list is in LRU order, in every state of exactly the runs
      without a clash; and so is ownership alone. */
  lemma {:induction false} RunSoundExactly(c: Config, s: Server, actions: seq<Action>)
    requires Sound(c, s) && Run(c, s, actions).Some?
    ensures SoundThroughout(c, s, actions) <==> ClashFree(c, s, actions)
    ensures OwnedThroughout(c, s, actions) <==> ClashFree(c, s, actions)
    decreases |actions|
  {
    hide Step;
    hide Sound;
    hide Owned;
    hide Clash;
    SoundIsOwned(c, s);
    if actions != [] {
      StepSoundExactly(c, s, actions[0]);
      var t := Step(c, s, actions[0]).value;
      if Clash(c, s, actions[0]) {
        BrokenThroughout(c, t, actions[1..]);
      } else {
        RunSoundExactly(c, t, actions[1..]);
      }
    }
  }

  lemma BrokenThroughout(c: Config, s: Server, actions: seq<Action>)
    requires c.n > 0 && |s.loops| == c.n && Run(c, s, actions).Some? && !Sound(c, s) && !Owned(s)
    ensures !SoundThroughout(c, s, actions) && !OwnedThroughout(c, s, actions)
  {
  }

  lemma {:induction false} RunSound(c: Config, s: Server, actions: seq<Action>)
    requires Sound(c, s) && Run(c, s, actions).Some? && ClashFree(c, s, actions)
    ensures Sound(c, Run(c, s, actions).value)
    decreases |actions|
  {
    hide Step;
    hide Sound;
    hide Clash;
    if actions != [] {
      StepSound(c, s, actions[0]);
      RunSound(c, Step(c, s, actions[0]).value, actions[1..]);
    }
  }

  lemma InitSound(c: Config, clock: int)
    requires c.n > 0
    ensures Sound(c, Init(c, clock))
  {
  }
}
