/** Runs of the server that show where its properties end: a sweep that is not exact,
    the two kinds of clash, and the destruction of a connection that was neither
    closed nor late. Each is given for any number of loops and any interval. */
module ServerRuns {
  import opened Sequences
  import opened TableSpec
  import opened ServerSpec
  import opened ServerTheorems

  // ---- Building runs ------------------------------------------------------------

  const EMPTY_LOOP := Loop([], map[], {}, Idle)

  /** A server of which only the first loop has been used. */
  function Alone(c: Config, owners: map<nat, nat>, l: Loop, accepting: Accepting, clock: int,
                 born: nat, condemned: set<nat>): Server
    requires c.n > 0
  {
    Server(owners, [l] + seq(c.n - 1, _ => EMPTY_LOOP), accepting, clock, born, condemned)
  }

  lemma InitIsAlone(c: Config)
    requires c.n > 0
    ensures Reaches(c, Init(c, 0), Alone(c, map[], EMPTY_LOOP, Nothing, 0, 0, {}))
  {
    assert Init(c, 0).loops == [EMPTY_LOOP] + seq(c.n - 1, _ => EMPTY_LOOP);
    assert Run(c, Init(c, 0), []) == Some(Init(c, 0));
  }

  lemma WithAlone(c: Config, s: Server, l: Loop)
    requires c.n > 0 && |s.loops| == c.n && s.loops[1..] == seq(c.n - 1, _ => EMPTY_LOOP)
    ensures With(s, 0, l) == Alone(c, s.owners, l, s.accepting, s.clock, s.born, s.condemned)
  {
    assert s.loops[0 := l] == [l] + s.loops[1..];
  }

  lemma {:induction false} RunSnoc(c: Config, s: Server, actions: seq<Action>, a: Action)
    requires c.n > 0 && |s.loops| == c.n && Run(c, s, actions).Some?
    ensures Run(c, s, actions + [a]) == Step(c, Run(c, s, actions).value, a)
    ensures Run(c, s, actions + [a]).Some? ==>
      (ClashFree(c, s, actions + [a]) <==>
        ClashFree(c, s, actions) && !Clash(c, Run(c, s, actions).value, a))
    decreases |actions|
  {
    hide Step;
    hide Clash;
    if actions == [] {
      assert [] + [a] == [a] && [a][1..] == [];
    } else {
      assert (actions + [a])[1..] == actions[1..] + [a];
      RunSnoc(c, Step(c, s, actions[0]).value, actions[1..], a);
    }
  }

  lemma Extend(c: Config, s: Server, t: Server, a: Action, u: Server)
    requires c.n > 0 && |s.loops| == |t.loops| == c.n
    requires Reaches(c, s, t) && Step(c, t, a) == Some(u) && !Clash(c, t, a)
    ensures Reaches(c, s, u)
  {
    hide Step;
    hide Clash;
    var actions :| Run(c, s, actions) == Some(t) && ClashFree(c, s, actions);
    RunSnoc(c, s, actions, a);
  }

  /** Accepting a descriptor that belongs to the first loop, and listing it at once. */
  lemma Arrives(c: Config, s0: Server, owners: map<nat, nat>, l: Loop, clock: int, born: nat,
                condemned: set<nat>, fd: nat)
    requires c.n > 0 && |s0.loops| == c.n && fd % c.n == 0 && fd !in owners
    requires Reaches(c, s0, Alone(c, owners, l, Nothing, clock, born, condemned))
    ensures Reaches(c, s0, Alone(c, owners[fd := born], Enlisted(l, fd, Entry(born, clock, clock)),
                                 Nothing, clock, born + 1, condemned))
  {
    hide Reaches;
    var s := Alone(c, owners, l, Nothing, clock, born, condemned);
    var t := Alone(c, owners[fd := born], l, Accepted(fd, born, clock), clock, born + 1, condemned);
    Extend(c, s0, s, Accept(fd), t);
    var l' := Enlisted(l, fd, Entry(born, clock, clock));
    WithAlone(c, t, l');
    Extend(c, s0, t, Enlist, Alone(c, t.owners, l', Nothing, clock, born + 1, condemned));
  }

  lemma Passes(c: Config, s0: Server, owners: map<nat, nat>, l: Loop, clock: int, born: nat, seconds: nat)
    requires c.n > 0 && |s0.loops| == c.n
    requires Reaches(c, s0, Alone(c, owners, l, Nothing, clock, born, {}))
    ensures Reaches(c, s0, Alone(c, owners, l, Nothing, clock + seconds, born, {}))
  {
    hide Reaches;
    Extend(c, s0, Alone(c, owners, l, Nothing, clock, born, {}), Tick(seconds),
           Alone(c, owners, l, Nothing, clock + seconds, born, {}));
  }

  // ---- A sweep that is not exact ------------------------------------------------

  /** Connection 0 is stamped; a second passes, in which connection n is accepted and
      listed; then 0 is moved to the front, with the older stamp. */
  lemma Overtaken(c: Config)
    requires c.n > 0 && c.d > 0
    ensures Reaches(c, Init(c, 0), Alone(c, map[0 := 0, c.n := 1],
              Loop([0, c.n], map[0 := Entry(0, 0, 1), c.n := Entry(1, 1, 1)], {}, Idle), Nothing, 1, 2, {}))
  {
    hide Reaches;
    var s0 := Init(c, 0);
    InitIsAlone(c);
    Arrives(c, s0, map[], EMPTY_LOOP, 0, 0, {}, 0);
    var l1 := Loop([0], map[0 := Entry(0, 0, 0)], {}, Idle);
    assert Enlisted(EMPTY_LOOP, 0, Entry(0, 0, 0)) == l1;
    var l2 := l1.(pc := Stamped(0));
    var s1 := Alone(c, map[0 := 0], l1, Nothing, 0, 1, {});
    WithAlone(c, s1, l2);
    assert StampedAt(l1, 0, 0) == l2;
    Extend(c, s0, s1, Stamp(0, 0), Alone(c, map[0 := 0], l2, Nothing, 0, 1, {}));
    Passes(c, s0, map[0 := 0], l2, 0, 1, 1);
    Arrives(c, s0, map[0 := 0], l2, 1, 1, {}, c.n);
    var l3 := Loop([c.n, 0], map[0 := Entry(0, 0, 0), c.n := Entry(1, 1, 1)], {}, Stamped(0));
    assert Enlisted(l2, c.n, Entry(1, 1, 1)) == l3;
    SpliceBack(c, l3);
    var l4 := Loop([0, c.n], map[0 := Entry(0, 0, 1), c.n := Entry(1, 1, 1)], {}, Idle);
    var s3 := Alone(c, map[0 := 0, c.n := 1], l3, Nothing, 1, 2, {});
    WithAlone(c, s3, l4);
    Extend(c, s0, s3, Splice(0), Alone(c, map[0 := 0, c.n := 1], l4, Nothing, 1, 2, {}));
  }

  lemma SpliceBack(c: Config, l: Loop)
    requires c.n > 0
    requires l == Loop([c.n, 0], map[0 := Entry(0, 0, 0), c.n := Entry(1, 1, 1)], {}, Stamped(0))
    ensures Spliced(l, 0, 1) == Loop([0, c.n], map[0 := Entry(0, 0, 1), c.n := Entry(1, 1, 1)], {}, Idle)
  {
    assert [c.n, 0][1..] == [0] && [0][1..] == [];
    assert Without([0], {0}) == Without([], {0}) == [];
    assert Without([c.n, 0], {0}) == [c.n];
  }

  /** Then 0 has been idle for the whole interval and stays listed, behind n, which
      has not: a sweep that is not exact, whenever a stamp and its list move can be a
      second apart. */
  lemma OvertakenWhileStamped(c: Config) returns (s: Server)
    requires c.n > 0 && c.d > 0 && c.interval > 0
    ensures Reachable(c, s) && |s.loops| == c.n
    ensures Step(c, s, Sweep(0, [c.interval, c.interval])).Some?
    ensures !SweepsExactly(c, s, 0, [c.interval, c.interval])
  {
    hide Reaches;
    Overtaken(c);
    var l := Loop([0, c.n], map[0 := Entry(0, 0, 1), c.n := Entry(1, 1, 1)], {}, Idle);
    var owners := map[0 := 0, c.n := 1];
    Passes(c, Init(c, 0), owners, l, 1, 2, c.interval - 1);
    s := Alone(c, owners, l, Nothing, c.interval, 2, {});
    assert Reachable(c, s);
    SweepSparesBoth(c, s, l);
  }

  lemma SweepSparesBoth(c: Config, s: Server, l: Loop)
    requires c.n > 0 && c.interval > 0
    requires l == Loop([0, c.n], map[0 := Entry(0, 0, 1), c.n := Entry(1, 1, 1)], {}, Idle)
    requires |s.loops| == c.n && s.loops[0] == l && s.clock == c.interval
    ensures Step(c, s, Sweep(0, [c.interval, c.interval])).Some?
    ensures !SweepsExactly(c, s, 0, [c.interval, c.interval])
  {
    var readings := [c.interval, c.interval];
    assert Lasts(l) == [0, 1];
    assert SweepCount([0, 1], readings, c.interval) == 0;
    assert Kept(l, readings, c.interval) == 2;
    assert l.order[2..] == [] && l.order[..2] == l.order;
    assert 0 in l.order;
  }

  /** The early break is exact, in every state that runs without a clash reach, if and
      only if a stamp and its list move cannot be a second apart, or every connection
      is late anyway. */
  lemma SweepIsExactOnlyIfPrompt(c: Config)
    requires c.n > 0
    ensures (forall s, i, readings | Reachable(c, s) && |s.loops| == c.n && Step(c, s, Sweep(i, readings)).Some?
               :: SweepsExactly(c, s, i, readings))
      <==> c.d == 0 || c.interval <= 0
  {
    if c.d == 0 || c.interval <= 0 {
      forall s, i, readings | Reachable(c, s) && |s.loops| == c.n && Step(c, s, Sweep(i, readings)).Some?
        ensures SweepsExactly(c, s, i, readings)
      {
        ReachableSound(c, s);
        PromptSweepIsExact(c, s, i, readings);
      }
    } else {
      var s := OvertakenWhileStamped(c);
      assert !SweepsExactly(c, s, 0, [c.interval, c.interval]);
    }
  }

  // ---- Clashes ------------------------------------------------------------------

  /** The clock at which a connection stamped at 0 is late. */
  function Late(c: Config): nat {
    Max(c.interval, 0)
  }

  const CLOSED_LOOP := Loop([0], map[0 := Entry(0, 0, 0)], {0}, Idle)

  lemma TakesTheOnlyOne(now: int, interval: int)
    requires now >= interval
    ensures Listed(CLOSED_LOOP) && Kept(CLOSED_LOOP, [now], interval) == 0
    ensures Victims(CLOSED_LOOP, [now], interval) == {0} && Connections(CLOSED_LOOP, {0}) == {0}
    ensures Swept(CLOSED_LOOP, 0) == Loop([], map[], {0}, Sweeping({0}))
  {
    var l := CLOSED_LOOP;
    assert Lasts(l) == [0] && SweepCount([], [now][1..], interval) == 0;
    assert l.order[0..] == [0] && Members([0]) == {0};
    assert 0 in l.entries && l.entries[0].conn == 0;
    assert l.entries - {0} == map[] && l.order[..0] == [];
  }

  lemma SweepTakesClosed(c: Config)
    requires c.n > 0
    ensures Step(c, Alone(c, map[0 := 0], CLOSED_LOOP, Nothing, Late(c), 1, {0}), Sweep(0, [Late(c)]))
      == Some(Alone(c, map[0 := 0], Loop([], map[], {0}, Sweeping({0})), Nothing, Late(c), 1, {0}))
  {
    hide Kept;
    hide Victims;
    hide Connections;
    hide Swept;
    var s := Alone(c, map[0 := 0], CLOSED_LOOP, Nothing, Late(c), 1, {0});
    TakesTheOnlyOne(Late(c), c.interval);
    WithAlone(c, s, Swept(CLOSED_LOOP, 0));
    assert {0} + {0} == {0};
  }

  lemma CloseOnly(c: Config, now: int)
    requires c.n > 0
    ensures Step(c, Alone(c, map[0 := 0], CLOSED_LOOP.(delayed := {}), Nothing, now, 1, {}), Close(0, 0))
      == Some(Alone(c, map[0 := 0], CLOSED_LOOP, Nothing, now, 1, {0}))
  {
    var s := Alone(c, map[0 := 0], CLOSED_LOOP.(delayed := {}), Nothing, now, 1, {});
    WithAlone(c, s, CLOSED_LOOP);
    assert {} + {0} == {0};
    assert s.loops[0].entries[0].conn == 0;
  }

  lemma EraseOnly(c: Config, now: int)
    requires c.n > 0
    ensures Step(c, Alone(c, map[0 := 0], Loop([], map[], {0}, Sweeping({0})), Nothing, now, 1, {0}), Erase(0, 0))
      == Some(Alone(c, map[], Loop([], map[], {0}, Sweeping({})), Nothing, now, 1, {0}))
  {
    WithAlone(c, Alone(c, map[0 := 0], Loop([], map[], {0}, Sweeping({0})), Nothing, now, 1, {0}),
              Loop([], map[], {0}, Sweeping({})));
    assert {0} - {0} == {} && map[0 := 0] - {0} == map[];
  }

  /** A connection fails to send and is closed, while it is late: a sweep in the same round
      takes it, and its descriptor stays behind in the set of those to delete. */
  lemma SweptWhileClosed(c: Config)
    requires c.n > 0
    ensures Reaches(c, Init(c, 0), Alone(c, map[], Loop([], map[], {0}, Idle), Nothing, Late(c), 1, {0}))
  {
    hide Reaches;
    hide Step;
    var s0, owners, now := Init(c, 0), map[0 := 0], Late(c);
    InitIsAlone(c);
    Arrives(c, s0, map[], EMPTY_LOOP, 0, 0, {}, 0);
    var l := CLOSED_LOOP.(delayed := {});
    assert Enlisted(EMPTY_LOOP, 0, Entry(0, 0, 0)) == l;
    Passes(c, s0, owners, l, 0, 1, now);
    CloseOnly(c, now);
    var s2 := Alone(c, owners, CLOSED_LOOP, Nothing, now, 1, {0});
    Extend(c, s0, Alone(c, owners, l, Nothing, now, 1, {}), Close(0, 0), s2);
    SweepTakesClosed(c);
    var s3 := Alone(c, owners, Loop([], map[], {0}, Sweeping({0})), Nothing, now, 1, {0});
    Extend(c, s0, s2, Sweep(0, [now]), s3);
    EraseOnly(c, now);
    var s4 := Alone(c, map[], Loop([], map[], {0}, Sweeping({})), Nothing, now, 1, {0});
    Extend(c, s0, s3, Erase(0, 0), s4);
    EndOnly(c, now);
    Extend(c, s0, s4, End(0), Alone(c, map[], Loop([], map[], {0}, Idle), Nothing, now, 1, {0}));
  }

  lemma EndOnly(c: Config, now: int)
    requires c.n > 0
    ensures Step(c, Alone(c, map[], Loop([], map[], {0}, Sweeping({})), Nothing, now, 1, {0}), End(0))
      == Some(Alone(c, map[], Loop([], map[], {0}, Idle), Nothing, now, 1, {0}))
  {
    WithAlone(c, Alone(c, map[], Loop([], map[], {0}, Sweeping({})), Nothing, now, 1, {0}), Loop([], map[], {0}, Idle));
  }

  /** The late deletion is under way when its descriptor is accepted again. */
  lemma ReusedWhileDeleting(c: Config)
    requires c.n > 0
    ensures Reaches(c, Init(c, 0), Alone(c, map[], Loop([], map[], {0}, Deleting({0})), Nothing, Late(c), 1, {0}))
  {
    hide Reaches;
    SweptWhileClosed(c);
    var l1, l2 := Loop([], map[], {0}, Idle), Loop([], map[], {0}, Deleting({0}));
    var s1 := Alone(c, map[], l1, Nothing, Late(c), 1, {0});
    WithAlone(c, s1, l2);
    assert l1.entries - {0} == map[] && Deleted(l1) == l2;
    Extend(c, Init(c, 0), s1, BeginDelete(0), Alone(c, map[], l2, Nothing, Late(c), 1, {0}));
  }

  /** Both kinds of clash happen: a connection is erased while createconnection still
      works on it, and one is erased from under the list. */
  lemma ClashesHappen(c: Config) returns (accepting: Server, listed: Server)
    requires c.n > 0
    ensures Reachable(c, accepting) && |accepting.loops| == c.n && accepting.accepting.Accepted?
    ensures Step(c, accepting, Erase(0, 0)).Some? && Clash(c, accepting, Erase(0, 0))
    ensures Reachable(c, listed) && |listed.loops| == c.n && listed.accepting.Nothing?
    ensures Step(c, listed, Erase(0, 0)).Some? && Clash(c, listed, Erase(0, 0))
  {
    hide Reaches;
    var s0, now := Init(c, 0), Late(c);
    ReusedWhileDeleting(c);
    var l := Loop([], map[], {0}, Deleting({0}));
    accepting := Alone(c, map[0 := 1], l, Accepted(0, 1, now), now, 2, {0});
    Extend(c, s0, Alone(c, map[], l, Nothing, now, 1, {0}), Accept(0), accepting);
    Arrives(c, s0, map[], l, now, 1, {0}, 0);
    listed := Alone(c, map[0 := 1], Enlisted(l, 0, Entry(1, now, now)), Nothing, now, 2, {0});
    assert Reachable(c, accepting) && Reachable(c, listed);
  }

  /** A connection that was neither closed nor late is destroyed, without any clash: its
      descriptor was accepted and listed again before the late deletion began. */
  lemma FreshIsDestroyed(c: Config) returns (s: Server)
    requires c.n > 0
    ensures Reachable(c, s) && |s.loops| == c.n
    ensures Step(c, s, Erase(0, 0)).Some? && !Clash(c, s, Erase(0, 0))
    ensures 0 in s.owners && s.owners[0] !in s.condemned
  {
    hide Reaches;
    var s0, now := Init(c, 0), Late(c);
    SweptWhileClosed(c);
    var l1 := Loop([], map[], {0}, Idle);
    Arrives(c, s0, map[], l1, now, 1, {0}, 0);
    var l2 := Loop([0], map[0 := Entry(1, now, now)], {0}, Idle);
    assert Enlisted(l1, 0, Entry(1, now, now)) == l2;
    var l3 := Loop([], map[], {0}, Deleting({0}));
    var s2 := Alone(c, map[0 := 1], l2, Nothing, now, 2, {0});
    WithAlone(c, s2, l3);
    assert [0][1..] == [] && Without([0], {0}) == Without([], {0}) == [];
    assert l2.entries - {0} == map[] && Deleted(l2) == l3;
    s := Alone(c, map[0 := 1], l3, Nothing, now, 2, {0});
    Extend(c, s0, s2, BeginDelete(0), s);
    assert Reachable(c, s);
  }
}
