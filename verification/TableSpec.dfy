/** The order of the LRU list, on the sequence of its descriptors (most recently
    active first), and the time-out sweep that walks it from the back. */
module TableSpec {
  import opened Sequences

  predicate Distinct<T(==)>(s: seq<T>) {
    forall i, j | 0 <= i < j < |s| :: s[i] != s[j]
  }

  function Members(s: seq<nat>): set<nat> {
    set x | x in s
  }

  /** The order without the given descriptors. */
  function Without(order: seq<nat>, fds: set<nat>): (r: seq<nat>)
    ensures forall fd :: fd in r <==> fd in order && fd !in fds
    ensures |r| <= |order|
  {
    if order == [] then []
    else (if order[0] in fds then [] else [order[0]]) + Without(order[1..], fds)
  }

  lemma {:induction false} WithoutNone(order: seq<nat>, fds: set<nat>)
    requires forall fd | fd in order :: fd !in fds
    ensures Without(order, fds) == order
  {
    if order != [] {
      WithoutNone(order[1..], fds);
    }
  }

  lemma {:induction false} WithoutConcat(a: seq<nat>, b: seq<nat>, fds: set<nat>)
    ensures Without(a + b, fds) == Without(a, fds) + Without(b, fds)
  {
    if a == [] {
      assert a + b == b;
    } else {
      assert (a + b)[1..] == a[1..] + b;
      WithoutConcat(a[1..], b, fds);
    }
  }

  lemma {:induction false} WithoutTwice(order: seq<nat>, a: set<nat>, b: set<nat>)
    ensures Without(Without(order, a), b) == Without(order, a + b)
  {
    if order != [] {
      WithoutTwice(order[1..], a, b);
      WithoutConcat(if order[0] in a then [] else [order[0]], Without(order[1..], a), b);
    }
  }

  /** Removing the one at position k. */
  lemma {:induction false} WithoutAt(order: seq<nat>, k: nat)
    requires Distinct(order) && k < |order|
    ensures Without(order, {order[k]}) == order[..k] + order[k + 1..]
  {
    if k == 0 {
      WithoutNone(order[1..], {order[0]});
      assert order[..0] + order[1..] == order[1..];
    } else {
      WithoutAt(order[1..], k - 1);
      assert order[..k] + order[k + 1..] == [order[0]] + (order[1..][..k - 1] + order[1..][k..]);
    }
  }

  lemma {:induction false} WithoutDistinct(order: seq<nat>, fds: set<nat>)
    requires Distinct(order)
    ensures Distinct(Without(order, fds))
  {
    if order != [] {
      WithoutDistinct(order[1..], fds);
    }
  }

  /** splice to the front, if listed. */
  function ToFront(order: seq<nat>, fd: nat): seq<nat> {
    if fd in order then [fd] + Without(order, {fd}) else order
  }

  // ---- The sweep ----------------------------------------------------------

  /** How many connections the sweep takes off the back. `lasts` are the time
      stamps in list order; the k-th time-out test reads the clock as readings[k]. */
  function SweepCount(lasts: seq<int>, readings: seq<int>, interval: int): (k: nat)
    requires |lasts| <= |readings|
    ensures k <= |lasts|
  {
    if lasts == [] || readings[0] - lasts[|lasts| - 1] < interval then 0
    else 1 + SweepCount(lasts[..|lasts| - 1], readings[1..], interval)
  }

  predicate Rising(s: seq<int>) {
    forall i, j | 0 <= i <= j < |s| :: s[i] <= s[j]
  }

  predicate Falling(s: seq<int>) {
    forall i, j | 0 <= i <= j < |s| :: s[i] >= s[j]
  }

  /** Where the sweep stops: everything behind was idle for the interval at its own
      test, and the first one kept was not. */
  lemma {:induction false} SweepStops(lasts: seq<int>, readings: seq<int>, interval: int)
    requires |lasts| <= |readings|
    ensures var n, k := |lasts|, SweepCount(lasts, readings, interval);
      && (forall i | n - k <= i < n :: readings[n - 1 - i] - lasts[i] >= interval)
      && (k < n ==> readings[k] - lasts[n - 1 - k] < interval)
  {
    var n, k := |lasts|, SweepCount(lasts, readings, interval);
    if k > 0 {
      SweepStops(lasts[..n - 1], readings[1..], interval);
      forall i | n - k <= i < n ensures readings[n - 1 - i] - lasts[i] >= interval {
        if i < n - 1 {
          assert readings[1..][n - 2 - i] == readings[n - 1 - i];
        }
      }
    }
  }

  /** The stamp of each connection was taken at most d before its list move. */
  predicate Timely(lasts: seq<int>, moved: seq<int>, d: nat) {
    |lasts| == |moved| && forall i | 0 <= i < |lasts| :: moved[i] - d <= lasts[i] <= moved[i]
  }

  /** By what the clock shows when the sweep stops: what it removed had been idle for
      the interval, and nothing it left behind the early break is idle for interval + d. */
  lemma SweepIsSound(lasts: seq<int>, moved: seq<int>, readings: seq<int>, interval: int, d: nat)
    requires |lasts| <= |readings| && Timely(lasts, moved, d) && Falling(moved) && Rising(readings)
    ensures var n, k := |lasts|, SweepCount(lasts, readings, interval);
      n > 0 ==>
        var now := readings[Min(k, n - 1)];
        && (forall i | 0 <= i < n - k :: now - lasts[i] < interval + d)
        && (forall i | n - k <= i < n :: now - lasts[i] >= interval)
  {
    SweepStops(lasts, readings, interval);
    var n, k := |lasts|, SweepCount(lasts, readings, interval);
    if n > 0 {
      var now := readings[Min(k, n - 1)];
      forall i | 0 <= i < n - k ensures now - lasts[i] < interval + d {
        assert moved[i] >= moved[n - 1 - k];
      }
      forall i | n - k <= i < n ensures now - lasts[i] >= interval {
        assert readings[n - 1 - i] <= now;
      }
    }
  }

  /** Every connection has always been idle for an interval that is not positive. */
  lemma SweepTakesAll(lasts: seq<int>, readings: seq<int>, interval: int)
    requires |lasts| <= |readings| && Rising(readings) && interval <= 0
    requires forall i | 0 <= i < |lasts| :: lasts[i] <= readings[0]
    ensures SweepCount(lasts, readings, interval) == |lasts|
  {
    SweepStops(lasts, readings, interval);
  }
}
