/** The positions reached by following one link from each of finitely many places. */
module Orbits {

  predicate Closed(next: seq<nat>) { forall i | 0 <= i < |next| :: next[i] < |next| }

  function Orbit(next: seq<nat>, k: nat): (r: nat)
    requires Closed(next) && |next| > 0
    ensures r < |next|
  {
    if k == 0 then 0 else next[Orbit(next, k - 1)]
  }

  ghost function Visited(next: seq<nat>, k: nat): set<nat>
    requires Closed(next) && |next| > 0
  {
    if k == 0 then {} else Visited(next, k - 1) + {Orbit(next, k - 1)}
  }

  lemma {:induction false} InVisited(next: seq<nat>, j: nat, k: nat)
    requires Closed(next) && |next| > 0 && j < k
    ensures Orbit(next, j) in Visited(next, k)
  {
    if j < k - 1 { InVisited(next, j, k - 1); }
  }

  lemma {:induction false} VisitedIsReached(next: seq<nat>, p: nat, k: nat)
    requires Closed(next) && |next| > 0 && p in Visited(next, k)
    ensures exists j :: 0 <= j < k && Orbit(next, j) == p
  {
    if p == Orbit(next, k - 1) {} else { VisitedIsReached(next, p, k - 1); }
  }

  function UpTo(n: nat): (s: set<nat>)
    ensures |s| == n && forall i :: i in s <==> 0 <= i < n
  {
    if n == 0 then {} else UpTo(n - 1) + {n - 1}
  }

  ghost predicate NeverBack(next: seq<nat>, k: nat)
    requires Closed(next) && |next| > 0
  {
    k == 0 || (NeverBack(next, k - 1) && Orbit(next, k - 1) !in Visited(next, k - 1))
  }

  /** Following k links without ever coming back has seen k places. */
  lemma {:induction false} VisitedCount(next: seq<nat>, k: nat)
    requires Closed(next) && |next| > 0 && NeverBack(next, k)
    ensures |Visited(next, k)| == k
  {
    if k > 0 { VisitedCount(next, k - 1); }
  }

  lemma {:induction false} FirstBack(next: seq<nat>, k: nat)
    requires Closed(next) && |next| > 0 && !NeverBack(next, k)
    ensures exists j :: 0 <= j < k && Orbit(next, j) in Visited(next, j)
  {
    if !NeverBack(next, k - 1) { FirstBack(next, k - 1); }
  }

  lemma {:induction false} VisitedWithin(next: seq<nat>, k: nat)
    requires Closed(next) && |next| > 0
    ensures Visited(next, k) <= UpTo(|next|)
  {
    if k > 0 { VisitedWithin(next, k - 1); }
  }

  /** Once back at a place already seen, nothing new is ever reached. */
  lemma {:induction false} ComingBack(next: seq<nat>, j: nat, k: nat)
    requires Closed(next) && |next| > 0 && Orbit(next, j) in Visited(next, j)
    ensures Orbit(next, k) in Visited(next, j)
  {
    if k == 0 {
      VisitedIsReached(next, Orbit(next, j), j);
      InVisited(next, 0, j);
    } else {
      ComingBack(next, j, k - 1);
      VisitedIsReached(next, Orbit(next, k - 1), j);
      var m :| 0 <= m < j && Orbit(next, m) == Orbit(next, k - 1);
      assert Orbit(next, m + 1) == Orbit(next, k);
      if m + 1 < j { InVisited(next, m + 1, j); }
    }
  }

  /** Each of these places links to itself. */
  predicate AllStop(next: seq<nat>, stop: set<nat>) { forall i | i in stop && i < |next| :: next[i] == i }

  lemma {:induction false} StopStays(next: seq<nat>, stop: set<nat>, j: nat, k: nat)
    requires Closed(next) && |next| > 0 && AllStop(next, stop)
    requires j <= k && Orbit(next, j) in stop
    ensures Orbit(next, k) == Orbit(next, j)
    decreases k
  {
    if j < k { StopStays(next, stop, j, k - 1); }
  }

  lemma Fills(a: set<nat>, b: set<nat>)
    requires a <= b && |a| == |b|
    ensures a == b
  {
    assert b == a + (b - a);
  }

  predicate Stopped(next: seq<nat>, stop: set<nat>, k: nat)
    requires Closed(next) && |next| > 0
  {
    Orbit(next, k) in stop
  }

  /** A stop that is reached at all is reached within n - 1 links. */
  lemma StopsSoonOrNever(next: seq<nat>, stop: set<nat>, k: nat)
    requires Closed(next) && |next| > 0 && AllStop(next, stop)
    requires Stopped(next, stop, k)
    ensures Stopped(next, stop, |next| - 1)
  {
    var n := |next|;
    ReachedSoon(next, k);
    var m :| SeenBy(next, k, n, m);
    StopStays(next, stop, m, n - 1);
  }

  ghost predicate SeenBy(next: seq<nat>, k: nat, n: nat, m: nat)
    requires Closed(next) && |next| > 0
  {
    m < n && Orbit(next, m) == Orbit(next, k)
  }

  /** Every place ever reached is reached within n - 1 links. */
  lemma ReachedSoon(next: seq<nat>, k: nat)
    requires Closed(next) && |next| > 0
    ensures exists m :: SeenBy(next, k, |next|, m)
  {
    var n := |next|;
    if !NeverBack(next, n) {
      FirstBack(next, n);
      var j :| 0 <= j < n && Orbit(next, j) in Visited(next, j);
      ComingBack(next, j, k);
      VisitedIsReached(next, Orbit(next, k), j);
      var m :| 0 <= m < j && Orbit(next, m) == Orbit(next, k);
      assert SeenBy(next, k, n, m);
    } else {
      VisitedCount(next, n);
      VisitedWithin(next, n);
      Fills(Visited(next, n), UpTo(n));
      VisitedIsReached(next, Orbit(next, k), n);
      var m :| 0 <= m < n && Orbit(next, m) == Orbit(next, k);
      assert SeenBy(next, k, n, m);
    }
  }
}
