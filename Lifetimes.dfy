/**
 * The complete lifetimes the reducer admits: the event sequences that take a
 * lifecycle from Initialized to Destroyed without an illegal transition.
 */
module Lifetimes {
  import opened Wrappers
  import opened States
  import opened Events
  import opened Reducer

  /** Feeds `es` to Reduce in order from `s`; the first illegal pair ends the walk. */
  function Walk(s: LifecycleState, es: seq<LifecycleEvent>): Result<LifecycleState, TransitionError>
    decreases |es|
  {
    if es == [] then Success(s)
    else
      match Reduce(s, es[0])
      case Failure(err) => Failure(err)
      case Success(t) => Walk(t, es[1..])
  }

  /** Any number of Resume, Pause round trips. */
  predicate PauseCycles(es: seq<LifecycleEvent>)
    decreases |es|
  {
    es == [] || (|es| >= 2 && es[0] == OnResume && es[1] == OnPause && PauseCycles(es[2..]))
  }

  /** Any number of Start ... Stop visits, each holding Resume, Pause round trips. */
  predicate StopCycles(es: seq<LifecycleEvent>)
    decreases |es|
  {
    es == [] ||
    (es[0] == OnStart &&
     exists k :: 1 <= k < |es| && es[k] == OnStop && PauseCycles(es[1..k]) && StopCycles(es[k + 1..]))
  }

  /** Create, then Start ... Stop visits, then Destroy. */
  predicate Lifetime(es: seq<LifecycleEvent>)
  {
    |es| >= 2 && es[0] == OnCreate && es[|es| - 1] == OnDestroy && StopCycles(es[1..|es| - 1])
  }

  /** Walking a concatenation is walking the first part, then the second from where it ended. */
  lemma {:induction false} WalkConcat(s: LifecycleState, a: seq<LifecycleEvent>, b: seq<LifecycleEvent>)
    ensures Walk(s, a + b) == match Walk(s, a) { case Failure(err) => Failure(err) case Success(t) => Walk(t, b) }
    decreases |a|
  {
    if a == [] {
      assert a + b == b;
    } else {
      assert (a + b)[0] == a[0];
      assert (a + b)[1..] == a[1..] + b;
      if Reduce(s, a[0]).Success? {
        WalkConcat(Reduce(s, a[0]).value, a[1..], b);
      }
    }
  }

  /** Round trips between Started and Resumed come back to Started. */
  lemma {:induction false} PauseCyclesReturn(p: seq<LifecycleEvent>)
    requires PauseCycles(p)
    ensures Walk(Started, p) == Success(Started)
    decreases |p|
  {
    if p != [] {
      PauseCyclesReturn(p[2..]);
      assert p == [p[0], p[1]] + p[2..];
      WalkConcat(Started, [p[0], p[1]], p[2..]);
      assert Walk(Started, [p[0], p[1]]) == Success(Started) by {
        assert [p[0], p[1]][1..] == [p[1]];
      }
    }
  }

  /** The first Start ... Stop visit of non-empty visits ends at the Stop at position `k`. */
  lemma FirstVisit(m: seq<LifecycleEvent>) returns (k: nat)
    requires m != [] && StopCycles(m)
    ensures m[0] == OnStart && 1 <= k < |m| && m[k] == OnStop
    ensures PauseCycles(m[1..k]) && StopCycles(m[k + 1..])
  {
    k :| 1 <= k < |m| && m[k] == OnStop && PauseCycles(m[1..k]) && StopCycles(m[k + 1..]);
  }

  /** A Start ... Stop visit followed by visits is visits. */
  lemma AddVisit(m: seq<LifecycleEvent>, k: nat)
    requires m != [] && m[0] == OnStart && 1 <= k < |m| && m[k] == OnStop
    requires PauseCycles(m[1..k]) && StopCycles(m[k + 1..])
    ensures StopCycles(m)
  {
  }

  /**
   * Cutting `es` after its first element, at `k` within the rest, and before its
   * last element gives back everything but its last element.
   */
  lemma Reassemble<T>(es: seq<T>, k: nat)
    requires k + 2 < |es|
    ensures es[..|es| - 1] == [es[0]] + es[1..][..k] + [es[1..][k]] + es[1..][k + 1..][..|es| - k - 3]
  {
  }

  /** A Start ... Stop visit holding round trips `p`, then the visits `q`, is visits. */
  lemma VisitThenVisits(p: seq<LifecycleEvent>, q: seq<LifecycleEvent>)
    requires PauseCycles(p) && StopCycles(q)
    ensures StopCycles([OnStart] + p + [OnStop] + q)
  {
    var m := [OnStart] + p + [OnStop] + q;
    var k := |p| + 1;
    assert m[1..k] == p && m[k + 1..] == q;
    AddVisit(m, k);
  }

  /** A Start ... Stop visit holding round trips leads from Created back to Created. */
  lemma VisitReturns(m: seq<LifecycleEvent>, k: nat)
    requires m != [] && m[0] == OnStart && 1 <= k < |m| && m[k] == OnStop && PauseCycles(m[1..k])
    ensures Walk(Created, m) == Walk(Created, m[k + 1..])
  {
    var p, rest := m[1..k], m[k..];
    PauseCyclesReturn(p);
    assert m[1..] == p + rest;
    WalkConcat(Started, p, rest);
    assert rest[0] == OnStop && rest[1..] == m[k + 1..];
  }

  /** Start ... Stop visits come back to Created. */
  lemma {:induction false} StopCyclesReturn(m: seq<LifecycleEvent>)
    requires StopCycles(m)
    ensures Walk(Created, m) == Success(Created)
    decreases |m|
  {
    if m != [] {
      var k := FirstVisit(m);
      VisitReturns(m, k);
      StopCyclesReturn(m[k + 1..]);
    }
  }

  /**
   * Leaving Started without returning to it first: the walk makes round trips to
   * Resumed and then takes OnStop, at position `k`, to Created.
   */
  lemma {:induction false} LeaveStarted(es: seq<LifecycleEvent>, t: LifecycleState) returns (k: nat)
    requires t == Created || t == Destroyed
    requires Walk(Started, es) == Success(t)
    ensures k < |es| && es[k] == OnStop && PauseCycles(es[..k]) && Walk(Created, es[k + 1..]) == Success(t)
    decreases |es|
  {
    assert es != [];
    if es[0] == OnStop {
      k := 0;
      assert PauseCycles(es[..0]);
    } else {
      assert es[0] == OnResume;
      assert es[1..] != [];
      assert es[1] == OnPause;
      var rest := es[2..];
      assert Walk(Started, rest) == Success(t);
      var k' := LeaveStarted(rest, t);
      k := k' + 2;
      assert rest[k' + 1..] == es[k + 1..];
      assert es[..k][2..] == rest[..k'];
      assert PauseCycles(es[..k]);
    }
  }

  /** A walk from Created to Destroyed is Start ... Stop visits followed by OnDestroy. */
  lemma {:induction false} LeaveCreated(es: seq<LifecycleEvent>)
    requires Walk(Created, es) == Success(Destroyed)
    ensures |es| >= 1 && es[|es| - 1] == OnDestroy && StopCycles(es[..|es| - 1])
    decreases |es|
  {
    assert es != [];
    var n := |es|;
    if es[0] == OnDestroy {
      assert es[..n - 1] == [];
    } else {
      var rest := es[1..];
      assert es[0] == OnStart && Walk(Started, rest) == Success(Destroyed);
      var k := LeaveStarted(rest, Destroyed);
      var tail := rest[k + 1..];
      LeaveCreated(tail);
      var p, q := rest[..k], tail[..|tail| - 1];
      VisitThenVisits(p, q);
      Reassemble(es, k);
    }
  }

  /**
   * The event sequences that lead from Initialized to Destroyed without an illegal
   * transition are exactly the lifetimes: Create, any number of Start ... Stop
   * visits each holding any number of Resume, Pause round trips, then Destroy.
   */
  lemma LifetimesAreExactlyTheCompleteWalks(es: seq<LifecycleEvent>)
    ensures Walk(Initialized, es) == Success(Destroyed) <==> Lifetime(es)
  {
    if Walk(Initialized, es) == Success(Destroyed) {
      assert es != [] && es[0] == OnCreate;
      LeaveCreated(es[1..]);
      assert es[1..][..|es| - 2] == es[1..|es| - 1];
    }
    if Lifetime(es) {
      var n := |es|;
      var m := es[1..n - 1];
      StopCyclesReturn(m);
      assert es == [OnCreate] + m + [OnDestroy];
      WalkConcat(Initialized, [OnCreate] + m, [OnDestroy]);
      WalkConcat(Initialized, [OnCreate], m);
    }
  }

  /** The canonical lifetime, the same with one more Resume, Pause round trip, and the shortest one. */
  lemma CanonicalLifetimes()
    ensures Lifetime([OnCreate, OnStart, OnResume, OnPause, OnStop, OnDestroy])
    ensures Lifetime([OnCreate, OnStart, OnResume, OnPause, OnResume, OnPause, OnStop, OnDestroy])
    ensures Lifetime([OnCreate, OnDestroy])
  {
    var a := [OnCreate, OnStart, OnResume, OnPause, OnStop, OnDestroy];
    var b := [OnCreate, OnStart, OnResume, OnPause, OnResume, OnPause, OnStop, OnDestroy];
    var c := [OnCreate, OnDestroy];
    assert Walk(Initialized, a) == Success(Destroyed);
    assert Walk(Initialized, b) == Success(Destroyed);
    assert Walk(Initialized, c) == Success(Destroyed);
    LifetimesAreExactlyTheCompleteWalks(a);
    LifetimesAreExactlyTheCompleteWalks(b);
    LifetimesAreExactlyTheCompleteWalks(c);
  }
}
