/**
 * The three ways this model runs a sequence of calls agree: the controller run
 * `Apply`, its state trajectory `Run`, and the reducer walk `Walk`.
 */
module Trajectories {
  import opened Wrappers
  import opened States
  import opened Events
  import opened Reducer
  import opened Controller
  import opened Runs
  import opened Lifetimes

  /** The calls that hand `es` to `handleEvent`, one event each, in order. */
  function EventOps<O>(es: seq<LifecycleEvent>): (ops: seq<Op<O>>)
    ensures |ops| == |es|
    ensures forall i :: 0 <= i < |es| ==> ops[i] == EventOp(es[i])
  {
    seq(|es|, i requires 0 <= i < |es| => EventOp(es[i]))
  }

  /** Running a concatenation of calls is running the first part, then the second from where it ended. */
  lemma {:induction false} ApplyConcat<O, W>(c: Config<O, W>, owner: W, a: seq<Op<O>>, b: seq<Op<O>>)
    ensures Apply(c, owner, a + b) ==
              match Apply(c, owner, a) { case Failure(err) => Failure(err) case Success(c') => Apply(c', owner, b) }
    decreases |a|
  {
    if a == [] {
      assert a + b == b;
    } else {
      assert (a + b)[0] == a[0];
      assert (a + b)[1..] == a[1..] + b;
      var s := Step(c, owner, a[0]);
      if s.Success? {
        ApplyConcat(s.value, owner, a[1..], b);
      }
    }
  }

  /**
   * Run is the state trajectory of the controller: handing the events `es` to a
   * lifecycle one after another succeeds exactly when Run does, fails with the same
   * error, and leaves the lifecycle in the state Run computes.
   */
  lemma {:induction false} RunIsTheControllerTrajectory<O, W>(c: Config<O, W>, owner: W, es: seq<LifecycleEvent>)
    ensures Apply(c, owner, EventOps<O>(es)).Success? <==> Run(c.state, es).Success?
    ensures Run(c.state, es).Success? ==> Apply(c, owner, EventOps<O>(es)).value.state == Run(c.state, es).value
    ensures Run(c.state, es).Failure? ==> Apply(c, owner, EventOps<O>(es)).error == Run(c.state, es).error
    decreases |es|
  {
    if es != [] {
      var n := |es|;
      var front, e := es[..n - 1], es[n - 1];
      RunIsTheControllerTrajectory(c, owner, front);
      assert EventOps<O>(es) == EventOps<O>(front) + [EventOp(e)];
      ApplyConcat(c, owner, EventOps<O>(front), [EventOp(e)]);
      var mid := Apply(c, owner, EventOps<O>(front));
      if mid.Success? {
        HandleStepFollowsNextState(mid.value, owner, e);
        assert Apply(mid.value, owner, [EventOp(e)]) == HandleStep(mid.value, owner, e) by {
          var one: seq<Op<O>> := [EventOp(e)];
          assert one[1..] == [];
        }
      }
    }
  }

  /**
   * A walk that meets no illegal pair never steps out of Destroyed, so the controller's
   * trajectory Run agrees with it.
   */
  lemma {:induction false} WalkAgreesWithRun(s: LifecycleState, es: seq<LifecycleEvent>)
    requires Walk(s, es).Success?
    ensures Run(s, es) == Walk(s, es)
    decreases |es|
  {
    if es != [] {
      var n := |es|;
      var front, e := es[..n - 1], es[n - 1];
      assert es == front + [e];
      WalkConcat(s, front, [e]);
      var mid := Walk(s, front);
      assert mid.Success?;
      assert Walk(mid.value, [e]) == Reduce(mid.value, e) by {
        assert [e][1..] == [];
      }
      WalkAgreesWithRun(s, front);
      ReduceShape(mid.value, e);
    }
  }
}
