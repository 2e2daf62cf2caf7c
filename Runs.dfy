/** The state trajectory of successive `handleEvent` calls on one lifecycle. */
module Runs {
  import opened Wrappers
  import opened States
  import opened Events
  import opened Reducer
  import opened Controller

  /** What one `handleEvent` call does to the state: nothing once Destroyed, otherwise Reduce. */
  function NextState(s: LifecycleState, e: LifecycleEvent): Result<LifecycleState, TransitionError>
  {
    if s == Destroyed then Success(Destroyed) else Reduce(s, e)
  }

  /** The controller's event handling moves its state exactly as NextState says, and fails exactly when it does. */
  lemma HandleStepFollowsNextState<O, W>(c: Config<O, W>, owner: W, e: LifecycleEvent)
    ensures HandleStep(c, owner, e).Success? <==> NextState(c.state, e).Success?
    ensures HandleStep(c, owner, e).Success? ==> HandleStep(c, owner, e).value.state == NextState(c.state, e).value
    ensures HandleStep(c, owner, e).Failure? ==> HandleStep(c, owner, e).error == NextState(c.state, e).error
  {
  }

  /** The state after handling `es` in order from `s`, or the first illegal transition. */
  function Run(s: LifecycleState, es: seq<LifecycleEvent>): Result<LifecycleState, TransitionError>
    decreases |es|
  {
    if es == [] then Success(s)
    else
      match Run(s, es[..|es| - 1])
      case Failure(err) => Failure(err)
      case Success(t) => NextState(t, es[|es| - 1])
  }

  /** Destroyed receives no further events: every run from it ends in Destroyed without error. */
  lemma {:induction false} DestroyedAbsorbsEveryRun(es: seq<LifecycleEvent>)
    ensures Run(Destroyed, es) == Success(Destroyed)
    decreases |es|
  {
    if es != [] {
      DestroyedAbsorbsEveryRun(es[..|es| - 1]);
    }
  }

  /** The last step of a non-empty run: the run up to it succeeded, and NextState took the last event. */
  lemma RunLastStep(s: LifecycleState, es: seq<LifecycleEvent>)
    requires es != [] && Run(s, es).Success?
    ensures Run(s, es[..|es| - 1]).Success?
    ensures NextState(Run(s, es[..|es| - 1]).value, es[|es| - 1]) == Run(s, es)
  {
  }

  /** A run that ends in Started or Resumed from Initialized was in Created after the prefix of length `i`. */
  lemma {:induction false} PassesThroughCreated(es: seq<LifecycleEvent>, t: LifecycleState) returns (i: nat)
    requires t == Started || t == Resumed
    requires Run(Initialized, es) == Success(t)
    ensures i < |es| && Run(Initialized, es[..i]) == Success(Created)
    decreases |es|
  {
    var n := |es|;
    assert es != [];
    var front := es[..n - 1];
    RunLastStep(Initialized, es);
    var p := Run(Initialized, front).value;
    ReduceShape(p, es[n - 1]);
    if p == Created {
      i := n - 1;
    } else {
      i := PassesThroughCreated(front, p);
      assert front[..i] == es[..i];
    }
  }

  /**
   * Resumed can be reached from Initialized only by passing through Created and
   * then Started.
   */
  lemma ResumedPassesThroughCreatedThenStarted(es: seq<LifecycleEvent>)
    requires Run(Initialized, es) == Success(Resumed)
    ensures exists i, j :: 0 <= i < j < |es|
              && Run(Initialized, es[..i]) == Success(Created)
              && Run(Initialized, es[..j]) == Success(Started)
  {
    assert es != [];
    var j := |es| - 1;
    var front := es[..j];
    RunLastStep(Initialized, es);
    ReduceShape(Run(Initialized, front).value, es[j]);
    var i := PassesThroughCreated(front, Started);
    assert front[..i] == es[..i];
    assert Run(Initialized, es[..i]) == Success(Created) && Run(Initialized, es[..j]) == Success(Started);
  }
}
