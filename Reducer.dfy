/** The pure state reducer of Lifecycle.kt. */
module Reducer {
  import opened Wrappers
  import opened States
  import opened Events

  /** An illegal transition, carrying the state and the event that were refused. */
  datatype TransitionError = TransitionError(state: LifecycleState, event: LifecycleEvent)

  /**
   * The next state for `event` in state `current`. Each event is accepted in exactly
   * one state and leads to exactly one state; any other pair fails, as Kotlin's
   * `require` does, with the offending pair.
   */
  function Reduce(current: LifecycleState, event: LifecycleEvent): (r: Result<LifecycleState, TransitionError>)
    ensures r.Success? <==> current == Source(event)
    ensures r.Success? ==> r.value == Target(event)
    ensures r.Failure? ==> r.error == TransitionError(current, event)
  {
    match event
    case OnCreate =>
      if current == Initialized then Success(Created) else Failure(TransitionError(current, event))
    case OnStart =>
      if current == Created then Success(Started) else Failure(TransitionError(current, event))
    case OnResume =>
      if current == Started then Success(Resumed) else Failure(TransitionError(current, event))
    case OnPause =>
      if current == Resumed then Success(Started) else Failure(TransitionError(current, event))
    case OnStop =>
      if current == Started then Success(Created) else Failure(TransitionError(current, event))
    case OnDestroy =>
      if current == Created then Success(Destroyed) else Failure(TransitionError(current, event))
  }

  /** The transition table: the six legal (state, event, next) triples. */
  predicate InTable(s: LifecycleState, e: LifecycleEvent, t: LifecycleState)
  {
    || (s == Initialized && e == OnCreate && t == Created)
    || (s == Created && e == OnStart && t == Started)
    || (s == Started && e == OnResume && t == Resumed)
    || (s == Resumed && e == OnPause && t == Started)
    || (s == Started && e == OnStop && t == Created)
    || (s == Created && e == OnDestroy && t == Destroyed)
  }

  /** Reduce succeeds exactly on the six rows of the table, and fails with (s, e) on every other pair. */
  lemma ReduceIsTheTable(s: LifecycleState, e: LifecycleEvent)
    ensures forall t :: Reduce(s, e) == Success(t) <==> InTable(s, e, t)
    ensures Reduce(s, e).Failure? <==> forall t :: !InTable(s, e, t)
    ensures Reduce(s, e).Failure? ==> Reduce(s, e).error == TransitionError(s, e)
  {
  }

  /** Each event has exactly one state it is legal in. */
  lemma EachEventHasOneSource(e: LifecycleEvent, s1: LifecycleState, s2: LifecycleState)
    requires Reduce(s1, e).Success? && Reduce(s2, e).Success?
    ensures s1 == s2
  {
  }

  /** OnCreate is legal only in Initialized and OnDestroy only in Created. */
  lemma CreateAndDestroyArcs(s: LifecycleState)
    ensures Reduce(s, OnCreate).Success? <==> s == Initialized
    ensures Reduce(Initialized, OnCreate) == Success(Created)
    ensures Reduce(s, OnDestroy).Success? <==> s == Created
    ensures Reduce(Created, OnDestroy) == Success(Destroyed)
  {
  }

  /** OnStop undoes OnStart, and OnStart undoes OnStop. */
  lemma StartStopRoundTrip(s: LifecycleState)
    ensures Reduce(s, OnStart).Success? ==> Reduce(Reduce(s, OnStart).value, OnStop) == Success(s)
    ensures Reduce(s, OnStop).Success? ==> Reduce(Reduce(s, OnStop).value, OnStart) == Success(s)
  {
  }

  /** OnPause undoes OnResume, and OnResume undoes OnPause. */
  lemma ResumePauseRoundTrip(s: LifecycleState)
    ensures Reduce(s, OnResume).Success? ==> Reduce(Reduce(s, OnResume).value, OnPause) == Success(s)
    ensures Reduce(s, OnPause).Success? ==> Reduce(Reduce(s, OnPause).value, OnResume) == Success(s)
  {
  }

  /** No event leads into Initialized, none leaves Destroyed, and Resumed is entered only from Started. */
  lemma ReduceShape(s: LifecycleState, e: LifecycleEvent)
    ensures Reduce(s, e) != Success(Initialized)
    ensures Reduce(Destroyed, e) == Failure(TransitionError(Destroyed, e))
    ensures Reduce(s, e) == Success(Resumed) ==> s == Started && e == OnResume
    ensures Reduce(s, e) == Success(Started) ==> s in {Created, Resumed}
  {
  }
}
