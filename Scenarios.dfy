/** Client runs of the controller, checked against its method contracts alone. */
module Scenarios {
  import opened Wrappers
  import opened States
  import opened Events
  import opened Reducer
  import opened Controller

  /**
   * Create, Start, Resume; then an observer joins and Pause follows: the observer is
   * called exactly once, with (owner, OnPause), and sees Started.
   */
  method LateObserverSeesPause<O(==), W>(owner: W, x: O)
  {
    var lc := new Lifecycle<O, W>(owner);
    var r := lc.HandleEvent(OnCreate);
    assert lc.state == Created && lc.observers == [] && lc.log == [];
    r := lc.HandleEvent(OnStart);
    assert lc.state == Started && lc.observers == [] && lc.log == [];
    r := lc.HandleEvent(OnResume);
    assert lc.state == Resumed && lc.log == [];
    lc.AddObserver(x);
    lc.AddObserver(x);
    assert lc.observers == [x];
    r := lc.HandleEvent(OnPause);
    assert r == Pass && lc.state == Started;
    assert lc.log == [Delivery(x, owner, OnPause, Started)];
  }

  /** Start while Initialized fails with (Initialized, OnStart) and leaves the state alone. */
  method SkippingCreateFails<O(==), W>(owner: W)
  {
    var lc := new Lifecycle<O, W>(owner);
    var r := lc.HandleEvent(OnStart);
    assert r == Fail(TransitionError(Initialized, OnStart));
    assert lc.state == Initialized;
  }

  /** After a full lifetime, a new observer is refused and further events change nothing. */
  method NothingObservesADeadLifecycle<O(==), W>(owner: W, y: O)
  {
    var lc := new Lifecycle<O, W>(owner);
    var r := lc.HandleEvent(OnCreate);
    assert lc.state == Created && lc.observers == [];
    r := lc.HandleEvent(OnStart);
    assert lc.state == Started && lc.observers == [];
    r := lc.HandleEvent(OnResume);
    assert lc.state == Resumed && lc.observers == [];
    r := lc.HandleEvent(OnPause);
    assert lc.state == Started && lc.observers == [];
    r := lc.HandleEvent(OnStop);
    assert lc.state == Created && lc.observers == [];
    r := lc.HandleEvent(OnDestroy);
    assert lc.state == Destroyed;
    lc.AddObserver(y);
    assert lc.observers == [];
    r := lc.HandleEvent(OnCreate);
    assert r == Pass && lc.state == Destroyed && lc.log == [];
  }
}
