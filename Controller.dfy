/**
 * The lifecycle controller of Lifecycle.kt: the current state, the observer set and
 * the event-handling protocol.
 *
 * Observer callbacks are foreign code; each call `observer.onStateChanged(owner, event)`
 * is recorded as a Delivery in a ghost log, together with the state the owner's
 * lifecycle holds at the moment of the call.
 */
module Controller {
  import opened Wrappers
  import opened States
  import opened Events
  import opened Reducer
  import opened ObserverSet

  /** One callback: `observer` was told `(owner, event)` while the lifecycle was in `seen`. */
  datatype Delivery<O, W> = Delivery(observer: O, owner: W, event: LifecycleEvent, seen: LifecycleState)

  /** The callbacks of one notification pass over `snapshot`: one per entry, in snapshot order. */
  function Notify<O, W>(snapshot: seq<O>, owner: W, event: LifecycleEvent, seen: LifecycleState): (r: seq<Delivery<O, W>>)
    ensures |r| == |snapshot|
    ensures forall i :: 0 <= i < |r| ==> r[i] == Delivery(snapshot[i], owner, event, seen)
  {
    if snapshot == [] then []
    else [Delivery(snapshot[0], owner, event, seen)] + Notify(snapshot[1..], owner, event, seen)
  }

  /** A pass over one more observer makes one more callback, at the end. */
  lemma NotifyExtend<O, W>(snapshot: seq<O>, x: O, owner: W, event: LifecycleEvent, seen: LifecycleState)
    ensures Notify(snapshot + [x], owner, event, seen) == Notify(snapshot, owner, event, seen) + [Delivery(x, owner, event, seen)]
  {
  }

  /** After the callbacks to the first `i` observers of `snapshot`, the next callback goes to observer `i`. */
  lemma NotifyOneMore<O, W>(log: seq<Delivery<O, W>>, snapshot: seq<O>, i: nat, owner: W, event: LifecycleEvent, seen: LifecycleState)
    requires i < |snapshot|
    ensures log + Notify(snapshot[..i + 1], owner, event, seen)
            == (log + Notify(snapshot[..i], owner, event, seen)) + [Delivery(snapshot[i], owner, event, seen)]
  {
    assert snapshot[..i + 1] == snapshot[..i] + [snapshot[i]];
    NotifyExtend(snapshot[..i], snapshot[i], owner, event, seen);
  }

  /** How many callbacks in `log` went to `o`. */
  ghost function Count<O, W>(log: seq<Delivery<O, W>>, o: O): nat
  {
    if log == [] then 0
    else (if log[0].observer == o then 1 else 0) + Count(log[1..], o)
  }

  lemma {:induction false} CountConcat<O, W>(a: seq<Delivery<O, W>>, b: seq<Delivery<O, W>>, o: O)
    ensures Count(a + b, o) == Count(a, o) + Count(b, o)
  {
    if a == [] {
      assert a + b == b;
    } else {
      assert (a + b)[1..] == a[1..] + b;
      CountConcat(a[1..], b, o);
    }
  }

  /** A pass over a duplicate-free snapshot calls each member exactly once and nobody else. */
  lemma {:induction false} NotifyReachesEachOnce<O, W>(snapshot: seq<O>, owner: W, event: LifecycleEvent, seen: LifecycleState, o: O)
    requires NoDups(snapshot)
    ensures Count(Notify(snapshot, owner, event, seen), o) == if o in snapshot then 1 else 0
  {
    if snapshot != [] {
      var rest := snapshot[1..];
      assert NoDups(rest);
      NotifyReachesEachOnce(rest, owner, event, seen, o);
      var r := Notify(snapshot, owner, event, seen);
      assert r[1..] == Notify(rest, owner, event, seen);
      assert o in snapshot <==> o == snapshot[0] || o in rest;
      assert o == snapshot[0] ==> o !in rest;
    }
  }

  /** The lifecycle as a value: what the Kotlin object holds, plus the callbacks made so far. */
  datatype Config<O, W> = Config(state: LifecycleState, observers: seq<O>, log: seq<Delivery<O, W>>)

  /** The invariant of every reachable lifecycle: no observer twice, and none at all once Destroyed. */
  predicate Inv<O(==), W>(c: Config<O, W>)
  {
    NoDups(c.observers) && (c.state == Destroyed ==> c.observers == [])
  }

  /** `addObserver`: ignored once Destroyed; otherwise a set insertion. */
  function AddStep<O(==), W>(c: Config<O, W>, o: O): Config<O, W>
  {
    if c.state == Destroyed then c else c.(observers := Insert(c.observers, o))
  }

  /** `removeObserver`: a set removal, in any state. */
  function RemoveStep<O(==), W>(c: Config<O, W>, o: O): Config<O, W>
  {
    c.(observers := Remove(c.observers, o))
  }

  /**
   * `handleEvent`: ignored once Destroyed; an illegal event fails before anything
   * changes; a legal one commits the new state, notifies the snapshot of observers
   * (who see the new state) and, on entering Destroyed, clears the observers.
   */
  function HandleStep<O(==), W>(c: Config<O, W>, owner: W, event: LifecycleEvent): Result<Config<O, W>, TransitionError>
  {
    if c.state == Destroyed then Success(c)
    else
      match Reduce(c.state, event)
      case Failure(err) => Failure(err)
      case Success(next) =>
        var log := c.log + Notify(c.observers, owner, event, next);
        Success(Config(next, if next == Destroyed then [] else c.observers, log))
  }

  /** The new observer set has set semantics: appended only when new, ignored once Destroyed. */
  lemma AddObserverIsSetInsertion<O, W>(c: Config<O, W>, o: O)
    requires Inv(c)
    ensures c.state == Destroyed ==> AddStep(c, o) == c
    ensures o in c.observers ==> AddStep(c, o) == c
    ensures c.state != Destroyed && o !in c.observers ==> AddStep(c, o).observers == c.observers + [o]
    ensures AddStep(c, o).state == c.state && AddStep(c, o).log == c.log
    ensures AddStep(AddStep(c, o), o) == AddStep(c, o)
    ensures Inv(AddStep(c, o))
  {
  }

  /** Removal drops only `o`, keeps the others in order, and is a no-op when `o` is absent. */
  lemma RemoveObserverIsSetRemoval<O, W>(c: Config<O, W>, o: O)
    requires Inv(c)
    ensures o !in c.observers ==> RemoveStep(c, o) == c
    ensures forall i :: 0 <= i < |c.observers| && c.observers[i] == o ==>
              RemoveStep(c, o).observers == c.observers[..i] + c.observers[i + 1..]
    ensures RemoveStep(c, o).state == c.state && RemoveStep(c, o).log == c.log
    ensures Inv(RemoveStep(c, o))
  {
    if o !in c.observers {
      RemoveAbsent(c.observers, o);
    }
    forall i | 0 <= i < |c.observers| && c.observers[i] == o
      ensures RemoveStep(c, o).observers == c.observers[..i] + c.observers[i + 1..]
    {
      RemoveSplice(c.observers, o, i);
    }
  }

  /** Removing an observer that was just added restores the lifecycle. */
  lemma RemoveUndoesAdd<O, W>(c: Config<O, W>, o: O)
    requires Inv(c) && o !in c.observers
    ensures RemoveStep(AddStep(c, o), o) == c
  {
    if c.state != Destroyed {
      RemoveUndoesInsert(c.observers, o);
    } else {
      RemoveAbsent(c.observers, o);
    }
  }

  /** Once Destroyed, every event is a silent no-op: nothing changes and nobody is called. */
  lemma HandleInDestroyedIsNoOp<O, W>(c: Config<O, W>, owner: W, event: LifecycleEvent)
    requires c.state == Destroyed
    ensures HandleStep(c, owner, event) == Success(c)
  {
  }

  /** An illegal event on a live lifecycle fails with (state, event) and changes nothing. */
  lemma IllegalEventChangesNothing<O, W>(c: Config<O, W>, owner: W, event: LifecycleEvent)
    requires c.state != Destroyed
    ensures HandleStep(c, owner, event).Failure? <==> c.state != Source(event)
    ensures HandleStep(c, owner, event).Failure? ==>
              HandleStep(c, owner, event).error == TransitionError(c.state, event)
  {
  }

  /**
   * A legal event commits the new state, then calls every observer of the snapshot
   * exactly once, in registration order, with (owner, event), each seeing the new
   * state; nobody outside the snapshot is called. Entering Destroyed empties the set;
   * otherwise it is unchanged.
   */
  lemma LegalEventNotifiesSnapshot<O, W>(c: Config<O, W>, owner: W, event: LifecycleEvent, o: O)
    requires Inv(c) && c.state != Destroyed && Reduce(c.state, event).Success?
    ensures var c' := HandleStep(c, owner, event).value;
      && c'.state == Target(event)
      && c'.observers == (if c'.state == Destroyed then [] else c.observers)
      && |c'.log| == |c.log| + |c.observers|
      && c'.log[..|c.log|] == c.log
      && (forall i :: 0 <= i < |c.observers| ==>
            c'.log[|c.log| + i] == Delivery(c.observers[i], owner, event, c'.state))
      && Count(c'.log, o) == Count(c.log, o) + (if o in c.observers then 1 else 0)
  {
    var next := Reduce(c.state, event).value;
    var calls := Notify(c.observers, owner, event, next);
    CountConcat(c.log, calls, o);
    NotifyReachesEachOnce(c.observers, owner, event, next, o);
  }

  /** Every handled event keeps the invariant; in particular Destroyed always has no observers. */
  lemma HandlePreservesInv<O, W>(c: Config<O, W>, owner: W, event: LifecycleEvent)
    requires Inv(c)
    ensures HandleStep(c, owner, event).Success? ==> Inv(HandleStep(c, owner, event).value)
  {
  }

  /** One call on the lifecycle's public interface. */
  datatype Op<O> = AddOp(observer: O) | RemoveOp(observer: O) | EventOp(event: LifecycleEvent)

  function Step<O(==), W>(c: Config<O, W>, owner: W, op: Op<O>): Result<Config<O, W>, TransitionError>
  {
    match op
    case AddOp(o) => Success(AddStep(c, o))
    case RemoveOp(o) => Success(RemoveStep(c, o))
    case EventOp(e) => HandleStep(c, owner, e)
  }

  /** A run of calls; the first illegal event fails the run, as the exception ends the driver's sequence. */
  function Apply<O(==), W>(c: Config<O, W>, owner: W, ops: seq<Op<O>>): Result<Config<O, W>, TransitionError>
    decreases |ops|
  {
    if ops == [] then Success(c)
    else
      match Step(c, owner, ops[0])
      case Failure(err) => Failure(err)
      case Success(c') => Apply(c', owner, ops[1..])
  }

  /** Any run of calls keeps the invariant. */
  lemma {:induction false} ApplyPreservesInv<O, W>(c: Config<O, W>, owner: W, ops: seq<Op<O>>)
    requires Inv(c)
    ensures Apply(c, owner, ops).Success? ==> Inv(Apply(c, owner, ops).value)
    decreases |ops|
  {
    if ops != [] {
      var s := Step(c, owner, ops[0]);
      match ops[0] {
        case AddOp(o) => AddObserverIsSetInsertion(c, o);
        case RemoveOp(o) => RemoveObserverIsSetRemoval(c, o);
        case EventOp(e) => HandlePreservesInv(c, owner, e);
      }
      if s.Success? {
        ApplyPreservesInv(s.value, owner, ops[1..]);
      }
    }
  }

  /**
   * Destroyed is final: from a Destroyed lifecycle every run of calls succeeds and
   * changes nothing. The state stays Destroyed, the observer set stays empty and
   * no observer is ever called again.
   */
  lemma {:induction false} DestroyedIsFrozen<O, W>(c: Config<O, W>, owner: W, ops: seq<Op<O>>)
    requires Inv(c) && c.state == Destroyed
    ensures Apply(c, owner, ops) == Success(c)
    decreases |ops|
  {
    if ops != [] {
      assert Step(c, owner, ops[0]) == Success(c);
      DestroyedIsFrozen(c, owner, ops[1..]);
    }
  }

  /** Initialized is only the construction state: once left, no run of calls returns to it. */
  lemma {:induction false} InitializedNeverReentered<O, W>(c: Config<O, W>, owner: W, ops: seq<Op<O>>)
    requires c.state != Initialized
    ensures Apply(c, owner, ops).Success? ==> Apply(c, owner, ops).value.state != Initialized
    decreases |ops|
  {
    if ops != [] {
      var s := Step(c, owner, ops[0]);
      if s.Success? {
        if ops[0].EventOp? {
          ReduceShape(c.state, ops[0].event);
        }
        InitializedNeverReentered(s.value, owner, ops[1..]);
      }
    }
  }

  /** The Kotlin `Lifecycle` object. */
  class Lifecycle<O(==), W> {
    /** The owner handed to every observer callback. */
    const owner: W
    /** The current phase; only this class writes it. */
    var state: LifecycleState
    /** The registered observers, in registration order. */
    var observers: seq<O>
    /** Every callback made so far, in call order. */
    ghost var log: seq<Delivery<O, W>>

    ghost function Model(): Config<O, W>
      reads this
    {
      Config(state, observers, log)
    }

    ghost predicate Valid()
      reads this
    {
      Inv(Model())
    }

    constructor (owner: W)
      ensures this.owner == owner
      ensures state == Initialized && observers == [] && log == []
      ensures Valid()
    {
      this.owner := owner;
      state := Initialized;
      observers := [];
      log := [];
    }

    /** Registers `observer`, unless the lifecycle is Destroyed. */
    method AddObserver(observer: O)
      requires Valid()
      modifies this
      ensures Valid()
      ensures Model() == AddStep(old(Model()), observer)
    {
      if state == Destroyed {
        return;
      }
      observers := Insert(observers, observer);
    }

    /** Unregisters `observer` if present, in any state. */
    method RemoveObserver(observer: O)
      requires Valid()
      modifies this
      ensures Valid()
      ensures Model() == RemoveStep(old(Model()), observer)
    {
      RemoveObserverIsSetRemoval(Model(), observer);
      observers := Remove(observers, observer);
    }

    /** Calls every observer of `snapshot` in order with `event` and the state now current. */
    method NotifyAll(snapshot: seq<O>, event: LifecycleEvent)
      modifies this
      ensures state == old(state) && observers == old(observers)
      ensures log == old(log) + Notify(snapshot, owner, event, state)
    {
      var i := 0;
      while i < |snapshot|
        invariant 0 <= i <= |snapshot|
        invariant state == old(state) && observers == old(observers)
        invariant log == old(log) + Notify(snapshot[..i], owner, event, state)
      {
        NotifyOneMore(old(log), snapshot, i, owner, event, state);
        log := log + [Delivery(snapshot[i], owner, event, state)];
        i := i + 1;
      }
      assert snapshot[..i] == snapshot;
    }

    /**
     * Drives the lifecycle with `event`: a no-op once Destroyed; Fail with the
     * (state, event) pair on an illegal event, changing nothing; otherwise the
     * committed state, the snapshot notified in order, and cleanup on Destroyed.
     */
    method HandleEvent(event: LifecycleEvent) returns (outcome: Outcome<TransitionError>)
      requires Valid()
      modifies this
      ensures Valid()
      ensures HandleStep(old(Model()), owner, event).Success? ==>
                outcome == Pass && Model() == HandleStep(old(Model()), owner, event).value
      ensures HandleStep(old(Model()), owner, event).Failure? ==>
                outcome == Fail(HandleStep(old(Model()), owner, event).error) && Model() == old(Model())
    {
      ghost var c0 := Model();
      if state == Destroyed {
        return Pass;
      }
      var next := Reduce(state, event);
      if next.Failure? {
        return Fail(next.error);
      }
      state := next.value;
      NotifyAll(observers, event);
      if state == Destroyed {
        observers := [];
      }
      HandlePreservesInv(c0, owner, event);
      assert Model() == HandleStep(c0, owner, event).value;
      outcome := Pass;
    }
  }
}
