# Lifecycle state machine, modelled in Dafny

A model of the core of a teaching version of Jetpack's Lifecycle, written in Kotlin.
It has two parts:

- the **reducer**, a pure function from (current state, event) to the next state;
- the **controller** `Lifecycle`. It holds the current state and an insertion-ordered,
  duplicate-free set of observers. It registers and removes observers, and drives the
  state with `handleEvent`. That operation checks the transition, commits the new state,
  notifies a snapshot of the observers with `(owner, event)`, and clears the set once
  the lifecycle is destroyed.

Files and modules:

| file | module | models |
|---|---|---|
| `Wrappers.dfy` | `Wrappers` | `Result` and `Outcome`, standing in for Kotlin's exceptions |
| `LifecycleState.dfy` | `States` | the five-phase enum `LifecycleState` |
| `LifecycleEvent.dfy` | `Events` | the six-event enum `LifecycleEvent`, and the arc each event's doc comment names (`Source`, `Target`) |
| `Reducer.dfy` | `Reducer` | `reduce`, and its failure `TransitionError(state, event)` |
| `ObserverSet.dfy` | `ObserverSet` | the `linkedSetOf()` observer collection, as a sequence without duplicates (`Insert` for `+=`, `Remove` for `-=`) |
| `Controller.dfy` | `Controller` | the class `Lifecycle`. It also holds `Config`, the value of its state, and the step functions that specify each method. `Apply` runs any sequence of calls. |
| `Runs.dfy` | `Runs` | the state trajectory of successive `handleEvent` calls |
| `Lifetimes.dfy` | `Lifetimes` | the event sequences the reducer accepts from creation to destruction |
| `Trajectories.dfy` | `Trajectories` | the agreement of the three ways of running a sequence: `Apply` on the controller, its state trajectory `Run`, and the reducer walk `Walk` |
| `Scenarios.dfy` | `Scenarios` | three client runs of the class, checked against its contracts only |

Observers are opaque identities: the class type parameter `O`, compared by equality.
The owner is an opaque value: the type parameter `W`, held in the constant field `owner`.
Each callback `observer.onStateChanged(owner, event)` is recorded in the ghost field `log`
as `Delivery(observer, owner, event, seen)`. Here `seen` is the state the lifecycle holds
at the moment of the call. It shows that the new state is committed before anyone is
notified.

In Kotlin, an illegal transition throws from `require`. Here `HandleEvent` returns
`Fail(TransitionError(state, event))` and changes nothing. A legal event, or any event
once Destroyed, returns `Pass`.

## Model

| member | source | states |
|---|---|---|
| `States.StatesAreClosed` | src/main/kotlin/cn/ctonew/lifecycle/core/LifecycleState.kt:10-41 | the state enum has exactly five distinct values, and every state is one of them |
| `Events.EventsAreClosed` | src/main/kotlin/cn/ctonew/lifecycle/core/LifecycleEvent.kt:8-26 | the event enum has exactly six distinct values, and every event is one of them |
| `Events.StartStopAreInverseArcs` | src/main/kotlin/cn/ctonew/lifecycle/core/LifecycleEvent.kt:12-22 | the documented arcs of ON_START and ON_STOP are opposite arcs between CREATED and STARTED |
| `Events.ResumePauseAreInverseArcs` | src/main/kotlin/cn/ctonew/lifecycle/core/LifecycleEvent.kt:15-19 | the documented arcs of ON_RESUME and ON_PAUSE are opposite arcs between STARTED and RESUMED |
| `Events.ArcsAvoidInitialAndTerminal` | src/main/kotlin/cn/ctonew/lifecycle/core/LifecycleEvent.kt:9-25 | no documented arc enters INITIALIZED, and none leaves DESTROYED |
| `Reducer.Reduce` | src/main/kotlin/cn/ctonew/lifecycle/core/Lifecycle.kt:67-111 | reduce succeeds exactly when the state is the source of the event's documented arc, and then yields that arc's target. Otherwise it fails carrying (state, event). |
| `Reducer.ReduceIsTheTable` | src/main/kotlin/cn/ctonew/lifecycle/core/Lifecycle.kt:67-111 | reduce yields `t` exactly on the six rows of the transition table, and fails with (s, e) on every pair outside it |
| `Reducer.EachEventHasOneSource` | src/main/kotlin/cn/ctonew/lifecycle/core/LifecycleEvent.kt:9-25 | two states in which the same event is legal are equal |
| `Reducer.CreateAndDestroyArcs` | src/main/kotlin/cn/ctonew/lifecycle/core/Lifecycle.kt:69-109 | ON_CREATE is legal only from INITIALIZED and yields CREATED. ON_DESTROY is legal only from CREATED and yields DESTROYED. |
| `Reducer.StartStopRoundTrip` | src/main/kotlin/cn/ctonew/lifecycle/core/Lifecycle.kt:76-102 | ON_STOP after a legal ON_START returns to the original state, and so does ON_START after a legal ON_STOP |
| `Reducer.ResumePauseRoundTrip` | src/main/kotlin/cn/ctonew/lifecycle/core/Lifecycle.kt:83-95 | ON_PAUSE after a legal ON_RESUME returns to the original state, and so does ON_RESUME after a legal ON_PAUSE |
| `Reducer.ReduceShape` | src/main/kotlin/cn/ctonew/lifecycle/core/Lifecycle.kt:67-111 | no pair yields INITIALIZED. Every event fails in DESTROYED. RESUMED is entered only from STARTED by ON_RESUME, and STARTED only from CREATED or RESUMED. |
| `ObserverSet.Insert` | src/main/kotlin/cn/ctonew/lifecycle/core/Lifecycle.kt:27 | `observers += o`: `o` becomes a member; existing members keep their positions; the size grows by one exactly when `o` was absent; no duplicates arise |
| `ObserverSet.Remove` | src/main/kotlin/cn/ctonew/lifecycle/core/Lifecycle.kt:34 | `observers -= o`: the result holds exactly the members other than `o`, and no duplicates arise |
| `ObserverSet.InsertIsIdempotent` | src/main/kotlin/cn/ctonew/lifecycle/core/Lifecycle.kt:27 | inserting a present member changes nothing, and inserting twice is inserting once |
| `ObserverSet.RemoveAbsent` | src/main/kotlin/cn/ctonew/lifecycle/core/Lifecycle.kt:34 | removing an absent member changes nothing |
| `ObserverSet.RemoveSplice` | src/main/kotlin/cn/ctonew/lifecycle/core/Lifecycle.kt:34 | in a duplicate-free set, removing the member at position `i` leaves the others in their relative order |
| `ObserverSet.RemoveUndoesInsert` | src/main/kotlin/cn/ctonew/lifecycle/core/Lifecycle.kt:25-35 | removing a member that was just inserted restores the set |
| `ObserverSet.RemoveIsIdempotent` | src/main/kotlin/cn/ctonew/lifecycle/core/Lifecycle.kt:34 | removing twice is removing once |
| `Controller.Notify` | src/main/kotlin/cn/ctonew/lifecycle/core/Lifecycle.kt:51-52 | a notification pass makes one callback per snapshot entry, in snapshot order, each with (owner, event) |
| `Controller.NotifyReachesEachOnce` | src/main/kotlin/cn/ctonew/lifecycle/core/Lifecycle.kt:51-52 | over a duplicate-free snapshot, each member is called exactly once and nobody else is called |
| `Controller.AddObserverIsSetInsertion` | src/main/kotlin/cn/ctonew/lifecycle/core/Lifecycle.kt:25-28 | addObserver is ignored in DESTROYED and for a present observer. Otherwise it appends the observer. It is idempotent, touches neither state nor callbacks, and keeps the invariant. |
| `Controller.RemoveObserverIsSetRemoval` | src/main/kotlin/cn/ctonew/lifecycle/core/Lifecycle.kt:33-35 | removeObserver, in any state, splices out only that observer and is a no-op when it is absent. It touches neither state nor callbacks, and keeps the invariant. |
| `Controller.RemoveUndoesAdd` | src/main/kotlin/cn/ctonew/lifecycle/core/Lifecycle.kt:25-35 | removing a newly added observer restores the whole lifecycle |
| `Controller.HandleInDestroyedIsNoOp` | src/main/kotlin/cn/ctonew/lifecycle/core/Lifecycle.kt:45 | in DESTROYED every event succeeds silently and changes nothing, so nobody is called |
| `Controller.IllegalEventChangesNothing` | src/main/kotlin/cn/ctonew/lifecycle/core/Lifecycle.kt:47-48 | on a live lifecycle, an event fails exactly when the state is not its arc's source. It fails with (state, event). That a failure leaves the lifecycle unchanged is stated by `Controller.Lifecycle.HandleEvent`. |
| `Controller.LegalEventNotifiesSnapshot` | src/main/kotlin/cn/ctonew/lifecycle/core/Lifecycle.kt:47-57 | a legal event commits the arc's target, keeps the earlier callbacks and adds one callback per registered observer. The callbacks go in registration order, each with (owner, event) and seeing the new state, and each observer gets exactly one. The set is emptied on entering DESTROYED and otherwise kept. |
| `Controller.HandlePreservesInv` | src/main/kotlin/cn/ctonew/lifecycle/core/Lifecycle.kt:44-58 | handleEvent keeps the set duplicate-free and empty in DESTROYED |
| `Controller.ApplyPreservesInv` | src/main/kotlin/cn/ctonew/lifecycle/core/Lifecycle.kt:12-58 | every sequence of add, remove and event calls keeps the invariant |
| `Controller.DestroyedIsFrozen` | src/main/kotlin/cn/ctonew/lifecycle/core/Lifecycle.kt:25-57 | from DESTROYED, every sequence of calls succeeds and changes nothing. The state stays DESTROYED, the set stays empty and nobody is called again. |
| `Controller.InitializedNeverReentered` | src/main/kotlin/cn/ctonew/lifecycle/core/LifecycleState.kt:11-16 | once the lifecycle is out of INITIALIZED, no sequence of calls brings it back |
| `Controller.Lifecycle.constructor` | src/main/kotlin/cn/ctonew/lifecycle/core/Lifecycle.kt:12-18 | a new lifecycle is INITIALIZED, has no observers and has made no callbacks |
| `Controller.Lifecycle.AddObserver` | src/main/kotlin/cn/ctonew/lifecycle/core/Lifecycle.kt:25-28 | the object's new value is `AddStep` of its old one, and the invariant holds |
| `Controller.Lifecycle.RemoveObserver` | src/main/kotlin/cn/ctonew/lifecycle/core/Lifecycle.kt:33-35 | the object's new value is `RemoveStep` of its old one, and the invariant holds |
| `Controller.Lifecycle.NotifyAll` | src/main/kotlin/cn/ctonew/lifecycle/core/Lifecycle.kt:51-52 | calling each observer of the snapshot in order appends exactly `Notify` of the snapshot to the log, with the state now current, and changes neither the state nor the observer set |
| `Controller.Lifecycle.HandleEvent` | src/main/kotlin/cn/ctonew/lifecycle/core/Lifecycle.kt:44-58 | on success, the object's new value is `HandleStep` of its old one and the result is `Pass`. On an illegal event, the result is `Fail` with that step's error and the object is unchanged. The snapshot loop is `NotifyAll`. |
| `Runs.HandleStepFollowsNextState` | src/main/kotlin/cn/ctonew/lifecycle/core/Lifecycle.kt:44-58 | one handleEvent leaves DESTROYED as it is and otherwise moves the state as reduce does (`NextState`). It fails exactly when `NextState` does, with the same error. |
| `Trajectories.RunIsTheControllerTrajectory` | src/main/kotlin/cn/ctonew/lifecycle/core/Lifecycle.kt:44-58 | handing a sequence of events to a lifecycle one after another succeeds exactly when `Run` of its state does. It then ends in the state `Run` computes, and on failure it fails with the same error. So the `Runs` lemmas hold of the controller itself. |
| `Runs.DestroyedAbsorbsEveryRun` | src/main/kotlin/cn/ctonew/lifecycle/core/LifecycleState.kt:35-40 | after DESTROYED, any sequence of events leaves the state DESTROYED without error |
| `Runs.PassesThroughCreated` | src/main/kotlin/cn/ctonew/lifecycle/core/LifecycleState.kt:18-33 | a run from INITIALIZED that ends in STARTED or RESUMED is in CREATED after a proper prefix, whose length the lemma returns |
| `Runs.ResumedPassesThroughCreatedThenStarted` | src/main/kotlin/cn/ctonew/lifecycle/core/LifecycleState.kt:25-33 | a run from INITIALIZED that ends in RESUMED is in CREATED after some prefix, and in STARTED after a longer one |
| `Lifetimes.LifetimesAreExactlyTheCompleteWalks` | src/main/kotlin/cn/ctonew/lifecycle/core/Lifecycle.kt:67-111 | reduce takes an event sequence from INITIALIZED to DESTROYED without error exactly when the sequence has this form: Create; then any number of Start … Stop visits, each holding any number of Resume, Pause round trips; then Destroy |
| `Trajectories.WalkAgreesWithRun` | src/main/kotlin/cn/ctonew/lifecycle/core/Lifecycle.kt:44-111 | an event sequence that reduce accepts throughout leads the controller's trajectory `Run` to the same state |
| `Lifetimes.CanonicalLifetimes` | src/main/kotlin/cn/ctonew/lifecycle/app/Main.kt:41-49 | the driver's sequence Create, Start, Resume, Pause, Stop, Destroy is a complete lifetime. So is that sequence with one more Resume, Pause round trip, and so is Create, Destroy. |

## Left out

- Observer callback bodies are foreign code, and so are the components that implement them. Each call is recorded in the ghost `log` instead. A callback that adds or removes observers while a notification pass runs is not modelled. Nor is a callback that throws: it would end the pass early, after the state was committed and before the set is cleared. Nor is a callback that calls `handleEvent` itself, which the observer interface rules out only by convention. The `seen` field of each delivery, and the clause of `Controller.LegalEventNotifiesSnapshot` that every callback sees the new state, hold only without such a call. The same is true of the cleanup, because `handleEvent` reads `state` again after the pass.
- `Controller.Lifecycle.HandleEvent`: the Kotlin method throws `IllegalArgumentException`; the model returns `Fail(TransitionError(state, event))` instead. The message text of `require` is not modelled; only the (state, event) pair is carried.
- `LifecycleOwner` and `SimpleLifecycleOwner` are interfaces and wiring only. The owner is an opaque value passed to every callback. `LifecycleObserver` is reduced to an identity with equality.
- The driver `Main.kt`, the components and `AppRuntime.kt` are not part of this model. They hold timers, console output, wall-clock reads and a fake connection. `Lifetimes.CanonicalLifetimes` records only the driver's event sequence.
- Concurrent calls are not modelled. The Kotlin class has no locking, and the class assumes a single calling thread.

## Complete lifetimes

`reduce` admits more complete lifetimes than the canonical sequence Create, Start, Resume,
Pause, Stop, Destroy with extra round trips inserted. A Start … Stop visit may be left out
altogether (Create, Destroy). A visit may also hold no Resume, Pause round trip (Create,
Start, Stop, Destroy). `Lifetimes.Lifetime` therefore allows zero visits and zero round trips.
