/** The events that drive a lifecycle (LifecycleEvent.kt). */
module Events {
  import opened States

  /** The six triggers, in declaration order; none carries a payload. */
  datatype LifecycleEvent = OnCreate | OnStart | OnResume | OnPause | OnStop | OnDestroy

  /** Every event, once each, in declaration order. */
  const AllEvents: seq<LifecycleEvent> := [OnCreate, OnStart, OnResume, OnPause, OnStop, OnDestroy]

  /** The enumeration is closed: exactly six distinct events. */
  lemma EventsAreClosed(e: LifecycleEvent)
    ensures e in AllEvents
    ensures |AllEvents| == 6
    ensures forall i, j :: 0 <= i < j < |AllEvents| ==> AllEvents[i] != AllEvents[j]
  {
  }

  /** The state the documented arc of an event starts from. */
  function Source(e: LifecycleEvent): LifecycleState
  {
    match e
    case OnCreate => Initialized
    case OnStart => Created
    case OnResume => Started
    case OnPause => Resumed
    case OnStop => Started
    case OnDestroy => Created
  }

  /** The state the documented arc of an event leads to. */
  function Target(e: LifecycleEvent): LifecycleState
  {
    match e
    case OnCreate => Created
    case OnStart => Started
    case OnResume => Resumed
    case OnPause => Started
    case OnStop => Created
    case OnDestroy => Destroyed
  }

  /** OnStart and OnStop document opposite arcs between Created and Started. */
  lemma StartStopAreInverseArcs()
    ensures Source(OnStart) == Target(OnStop) == Created
    ensures Target(OnStart) == Source(OnStop) == Started
  {
  }

  /** OnResume and OnPause document opposite arcs between Started and Resumed. */
  lemma ResumePauseAreInverseArcs()
    ensures Source(OnResume) == Target(OnPause) == Started
    ensures Target(OnResume) == Source(OnPause) == Resumed
  {
  }

  /** No documented arc enters Initialized or leaves Destroyed. */
  lemma ArcsAvoidInitialAndTerminal(e: LifecycleEvent)
    ensures Target(e) != Initialized
    ensures Source(e) != Destroyed
  {
  }
}
