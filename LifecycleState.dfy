/** The phases of a lifecycle (LifecycleState.kt). */
module States {

  /**
   * The five phases, in declaration order. Initialized is the state a lifecycle
   * is constructed in; Started means visible, Resumed visible and interactive;
   * Destroyed is terminal and receives no further events.
   */
  datatype LifecycleState = Initialized | Created | Started | Resumed | Destroyed

  /** Every phase, once each, in declaration order. */
  const AllStates: seq<LifecycleState> := [Initialized, Created, Started, Resumed, Destroyed]

  /** The enumeration is closed: exactly five distinct phases. */
  lemma StatesAreClosed(s: LifecycleState)
    ensures s in AllStates
    ensures |AllStates| == 5
    ensures forall i, j :: 0 <= i < j < |AllStates| ==> AllStates[i] != AllStates[j]
  {
  }
}
