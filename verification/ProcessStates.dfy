/** The lifecycle states of one process runtime and the table of allowed moves. */
module ProcessStates {

  /** `Unknown` stands for any other text a stored document may hold. */
  datatype ProcessState = Stopped | Starting | Running | Stopping | Exited | Failed | Unknown(text: string)
  {
    predicate IsValid() {
      !Unknown?
    }

    predicate IsActive() {
      Starting? || Running? || Stopping?
    }

    predicate IsTerminal() {
      Stopped? || Exited? || Failed?
    }
  }

  predicate CanTransition(from: ProcessState, to: ProcessState) {
    match from
    case Starting => to.Running? || to.Stopping? || to.Failed?
    case Running => to.Stopping? || to.Exited? || to.Failed?
    case Stopping => to.Stopped? || to.Failed?
    case _ => false
  }

  /**
   * Which moves lead to a state: nothing comes back to starting, only a start runs, only what runs exits on its own, only
   * what was asked to stop is stopped, and everything active can fail.
   */
  lemma MovesByTarget(from: ProcessState, next: ProcessState)
    ensures CanTransition(from, next) <==>
              || (next == Running && from == Starting)
              || (next == Stopping && (from == Starting || from == Running))
              || (next == Exited && from == Running)
              || (next == Stopped && from == Stopping)
              || (next == Failed && from in {Starting, Running, Stopping})
  {
  }

  /** How far a state is from the end of a runtime's life. */
  function Rank(state: ProcessState): nat {
    match state
    case Starting => 3
    case Running => 2
    case Stopping => 1
    case _ => 0
  }

  /** `trail` is a series of moves of the table. */
  predicate IsTrail(trail: seq<ProcessState>) {
    forall i :: 0 < i < |trail| ==> CanTransition(trail[i - 1], trail[i])
  }

  /** A runtime makes at most three moves, and only its last state can be terminal. */
  lemma {:induction false} TrailsAreShort(trail: seq<ProcessState>)
    requires IsTrail(trail)
    ensures |trail| <= 4
    ensures forall i :: 0 <= i < |trail| - 1 ==> trail[i].IsActive()
  {
    if trail != [] {
      RankFalls(trail, |trail| - 1);
    }
    forall i | 0 <= i < |trail| - 1
      ensures trail[i].IsActive()
    {
      assert CanTransition(trail[i + 1 - 1], trail[i + 1]);
    }
  }

  lemma {:induction false} RankFalls(trail: seq<ProcessState>, i: nat)
    requires IsTrail(trail) && i < |trail|
    ensures Rank(trail[i]) + i <= 3
  {
    if i > 0 {
      RankFalls(trail, i - 1);
      assert CanTransition(trail[i - 1], trail[i]);
    }
  }
}
