/**
 * Passengers of the elevator simulation (Passenger.java).
 *
 * A passenger's trip (origin, destination, arrival tick) is fixed when it is
 * created, and its travel direction is derived from the trip once, as a
 * constant. The only mutable part is the tick at which the passenger reached
 * its destination: unset (None) until the simulation stamps it on disembarking.
 */
module Passengers {

  /** An elevator's travel sense, or the one a passenger needs. */
  datatype Direction = UP | DOWN

  function Reverse(d: Direction): (r: Direction)
    ensures r != d
  {
    if d == UP then DOWN else UP
  }

  datatype Option<T> = None | Some(value: T)

  class Passenger {
    const origin: int
    const destination: int
    const arrivalTick: int
    /** UP exactly when the destination lies above the origin; DOWN otherwise (also when they are equal). */
    const direction: Direction := if destination > origin then UP else DOWN

    /** The tick at which the passenger reached its destination, if it has. */
    var reachedTick: Option<int>

    constructor (origin: int, destination: int, arrivalTick: int)
      ensures this.origin == origin && this.destination == destination && this.arrivalTick == arrivalTick
      ensures !HasReachedDestination()
    {
      this.origin := origin;
      this.destination := destination;
      this.arrivalTick := arrivalTick;
      reachedTick := None;
    }

    /** Records the completion tick; a later call overwrites an earlier one. */
    method SetDestinationReachedTick(tick: int)
      modifies this
      ensures reachedTick == Some(tick)
      ensures HasReachedDestination() && TotalTimeTaken(tick) == tick - arrivalTick
    {
      reachedTick := Some(tick);
    }

    predicate HasReachedDestination()
      reads this
    {
      reachedTick.Some?
    }

    /**
     * The time the passenger took: up to the completion tick once it is
     * stamped, otherwise up to the given current tick.
     */
    function TotalTimeTaken(currentTick: int): (r: int)
      reads this
    {
      if HasReachedDestination() then reachedTick.value - arrivalTick else currentTick - arrivalTick
    }
  }

  /** The direction a passenger travels is decided by its trip alone. */
  lemma DirectionOfTrip(p: Passenger)
    ensures p.direction == UP <==> p.destination > p.origin
    ensures p.direction == DOWN <==> p.destination <= p.origin
  {
  }

  /** Once completed, the time taken no longer depends on the clock it is read with. */
  lemma TimeFrozenOnceReached(p: Passenger, now1: int, now2: int)
    requires p.HasReachedDestination()
    ensures p.TotalTimeTaken(now1) == p.TotalTimeTaken(now2)
  {
  }

  /** Before completion, the time taken grows one for one with the clock. */
  lemma TimeRunsUntilReached(p: Passenger, now: int, later: int)
    requires !p.HasReachedDestination()
    ensures p.TotalTimeTaken(later) - p.TotalTimeTaken(now) == later - now
  {
  }
}
