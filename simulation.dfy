/**
 * The simulation controller (ElevatorSimulation.java): the elevators, one
 * waiting queue per floor, the ledger of completed passengers and the clock.
 *
 * Each tick first generates arrivals (the random draws are an input here),
 * then, for every elevator in list order, moves it, lets passengers off and
 * lets passengers on. The tick is proved against the pure schedule of module
 * Schedule, and the simulation invariant (every passenger in exactly one
 * place, trips well formed, elevators within capacity and inside the
 * building) is kept by every operation.
 */
module Simulation {
  import opened Passengers
  import opened Elevators
  import opened Schedule

  /** Wrapping after every addition gives the wrapped exact sum. */
  lemma Int32Accumulates(a: int, b: int)
    ensures Int32(Int32(a) + b) == Int32(a + b)
  {
  }

  // ---------------------------------------------------------------------------
  // The report's folds

  /** The time each passenger took, read at tick now. */
  function TimesOf(ps: seq<Passenger>, now: int): (r: seq<int>)
    reads set p | p in ps
    ensures |r| == |ps| && forall i :: 0 <= i < |ps| ==> r[i] == ps[i].TotalTimeTaken(now)
  {
    if ps == [] then [] else TimesOf(ps[..|ps| - 1], now) + [ps[|ps| - 1].TotalTimeTaken(now)]
  }

  function Sum(s: seq<int>): int {
    if s == [] then 0 else Sum(s[..|s| - 1]) + s[|s| - 1]
  }

  function MaxOf(s: seq<int>): int
    requires s != []
  {
    if |s| == 1 then s[0] else Max(MaxOf(s[..|s| - 1]), s[|s| - 1])
  }

  function MinOf(s: seq<int>): int
    requires s != []
  {
    if |s| == 1 then s[0] else Min(MinOf(s[..|s| - 1]), s[|s| - 1])
  }

  /** MaxOf is the maximum: an upper bound that is one of the values. */
  lemma {:induction false} MaxOfIsMaximum(s: seq<int>)
    requires s != []
    ensures forall x :: x in s ==> x <= MaxOf(s)
    ensures MaxOf(s) in s
  {
    if |s| > 1 {
      MaxOfIsMaximum(s[..|s| - 1]);
      assert s == s[..|s| - 1] + [s[|s| - 1]];
    }
  }

  /** MinOf is the minimum: a lower bound that is one of the values. */
  lemma {:induction false} MinOfIsMinimum(s: seq<int>)
    requires s != []
    ensures forall x :: x in s ==> MinOf(s) <= x
    ensures MinOf(s) in s
  {
    if |s| > 1 {
      MinOfIsMinimum(s[..|s| - 1]);
      assert s == s[..|s| - 1] + [s[|s| - 1]];
    }
  }

  /**
   * The report on a non-empty ledger whose times fit in 32 bits: the longest
   * time is the largest time taken and the shortest the smallest, each by
   * some passenger of the ledger.
   */
  lemma ReportExtremes(times: seq<int>)
    requires times != [] && forall x :: x in times ==> INT_MIN <= x <= INT_MAX
    ensures var longest := Max(INT_MIN, MaxOf(times));
      longest in times && forall x :: x in times ==> x <= longest
    ensures var shortest := Min(INT_MAX, MinOf(times));
      shortest in times && forall x :: x in times ==> shortest <= x
  {
    MaxOfIsMaximum(times);
    MinOfIsMinimum(times);
  }

  // ---------------------------------------------------------------------------
  // The controller

  /** The elevator list of the constructor: n distinct new elevators, configured alike. */
  method BuildElevators(config: Config) returns (es: seq<Elevator>)
    ensures |es| == Max(config.numberOfElevators, 0)
    ensures forall j :: 0 <= j < |es| ==> fresh(es[j]) && es[j].View() == Car(0, UP, [])
    ensures forall j :: 0 <= j < |es| ==>
      es[j].capacity == config.capacity && es[j].maxTravelDistance == config.maxTravelDistance && es[j].topFloor == config.floors
    ensures forall j, k :: 0 <= j < k < |es| ==> es[j] != es[k]
  {
    es := [];
    for i := 0 to Max(config.numberOfElevators, 0)
      invariant |es| == i
      invariant forall j :: 0 <= j < i ==> fresh(es[j]) && es[j].View() == Car(0, UP, [])
      invariant forall j :: 0 <= j < i ==>
        es[j].capacity == config.capacity && es[j].maxTravelDistance == config.maxTravelDistance && es[j].topFloor == config.floors
      invariant forall j, k :: 0 <= j < k < i ==> es[j] != es[k]
    {
      var e := new Elevator(config.capacity, config.maxTravelDistance, config.floors);
      es := es + [e];
    }
  }

  /** The floor map of the constructor: n empty queues. */
  method EmptyQueues(n: nat) returns (queues: seq<seq<Passenger>>)
    ensures |queues| == n && forall f :: 0 <= f < n ==> queues[f] == []
  {
    queues := [];
    for f := 0 to n
      invariant |queues| == f && forall g :: 0 <= g < f ==> queues[g] == []
    {
      queues := queues + [[]];
    }
  }

  class ElevatorSimulation {
    const config: Config
    /** The elevators, in the order the tick visits them. */
    const elevators: seq<Elevator>
    /** One queue per floor 0 .. floors, in arrival order. */
    var floorQueues: seq<seq<Passenger>>
    /** The completed passengers, in the order they got off. */
    var completed: seq<Passenger>
    var currentTick: int
    /** Every passenger created so far; the objects the ticks may stamp. */
    ghost var people: set<Passenger>

    /** The elevators' states, in list order. */
    ghost function Cars(): (r: seq<Car>)
      reads elevators
      ensures |r| == |elevators| && forall j :: 0 <= j < |elevators| ==> r[j] == elevators[j].View()
    {
      seq(|elevators|, j reads elevators requires 0 <= j < |elevators| => elevators[j].View())
    }

    /** The whole simulation as a value. */
    ghost function Snapshot(): World
      reads this`floorQueues, this`completed, elevators
    {
      World(Cars(), floorQueues, completed)
    }

    /**
     * What the constructor sets up once: a non-negative number of floors, the
     * configured number of distinct elevators, each with the configured
     * capacity and jump, and the building's top floor.
     */
    ghost predicate Wired() {
      && config.floors >= 0
      && |elevators| == Max(config.numberOfElevators, 0)
      && (forall j, k :: 0 <= j < k < |elevators| ==> elevators[j] != elevators[k])
      && (forall j :: 0 <= j < |elevators| ==>
            && elevators[j].capacity == config.capacity
            && elevators[j].maxTravelDistance == config.maxTravelDistance
            && elevators[j].topFloor == config.floors)
    }

    ghost predicate Valid()
      reads this`floorQueues, this`completed, this`people, elevators
    {
      Wired() && Inv(Snapshot(), config) && forall p :: p in Bag(Snapshot()) ==> p in people
    }

    /**
     * Builds the elevators (on the ground floor, heading UP, empty) and
     * floors + 1 empty queues. A negative number of floors is excluded: the
     * queue list cannot be created with a negative capacity.
     */
    constructor (config: Config)
      requires config.floors >= 0
      ensures this.config == config && Valid()
      ensures forall j :: 0 <= j < |elevators| ==> fresh(elevators[j]) && elevators[j].View() == Car(0, UP, [])
      ensures |floorQueues| == config.floors + 1 && forall f :: 0 <= f < |floorQueues| ==> floorQueues[f] == []
      ensures completed == [] && currentTick == 0
    {
      this.config := config;
      var es := BuildElevators(config);
      elevators := es;
      var queues := EmptyQueues(config.floors + 1);
      floorQueues := queues;
      completed := [];
      currentTick := 0;
      people := {};
      new;
      InitialInv(Cars(), floorQueues, config);
    }

    /**
     * Arrivals of one tick: floor f below the top gains a passenger exactly when
     * arrivals[f] holds a destination, appended at the end of its queue with
     * this tick as its arrival tick.
     */
    method GenerateNewPassengers(tick: int, arrivals: seq<Option<int>>)
      requires Valid() && ArrivalsOK(arrivals, config.floors)
      modifies this
      ensures Valid() && Arrived(old(floorQueues), floorQueues, arrivals, tick)
      ensures Snapshot() == old(Snapshot()).(queues := floorQueues)
      ensures Bag(old(Snapshot())) <= Bag(Snapshot())
      ensures forall p :: p in people ==> p in old(people) || fresh(p)
      ensures completed == old(completed) && currentTick == old(currentTick)
    {
      ghost var w0 := Snapshot();
      ghost var w := w0;
      for floor := 0 to config.floors
        invariant Snapshot() == w && currentTick == old(currentTick)
        invariant Arriving(w0, w, arrivals, tick, floor, config)
        invariant forall p :: p in people ==> p in old(people) || fresh(p)
        invariant forall p :: p in Bag(w) ==> p in people
      {
        match arrivals[floor]
        case None =>
          ArrivingSkip(w0, w, arrivals, tick, floor, config);
        case Some(destinationFloor) =>
          var newPassenger := AddArrival(floor, destinationFloor, tick);
          ArrivingAppend(w0, w, Snapshot(), arrivals, tick, floor, config, newPassenger);
          w := Snapshot();
      }
    }

    /** Creates the passenger drawn on a floor and appends it to the end of that floor's queue. */
    method AddArrival(floor: int, destination: int, tick: int) returns (p: Passenger)
      requires Valid() && 0 <= floor < config.floors && 0 <= destination < config.floors && destination != floor
      modifies this
      ensures fresh(p) && NewPassenger(p, floor, destination, tick) && !p.HasReachedDestination()
      ensures Snapshot() == old(Snapshot()).(queues := old(floorQueues)[floor := old(floorQueues[floor]) + [p]])
      ensures Valid() && Bag(Snapshot()) == Bag(old(Snapshot())) + multiset{p}
      ensures people == old(people) + {p}
      ensures completed == old(completed) && currentTick == old(currentTick)
    {
      ghost var w := Snapshot();
      p := new Passenger(floor, destination, tick);
      assert p !in Bag(w);
      ArrivalPreservesInv(w, p, config);
      floorQueues := floorQueues[floor := floorQueues[floor] + [p]];
      people := people + {p};
      assert Snapshot() == w.(queues := w.queues[floor := w.queues[floor] + [p]]);
    }

    /**
     * The boarding step for elevator e: the removeIf scan over the queue of the
     * elevator's floor, taking each passenger the elevator's gate admits, in
     * queue order; a floor outside the queue range boards nobody.
     */
    method HandlePassengerBoard(e: Elevator)
      modifies this, e
      ensures var b := Board(old(e.View()), old(floorQueues), e.capacity);
        e.View() == b.0 && floorQueues == b.1
      ensures completed == old(completed) && currentTick == old(currentTick) && people == old(people)
    {
      var currentFloor := e.currentFloor;
      if currentFloor < 0 || currentFloor >= |floorQueues| {
        return;
      }
      var floorPassengers := floorQueues[currentFloor];
      var kept: seq<Passenger> := [];
      ghost var boarded: seq<Passenger> := [];
      for i := 0 to |floorPassengers|
        invariant BoardScan(floorPassengers[..i], e.direction, e.capacity - |old(e.passengers)|) == Split(boarded, kept)
        invariant e.passengers == old(e.passengers) + boarded
        invariant e.currentFloor == currentFloor && e.direction == old(e.direction)
        invariant floorQueues == old(floorQueues) && completed == old(completed) && currentTick == old(currentTick)
        invariant people == old(people)
      {
        var passenger := floorPassengers[i];
        assert floorPassengers[..i + 1][..i] == floorPassengers[..i];
        if e.CanBoard(passenger) {
          e.BoardPassenger(passenger);
          boarded := boarded + [passenger];
        } else {
          kept := kept + [passenger];
        }
      }
      assert floorPassengers[..|floorPassengers|] == floorPassengers;
      floorQueues := floorQueues[currentFloor := kept];
    }

    /**
     * The disembarking step for elevator e: the passengers bound for its floor
     * leave it in boarding order, each is stamped with this tick and appended
     * to the completed ledger.
     */
    method HandlePassengerDisembark(e: Elevator, tick: int)
      modifies this, e, e.passengers
      ensures e.View() == old(e.View()).(load := Remaining(old(e.passengers), old(e.currentFloor)))
      ensures completed == old(completed) + Alighting(old(e.passengers), old(e.currentFloor))
      ensures forall p :: p in Alighting(old(e.passengers), old(e.currentFloor)) ==> p.reachedTick == Some(tick)
      ensures forall p :: p in old(e.passengers) && p.destination != old(e.currentFloor) ==> p.reachedTick == old(p.reachedTick)
      ensures forall p :: p in old(completed) ==> p.reachedTick == old(p.reachedTick) || p.reachedTick == Some(tick)
      ensures floorQueues == old(floorQueues) && currentTick == old(currentTick) && people == old(people)
    {
      var disembarkingPassengers := e.DisembarkPassengers();
      assert forall p :: p in disembarkingPassengers ==> p in old(e.passengers);
      CompleteTrips(disembarkingPassengers, tick);
    }

    /** The loop of the disembarking step: each passenger of ps, in order, is stamped with tick and appended to the ledger. */
    method CompleteTrips(ps: seq<Passenger>, tick: int)
      modifies this, set p | p in ps
      ensures completed == old(completed) + ps
      ensures forall p :: p in ps ==> p.reachedTick == Some(tick)
      ensures floorQueues == old(floorQueues) && currentTick == old(currentTick) && people == old(people)
    {
      for j := 0 to |ps|
        invariant completed == old(completed) + ps[..j]
        invariant forall p :: p in ps[..j] ==> p.reachedTick == Some(tick)
        invariant floorQueues == old(floorQueues) && currentTick == old(currentTick) && people == old(people)
      {
        ps[j].SetDestinationReachedTick(tick);
        completed := completed + [ps[j]];
        assert ps[..j + 1] == ps[..j] + [ps[j]];
      }
      assert ps[..|ps|] == ps;
    }

    /** Elevator i's turn in a tick: a checked move, then disembarking, then boarding, both at the new floor. */
    method StepElevator(i: nat, tick: int)
      requires Wired() && i < |elevators|
      modifies this, elevators[i], elevators[i].passengers
      ensures Snapshot() == StepAt(old(Snapshot()), i, config)
      ensures currentTick == old(currentTick) && people == old(people)
    {
      var e := elevators[i];
      ghost var w := Snapshot();
      e.Move(true);
      HandlePassengerDisembark(e, tick);
      HandlePassengerBoard(e);
      assert Cars() == w.cars[i := e.View()];
    }

    /**
     * The elevator loop of a tick: every elevator in list order takes its
     * step, so the states passed through, from the old state to the new one,
     * are the schedule's Turns.
     */
    method MoveElevators(tick: int) returns (ghost turns: seq<World>)
      requires Valid()
      modifies this, elevators, people
      ensures Turns(turns, config) && turns[0] == old(Snapshot()) && turns[|turns| - 1] == Snapshot()
      ensures Valid() && old(completed) <= completed
      ensures currentTick == old(currentTick) && people == old(people)
    {
      ghost var start := Snapshot();
      turns := [start];
      for i := 0 to |elevators|
        invariant |turns| == i + 1 && turns[0] == start && turns[i] == Snapshot()
        invariant Chained(turns, config)
        invariant currentTick == old(currentTick) && people == old(people)
      {
        ghost var w := Snapshot();
        ChainConserves(turns, i, config);
        forall p | p in w.cars[i].load ensures p in people {
          RidingHas(w.cars, i, p);
        }
        StepElevator(i, tick);
        ChainExtend(turns, Snapshot(), config);
        turns := turns + [Snapshot()];
      }
      TurnsKeep(turns, config);
    }

    /**
     * One tick: arrivals first, then every elevator in list order takes its
     * step. The new state is the schedule's tick from the old one (Ticked,
     * with mid the state after the arrivals and turns the elevator loop), the
     * invariant is kept and the ledger only grows.
     */
    method SimulateTick(tick: int, arrivals: seq<Option<int>>) returns (ghost mid: World, ghost turns: seq<World>)
      requires Valid() && ArrivalsOK(arrivals, config.floors)
      modifies this, elevators, people
      ensures Valid() && Ticked(old(Snapshot()), mid, turns, Snapshot(), arrivals, tick, config)
      ensures old(completed) <= completed
      ensures forall p :: p in people ==> p in old(people) || fresh(p)
      ensures currentTick == old(currentTick)
    {
      ghost var w := Snapshot();
      GenerateNewPassengers(tick, arrivals);
      mid := Snapshot();
      assert mid.cars == w.cars && mid.ledger == w.ledger && Arrived(w.queues, mid.queues, arrivals, tick);
      turns := MoveElevators(tick);
    }

    /** One pass of the run's loop: the clock is set to the tick, then the tick is simulated. */
    method RunTick(tick: int, arrivals: seq<Option<int>>) returns (ghost mid: World, ghost turns: seq<World>)
      requires Valid() && ArrivalsOK(arrivals, config.floors)
      modifies this, elevators, people
      ensures Valid() && Ticked(old(Snapshot()), mid, turns, Snapshot(), arrivals, tick, config)
      ensures old(completed) <= completed
      ensures forall p :: p in people ==> p in old(people) || fresh(p)
      ensures currentTick == tick
    {
      ghost var before := Snapshot();
      currentTick := tick;
      assert Snapshot() == before;
      mid, turns := SimulateTick(tick, arrivals);
    }

    /**
     * The whole run: the ticks in order, then the report. The states passed
     * through are the ones of RunTicks, and the report is the one of
     * ReportResults over the final ledger.
     */
    method RunSimulation(schedule: seq<seq<Option<int>>>)
      returns (total: int, longest: int, shortest: int, passengersCount: int,
               ghost trace: seq<World>, ghost mids: seq<World>, ghost turns: seq<seq<World>>)
      requires Valid() && |schedule| == Max(config.duration, 0)
      requires forall t :: 0 <= t < |schedule| ==> ArrivalsOK(schedule[t], config.floors)
      modifies this, elevators, people
      ensures Valid()
      ensures Traced(trace, mids, turns, schedule, |schedule|, config)
      ensures trace[0] == old(Snapshot()) && trace[|schedule|] == Snapshot()
      ensures currentTick == if schedule == [] then old(currentTick) else |schedule| - 1
      ensures old(completed) <= completed
      ensures passengersCount == |completed| && total == Int32(Sum(TimesOf(completed, currentTick)))
      ensures passengersCount == 0 ==> longest == 0 && shortest == 0
      ensures passengersCount > 0 ==>
        && longest == Max(INT_MIN, MaxOf(TimesOf(completed, currentTick)))
        && shortest == Min(INT_MAX, MinOf(TimesOf(completed, currentTick)))
    {
      trace, mids, turns := RunTicks(schedule);
      total, longest, shortest, passengersCount := ReportResults();
    }

    /**
     * The run's loop: ticks 0 .. duration-1 in order, each with its arrivals
     * taken from schedule. The states passed through form trace (with mids
     * the states after each tick's arrivals and turns each tick's elevator
     * loop): trace starts at the old state, ends at the new one, and each step
     * of it is tick t of the schedule with schedule[t]. The invariant is kept,
     * the ledger only grows and the clock ends on the last tick.
     */
    method RunTicks(schedule: seq<seq<Option<int>>>)
      returns (ghost trace: seq<World>, ghost mids: seq<World>, ghost turns: seq<seq<World>>)
      requires Valid() && |schedule| == Max(config.duration, 0)
      requires forall t :: 0 <= t < |schedule| ==> ArrivalsOK(schedule[t], config.floors)
      modifies this, elevators, people
      ensures Valid()
      ensures Traced(trace, mids, turns, schedule, |schedule|, config)
      ensures trace[0] == old(Snapshot()) && trace[|schedule|] == Snapshot()
      ensures currentTick == if schedule == [] then old(currentTick) else |schedule| - 1
      ensures old(completed) <= completed
    {
      ghost var start := Snapshot();
      trace, mids, turns := [start], [], [];
      for tick := 0 to |schedule|
        invariant Valid() && start.ledger <= completed
        invariant Traced(trace, mids, turns, schedule, tick, config) && trace[0] == start && trace[tick] == Snapshot()
        invariant currentTick == if tick == 0 then old(currentTick) else tick - 1
        invariant forall p :: p in people ==> p in old(people) || fresh(p)
      {
        ghost var known := people;
        ghost var mid, ts := RunTick(tick, schedule[tick]);
        TraceExtend(trace, mids, turns, schedule, tick, config, mid, ts, Snapshot());
        trace, mids, turns := trace + [Snapshot()], mids + [mid], turns + [ts];
        forall p | p in people ensures p in old(people) || fresh(p) {
          if p !in known {
            assert fresh(p);
          }
        }
      }
    }

    /**
     * The report: the number of completed passengers, the total of their
     * times with Java's int wrap-around, and the longest and shortest time,
     * both zero when nobody completed. The longest and shortest start from
     * Integer.MIN_VALUE and Integer.MAX_VALUE, so when every time fits in an
     * int they are the largest and the smallest time of the ledger.
     */
    method ReportResults() returns (total: int, longest: int, shortest: int, passengersCount: int)
      ensures passengersCount == |completed|
      ensures total == Int32(Sum(TimesOf(completed, currentTick)))
      ensures passengersCount == 0 ==> longest == 0 && shortest == 0
      ensures passengersCount > 0 ==>
        && longest == Max(INT_MIN, MaxOf(TimesOf(completed, currentTick)))
        && shortest == Min(INT_MAX, MinOf(TimesOf(completed, currentTick)))
    {
      ghost var times := TimesOf(completed, currentTick);
      total := 0;
      longest := INT_MIN;
      shortest := INT_MAX;
      passengersCount := |completed|;
      for i := 0 to |completed|
        invariant total == Int32(Sum(times[..i]))
        invariant i == 0 ==> longest == INT_MIN && shortest == INT_MAX
        invariant i > 0 ==> longest == Max(INT_MIN, MaxOf(times[..i])) && shortest == Min(INT_MAX, MinOf(times[..i]))
      {
        var timeTaken := completed[i].TotalTimeTaken(currentTick);
        assert times[..i + 1][..i] == times[..i];
        Int32Accumulates(Sum(times[..i]), timeTaken);
        total := Int32(total + timeTaken);
        if timeTaken > longest {
          longest := timeTaken;
        }
        if timeTaken < shortest {
          shortest := timeTaken;
        }
      }
      assert times[..|completed|] == times;
      if passengersCount == 0 {
        longest := 0;
        shortest := 0;
      }
    }
  }
}
