/**
 * One elevator of the simulation (Elevator.java).
 *
 * The elevator's mutable state is its floor, its direction and the ordered list
 * of passengers on board; capacity, the largest jump per tick and the top floor
 * are fixed when it is built. Each operation of the class is proved against a
 * pure function on a snapshot of that state (a Car), and the properties of the
 * movement heuristic and of boarding and disembarking are lemmas about those
 * functions.
 */
module Elevators {
  import opened Passengers

  /** A snapshot of an elevator's mutable state. */
  datatype Car = Car(floor: int, direction: Direction, load: seq<Passenger>)

  function Min(a: int, b: int): int { if a <= b then a else b }
  function Max(a: int, b: int): int { if a >= b then a else b }

  /** Java's Integer.MIN_VALUE and Integer.MAX_VALUE. */
  const INT_MIN: int := -0x8000_0000
  const INT_MAX: int := 0x7fff_ffff

  /** Java's int arithmetic: the exact result taken modulo 2^32 into the int range. */
  function Int32(x: int): (r: int)
    ensures INT_MIN <= r <= INT_MAX
    ensures INT_MIN <= x <= INT_MAX ==> r == x
  {
    (x - INT_MIN) % 0x1_0000_0000 + INT_MIN
  }

  // ---------------------------------------------------------------------------
  // Movement

  /** Passenger p still has to travel in direction dir from floor. */
  predicate Ahead(p: Passenger, floor: int, dir: Direction) {
    (dir == UP && p.destination > floor) || (dir == DOWN && p.destination < floor)
  }

  /** Some passenger on board still has to travel in direction dir. */
  predicate AnyAhead(load: seq<Passenger>, floor: int, dir: Direction) {
    exists p :: p in load && Ahead(p, floor, dir)
  }

  /**
   * The direction-change heuristic: reverse when facing out of the building at
   * either end, or when no passenger on board needs to go further this way.
   */
  predicate ShouldChange(floor: int, dir: Direction, top: int, load: seq<Passenger>) {
    (floor == 0 && dir == DOWN) || (floor == top && dir == UP) || !AnyAhead(load, floor, dir)
  }

  /** The direction used for a move: the heuristic (when asked for), then the boundary clamp. */
  function Heading(floor: int, dir: Direction, top: int, load: seq<Passenger>, check: bool): (r: Direction)
    ensures top != 0 && floor == top ==> r == DOWN
    ensures top != 0 && floor == 0 ==> r == UP
  {
    var turned := if check && ShouldChange(floor, dir, top, load) then Reverse(dir) else dir;
    match turned
    case UP => if floor == top then DOWN else UP
    case DOWN => if floor == 0 then UP else DOWN
  }

  /**
   * A multi-floor jump of up to dist floors, clamped to the building. The sum
   * and the difference are Java ints, so they wrap before the clamp.
   */
  function Jump(floor: int, dir: Direction, dist: int, top: int): int {
    if dir == UP then Min(Int32(floor + dist), top) else Max(Int32(floor - dist), 0)
  }

  /** The wrap is real: a huge jump from floor 5 heading UP lands far below the ground floor. */
  lemma JumpWrapsPastTop()
    ensures Jump(5, UP, INT_MAX, 32) == -2147483644
  {
  }

  /** One move: an empty elevator stays put; otherwise choose the heading and jump. */
  function MoveCar(c: Car, top: int, dist: int, check: bool): (r: Car)
    ensures r.load == c.load
  {
    if c.load == [] then c
    else
      var h := Heading(c.floor, c.direction, top, c.load, check);
      Car(Jump(c.floor, h, dist, top), h, c.load)
  }

  lemma MoveWithoutPassengers(c: Car, top: int, dist: int, check: bool)
    requires c.load == []
    ensures MoveCar(c, top, dist, check) == c
  {
  }

  /**
   * A move keeps the elevator in [0, top] and never changes who is on board,
   * as long as the floor plus the jump does not overflow an int.
   */
  lemma MoveStaysInBuilding(c: Car, top: int, dist: int, check: bool)
    requires 0 <= c.floor <= top && dist >= 0 && c.floor + dist <= INT_MAX
    ensures var m := MoveCar(c, top, dist, check);
      0 <= m.floor <= top && m.load == c.load
    ensures var m := MoveCar(c, top, dist, check);
      c.load != [] ==> m.floor == (if m.direction == UP then Min(c.floor + dist, top) else Max(c.floor - dist, 0))
  {
  }

  /**
   * In a building with more than one floor the heading never points out of it,
   * so a positive jump strictly raises (UP) or lowers (DOWN) the floor.
   */
  lemma MoveIsStrict(c: Car, top: int, dist: int, check: bool)
    requires 0 <= c.floor <= top && 0 < top && 0 < dist && c.floor + dist <= INT_MAX && c.load != []
    ensures var m := MoveCar(c, top, dist, check);
      (c.floor == top ==> m.direction == DOWN) && (c.floor == 0 ==> m.direction == UP)
    ensures var m := MoveCar(c, top, dist, check);
      (m.direction == UP ==> m.floor > c.floor) && (m.direction == DOWN ==> m.floor < c.floor)
  {
  }

  /**
   * Strictly between the end floors and with passengers on board, a checked move
   * reverses exactly when nobody on board needs to go further the current way.
   */
  lemma ReverseIffNothingAhead(c: Car, top: int, dist: int)
    requires 0 < c.floor < top && c.load != []
    ensures MoveCar(c, top, dist, true).direction != c.direction <==> !AnyAhead(c.load, c.floor, c.direction)
  {
  }

  /** Without the heuristic, only the boundary clamp can reverse the elevator. */
  lemma UncheckedMoveKeepsDirectionInside(c: Car, top: int, dist: int)
    requires 0 < c.floor < top
    ensures MoveCar(c, top, dist, false).direction == c.direction
  {
  }

  // ---------------------------------------------------------------------------
  // Disembarking

  /** The passengers on board whose destination is floor, in their boarding order. */
  function Alighting(load: seq<Passenger>, floor: int): (r: seq<Passenger>)
    ensures forall p :: p in r ==> p in load && p.destination == floor
    ensures forall p :: p in load && p.destination == floor ==> p in r
    ensures |r| <= |load|
  {
    if load == [] then []
    else
      var last := load[|load| - 1];
      Alighting(load[..|load| - 1], floor) + (if last.destination == floor then [last] else [])
  }

  /** The passengers on board whose destination is not floor, in their boarding order. */
  function Remaining(load: seq<Passenger>, floor: int): (r: seq<Passenger>)
    ensures forall p :: p in r ==> p in load && p.destination != floor
    ensures forall p :: p in load && p.destination != floor ==> p in r
    ensures |r| <= |load|
  {
    if load == [] then []
    else
      var last := load[|load| - 1];
      Remaining(load[..|load| - 1], floor) + (if last.destination != floor then [last] else [])
  }

  /** The list operation removeAll: drop every element that occurs in gone, keeping the order of the rest. */
  function RemoveAll(s: seq<Passenger>, gone: seq<Passenger>): (r: seq<Passenger>)
    ensures forall p :: p in r ==> p in s && p !in gone
    ensures forall p :: p in s && p !in gone ==> p in r
  {
    if s == [] then []
    else RemoveAll(s[..|s| - 1], gone) + (if s[|s| - 1] in gone then [] else [s[|s| - 1]])
  }

  /** Removing the alighting passengers from the load leaves exactly the remaining ones. */
  lemma {:induction false} RemoveAlightingLeavesRemaining(load: seq<Passenger>, floor: int)
    ensures RemoveAll(load, Alighting(load, floor)) == Remaining(load, floor)
  {
    RemoveAllByDestination(load, Alighting(load, floor), floor);
  }

  lemma {:induction false} RemoveAllByDestination(s: seq<Passenger>, gone: seq<Passenger>, floor: int)
    requires forall p :: p in s ==> (p in gone <==> p.destination == floor)
    ensures RemoveAll(s, gone) == Remaining(s, floor)
  {
    if s != [] {
      assert forall p :: p in s[..|s| - 1] ==> p in s;
      RemoveAllByDestination(s[..|s| - 1], gone, floor);
    }
  }

  /** Disembarking splits the load: alighting plus remaining is the old load, as a multiset. */
  lemma {:induction false} DisembarkConserves(load: seq<Passenger>, floor: int)
    ensures multiset(Alighting(load, floor)) + multiset(Remaining(load, floor)) == multiset(load)
  {
    if load != [] {
      var init := load[..|load| - 1];
      DisembarkConserves(init, floor);
      assert load == init + [load[|load| - 1]];
    }
  }

  // ---------------------------------------------------------------------------
  // Boarding

  /** The outcome of a boarding scan over a floor queue. */
  datatype Split = Split(boarded: seq<Passenger>, waiting: seq<Passenger>)

  /**
   * The boarding scan: passengers are taken in queue order while there is room
   * (room = capacity minus those already on board) and their direction matches
   * the elevator's; the others keep waiting, in order.
   */
  function BoardScan(queue: seq<Passenger>, dir: Direction, room: int): (s: Split)
    ensures |s.boarded| + |s.waiting| == |queue|
  {
    if queue == [] then Split([], [])
    else
      var s := BoardScan(queue[..|queue| - 1], dir, room);
      var p := queue[|queue| - 1];
      if |s.boarded| < room && p.direction == dir then Split(s.boarded + [p], s.waiting)
      else Split(s.boarded, s.waiting + [p])
  }

  /** The passengers of queue travelling in direction dir, in queue order. */
  function Matching(queue: seq<Passenger>, dir: Direction): (r: seq<Passenger>)
    ensures forall p :: p in r ==> p in queue && p.direction == dir
    ensures forall p :: p in queue && p.direction == dir ==> p in r
  {
    if queue == [] then []
    else
      var p := queue[|queue| - 1];
      Matching(queue[..|queue| - 1], dir) + (if p.direction == dir then [p] else [])
  }

  /** The first n elements of s (all of it when n >= |s|, none when n <= 0). */
  function Take(s: seq<Passenger>, n: int): (r: seq<Passenger>)
  {
    if n <= 0 then [] else if n >= |s| then s else s[..n]
  }

  /** Boarding takes exactly the first `room` queued passengers whose direction matches. */
  lemma {:induction false} BoardScanTakesFirstMatching(queue: seq<Passenger>, dir: Direction, room: int)
    ensures BoardScan(queue, dir, room).boarded == Take(Matching(queue, dir), room)
  {
    if queue != [] {
      BoardScanTakesFirstMatching(queue[..|queue| - 1], dir, room);
    }
  }

  /** Boarding moves passengers and loses none: boarded plus waiting is the queue, as a multiset. */
  lemma {:induction false} BoardScanConserves(queue: seq<Passenger>, dir: Direction, room: int)
    ensures var s := BoardScan(queue, dir, room);
      multiset(s.boarded) + multiset(s.waiting) == multiset(queue)
  {
    if queue != [] {
      var init := queue[..|queue| - 1];
      BoardScanConserves(init, dir, room);
      assert queue == init + [queue[|queue| - 1]];
    }
  }

  /**
   * Boarding respects the room left, boards only matching passengers, and
   * leaves a matching passenger waiting only when the room is used up.
   */
  lemma {:induction false} BoardScanGate(queue: seq<Passenger>, dir: Direction, room: int)
    ensures var s := BoardScan(queue, dir, room);
      |s.boarded| <= Max(room, 0)
    ensures var s := BoardScan(queue, dir, room);
      forall p :: p in s.boarded ==> p in queue && p.direction == dir
    ensures var s := BoardScan(queue, dir, room);
      forall p :: p in s.waiting ==> p in queue && (p.direction == dir ==> |s.boarded| >= room)
  {
    if queue != [] {
      var init := queue[..|queue| - 1];
      BoardScanGate(init, dir, room);
      assert forall p :: p in init ==> p in queue;
    }
  }

  /** Removing one more element that does not occur changes nothing. */
  lemma {:induction false} RemoveAllIgnores(s: seq<Passenger>, gone: seq<Passenger>, x: Passenger)
    requires x !in s
    ensures RemoveAll(s, gone + [x]) == RemoveAll(s, gone)
  {
    if s != [] {
      RemoveAllIgnores(s[..|s| - 1], gone, x);
    }
  }

  /**
   * In a queue without repeats, the passengers left waiting are the queue with
   * the boarded ones removed: the rest of the queue keeps its order.
   */
  lemma {:induction false} BoardScanKeepsOrder(queue: seq<Passenger>, dir: Direction, room: int)
    requires forall i, j :: 0 <= i < j < |queue| ==> queue[i] != queue[j]
    ensures var s := BoardScan(queue, dir, room);
      s.waiting == RemoveAll(queue, s.boarded)
  {
    if queue != [] {
      var init := queue[..|queue| - 1];
      var p := queue[|queue| - 1];
      var s := BoardScan(init, dir, room);
      BoardScanKeepsOrder(init, dir, room);
      BoardScanGate(init, dir, room);
      assert p !in init by {
        forall i | 0 <= i < |init| ensures init[i] != p {
          assert queue[i] == init[i];
        }
      }
      if |s.boarded| < room && p.direction == dir {
        RemoveAllIgnores(init, s.boarded, p);
      }
    }
  }

  // ---------------------------------------------------------------------------
  // The elevator object

  class Elevator {
    var currentFloor: int
    var direction: Direction
    const capacity: int
    const maxTravelDistance: int
    const topFloor: int
    /** Onboard passengers in boarding order (the list implementation choice does not matter). */
    var passengers: seq<Passenger>

    function View(): Car
      reads this
    {
      Car(currentFloor, direction, passengers)
    }

    /** Onboard count stays within capacity; an elevator with negative capacity stays empty. */
    predicate WithinCapacity()
      reads this
    {
      |passengers| <= capacity || passengers == []
    }

    predicate InBuilding()
      reads this
    {
      0 <= currentFloor <= topFloor
    }

    /** A new elevator waits on the ground floor, heading UP, empty. */
    constructor (capacity: int, maxTravelDistance: int, topFloor: int)
      ensures View() == Car(0, UP, [])
      ensures this.capacity == capacity && this.maxTravelDistance == maxTravelDistance && this.topFloor == topFloor
      ensures WithinCapacity() && (topFloor >= 0 ==> InBuilding())
    {
      currentFloor := 0;
      direction := UP;
      this.capacity := capacity;
      this.maxTravelDistance := maxTravelDistance;
      this.topFloor := topFloor;
      passengers := [];
    }

    method ChangeDirection(newDirection: Direction)
      modifies this
      ensures View() == old(View()).(direction := newDirection)
    {
      direction := newDirection;
    }

    /** The direction-change query, scanning the onboard passengers in order. */
    method ShouldChangeDirection() returns (r: bool)
      ensures r <==> (currentFloor == 0 && direction == DOWN) || (currentFloor == topFloor && direction == UP)
                     || !(exists p :: p in passengers && Ahead(p, currentFloor, direction))
    {
      if (currentFloor == 0 && direction == DOWN) || (currentFloor == topFloor && direction == UP) {
        return true;
      }
      for i := 0 to |passengers|
        invariant forall j :: 0 <= j < i ==> !Ahead(passengers[j], currentFloor, direction)
      {
        if Ahead(passengers[i], currentFloor, direction) {
          return false;
        }
      }
      return true;
    }

    method Move(checkDirectionChange: bool)
      modifies this
      ensures View() == MoveCar(old(View()), topFloor, maxTravelDistance, checkDirectionChange)
      ensures old(InBuilding()) && maxTravelDistance >= 0 && old(currentFloor) + maxTravelDistance <= INT_MAX ==> InBuilding()
    {
      if passengers == [] {
        return;
      }
      if checkDirectionChange {
        var change := ShouldChangeDirection();
        if change {
          direction := Reverse(direction);
        }
      }
      if currentFloor == topFloor && direction == UP {
        direction := DOWN;
      } else if currentFloor == 0 && direction == DOWN {
        direction := UP;
      }
      if direction == UP {
        currentFloor := Min(Int32(currentFloor + maxTravelDistance), topFloor);
      } else {
        currentFloor := Max(Int32(currentFloor - maxTravelDistance), 0);
      }
    }

    /** The boarding gate: room on board and the same direction as the elevator. */
    predicate CanBoard(p: Passenger)
      reads this
    {
      |passengers| < capacity && p.direction == direction
    }

    method BoardPassenger(p: Passenger)
      modifies this
      ensures passengers == if old(CanBoard(p)) then old(passengers) + [p] else old(passengers)
      ensures currentFloor == old(currentFloor) && direction == old(direction)
      ensures old(WithinCapacity()) ==> WithinCapacity()
    {
      if CanBoard(p) {
        passengers := passengers + [p];
      }
    }

    /** Removes and returns, in boarding order, the passengers whose destination is this floor. */
    method DisembarkPassengers() returns (disembarking: seq<Passenger>)
      modifies this
      ensures disembarking == Alighting(old(passengers), currentFloor)
      ensures passengers == Remaining(old(passengers), currentFloor)
      ensures currentFloor == old(currentFloor) && direction == old(direction)
      ensures old(WithinCapacity()) ==> WithinCapacity()
    {
      disembarking := [];
      for i := 0 to |passengers|
        invariant disembarking == Alighting(passengers[..i], currentFloor)
      {
        assert passengers[..i + 1][..i] == passengers[..i];
        if passengers[i].destination == currentFloor {
          disembarking := disembarking + [passengers[i]];
        }
      }
      assert passengers[..|passengers|] == passengers;
      RemoveAlightingLeavesRemaining(passengers, currentFloor);
      passengers := RemoveAll(passengers, disembarking);
    }
  }
}
