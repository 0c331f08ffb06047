/**
 * The per-tick schedule of the simulation (ElevatorSimulation.java), as pure
 * functions on a snapshot of the whole simulation: the elevators' states, the
 * per-floor waiting queues and the completed-passenger ledger.
 *
 * The class ElevatorSimulation is proved against these functions. What one
 * elevator's step and one arrival keep (every passenger in exactly one place,
 * trips well formed, capacity and floor bounds) is proved here, about the
 * functions; the class composes the steps of a tick.
 */
module Schedule {
  import opened Passengers
  import opened Elevators

  /** The configuration the simulation reads once (the arrival probability is replaced by explicit draws). */
  datatype Config = Config(floors: int, numberOfElevators: int, capacity: int, duration: int, maxTravelDistance: int)

  /** A snapshot of the simulation: elevators in list order, queues by floor, and the completed ledger. */
  datatype World = World(cars: seq<Car>, queues: seq<seq<Passenger>>, ledger: seq<Passenger>)

  /** Everybody waiting, over all floor queues. */
  function Waiting(queues: seq<seq<Passenger>>): multiset<Passenger> {
    if queues == [] then multiset{} else Waiting(queues[..|queues| - 1]) + multiset(queues[|queues| - 1])
  }

  /** Everybody on board, over all elevators. */
  function Riding(cars: seq<Car>): multiset<Passenger> {
    if cars == [] then multiset{} else Riding(cars[..|cars| - 1]) + multiset(cars[|cars| - 1].load)
  }

  /** Everybody the simulation knows of: waiting, on board, or completed. */
  function Bag(w: World): multiset<Passenger> {
    Waiting(w.queues) + Riding(w.cars) + multiset(w.ledger)
  }

  /** A trip the generator can create: both floors in [0, floors) and distinct. */
  predicate TripOK(p: Passenger, floors: int) {
    0 <= p.origin < floors && 0 <= p.destination < floors && p.origin != p.destination
  }

  /**
   * An elevator keeps within capacity, and inside the building when jumps are
   * non-negative and the top floor plus a jump still fits in an int.
   */
  predicate CarOK(c: Car, cfg: Config) {
    && (cfg.maxTravelDistance >= 0 && cfg.floors + cfg.maxTravelDistance <= INT_MAX ==> 0 <= c.floor <= cfg.floors)
    && (|c.load| <= cfg.capacity || c.load == [])
  }

  /** Each queued passenger waits at its own origin. */
  predicate QueuesOK(queues: seq<seq<Passenger>>) {
    forall f, p :: 0 <= f < |queues| && p in queues[f] ==> p.origin == f
  }

  /** Every passenger has a well-formed trip and is in exactly one place. */
  predicate Census(w: World, floors: int) {
    forall p :: p in Bag(w) ==> TripOK(p, floors) && Bag(w)[p] == 1
  }

  /**
   * The invariant of the simulation: one queue per floor 0..floors, each waiting
   * passenger queued at its own origin, every trip well formed, every passenger
   * in exactly one place, and every elevator within its bounds.
   */
  predicate Inv(w: World, cfg: Config) {
    && |w.queues| == cfg.floors + 1
    && QueuesOK(w.queues)
    && Census(w, cfg.floors)
    && (forall i :: 0 <= i < |w.cars| ==> CarOK(w.cars[i], cfg))
  }

  // ---------------------------------------------------------------------------
  // One elevator's step: move, disembark, board (all at the post-move floor)

  /** The boarding step; a floor outside the queue range boards nobody. */
  function Board(c: Car, queues: seq<seq<Passenger>>, capacity: int): (r: (Car, seq<seq<Passenger>>))
    ensures r.0.floor == c.floor && r.0.direction == c.direction && |r.1| == |queues|
    ensures forall f :: 0 <= f < |queues| && f != c.floor ==> r.1[f] == queues[f]
  {
    if 0 <= c.floor < |queues| then
      var s := BoardScan(queues[c.floor], c.direction, capacity - |c.load|);
      (c.(load := c.load + s.boarded), queues[c.floor := s.waiting])
    else (c, queues)
  }

  /** Elevator k's part of a tick: a checked move, then disembarking, then boarding. */
  function StepAt(w: World, k: nat, cfg: Config): (r: World)
    requires k < |w.cars|
    ensures |r.cars| == |w.cars| && |r.queues| == |w.queues|
    ensures forall j :: 0 <= j < |w.cars| && j != k ==> r.cars[j] == w.cars[j]
    ensures w.ledger <= r.ledger
  {
    var moved := MoveCar(w.cars[k], cfg.floors, cfg.maxTravelDistance, true);
    var off := Alighting(moved.load, moved.floor);
    var b := Board(moved.(load := Remaining(moved.load, moved.floor)), w.queues, cfg.capacity);
    World(w.cars[k := b.0], b.1, w.ledger + off)
  }

  // ---------------------------------------------------------------------------
  // Multiset bookkeeping

  /** Replacing one queue changes the waiting multiset by exactly that queue's difference. */
  lemma {:induction false} WaitingUpdate(qs: seq<seq<Passenger>>, k: nat, x: seq<Passenger>)
    requires k < |qs|
    ensures Waiting(qs[k := x]) + multiset(qs[k]) == Waiting(qs) + multiset(x)
  {
    var n := |qs|;
    var t := qs[k := x];
    var init := qs[..n - 1];
    if k == n - 1 {
      assert t[..n - 1] == init;
    } else {
      WaitingUpdate(init, k, x);
      assert t[..n - 1] == init[k := x] && init[k] == qs[k];
      assert Waiting(t) == Waiting(init[k := x]) + multiset(qs[n - 1]);
      AddBoth(Waiting(init[k := x]), Waiting(init), multiset(qs[k]), multiset(x), multiset(qs[n - 1]));
    }
  }

  /** Multiset arithmetic: adding the same part to both sides of a balance keeps it. */
  lemma AddBoth(a: multiset<Passenger>, b: multiset<Passenger>, c: multiset<Passenger>, d: multiset<Passenger>,
                e: multiset<Passenger>)
    requires a + c == b + d
    ensures a + e + c == b + e + d
  {
    forall o ensures (a + e + c)[o] == (b + e + d)[o] {
      assert (a + c)[o] == (b + d)[o];
    }
  }

  /** Replacing one elevator changes the riding multiset by exactly that load's difference. */
  lemma {:induction false} RidingUpdate(cars: seq<Car>, k: nat, c: Car)
    requires k < |cars|
    ensures Riding(cars[k := c]) + multiset(cars[k].load) == Riding(cars) + multiset(c.load)
  {
    var n := |cars|;
    var t := cars[k := c];
    var init := cars[..n - 1];
    if k == n - 1 {
      assert t[..n - 1] == init;
    } else {
      RidingUpdate(init, k, c);
      assert t[..n - 1] == init[k := c] && init[k] == cars[k];
      assert Riding(t) == Riding(init[k := c]) + multiset(cars[n - 1].load);
      AddBoth(Riding(init[k := c]), Riding(init), multiset(cars[k].load), multiset(c.load), multiset(cars[n - 1].load));
    }
  }

  /** Every passenger of a floor queue is waiting. */
  lemma {:induction false} WaitingHas(qs: seq<seq<Passenger>>, f: nat, p: Passenger)
    requires f < |qs| && p in qs[f]
    ensures p in Waiting(qs)
  {
    var n := |qs|;
    if f < n - 1 {
      WaitingHas(qs[..n - 1], f, p);
    }
  }

  /** Every passenger of an elevator's load is on board. */
  lemma {:induction false} RidingHas(cars: seq<Car>, i: nat, p: Passenger)
    requires i < |cars| && p in cars[i].load
    ensures p in Riding(cars)
  {
    var n := |cars|;
    if i < n - 1 {
      RidingHas(cars[..n - 1], i, p);
    }
  }

  /** Nobody is waiting in empty queues. */
  lemma {:induction false} WaitingNone(qs: seq<seq<Passenger>>)
    requires forall f :: 0 <= f < |qs| ==> qs[f] == []
    ensures Waiting(qs) == multiset{}
  {
    if qs != [] {
      WaitingNone(qs[..|qs| - 1]);
    }
  }

  /** Nobody rides empty elevators. */
  lemma {:induction false} RidingNone(cars: seq<Car>)
    requires forall i :: 0 <= i < |cars| ==> cars[i].load == []
    ensures Riding(cars) == multiset{}
  {
    if cars != [] {
      RidingNone(cars[..|cars| - 1]);
    }
  }

  /**
   * The state the constructor builds (every elevator empty on the ground
   * floor, every queue empty, nobody done) keeps the invariant and holds nobody.
   */
  lemma InitialInv(cars: seq<Car>, queues: seq<seq<Passenger>>, cfg: Config)
    requires cfg.floors >= 0 && |queues| == cfg.floors + 1
    requires forall f :: 0 <= f < |queues| ==> queues[f] == []
    requires forall i :: 0 <= i < |cars| ==> cars[i] == Car(0, UP, [])
    ensures Inv(World(cars, queues, []), cfg) && Bag(World(cars, queues, [])) == multiset{}
  {
    WaitingNone(queues);
    RidingNone(cars);
  }

  /** Boarding moves passengers from the floor queue into the elevator and loses none. */
  lemma BoardConserves(c: Car, queues: seq<seq<Passenger>>, capacity: int)
    ensures var b := Board(c, queues, capacity);
      Waiting(b.1) + multiset(b.0.load) == Waiting(queues) + multiset(c.load)
  {
    if 0 <= c.floor < |queues| {
      var f: nat := c.floor;
      var q := queues[f];
      var s := BoardScan(q, c.direction, capacity - |c.load|);
      BoardScanConserves(q, c.direction, capacity - |c.load|);
      var after := queues[f := s.waiting];
      assert Board(c, queues, capacity) == (c.(load := c.load + s.boarded), after);
      WaitingUpdate(queues, f, s.waiting);
      Exchange(Waiting(after), Waiting(queues), multiset(q), multiset(s.waiting), multiset(s.boarded), multiset(c.load));
      assert multiset(c.load + s.boarded) == multiset(c.load) + multiset(s.boarded);
    }
  }

  /** Multiset arithmetic: when part of a container's content moves elsewhere, the total is unchanged. */
  lemma Exchange(after: multiset<Passenger>, before: multiset<Passenger>, q: multiset<Passenger>,
                 kept: multiset<Passenger>, moved: multiset<Passenger>, other: multiset<Passenger>)
    requires after + q == before + kept
    requires moved + kept == q
    ensures after + (other + moved) == before + other
  {
    forall o ensures (after + (other + moved))[o] == (before + other)[o] {
      assert (after + q)[o] == (before + kept)[o];
      assert (moved + kept)[o] == q[o];
    }
  }

  /** A step moves passengers between queue, elevator and ledger, and loses or adds none. */
  lemma StepConserves(w: World, k: nat, cfg: Config)
    requires k < |w.cars|
    ensures Bag(StepAt(w, k, cfg)) == Bag(w)
  {
    var load := w.cars[k].load;
    var moved := MoveCar(w.cars[k], cfg.floors, cfg.maxTravelDistance, true);
    assert moved.load == load;
    var f := moved.floor;
    var off := Alighting(load, f);
    var c0 := moved.(load := Remaining(load, f));
    DisembarkConserves(load, f);
    var b := Board(c0, w.queues, cfg.capacity);
    BoardConserves(c0, w.queues, cfg.capacity);
    RidingUpdate(w.cars, k, b.0);
    Balance(Waiting(b.1), Waiting(w.queues), Riding(w.cars[k := b.0]), Riding(w.cars),
            multiset(load), multiset(c0.load), multiset(b.0.load), multiset(off), multiset(w.ledger));
  }

  /** Multiset arithmetic for one step: what leaves the elevator reaches the ledger. */
  lemma Balance(q': multiset<Passenger>, q: multiset<Passenger>, l': multiset<Passenger>, l: multiset<Passenger>,
                load: multiset<Passenger>, stay: multiset<Passenger>, load': multiset<Passenger>,
                off: multiset<Passenger>, ledger: multiset<Passenger>)
    requires l' + load == l + load'
    requires q' + load' == q + stay
    requires off + stay == load
    ensures q' + l' + (ledger + off) == q + l + ledger
  {
    forall o ensures (q' + l' + (ledger + off))[o] == (q + l + ledger)[o] {
      assert (l' + load)[o] == (l + load')[o];
      assert (q' + load')[o] == (q + stay)[o];
      assert (off + stay)[o] == load[o];
    }
  }

  // ---------------------------------------------------------------------------
  // The invariant is kept by a step

  /** A move keeps an elevator within its bounds. */
  lemma MoveKeepsCar(c: Car, cfg: Config)
    requires CarOK(c, cfg)
    ensures CarOK(MoveCar(c, cfg.floors, cfg.maxTravelDistance, true), cfg)
  {
    if cfg.maxTravelDistance >= 0 && cfg.floors + cfg.maxTravelDistance <= INT_MAX {
      MoveStaysInBuilding(c, cfg.floors, cfg.maxTravelDistance, true);
    }
  }

  /** Letting off the passengers bound for the floor keeps an elevator within its bounds. */
  lemma AlightKeepsCar(c: Car, cfg: Config)
    requires CarOK(c, cfg)
    ensures CarOK(c.(load := Remaining(c.load, c.floor)), cfg)
  {
  }

  /** Boarding fills an elevator at most up to its capacity and does not move it. */
  lemma BoardKeepsCar(c: Car, queues: seq<seq<Passenger>>, cfg: Config)
    requires CarOK(c, cfg)
    ensures CarOK(Board(c, queues, cfg.capacity).0, cfg)
  {
    if 0 <= c.floor < |queues| {
      BoardScanGate(queues[c.floor], c.direction, cfg.capacity - |c.load|);
    }
  }

  /** The stepped elevator stays within capacity and inside the building. */
  lemma StepKeepsCar(w: World, k: nat, cfg: Config)
    requires k < |w.cars| && CarOK(w.cars[k], cfg)
    ensures CarOK(StepAt(w, k, cfg).cars[k], cfg)
  {
    var moved := MoveCar(w.cars[k], cfg.floors, cfg.maxTravelDistance, true);
    var stay := moved.(load := Remaining(moved.load, moved.floor));
    MoveKeepsCar(w.cars[k], cfg);
    AlightKeepsCar(moved, cfg);
    BoardKeepsCar(stay, w.queues, cfg);
  }

  /** Boarding only takes passengers out of a queue, so every queue still holds its own floor's passengers. */
  lemma StepKeepsQueues(w: World, k: nat, cfg: Config)
    requires k < |w.cars| && QueuesOK(w.queues)
    ensures QueuesOK(StepAt(w, k, cfg).queues)
  {
    var moved := MoveCar(w.cars[k], cfg.floors, cfg.maxTravelDistance, true);
    var f := moved.floor;
    var stay := Remaining(moved.load, f);
    if 0 <= f < |w.queues| {
      BoardScanGate(w.queues[f], moved.direction, cfg.capacity - |stay|);
    }
  }

  /** The census only depends on the multiset of everybody, which a step keeps. */
  lemma StepKeepsCensus(w: World, k: nat, cfg: Config)
    requires k < |w.cars| && Census(w, cfg.floors)
    ensures Census(StepAt(w, k, cfg), cfg.floors)
  {
    StepConserves(w, k, cfg);
  }

  lemma StepPreservesInv(w: World, k: nat, cfg: Config)
    requires Inv(w, cfg) && k < |w.cars|
    ensures Inv(StepAt(w, k, cfg), cfg)
  {
    StepKeepsCar(w, k, cfg);
    StepKeepsQueues(w, k, cfg);
    StepKeepsCensus(w, k, cfg);
  }

  // ---------------------------------------------------------------------------
  // Nobody stays on board for the floor the elevator stands at

  /**
   * After its step, no passenger on board an elevator is bound for the
   * elevator's floor: those bound there got off, and those who got on came
   * from that floor's queue, whose trips all lead elsewhere.
   */
  lemma StepClearsFloor(w: World, k: nat, cfg: Config)
    requires Inv(w, cfg) && k < |w.cars|
    ensures var c := StepAt(w, k, cfg).cars[k];
      forall p :: p in c.load ==> p.destination != c.floor
  {
    var moved := MoveCar(w.cars[k], cfg.floors, cfg.maxTravelDistance, true);
    var f := moved.floor;
    var stay := Remaining(moved.load, f);
    if 0 <= f < |w.queues| {
      var q := w.queues[f];
      BoardScanGate(q, moved.direction, cfg.capacity - |stay|);
      forall p | p in q ensures p.destination != f {
        WaitingHas(w.queues, f, p);
        assert p in Bag(w);
      }
    }
  }

  // ---------------------------------------------------------------------------
  // The elevators' part of a tick: every elevator's step, in list order

  /** Entry k + 1 of ts is entry k after elevator k's step. */
  predicate StepIn(ts: seq<World>, k: nat, cfg: Config)
    requires k + 1 < |ts|
  {
    k < |ts[k].cars| && ts[k + 1] == StepAt(ts[k], k, cfg)
  }

  /** Every entry of ts after the first is the one before it after that elevator's step. */
  predicate Chained(ts: seq<World>, cfg: Config) {
    forall k :: 0 <= k < |ts| - 1 ==> StepIn(ts, k, cfg)
  }

  /**
   * The elevator loop of a tick: starting from ts[0], elevators 0, 1, ... take
   * their steps in list order, ts[k] being the world before elevator k's step
   * and the last entry the world after every elevator has had its step.
   */
  predicate Turns(ts: seq<World>, cfg: Config) {
    ts != [] && |ts| == |ts[0].cars| + 1 && Chained(ts, cfg)
  }

  /** Two chains from the same world agree on every entry they both have. */
  lemma {:induction false} ChainsAgree(ts: seq<World>, us: seq<World>, i: nat, cfg: Config)
    requires Chained(ts, cfg) && Chained(us, cfg) && i < |ts| && i < |us| && ts[0] == us[0]
    ensures ts[i] == us[i]
  {
    if i > 0 {
      ChainsAgree(ts, us, i - 1, cfg);
      assert StepIn(ts, i - 1, cfg) && StepIn(us, i - 1, cfg);
    }
  }

  /** The elevator loop is a function of the world it starts from. */
  lemma TurnsDeterministic(ts: seq<World>, us: seq<World>, cfg: Config)
    requires Turns(ts, cfg) && Turns(us, cfg) && ts[0] == us[0]
    ensures ts == us
  {
    forall i | 0 <= i < |ts| ensures ts[i] == us[i] {
      ChainsAgree(ts, us, i, cfg);
    }
  }

  /** A chain extended by the next elevator's step is a chain one entry longer. */
  lemma ChainExtend(ts: seq<World>, r: World, cfg: Config)
    requires Chained(ts, cfg) && ts != [] && |ts| - 1 < |ts[|ts| - 1].cars|
    requires r == StepAt(ts[|ts| - 1], |ts| - 1, cfg)
    ensures Chained(ts + [r], cfg)
  {
    var us := ts + [r];
    forall k | 0 <= k < |us| - 1 ensures StepIn(us, k, cfg) {
      if k < |ts| - 1 {
        assert StepIn(ts, k, cfg);
        assert us[k] == ts[k] && us[k + 1] == ts[k + 1];
      }
    }
  }

  lemma StepInConserves(ts: seq<World>, k: nat, cfg: Config)
    requires k + 1 < |ts| && StepIn(ts, k, cfg)
    ensures Bag(ts[k + 1]) == Bag(ts[k])
  {
    StepConserves(ts[k], k, cfg);
  }

  lemma StepInPreservesInv(ts: seq<World>, k: nat, cfg: Config)
    requires k + 1 < |ts| && StepIn(ts, k, cfg) && Inv(ts[k], cfg)
    ensures Inv(ts[k + 1], cfg)
  {
    StepPreservesInv(ts[k], k, cfg);
  }

  /** Elevators 0 .. n-1 carry nobody whose destination is the floor they stand on. */
  predicate Cleared(w: World, n: nat) {
    forall j, p :: 0 <= j < n && j < |w.cars| && p in w.cars[j].load ==> p.destination != w.cars[j].floor
  }

  /** Elevator k's step clears elevator k and leaves the others, so one more elevator is cleared. */
  lemma StepInClears(ts: seq<World>, k: nat, cfg: Config)
    requires k + 1 < |ts| && StepIn(ts, k, cfg) && Inv(ts[k], cfg) && Cleared(ts[k], k)
    ensures Cleared(ts[k + 1], k + 1)
  {
    StepClearsFloor(ts[k], k, cfg);
  }

  /** The steps neither lose nor add anybody. */
  lemma {:induction false} ChainConserves(ts: seq<World>, i: nat, cfg: Config)
    requires Chained(ts, cfg) && i < |ts|
    ensures Bag(ts[i]) == Bag(ts[0])
  {
    if i > 0 {
      ChainConserves(ts, i - 1, cfg);
      StepInConserves(ts, i - 1, cfg);
    }
  }

  /** The steps keep the invariant. */
  lemma {:induction false} ChainPreservesInv(ts: seq<World>, i: nat, cfg: Config)
    requires Chained(ts, cfg) && i < |ts| && Inv(ts[0], cfg)
    ensures Inv(ts[i], cfg)
  {
    if i > 0 {
      ChainPreservesInv(ts, i - 1, cfg);
      StepInPreservesInv(ts, i - 1, cfg);
    }
  }

  /** The steps only append to the ledger. */
  lemma {:induction false} ChainGrowsLedger(ts: seq<World>, i: nat, cfg: Config)
    requires Chained(ts, cfg) && i < |ts|
    ensures ts[0].ledger <= ts[i].ledger
  {
    if i > 0 {
      ChainGrowsLedger(ts, i - 1, cfg);
      assert StepIn(ts, i - 1, cfg);
    }
  }

  /** After their steps, elevators 0 .. i-1 carry nobody bound for the floor they stand on. */
  lemma {:induction false} ChainClears(ts: seq<World>, i: nat, cfg: Config)
    requires Chained(ts, cfg) && i < |ts| && Inv(ts[0], cfg)
    ensures Cleared(ts[i], i)
  {
    if i > 0 {
      ChainClears(ts, i - 1, cfg);
      ChainPreservesInv(ts, i - 1, cfg);
      StepInClears(ts, i - 1, cfg);
    }
  }

  /**
   * What the elevator loop of a tick keeps: the invariant holds after it,
   * nobody is lost or added, the ledger has only grown, and no elevator
   * carries a passenger bound for the floor it stands on.
   */
  lemma TurnsKeep(ts: seq<World>, cfg: Config)
    requires Turns(ts, cfg) && Inv(ts[0], cfg)
    ensures var r := ts[|ts| - 1];
      Inv(r, cfg) && Bag(r) == Bag(ts[0]) && ts[0].ledger <= r.ledger && Cleared(r, |ts| - 1)
  {
    var n := |ts| - 1;
    ChainPreservesInv(ts, n, cfg);
    ChainConserves(ts, n, cfg);
    ChainGrowsLedger(ts, n, cfg);
    ChainClears(ts, n, cfg);
  }

  /**
   * One tick as a relation on worlds: from w, the arrivals give mid (elevators
   * and ledger untouched), and the elevator loop from mid, passing through
   * turns, ends in r.
   */
  predicate Ticked(w: World, mid: World, turns: seq<World>, r: World, arrivals: seq<Option<int>>, tick: int, cfg: Config) {
    && mid.cars == w.cars && mid.ledger == w.ledger
    && Arrived(w.queues, mid.queues, arrivals, tick)
    && Turns(turns, cfg) && turns[0] == mid && turns[|turns| - 1] == r
  }

  /**
   * A run of n ticks as a relation on worlds: trace holds the n + 1 states
   * passed through, mids the states after each tick's arrivals, turns each
   * tick's elevator loop, and step t is tick t with draws schedule[t].
   */
  predicate Traced(trace: seq<World>, mids: seq<World>, turns: seq<seq<World>>, schedule: seq<seq<Option<int>>>,
                   n: nat, cfg: Config) {
    && |trace| == n + 1 && |mids| == n && |turns| == n && n <= |schedule|
    && forall t :: 0 <= t < n ==> Ticked(trace[t], mids[t], turns[t], trace[t + 1], schedule[t], t, cfg)
  }

  /** A run extended by the next tick is a run one tick longer. */
  lemma TraceExtend(trace: seq<World>, mids: seq<World>, turns: seq<seq<World>>, schedule: seq<seq<Option<int>>>,
                    n: nat, cfg: Config, mid: World, ts: seq<World>, r: World)
    requires Traced(trace, mids, turns, schedule, n, cfg) && n < |schedule|
    requires Ticked(trace[n], mid, ts, r, schedule[n], n, cfg)
    ensures Traced(trace + [r], mids + [mid], turns + [ts], schedule, n + 1, cfg)
    ensures (trace + [r])[0] == trace[0] && (trace + [r])[n + 1] == r
  {
    var trace', mids', turns' := trace + [r], mids + [mid], turns + [ts];
    forall t | 0 <= t < n + 1 ensures Ticked(trace'[t], mids'[t], turns'[t], trace'[t + 1], schedule[t], t, cfg) {
      if t < n {
        assert trace'[t] == trace[t] && trace'[t + 1] == trace[t + 1] && mids'[t] == mids[t] && turns'[t] == turns[t];
      }
    }
  }

  // ---------------------------------------------------------------------------
  // Arrivals

  /** A newly generated passenger: the trip drawn on floor f at this tick. */
  predicate NewPassenger(p: Passenger, f: int, destination: int, tick: int) {
    p.origin == f && p.destination == destination && p.arrivalTick == tick
  }

  /**
   * The queues after the generation step has visited floors 0 .. n-1: each of
   * those floors with a draw gains, at the end of its queue, the new passenger
   * the draw names; every other queue is unchanged.
   */
  predicate ArrivedUpTo(before: seq<seq<Passenger>>, after: seq<seq<Passenger>>, arrivals: seq<Option<int>>, tick: int, n: nat) {
    && |after| == |before| && n <= |arrivals| <= |before|
    && (forall f :: 0 <= f < |before| && (f >= n || arrivals[f].None?) ==> after[f] == before[f])
    && (forall f :: 0 <= f < n && arrivals[f].Some? ==>
          && |after[f]| == |before[f]| + 1 && after[f][..|before[f]|] == before[f]
          && NewPassenger(after[f][|before[f]|], f, arrivals[f].value, tick))
  }

  /** The queues after the whole generation step. */
  predicate Arrived(before: seq<seq<Passenger>>, after: seq<seq<Passenger>>, arrivals: seq<Option<int>>, tick: int) {
    ArrivedUpTo(before, after, arrivals, tick, |arrivals|)
  }

  /**
   * What holds while arrivals are added floor by floor, from world w0: the
   * invariant, elevators and ledger untouched, floors below n done, and
   * nobody lost.
   */
  predicate Arriving(w0: World, w: World, arrivals: seq<Option<int>>, tick: int, n: nat, cfg: Config) {
    && Inv(w, cfg) && w.cars == w0.cars && w.ledger == w0.ledger
    && ArrivedUpTo(w0.queues, w.queues, arrivals, tick, n)
    && Bag(w0) <= Bag(w)
  }

  /** A floor without a draw leaves the queues as they are. */
  lemma ArrivedSkip(before: seq<seq<Passenger>>, after: seq<seq<Passenger>>, arrivals: seq<Option<int>>, tick: int, n: nat)
    requires ArrivedUpTo(before, after, arrivals, tick, n) && n < |arrivals| && arrivals[n].None?
    ensures ArrivedUpTo(before, after, arrivals, tick, n + 1)
  {
  }

  /** A floor with a draw gains the drawn passenger at the end of its queue. */
  lemma ArrivedAppend(before: seq<seq<Passenger>>, after: seq<seq<Passenger>>, arrivals: seq<Option<int>>, tick: int, n: nat,
                      p: Passenger)
    requires ArrivedUpTo(before, after, arrivals, tick, n) && n < |arrivals| && arrivals[n].Some?
    requires NewPassenger(p, n, arrivals[n].value, tick)
    ensures ArrivedUpTo(before, after[n := after[n] + [p]], arrivals, tick, n + 1)
  {
    var next := after[n := after[n] + [p]];
    assert next[n][..|before[n]|] == before[n];
  }

  /** One more floor visited without a draw. */
  lemma ArrivingSkip(w0: World, w: World, arrivals: seq<Option<int>>, tick: int, n: nat, cfg: Config)
    requires Arriving(w0, w, arrivals, tick, n, cfg) && n < |arrivals| && arrivals[n].None?
    ensures Arriving(w0, w, arrivals, tick, n + 1, cfg)
  {
    ArrivedSkip(w0.queues, w.queues, arrivals, tick, n);
  }

  /** One more floor visited whose draw appended p, keeping the invariant and adding p to the bag. */
  lemma ArrivingAppend(w0: World, w: World, r: World, arrivals: seq<Option<int>>, tick: int, n: nat, cfg: Config, p: Passenger)
    requires Arriving(w0, w, arrivals, tick, n, cfg) && n < |arrivals| && arrivals[n].Some?
    requires NewPassenger(p, n, arrivals[n].value, tick)
    requires r == w.(queues := w.queues[n := w.queues[n] + [p]])
    requires Inv(r, cfg) && Bag(r) == Bag(w) + multiset{p}
    ensures Arriving(w0, r, arrivals, tick, n + 1, cfg)
  {
    ArrivedAppend(w0.queues, w.queues, arrivals, tick, n, p);
  }

  /** The draws the generator can produce: one per floor below the top, each a different floor in range. */
  predicate ArrivalsOK(arrivals: seq<Option<int>>, floors: int) {
    |arrivals| == floors &&
    forall f :: 0 <= f < |arrivals| && arrivals[f].Some? ==> 0 <= arrivals[f].value < floors && arrivals[f].value != f
  }

  /** Appending p to one queue adds exactly p to the waiting multiset. */
  lemma WaitingAppend(qs: seq<seq<Passenger>>, f: nat, p: Passenger)
    requires f < |qs|
    ensures Waiting(qs[f := qs[f] + [p]]) == Waiting(qs) + multiset{p}
  {
    WaitingUpdate(qs, f, qs[f] + [p]);
    assert multiset(qs[f] + [p]) == multiset(qs[f]) + multiset{p};
    Cancel(Waiting(qs[f := qs[f] + [p]]), Waiting(qs), multiset(qs[f]), multiset{p});
  }

  lemma Cancel(x: multiset<Passenger>, y: multiset<Passenger>, m: multiset<Passenger>, e: multiset<Passenger>)
    requires x + m == y + (m + e)
    ensures x == y + e
  {
    forall o ensures x[o] == (y + e)[o] {
      assert (x + m)[o] == (y + (m + e))[o];
    }
  }

  /** Adding one passenger nobody knew, with a well-formed trip, keeps the census. */
  lemma CensusAdd(w: World, r: World, p: Passenger, floors: int)
    requires Census(w, floors) && TripOK(p, floors) && p !in Bag(w)
    requires Bag(r) == Bag(w) + multiset{p}
    ensures Census(r, floors)
  {
    forall o | o in Bag(r) ensures TripOK(o, floors) && Bag(r)[o] == 1 {
      if o == p {
        assert Bag(w)[o] == 0;
      } else {
        assert Bag(r)[o] == Bag(w)[o];
      }
    }
  }

  /**
   * A new passenger, with a well-formed trip and not known yet, joins the end
   * of its origin's queue: the invariant is kept and exactly that passenger is
   * added to everybody.
   */
  lemma ArrivalPreservesInv(w: World, p: Passenger, cfg: Config)
    requires Inv(w, cfg) && TripOK(p, cfg.floors) && p !in Bag(w)
    ensures var r := w.(queues := w.queues[p.origin := w.queues[p.origin] + [p]]);
      Inv(r, cfg) && Bag(r) == Bag(w) + multiset{p}
  {
    var f := p.origin;
    var r := w.(queues := w.queues[f := w.queues[f] + [p]]);
    WaitingAppend(w.queues, f, p);
    assert Bag(r) == Bag(w) + multiset{p};
    CensusAdd(w, r, p, cfg.floors);
  }
}
