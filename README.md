# Elevator simulation — verified model of the tick-driven core

This project models, in Dafny, the scheduling core of a small Java elevator simulation:

- **Passengers.** A passenger has a fixed trip and a direction derived once from that trip. It also carries an optional "reached" tick that the simulation stamps when the passenger gets off.
- **Elevators.** An elevator is a state machine over its floor, its direction and its ordered list of passengers on board. It supports three operations:
  - a move: the direction-change heuristic, then the boundary clamp, then a clamped multi-floor jump;
  - a capacity-and-direction boarding gate;
  - a disembark operation that filters and removes passengers.
- **The controller (`ElevatorSimulation`).** It holds the elevators, one waiting queue per floor (floors 0 to `floors`), the ledger of completed passengers and the clock. Each tick runs these steps in order:
  1. It appends the tick's arrivals to the ends of the floor queues.
  2. For every elevator in list order, it moves the elevator, lets off the passengers bound for the new floor (stamping them and appending them to the ledger), and boards waiting passengers with a `removeIf` scan of that floor's queue.

  At the end, the report folds the ledger into a count, a 32-bit total, a longest time and a shortest time.

The code is split across four modules:

- `Passengers` (`passenger.dfy`): `Direction`, `Option` and the `Passenger` class.
- `Elevators` (`elevator.dfy`): the `Elevator` class. Each method of the class is proved against a pure function on a `Car` snapshot (floor, direction, load). The lemmas about movement, boarding and disembarking are stated over those functions.
- `Schedule` (`schedule.dfy`): the pure schedule of a tick over a `World` snapshot (cars, queues, ledger). It defines:
  - the simulation invariant `Inv`: one queue per floor, each waiting passenger queued at its origin, every trip well formed, every passenger in exactly one place, and every elevator within capacity and inside the building;
  - the lemmas showing that an elevator's step and an arrival keep that invariant.
- `Simulation` (`simulation.dfy`): the `ElevatorSimulation` class and the report's folds. The methods that change state are proved against pure functions and relations of the schedule:
  - a single step is stated through its own function: boarding (`HandlePassengerBoard`) through `Board`, disembarking (`HandlePassengerDisembark`) through `Alighting` and `Remaining`, and arrivals (`GenerateNewPassengers`, `AddArrival`) through `Arrived` and the queue update;
  - the tick-level methods tie the new `Snapshot()` to the old one through `StepAt` (one elevator's step, `StepElevator`), `Turns` (the elevator loop of a tick, `MoveElevators`), `Ticked` (one tick, `SimulateTick` and `RunTick`) or `Traced` (the whole run, `RunTicks` and `RunSimulation`).

Java `int` arithmetic is modelled where it can bite: `Int32` wraps a value into the 32-bit range. The elevator's jump `currentFloor + maxTravelDistance` and the report's running total both wrap as in Java.

The random draws are an input. For each floor below the top, a tick receives `None` (no arrival) or `Some(d)`, where `d` is the destination the rejection loop would accept. `ArrivalsOK` states what the loop can produce: one draw per floor in `[0, floors)`, with each destination in range and different from its floor.

## Model

| member | source | states |
|---|---|---|
| Passengers.Reverse | Elevator.java:82 | Reversing a direction gives the other direction. |
| Passengers.Passenger.constructor | Passenger.java:10-15 | A new passenger stores its origin, destination and arrival tick and has not reached its destination. Its direction is a constant derived from the trip. |
| Passengers.Passenger.SetDestinationReachedTick | Passenger.java:17-19 | After the call, the reached tick is exactly the given tick, whatever it was before (the last call wins). The passenger counts as arrived, and its time is `tick - arrivalTick`. |
| Passengers.Passenger.HasReachedDestination | Passenger.java:21-23 | A passenger has arrived exactly when its reached tick is set. Its meaning is pinned by `SetDestinationReachedTick` and the two time lemmas below. |
| Passengers.Passenger.TotalTimeTaken | Passenger.java:25-27 | The time is measured up to the reached tick once set, otherwise up to the given current tick. What this means is stated by `TimeFrozenOnceReached` and `TimeRunsUntilReached`. |
| Passengers.DirectionOfTrip | Passenger.java:14 | The direction is UP iff the destination is above the origin, and DOWN otherwise (including when the two are equal). |
| Passengers.TimeFrozenOnceReached | Passenger.java:25-27 | Once a passenger has reached its destination, its time taken is the same whatever current tick it is read with. |
| Passengers.TimeRunsUntilReached | Passenger.java:25-27 | Before completion, the time taken grows one for one with the current tick. |
| Elevators.Int32 | Elevator.java:96 | Java `int` wrap-around: the result is in the 32-bit range and equals the exact value when that value fits. |
| Elevators.Heading | Elevator.java:80-92 | In a building with more than one floor, the heading chosen at the top floor is DOWN and at floor 0 it is UP, whatever the heuristic said. |
| Elevators.JumpWrapsPastTop | Elevator.java:95-96 | The jump's addition wraps as a Java `int`: from floor 5 heading UP with a jump of `Integer.MAX_VALUE` in a 32-floor building, the elevator lands on floor -2147483644. |
| Elevators.MoveCar | Elevator.java:72-99 | A move never changes who is on board. |
| Elevators.MoveWithoutPassengers | Elevator.java:72-78 | A move of an elevator with nobody on board changes neither its floor nor its direction. |
| Elevators.MoveStaysInBuilding | Elevator.java:95-99 | Given floor in `[0, top]`, a non-negative jump and a floor plus jump that does not overflow an `int`, a move keeps the floor in `[0, top]` and keeps the load. The new floor is `min(f+d, top)` heading UP and `max(f-d, 0)` heading DOWN. |
| Elevators.MoveIsStrict | Elevator.java:81-99 | With `top > 0` and a floor plus jump that does not overflow an `int`, the heading at the top floor is DOWN and at floor 0 it is UP. With a positive jump, an UP move strictly raises the floor and a DOWN move strictly lowers it. |
| Elevators.ReverseIffNothingAhead | Elevator.java:51-64 | Strictly between the end floors and with passengers on board, a checked move reverses iff no passenger on board has a destination strictly ahead. |
| Elevators.UncheckedMoveKeepsDirectionInside | Elevator.java:81-92 | Without the heuristic, an elevator strictly inside the building keeps its direction. |
| Elevators.Alighting | Elevator.java:136-140 | The passengers taken off are exactly the passengers on board bound for the floor, and no more than the load. |
| Elevators.Remaining | Elevator.java:143 | The passengers left on board are exactly those bound elsewhere. |
| Elevators.RemoveAll | Elevator.java:143 | `List.removeAll`: the result holds exactly the elements of the list that are not in the removed list. |
| Elevators.RemoveAlightingLeavesRemaining | Elevator.java:143 | `removeAll` of the disembarking list leaves the other passengers, in their original order. |
| Elevators.DisembarkConserves | Elevator.java:132-146 | The disembarked passengers plus the remaining passengers make up the old load, as a multiset. |
| Elevators.BoardScan | ElevatorSimulation.java:116-122 | Every queued passenger either boards or keeps waiting: the two lists together are as long as the queue. |
| Elevators.BoardScanTakesFirstMatching | ElevatorSimulation.java:116-122 | The scan boards exactly the first `capacity - onboard` queued passengers whose direction is the elevator's, in queue order. |
| Elevators.BoardScanConserves | ElevatorSimulation.java:116-122 | Boarded plus still waiting is the old queue, as a multiset. |
| Elevators.BoardScanGate | Elevator.java:110-125 | At most `room` passengers board, and only matching ones. A matching passenger keeps waiting only once the room is used up. |
| Elevators.RemoveAllIgnores | ElevatorSimulation.java:116-122 | Removing one more passenger who is not in the list leaves the result unchanged. |
| Elevators.BoardScanKeepsOrder | ElevatorSimulation.java:116-122 | In a queue without repeats, the passengers left waiting are the queue with the boarded ones removed, so the rest of the queue keeps its order. |
| Elevators.Elevator.constructor | Elevator.java:27-35 | A new elevator is on floor 0, heading UP, with nobody on board, and stores the given capacity, jump and top floor. |
| Elevators.Elevator.ChangeDirection | Elevator.java:42-44 | Only the direction changes, and it becomes the given one. |
| Elevators.Elevator.ShouldChangeDirection | Elevator.java:51-64 | The loop's answer is true iff the elevator faces out of the building at either end, or no passenger on board is bound for a floor strictly ahead. |
| Elevators.Elevator.Move | Elevator.java:72-103 | The new state is `MoveCar` of the old one, with the jump wrapped as a Java `int`. When the elevator was inside the building, the jump is non-negative and floor plus jump does not overflow, it stays inside. |
| Elevators.Elevator.CanBoard | Elevator.java:122-125 | The gate: room on board and the passenger's direction equal to the elevator's. Its effect is stated by `BoardPassenger` and `BoardScanGate`. |
| Elevators.Elevator.BoardPassenger | Elevator.java:110-114 | The passenger is appended iff `canBoard` held, and otherwise nothing changes. Floor and direction are unchanged, and capacity is respected. |
| Elevators.Elevator.DisembarkPassengers | Elevator.java:132-146 | The loop returns `Alighting` of the old load. What stays on board is `Remaining`, and floor, direction and capacity are kept. |
| Schedule.Board | ElevatorSimulation.java:107-123 | The board step keeps the elevator's floor and direction and the number of queues, and touches no queue but the one of the elevator's floor. |
| Schedule.StepAt | ElevatorSimulation.java:73-75 | One elevator's step changes no other elevator, keeps the number of elevators and queues, and only appends to the ledger. |
| Schedule.InitialInv | ElevatorSimulation.java:29-40 | The state the constructor builds (elevators empty on floor 0, empty queues, empty ledger) satisfies the invariant and holds nobody. |
| Schedule.BoardConserves | ElevatorSimulation.java:107-123 | The board step only moves passengers: waiting plus on board is the same multiset before and after. |
| Schedule.StepConserves | ElevatorSimulation.java:72-76 | An elevator's step (move, disembark, board) neither loses nor adds anybody over queues, elevators and ledger. |
| Schedule.MoveKeepsCar | Elevator.java:72-99 | A move keeps an elevator within capacity, and inside the building when the jump is non-negative and the top floor plus the jump fits in an `int`. |
| Schedule.AlightKeepsCar | Elevator.java:132-146 | Letting passengers off keeps an elevator within its bounds. |
| Schedule.BoardKeepsCar | ElevatorSimulation.java:107-123 | Boarding keeps an elevator within capacity and on its floor. |
| Schedule.StepKeepsCar | ElevatorSimulation.java:72-76 | After its step, an elevator is still within capacity, and inside the building whenever the jump is non-negative and the top floor plus the jump fits in an `int`. |
| Schedule.StepKeepsQueues | ElevatorSimulation.java:107-123 | Boarding only removes passengers from a queue, so each queue still holds its own floor's passengers. |
| Schedule.StepKeepsCensus | ElevatorSimulation.java:72-76 | After a step, every passenger still has a well-formed trip and is in exactly one place. |
| Schedule.StepPreservesInv | ElevatorSimulation.java:72-76 | An elevator's step keeps the simulation invariant `Inv`. |
| Schedule.StepClearsFloor | ElevatorSimulation.java:73-75 | After its step, no passenger on board is bound for the elevator's floor. |
| Schedule.ChainsAgree | ElevatorSimulation.java:72-76 | Two runs of the elevator loop from the same world agree at every step they both reach. |
| Schedule.TurnsDeterministic | ElevatorSimulation.java:72-76 | The elevator loop of a tick is determined by the world it starts from. |
| Schedule.ChainExtend | ElevatorSimulation.java:72-76 | A run of the loop followed by the next elevator's step is a run one elevator longer. |
| Schedule.ChainConserves | ElevatorSimulation.java:72-76 | Along the elevator loop, nobody is lost or added. |
| Schedule.ChainPreservesInv | ElevatorSimulation.java:72-76 | Along the elevator loop, the invariant is kept. |
| Schedule.ChainGrowsLedger | ElevatorSimulation.java:72-76 | Along the elevator loop, the ledger only grows. |
| Schedule.ChainClears | ElevatorSimulation.java:72-76 | After elevators 0 to i-1 have had their steps, none of them carries a passenger bound for the floor it stands on. |
| Schedule.TurnsKeep | ElevatorSimulation.java:72-76 | After the whole elevator loop of a tick, the invariant holds, the multiset of everybody is unchanged, the ledger has only grown, and no elevator carries a passenger bound for its floor. |
| Schedule.TraceExtend | ElevatorSimulation.java:54-57 | A run of ticks 0 to n-1 followed by tick n with its draws is a run of ticks 0 to n. |
| Schedule.ArrivedSkip | ElevatorSimulation.java:85-87 | A floor without a draw leaves every queue as it was. |
| Schedule.ArrivedAppend | ElevatorSimulation.java:95-96 | A floor with a draw gains the drawn passenger at the end of its own queue, and earlier entries keep their order. |
| Schedule.ArrivingSkip | ElevatorSimulation.java:85-87 | Visiting a floor without a draw keeps the generation loop's invariant one floor further. |
| Schedule.ArrivingAppend | ElevatorSimulation.java:85-97 | Visiting a floor whose drawn passenger was appended keeps the generation loop's invariant one floor further. |
| Schedule.WaitingAppend | ElevatorSimulation.java:96 | Appending a passenger to one queue adds exactly that passenger to everybody waiting. |
| Schedule.CensusAdd | ElevatorSimulation.java:95-96 | Adding a new passenger with a well-formed trip keeps everybody in exactly one place. |
| Schedule.ArrivalPreservesInv | ElevatorSimulation.java:88-96 | A new passenger with origin and destination in `[0, floors)` and distinct, appended to its origin's queue, keeps the invariant. Exactly that passenger is added. |
| Simulation.Int32Accumulates | ElevatorSimulation.java:152-156 | Wrapping after each addition gives the wrapped exact sum. |
| Simulation.TimesOf | ElevatorSimulation.java:152-153 | One time per ledger entry, each being that passenger's `totalTimeTaken(currentTick)`. |
| Simulation.MaxOfIsMaximum | ElevatorSimulation.java:159-161 | The max fold is an upper bound of the times and is one of them. |
| Simulation.MinOfIsMinimum | ElevatorSimulation.java:162-164 | The min fold is a lower bound of the times and is one of them. |
| Simulation.ReportExtremes | ElevatorSimulation.java:148-164 | On a non-empty ledger whose times fit in an `int`, the longest time is the largest time taken by a completed passenger and the shortest is the smallest. |
| Simulation.BuildElevators | ElevatorSimulation.java:29-35 | The loop builds `numberOfElevators` (none when negative) distinct new elevators, each on floor 0, heading UP and empty, with the configured capacity, jump and top floor `floors`. |
| Simulation.EmptyQueues | ElevatorSimulation.java:37-40 | The loop builds `floors + 1` empty queues. |
| Simulation.ElevatorSimulation.constructor | ElevatorSimulation.java:24-40 | Builds the elevators and the queues as above, with an empty ledger and the clock at 0. The invariant holds. |
| Simulation.ElevatorSimulation.GenerateNewPassengers | ElevatorSimulation.java:84-99 | Floor f below the top gains a passenger iff the draw for f is present. That passenger has origin f, the drawn destination and this tick as arrival tick, and is appended at the end of f's queue. Elevators and ledger are unchanged, the invariant holds, and nobody is lost. |
| Simulation.ElevatorSimulation.AddArrival | ElevatorSimulation.java:95-96 | A fresh passenger that has not reached its destination is appended to its origin's queue. Exactly it is added to everybody, and the invariant holds. |
| Simulation.ElevatorSimulation.HandlePassengerBoard | ElevatorSimulation.java:107-123 | The elevator and the queues become `Board` of the old ones: the removeIf scan over the queue of the elevator's floor, where an out-of-range floor boards nobody. |
| Simulation.ElevatorSimulation.HandlePassengerDisembark | ElevatorSimulation.java:132-140 | The ledger grows by exactly the disembarking passengers, in order, and each of them is stamped with this tick. Passengers who stay on board keep their reached tick. |
| Simulation.ElevatorSimulation.CompleteTrips | ElevatorSimulation.java:136-139 | Each passenger of the list, in order, is stamped with the tick and appended to the ledger; no other object changes. |
| Simulation.ElevatorSimulation.StepElevator | ElevatorSimulation.java:73-75 | Elevator i's turn is `StepAt`: a checked move, then disembark and board at the new floor. |
| Simulation.ElevatorSimulation.MoveElevators | ElevatorSimulation.java:72-76 | The elevators take their turns in list order: the states passed through form `Turns` from the old state to the new one, so `TurnsKeep` applies. |
| Simulation.ElevatorSimulation.SimulateTick | ElevatorSimulation.java:68-77 | A tick is generation, then every elevator's turn: `Ticked` relates the old state to the new one. The invariant is kept and the ledger only grows. |
| Simulation.ElevatorSimulation.RunTick | ElevatorSimulation.java:55-56 | One pass of the run's loop sets the clock to the tick and then is `SimulateTick` of that tick. |
| Simulation.ElevatorSimulation.RunTicks | ElevatorSimulation.java:54-57 | Ticks 0 to duration-1 run in order with their draws: the states passed through form `Traced` from the old state to the new one. The clock ends on the last tick, the invariant is kept and the ledger only grows. |
| Simulation.ElevatorSimulation.RunSimulation | ElevatorSimulation.java:52-59 | The run is `RunTicks`, then the report over the final ledger. |
| Simulation.ElevatorSimulation.ReportResults | ElevatorSimulation.java:146-173 | The count is the ledger's length. The total is the 32-bit sum of the times. Longest and shortest are the max and min of the times, folded from `Integer.MIN_VALUE` and `Integer.MAX_VALUE`, and both are 0 when the ledger is empty. |

## Left out

- The `double` average (ElevatorSimulation.java:167) is floating point. The model keeps the integer total and the count instead.
- `Math.random()` and the arrival probability are replaced by explicit draws. `ArrivalsOK` constrains them to what the rejection loop can return. That loop's termination is not modelled: it cannot end when `floors <= 1`.
- `listType` only chooses between `ArrayList` and `LinkedList`. The passengers on board are a single sequence.
- Console output, `main`, `propertiesFileLoaded`, the invalid-floor message in `handlePassengerBoard`, and the constructor's `IOException` path are left out.
- `SimulationProperties` (file I/O and parsing) is not part of this model. The configuration is the record `Config`.
- The getters are read directly as fields.
- Liveness is not modelled. The code does not promise that every passenger eventually gets off: an empty elevator never moves, and a jump larger than one can skip a destination.
- The `else if` at Elevator.java:54 repeats the first condition and can never fire, so `ShouldChange` has only the reachable branches.
- Simulation.ElevatorSimulation.constructor requires `floors >= 0`. Java's `new ArrayList<>(floors)` throws for a negative capacity.
- Simulation.ElevatorSimulation.ReportResults states longest and shortest as `Max(INT_MIN, MaxOf(...))` and `Min(INT_MAX, MinOf(...))`. That they are the largest and the smallest time is the separate lemma `ReportExtremes`, which holds when every time fits in an `int`.
- Passengers.Passenger.TotalTimeTaken subtracts exactly. Java's `int` subtraction would wrap only for ticks more than 2^31 apart.
- Simulation.ElevatorSimulation.SimulateTick does not restate the stamping of the passengers who completed during the tick: `Ticked` relates snapshots, which hold no reached ticks. The stamp is stated for each disembark step by `HandlePassengerDisembark`.
- Simulation.ElevatorSimulation.MoveElevators does not restate the stamping either, for the same reason.
- Simulation.ElevatorSimulation.StepElevator does not restate the stamping either, for the same reason.
- Simulation.ElevatorSimulation.RunTick does not restate the stamping either, so its contract does not tie any passenger's reached tick to the tick at which it got off.
- Simulation.ElevatorSimulation.RunTicks does not constrain the passengers' reached ticks: its contract relates snapshots only, so the ledger passengers' stamps after the run are not tied to the ticks at which they got off.
- Simulation.ElevatorSimulation.RunSimulation reports the times of `TimesOf(completed, currentTick)`, but since the run does not constrain the stamps, the reported times are not tied to the ticks at which the passengers got off. Only each disembark step's stamp is stated, by `HandlePassengerDisembark`.
- Schedule.StepKeepsCar and Elevators.MoveStaysInBuilding promise an elevator inside the building only when the top floor plus `maxTravelDistance` fits in an `int`. Beyond that bound Java's addition wraps and the elevator really can leave the building, as `JumpWrapsPastTop` shows.
- Schedule.CarOK carries the same bound, so the invariant says nothing about the floor of an elevator whose jump can overflow.
- The fact that every ledger passenger has its reached tick set, and nobody waiting or on board has, is not part of the invariant: snapshots do not hold reached ticks.
- Simulation.ElevatorSimulation.GenerateNewPassengers does not state in its contract that the new passengers are fresh objects. That they were unknown before shows in the invariant: every passenger is in exactly one place.
- The generator never creates a passenger on the top floor `floors`, because its loop stops below it. The model keeps that behaviour.
