# One-way tunnel monitor

A model of the monitor that arbitrates a single-lane tunnel shared by cars
heading south, cars heading north and pedestrians (class `Monitor` of
`practica2_turnos2.py`). The monitor keeps six counters (how many of each
class are crossing, how many of each are waiting), a priority marker `turn`
(-1 anyone, 0 south cars, 1 north cars, 2 pedestrians) and an operation
counter. Three predicates decide who may enter; every departure recomputes
`turn` with a threshold rule (more than 2 waiters earns the turn) and, when
the last member of a class leaves, notifies the condition variables of the
two other classes.

Each locked critical section is treated as one atomic step. A blocking
enter operation is split at its `wait_for`. Its first critical section
(`Arrival`) counts the operation, joins the waiters, checks the predicate
once and, when it holds, enters at once (leaves the waiters, joins the
crossers). Each later re-check after a wake-up is a step of its own that
enters when the predicate holds and otherwise changes nothing.

Files and modules:

- `tunnel.dfy`, module `Tunnel`: the state record, the three entry
  predicates, the priority rule, the set of notified conditions, the three
  steps (`Request`, `Grant`, `Leave`) as functions, and what each means.
- `tunnel_safety.dfy`, module `TunnelSafety`: the invariants (non-negative
  counters, no opposite cars together, no cars with pedestrians, a valid
  turn, and a turn earned by its class), their preservation by every step,
  runs of steps and reachability, no lost wake-up, and the accounting of the
  operation counter.
- `monitor.dfy`, module `TunnelMonitor`: class `Monitor` with the counters
  as mutable fields and one method per critical section, each proved to
  perform the corresponding step and to keep the invariants; a ghost history
  of steps shows the state is reachable.
- `tunnel_scenarios.dfy`, module `TunnelScenarios`: concrete hand-overs.
- `tunnel_starvation.dfy`, module `TunnelStarvation`: a reachable round of
  car traffic that repeats for ever while three pedestrians wait. The
  header comment of the source (line 3) says the version guarantees freedom
  from starvation; the priority rule bounds no pedestrian's wait, because a
  departing car favours the opposite direction before pedestrians.

The direction is an integer: 1 means south and every other value means
north; no value is rejected. The operation counter `patata` is modelled.

## Model

| member | source | states |
|---|---|---|
| Tunnel.ToInt32Meaning | practica2_turnos2.py:23-31 | a counter stored in a C `int` holds the unique value in the signed 32-bit range congruent to the assigned value modulo 2^32, and an in-range value unchanged |
| Tunnel.TurnOf | practica2_turnos2.py:33-37 | the turn codes 0, 1, 2 of south cars, north cars and pedestrians are valid codes other than -1 (anyone) |
| Tunnel.ConditionOf | practica2_turnos2.py:39-41 | every class sleeps on the condition variable that gates it: north cars on no_car_s_ped, south cars on no_car_n_ped, pedestrians on no_car_s_n |
| Tunnel.MayEnterMeaning | practica2_turnos2.py:43-48 | a class may enter exactly when no member of either other class is crossing and the turn is its own or anyone's, in both directions of the equivalence |
| Tunnel.TurnGatesOthers | practica2_turnos2.py:43-48 | while the turn names a class, the predicates of the two other classes are false |
| Tunnel.TurnAfterLeave | practica2_turnos2.py:66-116 | the turn set on a departure is a valid code and never favours the departing class |
| Tunnel.PriorityRule | practica2_turnos2.py:66-116 | a departure gives the turn only to another class with more than 2 waiters, and sets it to anyone exactly when neither other class has more than 2 waiters |
| Tunnel.PriorityTieBreak | practica2_turnos2.py:66-116 | when both candidates have more than 2 waiters, a departing car hands the turn to the opposite direction and a departing pedestrian to the north-bound cars |
| Tunnel.Notified | practica2_turnos2.py:79-120 | a departure notifies a condition exactly when its class's crossing count has reached 0 and the condition gates one of the two other classes |
| Tunnel.RequestEffect | practica2_turnos2.py:50-60 | the request part of an enter counts one operation and adds exactly one waiter to its class; crossing counts and the turn are untouched |
| Tunnel.GrantEffect | practica2_turnos2.py:54-63 | a grant moves exactly one member of its class from waiting to crossing; the turn, the operation counter and all other counters are untouched |
| Tunnel.LeaveEffect | practica2_turnos2.py:66-122 | a departure counts one operation, takes exactly one member of its class out of the tunnel, changes no waiting count and sets the turn by the priority rule |
| Tunnel.ArrivalEffect | practica2_turnos2.py:50-104 | the first critical section of an enter operation counts one operation and either lets the caller in at once, exactly when its class may enter, or adds it to its class's waiters; the turn is untouched |
| TunnelSafety.InitialInv | practica2_turnos2.py:21-37 | the freshly constructed monitor satisfies the invariant |
| TunnelSafety.RequestPreservesInv | practica2_turnos2.py:50-104 | a request keeps every counter non-negative, both exclusions, a valid turn and an earned turn |
| TunnelSafety.GrantPreservesInv | practica2_turnos2.py:54-63 | a grant under its predicate with a waiter present keeps the invariant: no opposite cars together, no cars with pedestrians |
| TunnelSafety.LeavePreservesInv | practica2_turnos2.py:66-122 | a departure with its class crossing keeps the invariant, including that a turn naming a class while another is inside was earned by more than 2 waiters |
| TunnelSafety.ApplyPreservesInv | practica2_turnos2.py:50-122 | every step that can happen keeps the invariant |
| TunnelSafety.NoLostWakeup | practica2_turnos2.py:79-120 | when a departure makes a class's predicate true that was false, that class's condition is among those notified |
| TunnelSafety.RunSnoc | practica2_turnos2.py:50-122 | one more step after a run is that step applied to the state the run reached |
| TunnelSafety.RunAppend | practica2_turnos2.py:50-122 | two runs one after the other are the run of the concatenated steps |
| TunnelSafety.RunPreservesInv | practica2_turnos2.py:50-122 | every run of steps from a state satisfying the invariant ends in one satisfying it |
| TunnelSafety.ReachableIsSafe | practica2_turnos2.py:20-122 | in every state reachable from the constructed monitor, counters are non-negative, the turn is valid, opposite cars are never inside together and cars and pedestrians are never inside together |
| TunnelSafety.ToInt32Congruent | practica2_turnos2.py:23 | values equal modulo 2^32 are stored as the same C `int` |
| TunnelSafety.RunCountsOperations | practica2_turnos2.py:50-108 | over any run, the operation counter grows by one per enter and per leave operation, with 32-bit wrap-around, and grants add nothing |
| TunnelSafety.RunIgnoresOperations | practica2_turnos2.py:43-48 | whatever the operation counter holds, the same steps are possible or blocked and leave every other counter the same |
| TunnelMonitor.Monitor.constructor | practica2_turnos2.py:21-41 | the new monitor has all counters 0 and turn -1, with an empty history |
| TunnelMonitor.Monitor.WantsEnterCar | practica2_turnos2.py:50-64 | a car with direction 1 (south) or any other (north) counts the operation, joins its waiters and enters at once exactly when its predicate holds, keeping the invariant |
| TunnelMonitor.Monitor.AwaitCar | practica2_turnos2.py:56-63 | a waiting car re-checking its predicate enters exactly when it holds, and otherwise changes nothing |
| TunnelMonitor.Monitor.LeavesCar | practica2_turnos2.py:66-95 | a car leaving performs the leave step and returns the conditions it notifies |
| TunnelMonitor.Monitor.WantsEnterPedestrian | practica2_turnos2.py:97-104 | a pedestrian counts the operation, joins the waiters and enters at once exactly when its predicate holds |
| TunnelMonitor.Monitor.AwaitPedestrian | practica2_turnos2.py:101-104 | a waiting pedestrian re-checking its predicate enters exactly when it holds, and otherwise changes nothing |
| TunnelMonitor.Monitor.LeavesPedestrian | practica2_turnos2.py:106-122 | a pedestrian leaving performs the leave step and returns the conditions it notifies |
| TunnelScenarios.FirstCarEntersAtOnce | practica2_turnos2.py:50-64 | a south car arriving at the fresh monitor enters at once |
| TunnelScenarios.OppositeCarWaitsForDeparture | practica2_turnos2.py:66-81 | a north car waits behind a south car and may enter once it leaves, its condition notified and the turn anyone's |
| TunnelScenarios.PriorityBlocksEmptyTunnel | practica2_turnos2.py:69-77 | with three north cars waiting, a south departure gives the turn north and a newly arrived south car waits in an empty tunnel |
| TunnelScenarios.PedestrianWaitsForCar | practica2_turnos2.py:97-104 | a pedestrian waits while a car is inside and may enter once it leaves, its condition notified |
| TunnelStarvation.KeepsOutAppend | practica2_turnos2.py:43-48 | a class is kept out along two runs one after the other exactly when it is kept out along each |
| TunnelStarvation.KeepsOutIgnoresOperations | practica2_turnos2.py:43-48 | whether a class is kept out along a run does not depend on the operation counter |
| TunnelStarvation.PedestriansCanStarve | practica2_turnos2.py:66-116 | a reachable state with three pedestrians waiting starts a round of car traffic that never lets a pedestrian in and returns every counter but the operation counter to its start, so it can repeat for ever |

## Left out

- The simulation harness (`delay_*`, `car`, `pedestrian`, `gen_pedestrian`, `gen_cars`, `main`, lines 127-205): random delays, sleeping, printing and process spawning.
- The timing and population constants (lines 13-18): floating-point harness configuration.
- `__repr__` (lines 124-125): string formatting of the operation counter.
- The semantics of `Lock`, `Condition`, `wait_for`, `notify_all` and shared `Value` memory: each critical section is one atomic step, and blocking is a re-check that fails and changes nothing (`AwaitCar`, `AwaitPedestrian`); which notified waiter runs first is not modelled.
- Waiters are counted, not identified: the model does not say which waiting actor of a class enters.
- Liveness under fairness is not modelled; only the one-step priority facts and the starvation round are.
- The crossing and waiting counters are unbounded integers: their C `int` wrap-around at 2^31 is not modelled, since they count live processes; the operation counter, which grows without bound, wraps as a C `int`.
- Tunnel.Request, Tunnel.Grant, Tunnel.Arrival and Tunnel.Leave: their meaning is stated by RequestEffect, GrantEffect, ArrivalEffect and LeaveEffect rather than on the functions.
- Wake-ups in runs: an `Enter` step (a successful re-check) may happen whenever its class has a waiter and its predicate holds; runs do not record whether that waiter was notified. Only a departure can make a predicate true, and `NoLostWakeup` shows that it then notifies that class, so a waiter whose predicate holds has been notified since it last checked and the step is one the source can take.
- Leave operations require the leaving class to be inside (`Leave`, `LeavesCar`, `LeavesPedestrian`): called otherwise the source would drive a crossing counter to -1, but its callers `car` and `pedestrian` (lines 138-148, 151-157) only leave after entering.
