/**
 * The bookkeeping of the one-way tunnel monitor: who is crossing, who is
 * waiting, which class currently holds the priority, the three entry
 * predicates, the priority rule applied on every departure, and the atomic
 * steps (request, grant, leave) that each locked critical section performs.
 */
module Tunnel {

  /** Codes the monitor stores in its `turn` counter. */
  const AnyTurn: int := -1
  const SouthTurn: int := 0
  const NorthTurn: int := 1
  const PedestrianTurn: int := 2

  /** A class gets the priority once strictly more than this many of it wait. */
  const Threshold: int := 2

  /** The integer a caller passes for a car heading south; every other value means north. */
  const SouthCode: int := 1

  /** Bounds of the C `int` behind every shared counter. */
  const Int32Min: int := -0x8000_0000
  const Int32Max: int := 0x7fff_ffff
  const Int32Range: int := 0x1_0000_0000

  datatype Direction = South | North

  /** The three traffic classes that compete for the tunnel. */
  datatype Traffic = Car(dir: Direction) | Pedestrian

  /**
   * The monitor's three condition variables, named after the classes whose
   * absence they wait for: NoCarSouthPed gates north cars, NoCarNorthPed
   * gates south cars, NoCarSouthNorth gates pedestrians.
   */
  datatype Condition = NoCarSouthPed | NoCarNorthPed | NoCarSouthNorth

  /** The shared counters of the monitor. */
  datatype State = State(
    operations: int,     // number of monitor operations started
    pedCrossing: int,    // pedestrians inside the tunnel
    northCrossing: int,  // north-bound cars inside the tunnel
    southCrossing: int,  // south-bound cars inside the tunnel
    southWaiting: int,   // south-bound cars blocked at the entrance
    northWaiting: int,   // north-bound cars blocked at the entrance
    pedWaiting: int,     // pedestrians blocked at the entrance
    turn: int)           // AnyTurn, SouthTurn, NorthTurn or PedestrianTurn

  /** How a direction argument is read: 1 is south, any other integer north. */
  function DirectionOf(code: int): Direction
  {
    if code == SouthCode then South else North
  }

  predicate InInt32(x: int)
  {
    Int32Min <= x <= Int32Max
  }

  /** Storing an integer into a C `int`: reduction modulo 2^32 into the signed range. */
  function ToInt32(x: int): int
  {
    if InInt32(x) then x else (x - Int32Min) % Int32Range + Int32Min
  }

  /**
   * The stored value is the one C `int` congruent to `x` modulo 2^32;
   * a value already in range is stored unchanged.
   */
  lemma ToInt32Meaning(x: int)
    ensures InInt32(ToInt32(x))
    ensures (ToInt32(x) - x) % Int32Range == 0
    ensures InInt32(x) ==> ToInt32(x) == x
  {
  }

  predicate ValidTurn(turn: int)
  {
    turn == AnyTurn || turn == SouthTurn || turn == NorthTurn || turn == PedestrianTurn
  }

  /** The `turn` code that favours a class. */
  function TurnOf(t: Traffic): (r: int)
    ensures ValidTurn(r) && r != AnyTurn
  {
    match t
    case Car(South) => SouthTurn
    case Car(North) => NorthTurn
    case Pedestrian => PedestrianTurn
  }

  /** The condition variable on which the waiters of a class sleep. */
  function ConditionOf(t: Traffic): (c: Condition)
    ensures Gated(c) == t
  {
    match t
    case Car(South) => NoCarNorthPed
    case Car(North) => NoCarSouthPed
    case Pedestrian => NoCarSouthNorth
  }

  /** The class whose waiters sleep on a condition variable. */
  function Gated(c: Condition): Traffic
  {
    match c
    case NoCarSouthPed => Car(North)
    case NoCarNorthPed => Car(South)
    case NoCarSouthNorth => Pedestrian
  }

  function Crossing(s: State, t: Traffic): int
  {
    match t
    case Car(South) => s.southCrossing
    case Car(North) => s.northCrossing
    case Pedestrian => s.pedCrossing
  }

  function Waiting(s: State, t: Traffic): int
  {
    match t
    case Car(South) => s.southWaiting
    case Car(North) => s.northWaiting
    case Pedestrian => s.pedWaiting
  }

  /** The monitor as constructed: nobody inside, nobody waiting, no priority. */
  function Initial(): State
  {
    State(0, 0, 0, 0, 0, 0, 0, AnyTurn)
  }

  /** North-bound cars may enter: no south car, no pedestrian, and the turn is theirs or anyone's. */
  predicate NorthMayEnter(s: State)
  {
    s.southCrossing == 0 && s.pedCrossing == 0 && (s.turn == NorthTurn || s.turn == AnyTurn)
  }

  /** South-bound cars may enter: no north car, no pedestrian, and the turn is theirs or anyone's. */
  predicate SouthMayEnter(s: State)
  {
    s.northCrossing == 0 && s.pedCrossing == 0 && (s.turn == SouthTurn || s.turn == AnyTurn)
  }

  /** Pedestrians may enter: no car either way, and the turn is theirs or anyone's. */
  predicate PedestriansMayEnter(s: State)
  {
    s.southCrossing == 0 && s.northCrossing == 0 && (s.turn == PedestrianTurn || s.turn == AnyTurn)
  }

  /** The predicate that the waiters of class `t` wait for. */
  predicate MayEnter(s: State, t: Traffic)
  {
    match t
    case Car(South) => SouthMayEnter(s)
    case Car(North) => NorthMayEnter(s)
    case Pedestrian => PedestriansMayEnter(s)
  }

  /**
   * The priority rule applied when a member of class `t` leaves: the two
   * other classes are candidates, in a fixed order, and the first with more
   * than Threshold waiters gets the turn; otherwise the turn is anyone's.
   */
  function TurnAfterLeave(s: State, t: Traffic): (r: int)
    ensures ValidTurn(r)
    ensures r != TurnOf(t)
  {
    match t
    case Car(South) =>
      if s.northWaiting > Threshold then NorthTurn
      else if s.pedWaiting > Threshold then PedestrianTurn
      else AnyTurn
    case Car(North) =>
      if s.southWaiting > Threshold then SouthTurn
      else if s.pedWaiting > Threshold then PedestrianTurn
      else AnyTurn
    case Pedestrian =>
      if s.northWaiting > Threshold then NorthTurn
      else if s.southWaiting > Threshold then SouthTurn
      else AnyTurn
  }

  /**
   * The condition variables a departure of class `t` notifies, given the
   * state after the departure: the conditions of the two other classes,
   * and only once the last member of `t` has left.
   */
  function Notified(after: State, t: Traffic): (r: set<Condition>)
    ensures forall c :: c in r <==> Crossing(after, t) == 0 && Gated(c) != t
  {
    if Crossing(after, t) != 0 then {}
    else
      match t
      case Car(South) => {NoCarSouthPed, NoCarSouthNorth}
      case Car(North) => {NoCarNorthPed, NoCarSouthNorth}
      case Pedestrian => {NoCarSouthPed, NoCarNorthPed}
  }

  /**
   * Request step: the part of an enter operation before it starts waiting.
   * Counts the operation and adds the caller to its class's waiters.
   */
  function Request(s: State, t: Traffic): State
  {
    var s := s.(operations := ToInt32(s.operations + 1));
    match t
    case Car(South) => s.(southWaiting := s.southWaiting + 1)
    case Car(North) => s.(northWaiting := s.northWaiting + 1)
    case Pedestrian => s.(pedWaiting := s.pedWaiting + 1)
  }

  /**
   * Grant step: the part of an enter operation after its predicate became
   * true. Moves one member of `t` from the waiters to the tunnel.
   */
  function Grant(s: State, t: Traffic): State
    requires MayEnter(s, t)
  {
    match t
    case Car(South) => s.(southWaiting := s.southWaiting - 1, southCrossing := s.southCrossing + 1)
    case Car(North) => s.(northWaiting := s.northWaiting - 1, northCrossing := s.northCrossing + 1)
    case Pedestrian => s.(pedWaiting := s.pedWaiting - 1, pedCrossing := s.pedCrossing + 1)
  }

  /**
   * The first critical section of an enter operation: the request, then the
   * first check of the predicate, entering at once when it already holds.
   */
  function Arrival(s: State, t: Traffic): State
  {
    var r := Request(s, t);
    if MayEnter(r, t) then Grant(r, t) else r
  }

  /**
   * Leave step: counts the operation, takes one member of `t` out of the
   * tunnel and recomputes the turn by the priority rule.
   */
  function Leave(s: State, t: Traffic): State
    requires Crossing(s, t) > 0
  {
    var s' := s.(operations := ToInt32(s.operations + 1));
    var s' := match t
      case Car(South) => s'.(southCrossing := s'.southCrossing - 1)
      case Car(North) => s'.(northCrossing := s'.northCrossing - 1)
      case Pedestrian => s'.(pedCrossing := s'.pedCrossing - 1);
    s'.(turn := TurnAfterLeave(s', t))
  }

  /**
   * What the priority rule means: the turn goes to a class other than the
   * one leaving, and only to one with more than Threshold waiters; it is
   * anyone's exactly when no other class has more than Threshold waiters.
   */
  lemma PriorityRule(s: State, t: Traffic)
    ensures var r := TurnAfterLeave(s, t);
      && (r == AnyTurn <==> forall u :: u != t ==> Waiting(s, u) <= Threshold)
      && (r != AnyTurn ==> exists u :: u != t && TurnOf(u) == r && Waiting(s, u) > Threshold)
  {
    match t
    case Car(South) =>
      if s.northWaiting > Threshold {
        assert Waiting(s, Car(North)) > Threshold;
      } else if s.pedWaiting > Threshold {
        assert Waiting(s, Pedestrian) > Threshold;
      }
    case Car(North) =>
      if s.southWaiting > Threshold {
        assert Waiting(s, Car(South)) > Threshold;
      } else if s.pedWaiting > Threshold {
        assert Waiting(s, Pedestrian) > Threshold;
      }
    case Pedestrian =>
      if s.northWaiting > Threshold {
        assert Waiting(s, Car(North)) > Threshold;
      } else if s.southWaiting > Threshold {
        assert Waiting(s, Car(South)) > Threshold;
      }
  }

  /**
   * The fixed tie-break when both candidates have more than Threshold
   * waiters: a departing car hands the turn to the opposite direction,
   * a departing pedestrian to the north-bound cars.
   */
  lemma PriorityTieBreak(s: State, t: Traffic)
    requires forall u :: u != t ==> Waiting(s, u) > Threshold
    ensures t.Car? ==> TurnAfterLeave(s, t) == TurnOf(Car(if t.dir == South then North else South))
    ensures t == Pedestrian ==> TurnAfterLeave(s, t) == NorthTurn
  {
    assert Waiting(s, Car(North)) > Threshold || t == Car(North);
    assert Waiting(s, Car(South)) > Threshold || t == Car(South);
  }

  /**
   * The three entry predicates are one rule: a class may enter exactly
   * when no other class is inside and the turn is its own or anyone's.
   */
  lemma MayEnterMeaning(s: State, t: Traffic)
    ensures MayEnter(s, t) <==>
      (forall u :: u != t ==> Crossing(s, u) == 0) && (s.turn == AnyTurn || s.turn == TurnOf(t))
  {
    if forall u :: u != t ==> Crossing(s, u) == 0 {
      assert t == Car(South) || Crossing(s, Car(South)) == 0;
      assert t == Car(North) || Crossing(s, Car(North)) == 0;
      assert t == Pedestrian || Crossing(s, Pedestrian) == 0;
    }
    if MayEnter(s, t) {
      forall u | u != t
        ensures Crossing(s, u) == 0
      {
        match u
        case Car(South) =>
        case Car(North) =>
        case Pedestrian =>
      }
    }
  }

  /** While the turn favours class `u`, no other class may enter. */
  lemma TurnGatesOthers(s: State, u: Traffic, v: Traffic)
    requires s.turn == TurnOf(u) && v != u
    ensures !MayEnter(s, v)
  {
  }

  /**
   * A request counts one operation and adds exactly one waiter to class
   * `t`; nobody enters or leaves and the turn is untouched.
   */
  lemma RequestEffect(s: State, t: Traffic)
    ensures var r := Request(s, t);
      && r.operations == ToInt32(s.operations + 1)
      && r.turn == s.turn
      && (forall u :: Crossing(r, u) == Crossing(s, u))
      && (forall u :: Waiting(r, u) == if u == t then Waiting(s, u) + 1 else Waiting(s, u))
  {
  }

  /**
   * A grant moves exactly one member of class `t` from the waiters into
   * the tunnel; every other counter and the turn are untouched.
   */
  lemma GrantEffect(s: State, t: Traffic)
    requires MayEnter(s, t) && Waiting(s, t) > 0
    ensures var r := Grant(s, t);
      && r.operations == s.operations && r.turn == s.turn
      && (forall u :: Crossing(r, u) == if u == t then Crossing(s, u) + 1 else Crossing(s, u))
      && (forall u :: Waiting(r, u) == if u == t then Waiting(s, u) - 1 else Waiting(s, u))
  {
  }

  /**
   * A departure counts one operation, takes exactly one member of class
   * `t` out of the tunnel, leaves every waiter where it is and sets the
   * turn by the priority rule.
   */
  lemma LeaveEffect(s: State, t: Traffic)
    requires Crossing(s, t) > 0
    ensures var r := Leave(s, t);
      && r.operations == ToInt32(s.operations + 1)
      && r.turn == TurnAfterLeave(s, t)
      && (forall u :: Crossing(r, u) == if u == t then Crossing(s, u) - 1 else Crossing(s, u))
      && (forall u :: Waiting(r, u) == Waiting(s, u))
  {
  }

  /**
   * The first critical section of an enter operation counts one operation
   * and either lets the caller in at once, when its class may enter, or
   * leaves it among the waiters; the turn is untouched.
   */
  lemma ArrivalEffect(s: State, t: Traffic)
    ensures var r := Arrival(s, t);
      && r.operations == ToInt32(s.operations + 1) && r.turn == s.turn
      && (forall u :: Crossing(r, u) == if u == t && MayEnter(s, t) then Crossing(s, u) + 1 else Crossing(s, u))
      && (forall u :: Waiting(r, u) == if u == t && !MayEnter(s, t) then Waiting(s, u) + 1 else Waiting(s, u))
  {
  }
}
