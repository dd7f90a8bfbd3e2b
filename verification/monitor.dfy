/**
 * The monitor object itself: the shared counters as mutable fields, one
 * method per locked critical section. A blocking enter operation is split
 * at its wait: WantsEnter* is the critical section up to and including the
 * first check of the entry predicate (and the entry when it succeeds),
 * Await* is one re-check after a wake-up. When the check fails the caller stays blocked and nothing
 * changes; when it succeeds the caller moves from waiting to crossing.
 */
module TunnelMonitor {
  import opened Tunnel
  import opened TunnelSafety

  class Monitor {
    var operations: int
    var pedCrossing: int
    var northCrossing: int
    var southCrossing: int
    var southWaiting: int
    var northWaiting: int
    var pedWaiting: int
    var turn: int

    /** The atomic steps performed so far, oldest first. */
    ghost var history: seq<Step>

    function Snapshot(): State
      reads this
    {
      State(operations, pedCrossing, northCrossing, southCrossing,
            southWaiting, northWaiting, pedWaiting, turn)
    }

    /** The counters are the state that the steps of `history` reach from the initial state. */
    ghost predicate Valid()
      reads this
    {
      Run(Initial(), history) == Some(Snapshot()) && Inv(Snapshot())
    }

    constructor ()
      ensures Valid()
      ensures Snapshot() == Initial() && history == []
    {
      operations := 0;
      pedCrossing, northCrossing, southCrossing := 0, 0, 0;
      southWaiting, northWaiting, pedWaiting := 0, 0, 0;
      turn := AnyTurn;
      history := [];
    }

    /** Records that the step `step` took the counters from `before` to their current values. */
    ghost method Record(before: State, step: Step)
      requires Run(Initial(), history) == Some(before) && Inv(before)
      requires Apply(before, step) == Some(Snapshot())
      modifies this`history
      ensures history == old(history) + [step]
      ensures Valid()
    {
      RunSnoc(Initial(), history, step);
      ApplyPreservesInv(before, step);
      history := history + [step];
    }

    /**
     * A car arrives heading `direction` (1 south, anything else north):
     * counts the operation, joins the waiters and, in the same critical
     * section, enters at once when its predicate already holds; otherwise
     * it stays blocked until a successful AwaitCar.
     */
    method WantsEnterCar(direction: int) returns (entered: bool)
      requires Valid()
      modifies this
      ensures Valid()
      ensures var t := Car(DirectionOf(direction));
        && entered == MayEnter(old(Snapshot()), t)
        && Snapshot() == if entered then Grant(Request(old(Snapshot()), t), t) else Request(old(Snapshot()), t)
    {
      ghost var before := Snapshot();
      operations := ToInt32(operations + 1);
      if direction == SouthCode {
        southWaiting := southWaiting + 1;
        entered := SouthMayEnter(Snapshot());
        if entered {
          southWaiting := southWaiting - 1;
          southCrossing := southCrossing + 1;
        }
        assert Snapshot() == Arrival(before, Car(South));
      } else {
        northWaiting := northWaiting + 1;
        entered := NorthMayEnter(Snapshot());
        if entered {
          northWaiting := northWaiting - 1;
          northCrossing := northCrossing + 1;
        }
        assert Snapshot() == Arrival(before, Car(North));
      }
      Record(before, Arrive(Car(DirectionOf(direction))));
    }

    /** One evaluation of a waiting car's entry predicate, on a wake-up. */
    method AwaitCar(direction: int) returns (entered: bool)
      requires Valid() && Waiting(Snapshot(), Car(DirectionOf(direction))) > 0
      modifies this
      ensures Valid()
      ensures var t := Car(DirectionOf(direction));
        && entered == MayEnter(old(Snapshot()), t)
        && Snapshot() == if entered then Grant(old(Snapshot()), t) else old(Snapshot())
    {
      ghost var before := Snapshot();
      if direction == SouthCode {
        entered := SouthMayEnter(Snapshot());
        if entered {
          southWaiting := southWaiting - 1;
          southCrossing := southCrossing + 1;
        }
      } else {
        entered := NorthMayEnter(Snapshot());
        if entered {
          northWaiting := northWaiting - 1;
          northCrossing := northCrossing + 1;
        }
      }
      if entered {
        Record(before, Enter(Car(DirectionOf(direction))));
      }
    }

    /**
     * A car heading `direction` leaves: counts the operation, leaves the
     * tunnel, recomputes the turn and, if it was the last of its direction,
     * notifies the conditions of the opposite cars and of the pedestrians.
     */
    method LeavesCar(direction: int) returns (notified: set<Condition>)
      requires Valid() && Crossing(Snapshot(), Car(DirectionOf(direction))) > 0
      modifies this
      ensures Valid()
      ensures Snapshot() == Leave(old(Snapshot()), Car(DirectionOf(direction)))
      ensures notified == Notified(Snapshot(), Car(DirectionOf(direction)))
    {
      ghost var before := Snapshot();
      operations := ToInt32(operations + 1);
      if direction == SouthCode {
        southCrossing := southCrossing - 1;
        if northWaiting > Threshold {
          turn := NorthTurn;
        } else if pedWaiting > Threshold {
          turn := PedestrianTurn;
        } else {
          turn := AnyTurn;
        }
        notified := if southCrossing == 0 then {NoCarSouthPed, NoCarSouthNorth} else {};
        assert Snapshot() == Leave(before, Car(South));
      } else {
        northCrossing := northCrossing - 1;
        if southWaiting > Threshold {
          turn := SouthTurn;
        } else if pedWaiting > Threshold {
          turn := PedestrianTurn;
        } else {
          turn := AnyTurn;
        }
        notified := if northCrossing == 0 then {NoCarNorthPed, NoCarSouthNorth} else {};
        assert Snapshot() == Leave(before, Car(North));
      }
      Record(before, Depart(Car(DirectionOf(direction))));
    }

    /**
     * A pedestrian arrives: counts the operation, joins the waiters and, in
     * the same critical section, enters at once when its predicate already
     * holds; otherwise it stays blocked until a successful AwaitPedestrian.
     */
    method WantsEnterPedestrian() returns (entered: bool)
      requires Valid()
      modifies this
      ensures Valid()
      ensures entered == MayEnter(old(Snapshot()), Pedestrian)
      ensures Snapshot() ==
        if entered then Grant(Request(old(Snapshot()), Pedestrian), Pedestrian)
        else Request(old(Snapshot()), Pedestrian)
    {
      ghost var before := Snapshot();
      operations := ToInt32(operations + 1);
      pedWaiting := pedWaiting + 1;
      entered := PedestriansMayEnter(Snapshot());
      if entered {
        pedWaiting := pedWaiting - 1;
        pedCrossing := pedCrossing + 1;
      }
      Record(before, Arrive(Pedestrian));
    }

    /** One evaluation of a waiting pedestrian's entry predicate, on a wake-up. */
    method AwaitPedestrian() returns (entered: bool)
      requires Valid() && pedWaiting > 0
      modifies this
      ensures Valid()
      ensures entered == MayEnter(old(Snapshot()), Pedestrian)
      ensures Snapshot() == if entered then Grant(old(Snapshot()), Pedestrian) else old(Snapshot())
    {
      ghost var before := Snapshot();
      entered := PedestriansMayEnter(Snapshot());
      if entered {
        pedWaiting := pedWaiting - 1;
        pedCrossing := pedCrossing + 1;
        Record(before, Enter(Pedestrian));
      }
    }

    /**
     * A pedestrian leaves: counts the operation, leaves the tunnel,
     * recomputes the turn and, if it was the last pedestrian, notifies the
     * conditions of both car directions.
     */
    method LeavesPedestrian() returns (notified: set<Condition>)
      requires Valid() && pedCrossing > 0
      modifies this
      ensures Valid()
      ensures Snapshot() == Leave(old(Snapshot()), Pedestrian)
      ensures notified == Notified(Snapshot(), Pedestrian)
    {
      ghost var before := Snapshot();
      operations := ToInt32(operations + 1);
      pedCrossing := pedCrossing - 1;
      if northWaiting > Threshold {
        turn := NorthTurn;
      } else if southWaiting > Threshold {
        turn := SouthTurn;
      } else {
        turn := AnyTurn;
      }
      notified := if pedCrossing == 0 then {NoCarSouthPed, NoCarNorthPed} else {};
      Record(before, Depart(Pedestrian));
    }
  }
}
