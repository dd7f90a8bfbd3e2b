/**
 * Concrete runs of the monitor: the first car entering at once, the
 * hand-over between directions and between cars and pedestrians, and the
 * priority keeping cars out of an empty tunnel.
 */
module TunnelScenarios {
  import opened Tunnel
  import opened TunnelSafety

  /** A south car arriving at the fresh monitor enters at once. */
  lemma FirstCarEntersAtOnce()
    ensures MayEnter(Request(Initial(), Car(South)), Car(South))
    ensures Run(Initial(), [Arrive(Car(South))])
      == Some(Initial().(operations := 1, southCrossing := 1))
  {
  }

  /**
   * A north car arriving while a south car is inside waits; when the south
   * car leaves with few waiters the turn is anyone's, the north cars'
   * condition is notified and the waiting north car may enter.
   */
  lemma OppositeCarWaitsForDeparture()
    ensures var inside := Initial().(operations := 1, southCrossing := 1);
      var waiting := Request(inside, Car(North));
      var left := Leave(waiting, Car(South));
      && !MayEnter(waiting, Car(North))
      && left.turn == AnyTurn
      && NoCarSouthPed in Notified(left, Car(South))
      && MayEnter(left, Car(North))
  {
  }

  /**
   * With three north cars waiting, the departure of a south car hands the
   * turn to the north; a south car arriving next waits even though the
   * tunnel is empty.
   */
  lemma PriorityBlocksEmptyTunnel()
    ensures var s := Initial().(southCrossing := 1, northWaiting := 3);
      var left := Leave(s, Car(South));
      && left.turn == NorthTurn
      && left.southCrossing == 0 && left.northCrossing == 0 && left.pedCrossing == 0
      && !MayEnter(Request(left, Car(South)), Car(South))
      && MayEnter(left, Car(North))
  {
  }

  /**
   * A pedestrian arriving while a car is inside waits until the car has
   * left; the departure notifies the pedestrians' condition.
   */
  lemma PedestrianWaitsForCar()
    ensures var s := Request(Initial().(southCrossing := 1), Pedestrian);
      var left := Leave(s, Car(South));
      && !MayEnter(s, Pedestrian)
      && NoCarSouthNorth in Notified(left, Car(South))
      && MayEnter(left, Pedestrian)
  {
  }
}
