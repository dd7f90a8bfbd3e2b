/**
 * What the priority rule does not guarantee: pedestrians can wait for ever.
 * A departing car favours the opposite direction before pedestrians, so
 * while both car directions keep more than Threshold waiters, each car
 * departure hands the turn to the other direction and pedestrians never
 * get it. The run below is a round of car traffic that returns the monitor
 * to the state it started from, up to the operation counter, with three
 * pedestrians waiting throughout and never allowed in.
 */
module TunnelStarvation {
  import opened Tunnel
  import opened TunnelSafety

  /** Every state along the run of `steps` from `s`, `s` included, keeps class `t` out. */
  predicate KeepsOut(s: State, steps: seq<Step>, t: Traffic)
    decreases |steps|
  {
    && !MayEnter(s, t)
    && (steps != [] ==>
         match Apply(s, steps[0])
         case None => true
         case Some(next) => KeepsOut(next, steps[1..], t))
  }

  /** Keeping a class out along two runs one after the other. */
  lemma {:induction false} KeepsOutAppend(s: State, first: seq<Step>, second: seq<Step>, t: Traffic)
    ensures KeepsOut(s, first + second, t) ==
      (KeepsOut(s, first, t) &&
       match Run(s, first)
       case None => true
       case Some(m) => KeepsOut(m, second, t))
    decreases |first|
  {
    if first == [] {
      assert first + second == second;
    } else {
      assert (first + second)[1..] == first[1..] + second;
      match Apply(s, first[0])
      case None =>
      case Some(next) => KeepsOutAppend(next, first[1..], second, t);
    }
  }

  /** The class kept out does not depend on the operation counter. */
  lemma {:induction false} KeepsOutIgnoresOperations(s: State, steps: seq<Step>, t: Traffic, operations: int)
    ensures KeepsOut(s.(operations := operations), steps, t) == KeepsOut(s, steps, t)
    decreases |steps|
  {
    if steps != [] {
      var s' := s.(operations := operations);
      match Apply(s, steps[0])
      case None =>
      case Some(next) =>
        var next' := Apply(s', steps[0]).value;
        assert next' == next.(operations := next'.operations);
        KeepsOutIgnoresOperations(next, steps[1..], t, next'.operations);
    }
  }

  /** Joins two runs that each keep class `t` out. */
  lemma Chain(s: State, first: seq<Step>, m: State, second: seq<Step>, e: State, t: Traffic)
    requires Run(s, first) == Some(m) && KeepsOut(s, first, t)
    requires Run(m, second) == Some(e) && KeepsOut(m, second, t)
    ensures Run(s, first + second) == Some(e) && KeepsOut(s, first + second, t)
  {
    RunAppend(s, first, second);
    KeepsOutAppend(s, first, second, t);
  }

  /**
   * One south car inside, three north cars and three pedestrians waiting,
   * the turn with the north.
   */
  function StarvationStart(operations: int): State
  {
    State(operations, 0, 0, 1, 0, 3, 3, NorthTurn)
  }

  /** Two south cars arrive one after the other; each enters at once. */
  function SetupSouthArrive(): seq<Step>
  {
    [Arrive(Car(South)), Arrive(Car(South))]
  }

  lemma SetupSouthArriveRun()
    ensures Run(Initial(), SetupSouthArrive()) == Some(State(2, 0, 0, 2, 0, 0, 0, AnyTurn))
  {
  }

  function SetupNorthArrive(): seq<Step>
  {
    [Arrive(Car(North)), Arrive(Car(North)), Arrive(Car(North))]
  }

  lemma SetupNorthArriveRun()
    ensures Run(State(2, 0, 0, 2, 0, 0, 0, AnyTurn), SetupNorthArrive()) == Some(State(5, 0, 0, 2, 0, 3, 0, AnyTurn))
  {
  }

  function SetupPedestriansArrive(): seq<Step>
  {
    [Arrive(Pedestrian), Arrive(Pedestrian), Arrive(Pedestrian)]
  }

  lemma SetupPedestriansArriveRun()
    ensures Run(State(5, 0, 0, 2, 0, 3, 0, AnyTurn), SetupPedestriansArrive()) == Some(State(8, 0, 0, 2, 0, 3, 3, AnyTurn))
  {
  }

  function SetupSouthLeave(): seq<Step>
  {
    [Depart(Car(South))]
  }

  lemma SetupSouthLeaveRun()
    ensures Run(State(8, 0, 0, 2, 0, 3, 3, AnyTurn), SetupSouthLeave()) == Some(StarvationStart(9))
  {
  }

  /** How the fresh monitor reaches StarvationStart: nine operations. */
  function StarvationSetup(): seq<Step>
  {
    SetupSouthArrive() + SetupNorthArrive() + SetupPedestriansArrive() + SetupSouthLeave()
  }

  lemma StarvationStartReachable()
    ensures Run(Initial(), StarvationSetup()) == Some(StarvationStart(9))
  {
    SetupSouthArriveRun();
    SetupNorthArriveRun();
    SetupPedestriansArriveRun();
    SetupSouthLeaveRun();
    var done := SetupSouthArrive();
    RunAppend(Initial(), done, SetupNorthArrive());
    done := done + SetupNorthArrive();
    RunAppend(Initial(), done, SetupPedestriansArrive());
    done := done + SetupPedestriansArrive();
    RunAppend(Initial(), done, SetupSouthLeave());
  }

  /** Part of the round: the last south car leaves and the turn goes north. */
  function SouthCarLeaves(): seq<Step>
  {
    [Depart(Car(South))]
  }

  lemma SouthCarLeavesRun()
    ensures Run(StarvationStart(0), SouthCarLeaves()) == Some(State(1, 0, 0, 0, 0, 3, 3, NorthTurn))
    ensures KeepsOut(StarvationStart(0), SouthCarLeaves(), Pedestrian)
  {
  }

  /** Part of the round: the three waiting north cars enter. */
  function NorthCarsEnter(): seq<Step>
  {
    [Enter(Car(North)), Enter(Car(North)), Enter(Car(North))]
  }

  lemma NorthCarsEnterRun()
    ensures Run(State(1, 0, 0, 0, 0, 3, 3, NorthTurn), NorthCarsEnter()) == Some(State(1, 0, 3, 0, 0, 0, 3, NorthTurn))
    ensures KeepsOut(State(1, 0, 0, 0, 0, 3, 3, NorthTurn), NorthCarsEnter(), Pedestrian)
  {
  }

  /** Part of the round: three south cars queue up. */
  function SouthCarsQueue(): seq<Step>
  {
    [Arrive(Car(South)), Arrive(Car(South)), Arrive(Car(South))]
  }

  lemma SouthCarsQueueRun()
    ensures Run(State(1, 0, 3, 0, 0, 0, 3, NorthTurn), SouthCarsQueue()) == Some(State(4, 0, 3, 0, 3, 0, 3, NorthTurn))
    ensures KeepsOut(State(1, 0, 3, 0, 0, 0, 3, NorthTurn), SouthCarsQueue(), Pedestrian)
  {
  }

  /** Part of the round: the north cars leave and the turn goes south. */
  function NorthCarsLeave(): seq<Step>
  {
    [Depart(Car(North)), Depart(Car(North)), Depart(Car(North))]
  }

  lemma NorthCarsLeaveRun()
    ensures Run(State(4, 0, 3, 0, 3, 0, 3, NorthTurn), NorthCarsLeave()) == Some(State(7, 0, 0, 0, 3, 0, 3, SouthTurn))
    ensures KeepsOut(State(4, 0, 3, 0, 3, 0, 3, NorthTurn), NorthCarsLeave(), Pedestrian)
  {
  }

  /** Part of the round: the three waiting south cars enter. */
  function SouthCarsEnter(): seq<Step>
  {
    [Enter(Car(South)), Enter(Car(South)), Enter(Car(South))]
  }

  lemma SouthCarsEnterRun()
    ensures Run(State(7, 0, 0, 0, 3, 0, 3, SouthTurn), SouthCarsEnter()) == Some(State(7, 0, 0, 3, 0, 0, 3, SouthTurn))
    ensures KeepsOut(State(7, 0, 0, 0, 3, 0, 3, SouthTurn), SouthCarsEnter(), Pedestrian)
  {
  }

  /** Part of the round: three north cars queue up. */
  function NorthCarsQueue(): seq<Step>
  {
    [Arrive(Car(North)), Arrive(Car(North)), Arrive(Car(North))]
  }

  lemma NorthCarsQueueRun()
    ensures Run(State(7, 0, 0, 3, 0, 0, 3, SouthTurn), NorthCarsQueue()) == Some(State(10, 0, 0, 3, 0, 3, 3, SouthTurn))
    ensures KeepsOut(State(7, 0, 0, 3, 0, 0, 3, SouthTurn), NorthCarsQueue(), Pedestrian)
  {
  }

  /** Part of the round: two south cars leave and the turn goes north. */
  function SouthCarsLeave(): seq<Step>
  {
    [Depart(Car(South)), Depart(Car(South))]
  }

  lemma SouthCarsLeaveRun()
    ensures Run(State(10, 0, 0, 3, 0, 3, 3, SouthTurn), SouthCarsLeave()) == Some(StarvationStart(12))
    ensures KeepsOut(State(10, 0, 0, 3, 0, 3, 3, SouthTurn), SouthCarsLeave(), Pedestrian)
  {
  }

  /** One round of car traffic: each direction takes the turn once. */
  function CarRound(): seq<Step>
  {
    SouthCarLeaves() + NorthCarsEnter() + SouthCarsQueue() + NorthCarsLeave() + SouthCarsEnter() + NorthCarsQueue() + SouthCarsLeave()
  }

  /** The round of car traffic, run with the operation counter at zero. */
  lemma CarRoundFromZero()
    ensures Run(StarvationStart(0), CarRound()) == Some(StarvationStart(12))
    ensures KeepsOut(StarvationStart(0), CarRound(), Pedestrian)
  {
    var s0 := StarvationStart(0);
    var s1 := State(1, 0, 0, 0, 0, 3, 3, NorthTurn);
    var s2 := State(1, 0, 3, 0, 0, 0, 3, NorthTurn);
    var s3 := State(4, 0, 3, 0, 3, 0, 3, NorthTurn);
    var s4 := State(7, 0, 0, 0, 3, 0, 3, SouthTurn);
    var s5 := State(7, 0, 0, 3, 0, 0, 3, SouthTurn);
    var s6 := State(10, 0, 0, 3, 0, 3, 3, SouthTurn);
    SouthCarLeavesRun();
    NorthCarsEnterRun();
    SouthCarsQueueRun();
    NorthCarsLeaveRun();
    SouthCarsEnterRun();
    NorthCarsQueueRun();
    SouthCarsLeaveRun();
    var done := SouthCarLeaves();
    Chain(s0, done, s1, NorthCarsEnter(), s2, Pedestrian);
    done := done + NorthCarsEnter();
    Chain(s0, done, s2, SouthCarsQueue(), s3, Pedestrian);
    done := done + SouthCarsQueue();
    Chain(s0, done, s3, NorthCarsLeave(), s4, Pedestrian);
    done := done + NorthCarsLeave();
    Chain(s0, done, s4, SouthCarsEnter(), s5, Pedestrian);
    done := done + SouthCarsEnter();
    Chain(s0, done, s5, NorthCarsQueue(), s6, Pedestrian);
    done := done + NorthCarsQueue();
    Chain(s0, done, s6, SouthCarsLeave(), StarvationStart(12), Pedestrian);
  }

  /**
   * Pedestrians can starve: StarvationStart is reachable, three pedestrians
   * wait in it, and from it, whatever the operation counter holds, a round
   * of car traffic in which no state lets a pedestrian in returns every
   * other counter to its starting value, so the round can repeat for ever.
   */
  lemma PedestriansCanStarve(operations: int)
    ensures Run(Initial(), StarvationSetup()) == Some(StarvationStart(9))
    ensures Waiting(StarvationStart(operations), Pedestrian) > Threshold
    ensures KeepsOut(StarvationStart(operations), CarRound(), Pedestrian)
    ensures WithoutCount(Run(StarvationStart(operations), CarRound())) == Some(StarvationStart(0))
  {
    StarvationStartReachable();
    CarRoundFromZero();
    assert StarvationStart(operations) == StarvationStart(0).(operations := operations);
    KeepsOutIgnoresOperations(StarvationStart(0), CarRound(), Pedestrian, operations);
    RunIgnoresOperations(StarvationStart(0), CarRound(), operations);
  }
}
