/**
 * Safety of the tunnel monitor. Each locked critical section is one atomic
 * step (request, grant or leave); the invariants below hold in the initial
 * state and are preserved by every step, so they hold in every state that a
 * run of steps can reach.
 */
module TunnelSafety {
  import opened Tunnel

  datatype Option<T> = None | Some(value: T)

  /**
   * One locked critical section, performed on behalf of an actor of a
   * class: the first critical section of an enter operation (Arrive), a
   * re-check after a wake-up that lets a waiter in (Enter), or a leave
   * operation (Depart). A re-check that fails changes nothing and is no step.
   */
  datatype Step = Arrive(t: Traffic) | Enter(t: Traffic) | Depart(t: Traffic)

  predicate NonNegative(s: State)
  {
    && s.pedCrossing >= 0 && s.northCrossing >= 0 && s.southCrossing >= 0
    && s.southWaiting >= 0 && s.northWaiting >= 0 && s.pedWaiting >= 0
  }

  /** South-bound and north-bound cars are never inside together. */
  predicate DirectionsExclusive(s: State)
  {
    !(s.southCrossing > 0 && s.northCrossing > 0)
  }

  /** Cars and pedestrians are never inside together. */
  predicate CarsPedestriansExclusive(s: State)
  {
    !(s.pedCrossing > 0 && (s.southCrossing > 0 || s.northCrossing > 0))
  }

  predicate Safe(s: State)
  {
    NonNegative(s) && DirectionsExclusive(s) && CarsPedestriansExclusive(s) && ValidTurn(s.turn)
  }

  /**
   * A turn that favours a class while another class is still inside was
   * earned by that class: it still has more than Threshold waiters (none of
   * them can have entered since).
   */
  predicate PriorityHeld(s: State)
  {
    && (s.turn == SouthTurn && (s.northCrossing > 0 || s.pedCrossing > 0) ==> s.southWaiting > Threshold)
    && (s.turn == NorthTurn && (s.southCrossing > 0 || s.pedCrossing > 0) ==> s.northWaiting > Threshold)
    && (s.turn == PedestrianTurn && (s.southCrossing > 0 || s.northCrossing > 0) ==> s.pedWaiting > Threshold)
  }

  /** The inductive invariant of the monitor. */
  predicate Inv(s: State)
  {
    Safe(s) && PriorityHeld(s) && InInt32(s.operations)
  }

  lemma InitialInv()
    ensures Inv(Initial())
  {
  }

  lemma RequestPreservesInv(s: State, t: Traffic)
    requires Inv(s)
    ensures Inv(Request(s, t))
  {
  }

  lemma GrantPreservesInv(s: State, t: Traffic)
    requires Inv(s) && MayEnter(s, t) && Waiting(s, t) > 0
    ensures Inv(Grant(s, t))
  {
  }

  lemma LeavePreservesInv(s: State, t: Traffic)
    requires Inv(s) && Crossing(s, t) > 0
    ensures Inv(Leave(s, t))
  {
  }

  /**
   * No wake-up is lost: when a departure makes a class's entry predicate
   * true that was false before, the departure notifies that class's
   * condition variable.
   */
  lemma NoLostWakeup(s: State, t: Traffic, u: Traffic)
    requires Inv(s) && Crossing(s, t) > 0
    ensures MayEnter(Leave(s, t), u) && !MayEnter(s, u) ==> ConditionOf(u) in Notified(Leave(s, t), t)
  {
  }

  /** A step, or None when it cannot happen: a blocked re-check or a leave with nobody inside. */
  function Apply(s: State, step: Step): Option<State>
  {
    match step
    case Arrive(t) => Some(Arrival(s, t))
    case Enter(t) => if MayEnter(s, t) && Waiting(s, t) > 0 then Some(Grant(s, t)) else None
    case Depart(t) => if Crossing(s, t) > 0 then Some(Leave(s, t)) else None
  }

  /** A run of steps from `s`, or None if one of them cannot happen. */
  function Run(s: State, steps: seq<Step>): Option<State>
    decreases |steps|
  {
    if steps == [] then Some(s)
    else
      match Apply(s, steps[0])
      case None => None
      case Some(next) => Run(next, steps[1..])
  }

  ghost predicate Reachable(s: State)
  {
    exists steps :: Run(Initial(), steps) == Some(s)
  }

  lemma ApplyPreservesInv(s: State, step: Step)
    requires Inv(s) && Apply(s, step).Some?
    ensures Inv(Apply(s, step).value)
  {
    match step
    case Arrive(t) =>
      RequestPreservesInv(s, t);
      if MayEnter(Request(s, t), t) {
        GrantPreservesInv(Request(s, t), t);
      }
    case Enter(t) => GrantPreservesInv(s, t);
    case Depart(t) => LeavePreservesInv(s, t);
  }

  /** Running one more step is applying it to the state the run reached. */
  lemma {:induction false} RunSnoc(s: State, steps: seq<Step>, step: Step)
    ensures Run(s, steps + [step]) ==
      match Run(s, steps)
      case None => None
      case Some(m) => Apply(m, step)
    decreases |steps|
  {
    if steps == [] {
      assert steps + [step] == [step];
    } else {
      assert (steps + [step])[1..] == steps[1..] + [step];
      match Apply(s, steps[0])
      case None =>
      case Some(next) => RunSnoc(next, steps[1..], step);
    }
  }

  /** Running two sequences of steps one after the other is running their concatenation. */
  lemma {:induction false} RunAppend(s: State, first: seq<Step>, second: seq<Step>)
    ensures Run(s, first + second) ==
      match Run(s, first)
      case None => None
      case Some(m) => Run(m, second)
    decreases |first|
  {
    if first == [] {
      assert first + second == second;
    } else {
      assert (first + second)[1..] == first[1..] + second;
      match Apply(s, first[0])
      case None =>
      case Some(next) => RunAppend(next, first[1..], second);
    }
  }

  lemma {:induction false} RunPreservesInv(s: State, steps: seq<Step>)
    requires Inv(s)
    ensures Run(s, steps).Some? ==> Inv(Run(s, steps).value)
    decreases |steps|
  {
    if steps != [] {
      match Apply(s, steps[0])
      case None =>
      case Some(next) =>
        ApplyPreservesInv(s, steps[0]);
        RunPreservesInv(next, steps[1..]);
    }
  }

  /**
   * Every reachable state is safe: counters are non-negative, the turn is a
   * valid code, cars of opposite directions are never inside together, and
   * cars and pedestrians are never inside together.
   */
  lemma ReachableIsSafe(s: State)
    requires Reachable(s)
    ensures Safe(s) && PriorityHeld(s)
  {
    var steps :| Run(Initial(), steps) == Some(s);
    InitialInv();
    RunPreservesInv(Initial(), steps);
  }

  /** Arrive and Depart steps: one per call of an enter or leave operation. */
  function OperationsIn(steps: seq<Step>): nat
  {
    if steps == [] then 0
    else (if steps[0].Enter? then 0 else 1) + OperationsIn(steps[1..])
  }

  /** Two integers equal modulo 2^32 are stored as the same C `int`. */
  lemma ToInt32Congruent(a: int, b: int)
    requires (a - b) % Int32Range == 0
    ensures ToInt32(a) == ToInt32(b)
  {
    var k := (a - b) / Int32Range;
    assert a - Int32Min == (b - Int32Min) + k * Int32Range;
  }

  /**
   * The operation counter of a run: every enter and every leave operation
   * adds exactly one, wrapping around as a C `int` does; grants add nothing.
   */
  lemma {:induction false} RunCountsOperations(s: State, steps: seq<Step>)
    requires InInt32(s.operations) && Run(s, steps).Some?
    ensures Run(s, steps).value.operations == ToInt32(s.operations + OperationsIn(steps))
    decreases |steps|
  {
    if steps == [] {
      assert Run(s, steps).value == s;
    } else {
      var next := Apply(s, steps[0]).value;
      RunCountsOperations(next, steps[1..]);
      var n := OperationsIn(steps[1..]);
      match steps[0]
      case Enter(_) =>
        assert next.operations == s.operations;
      case Arrive(t) =>
        ArrivalEffect(s, t);
        ToInt32Congruent(next.operations + n, s.operations + 1 + n);
      case Depart(t) =>
        LeaveEffect(s, t);
        ToInt32Congruent(next.operations + n, s.operations + 1 + n);
    }
  }

  /** A state with the operation counter cleared. */
  function WithoutCount(o: Option<State>): Option<State>
  {
    match o
    case None => None
    case Some(s) => Some(s.(operations := 0))
  }

  /**
   * The operation counter is pure bookkeeping: whatever its value, a run
   * of steps is possible or blocked alike and leaves every other counter
   * with the same values.
   */
  lemma {:induction false} RunIgnoresOperations(s: State, steps: seq<Step>, operations: int)
    ensures WithoutCount(Run(s.(operations := operations), steps)) == WithoutCount(Run(s, steps))
    decreases |steps|
  {
    if steps != [] {
      var s' := s.(operations := operations);
      match Apply(s, steps[0])
      case None =>
      case Some(next) =>
        var next' := Apply(s', steps[0]).value;
        assert next' == next.(operations := next'.operations);
        RunIgnoresOperations(next, steps[1..], next'.operations);
    }
  }
}
