/**
 * The ground propagator (include/orb/GroundPropagator.h): three orbit slots,
 * `current`, `catching_up` and `to_catch_up`, each propagating toward the
 * latest time given. Uplinked orbits are queued by how many gravity calls
 * they still need, and a queued orbit is promoted once it needs no more calls
 * than the one ahead of it.
 *
 * The slots hold orbits by value (assigning one slot to another copies the
 * orbit), so they are modelled as `OrbitState` values. Each slot also
 * carries the number of the uplink that brought its orbit: the source keeps
 * no such number, but its documented order "more recently input" is a
 * statement about it.
 */
module GroundPropagatorModel {
  import opened OrbitSchedule

  /** An orbit in a slot, with the number of the `input` call that brought
    * it. */
  datatype Slot = Slot(orbit: OrbitState, uplink: nat)

  /** A slot holding a default-constructed orbit. */
  const Vacant: Slot := Slot(Invalid, 0)

  datatype Slots = Slots(current: Slot, catchingUp: Slot, toCatchUp: Slot)

  predicate Occupied(s: Slot) { s.orbit.valid }

  function Calls(s: Slot): nat { s.orbit.calls }

  /** A valid `catching_up` needs a valid `current` with fewer calls left,
    * and a valid `to_catch_up` a valid `catching_up` with fewer calls left. */
  predicate CallOrder(g: Slots) {
    (Occupied(g.catchingUp) ==> Occupied(g.current) && Calls(g.current) < Calls(g.catchingUp))
    && (Occupied(g.toCatchUp) ==> Occupied(g.catchingUp) && Calls(g.catchingUp) < Calls(g.toCatchUp))
  }

  /** A valid `catching_up` was input more recently than `current`, and a
    * valid `to_catch_up` more recently than `catching_up`. */
  predicate InputOrder(g: Slots) {
    (Occupied(g.catchingUp) ==> g.current.uplink < g.catchingUp.uplink)
    && (Occupied(g.toCatchUp) ==> g.catchingUp.uplink < g.toCatchUp.uplink)
  }

  /** The three documented invariants, over consistent orbits. */
  ghost predicate Sorted(g: Slots) {
    Consistent(g.current.orbit) && Consistent(g.catchingUp.orbit) && Consistent(g.toCatchUp.orbit)
    && CallOrder(g) && InputOrder(g)
  }

  /** Every orbit held came from an uplink numbered below `n`. */
  predicate Before(g: Slots, n: nat) {
    (Occupied(g.current) ==> g.current.uplink < n)
    && (Occupied(g.catchingUp) ==> g.catchingUp.uplink < n)
    && (Occupied(g.toCatchUp) ==> g.toCatchUp.uplink < n)
  }

  /** `startpropagating` on the orbit in a slot. */
  function Retarget(s: Slot, t: nat): Slot
    requires s.orbit.longStep <= 6
  {
    s.(orbit := Start(s.orbit, t))
  }

  /** `catching_up` moves to the front once it needs no more calls than
    * `current`; the old `current` is dropped. */
  function Promote(g: Slots): Slots {
    if Occupied(g.catchingUp) && Calls(g.catchingUp) <= Calls(g.current) then Slots(g.catchingUp, g.toCatchUp, Vacant)
    else g
  }

  /** The first part of `input`: every slot retargeted to time `t`, then
    * re-sorted. */
  function Presorted(g: Slots, t: nat): Slots
    requires g.current.orbit.longStep <= 6 && g.catchingUp.orbit.longStep <= 6 && g.toCatchUp.orbit.longStep <= 6
  {
    Promote(Overtake(RetargetAll(g, t)))
  }

  function RetargetAll(g: Slots, t: nat): Slots
    requires g.current.orbit.longStep <= 6 && g.catchingUp.orbit.longStep <= 6 && g.toCatchUp.orbit.longStep <= 6
  {
    Slots(Retarget(g.current, t), Retarget(g.catchingUp, t), Retarget(g.toCatchUp, t))
  }

  /** `to_catch_up` replaces `catching_up` once it needs no more calls. */
  function Overtake(g: Slots): Slots {
    if Occupied(g.toCatchUp) && Calls(g.toCatchUp) <= Calls(g.catchingUp) then g.(catchingUp := g.toCatchUp, toCatchUp := Vacant) else g
  }

  /** `input` as uplink number `n`: after re-sorting, a valid uplinked orbit
    * (retargeted to `t`) goes to the first slot whose orbit needs at least
    * as many calls, or is invalid; the slots behind it are cleared. */
  function AfterInput(g: Slots, ground: OrbitState, t: nat, n: nat): Slots
    requires g.current.orbit.longStep <= 6 && g.catchingUp.orbit.longStep <= 6 && g.toCatchUp.orbit.longStep <= 6
    requires ground.longStep <= 6
  {
    var p := Presorted(g, t);
    if !ground.valid then p else Enqueue(p, Slot(Start(ground, t), n))
  }

  /** The uplinked orbit `s` goes to the first slot whose orbit needs at
    * least as many calls, or is invalid; the slots behind it are cleared. */
  function Enqueue(p: Slots, s: Slot): Slots {
    if !Occupied(p.current) || Calls(s) <= Calls(p.current) then Slots(s, Vacant, Vacant)
    else if !Occupied(p.catchingUp) || Calls(s) <= Calls(p.catchingUp) then p.(catchingUp := s, toCatchUp := Vacant)
    else p.(toCatchUp := s)
  }

  /** `one_grav_call`: the call goes to `current` if it has calls left,
    * otherwise to `catching_up`, which is then promoted if it is done. */
  function AfterGravCall(g: Slots): Slots {
    var g1 :=
      if Calls(g.current) != 0 then g.(current := g.current.(orbit := Step(g.current.orbit)))
      else g.(catchingUp := g.catchingUp.(orbit := Step(g.catchingUp.orbit)));
    Promote(g1)
  }

  /** `total_num_grav_calls_left`. */
  function Total(g: Slots): nat {
    Calls(g.current) + Calls(g.catchingUp) + Calls(g.toCatchUp)
  }

  const Empty: Slots := Slots(Vacant, Vacant, Vacant)

  // ----- Properties -----

  lemma RetargetKeepsConsistent(s: Slot, t: nat)
    requires Consistent(s.orbit)
    ensures Consistent(Retarget(s, t).orbit)
    ensures Retarget(s, t).uplink == s.uplink && Occupied(Retarget(s, t)) == Occupied(s)
  {
    StartKeepsConsistent(s.orbit, t);
  }

  lemma PresortedIsSorted(g: Slots, t: nat, n: nat)
    requires Sorted(g)
    ensures Sorted(Presorted(g, t))
    ensures Before(g, n) ==> Before(Presorted(g, t), n)
  {
    RetargetKeepsConsistent(g.current, t);
    RetargetKeepsConsistent(g.catchingUp, t);
    RetargetKeepsConsistent(g.toCatchUp, t);
  }

  /** `input` keeps the call order and the input order, and the orbit it
    * takes in is the most recent one. */
  lemma InputKeepsSorted(g: Slots, ground: OrbitState, t: nat, n: nat)
    requires Sorted(g) && Before(g, n) && Consistent(ground)
    ensures Sorted(AfterInput(g, ground, t, n))
    ensures Before(AfterInput(g, ground, t, n), n + 1)
  {
    PresortedIsSorted(g, t, n);
    StartKeepsConsistent(ground, t);
  }

  /** A valid uplinked orbit is always kept, retargeted to `t`, and it is
    * the last valid slot: at the front if it needs no more calls than the
    * front (or the front is invalid), otherwise behind it. */
  lemma InputPlacesNewest(g: Slots, ground: OrbitState, t: nat, n: nat)
    requires Sorted(g) && Consistent(ground) && ground.valid
    ensures var p, s, r := Presorted(g, t), Slot(Start(ground, t), n), AfterInput(g, ground, t, n);
      (!Occupied(p.current) || Calls(s) <= Calls(p.current) ==> r == Slots(s, Vacant, Vacant))
      && (Occupied(p.current) && Calls(s) > Calls(p.current) ==>
            r.current == p.current
            && ((r.catchingUp == s && !Occupied(r.toCatchUp)) || (r.catchingUp == p.catchingUp && r.toCatchUp == s)))
  {
  }

  /** A valid orbit already aimed at `t`, and there if it is idle. */
  predicate Settled(o: OrbitState, t: nat) {
    o.valid ==> o.target == t && (o.calls == 0 ==> o.time == t)
  }

  predicate AllSettled(g: Slots, t: nat) {
    Settled(g.current.orbit, t) && Settled(g.catchingUp.orbit, t) && Settled(g.toCatchUp.orbit, t)
  }

  /** Inputting an invalid orbit at the time every valid slot already
    * targets, with every idle valid slot already there, changes nothing. */
  lemma InputInvalidUnchanged(g: Slots, ground: OrbitState, t: nat, n: nat)
    requires Sorted(g) && Consistent(ground) && !ground.valid && AllSettled(g, t)
    ensures AfterInput(g, ground, t, n) == g
  {
    StartSettled(g.current.orbit, t);
    StartSettled(g.catchingUp.orbit, t);
    StartSettled(g.toCatchUp.orbit, t);
  }

  /** Retargeting a settled orbit to its own target changes nothing. */
  lemma StartSettled(o: OrbitState, t: nat)
    requires Consistent(o) && Settled(o, t)
    ensures Start(o, t) == o
  {
    if o.valid && o.calls == 0 {
      CallsForZero(0);
    }
  }

  lemma StartSettles(o: OrbitState, t: nat)
    requires Consistent(o)
    ensures Settled(Start(o, t), t)
  {
    if o.valid {
      CallsForZero(Abs(t - o.time));
    }
  }

  /** After `input`, every slot is settled at the input time, so inputting an
    * invalid orbit at that time again changes nothing. */
  lemma {:induction false} InputSettles(g: Slots, ground: OrbitState, t: nat, n: nat)
    requires Sorted(g) && Before(g, n) && Consistent(ground)
    ensures AllSettled(AfterInput(g, ground, t, n), t)
    ensures !ground.valid ==> AfterInput(AfterInput(g, ground, t, n), ground, t, n + 1) == AfterInput(g, ground, t, n)
  {
    StartSettles(g.current.orbit, t);
    StartSettles(g.catchingUp.orbit, t);
    StartSettles(g.toCatchUp.orbit, t);
    StartSettles(ground, t);
    InputKeepsSorted(g, ground, t, n);
    if !ground.valid {
      var r := AfterInput(g, ground, t, n);
      InputInvalidUnchanged(r, ground, t, n + 1);
    }
  }

  /** `one_grav_call` keeps the call order and the input order. */
  lemma OneGravCallKeepsSorted(g: Slots, n: nat)
    requires Sorted(g)
    ensures Sorted(AfterGravCall(g))
    ensures Before(g, n) ==> Before(AfterGravCall(g), n)
  {
    StepKeepsConsistent(g.current.orbit);
    StepKeepsConsistent(g.catchingUp.orbit);
    StepSpendsOne(g.current.orbit);
    StepSpendsOne(g.catchingUp.orbit);
  }

  /** Each `one_grav_call` spends exactly one of the calls left, and with
    * none left it changes nothing. */
  lemma OneGravCallSpendsOne(g: Slots)
    requires Sorted(g)
    ensures Total(g) > 0 ==> Total(AfterGravCall(g)) == Total(g) - 1
    ensures Total(g) == 0 ==> AfterGravCall(g) == g
  {
    StepSpendsOne(g.current.orbit);
    StepSpendsOne(g.catchingUp.orbit);
  }

  /** A reset or fresh propagator satisfies the invariants and has nothing to
    * do. */
  lemma EmptyIsSorted(n: nat)
    ensures Sorted(Empty) && Before(Empty, n) && Total(Empty) == 0 && !Occupied(Empty.current)
    ensures AfterGravCall(Empty) == Empty
  {
  }

  // ----- The propagator object -----

  class GroundPropagator {
    var current: OrbitState
    var catchingUp: OrbitState
    var toCatchUp: OrbitState

    /** The uplink numbers of the three orbits, and the number of `input`
      * calls so far. */
    ghost var currentUplink: nat
    ghost var catchingUpUplink: nat
    ghost var toCatchUpUplink: nat
    ghost var uplinks: nat

    ghost function State(): Slots
      reads this
    {
      Slots(Slot(current, currentUplink), Slot(catchingUp, catchingUpUplink), Slot(toCatchUp, toCatchUpUplink))
    }

    ghost predicate Valid()
      reads this
    {
      Sorted(State()) && Before(State(), uplinks)
    }

    constructor()
      ensures State() == Empty && uplinks == 0 && Valid()
    {
      current, catchingUp, toCatchUp := Invalid, Invalid, Invalid;
      currentUplink, catchingUpUplink, toCatchUpUplink := 0, 0, 0;
      uplinks := 0;
    }

    method Input(groundData: OrbitState, gpsTimeNs: nat)
      requires Valid() && Consistent(groundData)
      modifies this
      ensures State() == AfterInput(old(State()), groundData, gpsTimeNs, old(uplinks))
      ensures uplinks == old(uplinks) + 1 && Valid()
    {
      InputKeepsSorted(State(), groundData, gpsTimeNs, uplinks);
      StartAll(gpsTimeNs);
      OvertakeStep();
      PromoteStep();
      if groundData.valid {
        EnqueueStep(Start(groundData, gpsTimeNs));
      }
      uplinks := uplinks + 1;
    }

    /** The three `startpropagating` calls at the head of `input`. */
    method StartAll(t: nat)
      requires current.longStep <= 6 && catchingUp.longStep <= 6 && toCatchUp.longStep <= 6
      modifies this
      ensures State() == RetargetAll(old(State()), t) && uplinks == old(uplinks)
    {
      current := Start(current, t);
      catchingUp := Start(catchingUp, t);
      toCatchUp := Start(toCatchUp, t);
    }

    method OvertakeStep()
      modifies this
      ensures State() == Overtake(old(State())) && uplinks == old(uplinks)
    {
      if toCatchUp.valid && toCatchUp.calls <= catchingUp.calls {
        catchingUp, catchingUpUplink := toCatchUp, toCatchUpUplink;
        toCatchUp, toCatchUpUplink := Invalid, 0;
      }
    }

    /** The re-sort shared by `input` and `one_grav_call`. */
    method PromoteStep()
      modifies this
      ensures State() == Promote(old(State())) && uplinks == old(uplinks)
    {
      if catchingUp.valid && catchingUp.calls <= current.calls {
        current, currentUplink := catchingUp, catchingUpUplink;
        catchingUp, catchingUpUplink := toCatchUp, toCatchUpUplink;
        toCatchUp, toCatchUpUplink := Invalid, 0;
      }
    }

    /** The uplinked orbit, already retargeted, joins the queue as the
      * newest uplink. */
    method EnqueueStep(o: OrbitState)
      modifies this
      ensures State() == Enqueue(old(State()), Slot(o, old(uplinks))) && uplinks == old(uplinks)
    {
      toCatchUp, toCatchUpUplink := o, uplinks;
      if !current.valid || toCatchUp.calls <= current.calls {
        current, currentUplink := toCatchUp, toCatchUpUplink;
        toCatchUp, toCatchUpUplink := Invalid, 0;
        catchingUp, catchingUpUplink := Invalid, 0;
      } else if !catchingUp.valid || toCatchUp.calls <= catchingUp.calls {
        catchingUp, catchingUpUplink := toCatchUp, toCatchUpUplink;
        toCatchUp, toCatchUpUplink := Invalid, 0;
      }
    }

    method OneGravCall()
      requires Valid()
      modifies this
      ensures State() == AfterGravCall(old(State())) && uplinks == old(uplinks) && Valid()
    {
      OneGravCallKeepsSorted(State(), uplinks);
      if current.calls != 0 {
        current := Step(current);
      } else {
        catchingUp := Step(catchingUp);
      }
      PromoteStep();
    }

    /** `total_num_grav_calls_left`: zero exactly when no slot is
      * propagating. */
    method TotalNumGravCallsLeft() returns (k: nat)
      requires Valid()
      ensures k == Total(State())
      ensures k == 0 <==> current.calls == 0 && catchingUp.calls == 0 && toCatchUp.calls == 0
    {
      k := current.calls + catchingUp.calls + toCatchUp.calls;
    }

    /** `best_estimate`: the front slot, which is valid whenever any slot is. */
    method BestEstimate() returns (o: OrbitState)
      requires Valid()
      ensures o == current
      ensures !o.valid ==> !catchingUp.valid && !toCatchUp.valid
    {
      o := current;
    }

    method ResetOrbits()
      modifies this
      ensures State() == Empty && uplinks == old(uplinks) && Valid()
    {
      current, catchingUp, toCatchUp := Invalid, Invalid, Invalid;
      currentUplink, catchingUpUplink, toCatchUpUplink := 0, 0, 0;
    }
  }
}
