/**
 * The propagation scheduler of `orb::Orbit` (include/orb/Orbit.h): how many
 * gravity calls a propagation needs, and how each call advances the orbit's
 * time toward the target in long steps (105 s, seven sub-steps each) and
 * short steps (0.2 s).
 *
 * Only the integer bookkeeping is modelled: validity, the time stamp, the
 * target time, the remaining call count and the long-step phase. Position,
 * velocity and the integrator are not, and validity (a check on the
 * position) is a boolean fixed when the orbit is made.
 */
module OrbitSchedule {

  /** `maxlongtimestep` and `maxshorttimestep`, in nanoseconds. */
  const MaxLong: int := 105_000_000_000
  const MaxShort: int := 200_000_000

  function Abs(x: int): nat { if x < 0 then -x else x }
  function Min(a: int, b: int): int { if a <= b then a else b }

  /** The scheduler's part of an Orbit. */
  datatype OrbitState = OrbitState(valid: bool, time: nat, target: nat, calls: nat, longStep: nat)

  /** A default-constructed Orbit: invalid, time 0, not propagating. */
  const Invalid: OrbitState := OrbitState(false, 0, 0, 0, 0)

  /** An orbit made from a time stamp and a state vector: an invalid one is
    * reset to the default values. */
  function Made(time: nat, inLowEarthOrbit: bool): (o: OrbitState)
    ensures o.calls == 0 && o.longStep == 0 && o.valid == inLowEarthOrbit
    ensures o.valid ==> o.time == time
  {
    if inLowEarthOrbit then OrbitState(true, time, 0, 0, 0) else Invalid
  }

  // ----- The call count -----

  /** Short steps for a remainder `r`: one per started 0.2 s, at most 7. */
  function ShortCalls(r: nat): nat {
    if r == 0 then 0 else Min((r - 1) / MaxShort + 1, 7)
  }

  /** Calls for a time difference `d`: seven per whole long step when `d`
    * exceeds six short steps, then the short steps of what is left. */
  function CallsFor(d: nat): nat {
    if d > 6 * MaxShort then 7 * (d / MaxLong) + ShortCalls(d % MaxLong) else ShortCalls(d)
  }

  /** Sub-steps left of a long step in phase `k`. */
  function Pending(k: nat): nat
    requires k <= 6
  {
    if k == 0 then 0 else 7 - k
  }

  /** The scheduler's invariant: the call count is what the phase and the
    * remaining time difference need, and nothing is pending on an invalid or
    * idle orbit. */
  ghost predicate Consistent(o: OrbitState) {
    o.longStep <= 6
    && (!o.valid ==> o.calls == 0)
    && (o.calls == 0 ==> o.longStep == 0)
    && (o.calls != 0 ==> o.calls == Pending(o.longStep) + CallsFor(Abs(o.target - o.time)))
  }

  // ----- The operations, as functions of the state -----

  /** `startpropagating`: a new target; the unfinished sub-steps of a long
    * step are kept. */
  function Start(o: OrbitState, end: nat): OrbitState
    requires o.longStep <= 6
  {
    if !o.valid then o
    else o.(target := end, calls := Pending(o.longStep) + CallsFor(Abs(end - o.time)))
  }

  /** The signed step toward a difference `delta`, at most `m` long. */
  function Toward(delta: int, m: nat): int {
    if Abs(delta) >= m then (if delta < 0 then -(m as int) else m) else delta
  }

  /** The time after a step of at most `m` toward the target. */
  function Advanced(o: OrbitState, m: nat): (t: nat)
    ensures Abs(o.target - t) == if Abs(o.target - o.time) >= m then Abs(o.target - o.time) - m else 0
    ensures Abs(o.target - t) <= Abs(o.target - o.time)
    ensures o.time <= t <= o.target || o.target <= t <= o.time
  {
    o.time + Toward(o.target - o.time, m)
  }

  /** `onegravcall`: nothing on an invalid or idle orbit; otherwise one call
    * is spent, and time moves only on the first sub-step of a long step or
    * on a short step. */
  function Step(o: OrbitState): OrbitState {
    if !o.valid || o.calls == 0 then o
    else if o.longStep == 0 then
      if o.calls >= 7 then o.(time := Advanced(o, MaxLong), longStep := 1, calls := o.calls - 1)
      else o.(time := Advanced(o, MaxShort), calls := o.calls - 1)
    else o.(longStep := if o.longStep + 1 >= 7 then 0 else o.longStep + 1, calls := o.calls - 1)
  }

  /** `finishpropagating`: calls until none is left. */
  function Finish(o: OrbitState): OrbitState
    decreases o.calls
  {
    if !o.valid || o.calls == 0 then o else Finish(Step(o))
  }

  // ----- Arithmetic of the call count -----

  lemma ShortCallsBelow(r: nat)
    requires r <= 6 * MaxShort
    ensures ShortCalls(r) <= 6
    ensures ShortCalls(r) == 0 <==> r == 0
    ensures r > 0 ==> ShortCalls(r) == (r - 1) / MaxShort + 1
  {
  }

  lemma ShortCallsStep(r: nat)
    requires MaxShort <= r <= 6 * MaxShort
    ensures ShortCalls(r) == ShortCalls(r - MaxShort) + 1
  {
    if r > MaxShort {
      var q := (r - MaxShort - 1) / MaxShort;
      assert r - MaxShort - 1 == q * MaxShort + (r - MaxShort - 1) % MaxShort;
      assert r - 1 == (q + 1) * MaxShort + (r - MaxShort - 1) % MaxShort;
    }
  }

  /** More than six short steps' worth always takes at least seven calls. */
  lemma LongDistanceCalls(d: nat)
    requires d > 6 * MaxShort
    ensures CallsFor(d) >= 7
    ensures d < MaxLong ==> CallsFor(d) == 7
  {
    if d < MaxLong {
      assert d / MaxLong == 0 && d % MaxLong == d;
      assert (d - 1) / MaxShort >= 6;
    } else {
      assert d / MaxLong >= 1;
    }
  }

  /** A whole long step is worth seven calls. */
  lemma LongStepCalls(d: nat)
    requires d >= MaxLong
    ensures CallsFor(d) == 7 + CallsFor(d - MaxLong)
  {
    var q, r := d / MaxLong, d % MaxLong;
    assert d == q * MaxLong + r;
    assert q >= 1;
    assert d - MaxLong == (q - 1) * MaxLong + r;
    assert (d - MaxLong) / MaxLong == q - 1 && (d - MaxLong) % MaxLong == r;
    if d - MaxLong <= 6 * MaxShort {
      assert q == 1;
    }
  }

  lemma CallsForZero(d: nat)
    ensures CallsFor(d) == 0 <==> d == 0
  {
    if d > 6 * MaxShort {
      LongDistanceCalls(d);
    } else {
      ShortCallsBelow(d);
    }
  }

  // ----- Properties -----

  /** `startpropagating` keeps the invariant. */
  lemma StartKeepsConsistent(o: OrbitState, end: nat)
    requires Consistent(o)
    ensures Consistent(Start(o, end))
  {
  }

  /** `onegravcall` keeps the invariant. */
  lemma StepKeepsConsistent(o: OrbitState)
    requires Consistent(o)
    ensures Consistent(Step(o))
  {
    if o.valid && o.calls != 0 {
      if o.longStep != 0 {
        SubStepKeepsConsistent(o);
      } else if o.calls >= 7 {
        LongStepKeepsConsistent(o);
      } else {
        ShortStepKeepsConsistent(o);
      }
    }
  }

  /** The first sub-step of a long step moves time by up to 105 s and leaves
    * six sub-steps pending. */
  lemma LongStepKeepsConsistent(o: OrbitState)
    requires Consistent(o) && o.valid && o.longStep == 0 && o.calls >= 7
    ensures Consistent(Step(o))
  {
    var d := Abs(o.target - o.time);
    if d >= MaxLong {
      LongStepCalls(d);
    } else if d > 6 * MaxShort {
      LongDistanceCalls(d);
    } else {
      ShortCallsBelow(d);
    }
  }

  /** A short step moves time by up to 0.2 s. */
  lemma ShortStepKeepsConsistent(o: OrbitState)
    requires Consistent(o) && o.valid && o.longStep == 0 && 0 < o.calls < 7
    ensures Consistent(Step(o))
  {
    var d := Abs(o.target - o.time);
    if d > 6 * MaxShort {
      LongDistanceCalls(d);
    }
    ShortCallsBelow(d);
    if d >= MaxShort {
      ShortCallsStep(d);
    }
  }

  /** A later sub-step of a long step only advances the phase. */
  lemma SubStepKeepsConsistent(o: OrbitState)
    requires Consistent(o) && o.valid && o.longStep != 0
    ensures Consistent(Step(o))
  {
  }

  /** An effective call spends exactly one call; otherwise nothing changes.
    * The target never changes, and time moves toward it without passing it. */
  lemma StepSpendsOne(o: OrbitState)
    ensures !o.valid || o.calls == 0 ==> Step(o) == o
    ensures o.valid && o.calls != 0 ==> Step(o).calls == o.calls - 1
    ensures Step(o).target == o.target && Step(o).valid == o.valid
    ensures o.time <= Step(o).time <= o.target || o.target <= Step(o).time <= o.time
  {
  }

  /** A long step starts only with at least seven calls left, moves time once
    * and then cycles the phase through 1..6 back to 0. */
  lemma LongStepPhases(o: OrbitState)
    requires o.longStep <= 6 && o.valid && o.calls != 0
    ensures o.longStep == 0 && o.calls >= 7 ==> Step(o).longStep == 1
    ensures o.longStep == 0 && o.calls < 7 ==> Step(o).longStep == 0
    ensures o.longStep != 0 ==> Step(o).time == o.time && Step(o).longStep == (o.longStep + 1) % 7
  {
    if o.longStep == 6 {
      assert (o.longStep + 1) % 7 == 0;
    } else if o.longStep != 0 {
      assert (o.longStep + 1) % 7 == o.longStep + 1;
    }
  }

  /** When the last call is spent, the orbit is at its target time. */
  lemma {:induction false} LastCallReachesTarget(o: OrbitState)
    requires Consistent(o) && o.valid && o.calls != 0 && Step(o).calls == 0
    ensures Step(o).time == o.target
  {
    StepKeepsConsistent(o);
    var s := Step(o);
    var d := Abs(o.target - o.time);
    if o.longStep == 0 && o.calls < 7 {
      if d > 6 * MaxShort {
        LongDistanceCalls(d);
      }
      ShortCallsBelow(d);
      if d >= MaxShort {
        ShortCallsStep(d);
        CallsForZero(d - MaxShort);
      }
    } else if o.longStep != 0 {
      assert o.calls == 1 && o.longStep == 6;
      CallsForZero(d);
    }
  }

  /** `finishpropagating` spends every call and, if the orbit was
    * propagating, leaves it exactly at its target time. */
  lemma {:induction false} FinishReachesTarget(o: OrbitState)
    requires Consistent(o)
    ensures Consistent(Finish(o)) && Finish(o).calls == 0
    ensures o.calls != 0 ==> Finish(o).time == o.target
    ensures Finish(o).target == o.target
    decreases o.calls
  {
    if o.valid && o.calls != 0 {
      StepKeepsConsistent(o);
      StepSpendsOne(o);
      if Step(o).calls == 0 {
        LastCallReachesTarget(o);
      }
      FinishReachesTarget(Step(o));
    }
  }

  /** Scheduled call counts for differences from 10 ns to ten long steps and
    * a bit. */
  lemma CallCounts()
    ensures CallsFor(0) == 0 && CallsFor(10) == 1
    ensures CallsFor(MaxShort) == 1 && CallsFor(MaxShort + 1) == 2
    ensures CallsFor(2 * MaxShort + 1) == 3 && CallsFor(6 * MaxShort) == 6
    ensures CallsFor(6 * MaxShort + 1) == 7 && CallsFor(MaxLong) == 7
    ensures CallsFor(MaxLong + 1) == 8 && CallsFor(MaxLong + 6 * MaxShort) == 13
    ensures CallsFor(10 * MaxLong + 6 * MaxShort) == 76 && CallsFor(10 * MaxLong + 6 * MaxShort + 1) == 77
  {
  }

  /** Retargeting during a long step keeps its unfinished sub-steps: one call
    * into a 105 s propagation, retargeting back to the start time needs the
    * six remaining sub-steps plus seven more. */
  lemma RetargetMidLongStep(o: OrbitState)
    requires o.valid && o.calls == 0 && o.longStep == 0
    ensures Start(o, o.time + MaxLong).calls == 7
    ensures Step(Start(o, o.time + MaxLong)).calls == 6
    ensures Step(Start(o, o.time + MaxLong)).time == o.time + MaxLong
    ensures Start(Step(Start(o, o.time + MaxLong)), o.time).calls == 6 + 7
  {
  }

  // ----- The Orbit object -----

  /** The count of `startpropagating` for a phase `longStep` and a time
    * difference `absdeltatime`: the pending sub-steps, seven calls per whole
    * long step when more than six short steps are needed, then one call per
    * started short step of what is left, at most seven. */
  method CountCalls(longStep: nat, absdeltatime: nat) returns (calls: nat)
    requires longStep <= 6
    ensures calls == Pending(longStep) + CallsFor(absdeltatime)
  {
    calls := if longStep != 0 then 7 - longStep else 0;
    var rest := absdeltatime;
    if rest > MaxShort * 6 {
      var n := rest / MaxLong;
      calls := calls + n * 7;
      rest := rest - n * MaxLong;
      assert rest == absdeltatime % MaxLong;
    }
    assert calls + ShortCalls(rest) == Pending(longStep) + CallsFor(absdeltatime);
    if rest == 0 {
      return;
    }
    calls := calls + Min((rest - 1) / MaxShort + 1, 7);
  }

  class Orbit {
    var valid: bool
    var nsGpsTime: nat
    var targetGpsTime: nat
    var numGravCallsLeft: nat
    var longStep: nat

    function State(): OrbitState
      reads this
    {
      OrbitState(valid, nsGpsTime, targetGpsTime, numGravCallsLeft, longStep)
    }

    /** `Orbit()`: an invalid orbit. */
    constructor()
      ensures State() == Invalid && Consistent(State())
    {
      valid := false;
      nsGpsTime := 0;
      targetGpsTime := 0;
      numGravCallsLeft := 0;
      longStep := 0;
    }

    /** `Orbit(time, r, v)`: valid when the position is in low earth orbit. */
    constructor FromState(time: nat, inLowEarthOrbit: bool)
      ensures State() == Made(time, inLowEarthOrbit) && Consistent(State())
    {
      valid := inLowEarthOrbit;
      nsGpsTime := if inLowEarthOrbit then time else 0;
      targetGpsTime := 0;
      numGravCallsLeft := 0;
      longStep := 0;
    }

    /** `numgravcallsleft`. */
    method NumGravCallsLeft() returns (k: nat)
      requires Consistent(State())
      ensures k == State().calls
      ensures k == 0 <==> Finish(State()) == State()
    {
      FinishReachesTarget(State());
      k := numGravCallsLeft;
    }

    /** `startpropagating`: counts whole long steps, then the short steps of
      * the remainder. */
    method StartPropagating(end: nat)
      requires Consistent(State())
      modifies this
      ensures State() == Start(old(State()), end) && Consistent(State())
    {
      StartKeepsConsistent(State(), end);
      if !valid {
        return;
      }
      targetGpsTime := end;
      numGravCallsLeft := CountCalls(longStep, Abs(end - nsGpsTime));
    }

    /** `onegravcall`. */
    method OneGravCall()
      requires Consistent(State())
      modifies this
      ensures State() == Step(old(State())) && Consistent(State())
    {
      StepKeepsConsistent(State());
      if !valid || numGravCallsLeft == 0 {
        return;
      }
      if longStep == 0 {
        var deltatime := targetGpsTime - nsGpsTime;
        var signofdt := if deltatime < 0 then -1 else 1;
        var currentdtns: int;
        if numGravCallsLeft >= 7 {
          if Abs(deltatime) >= MaxLong {
            currentdtns := signofdt * MaxLong;
          } else {
            currentdtns := deltatime;
          }
          nsGpsTime := nsGpsTime + currentdtns;
          longStep := longStep + 1;
        } else {
          if Abs(deltatime) >= MaxShort {
            currentdtns := signofdt * MaxShort;
          } else {
            currentdtns := deltatime;
          }
          nsGpsTime := nsGpsTime + currentdtns;
        }
      } else {
        longStep := longStep + 1;
        if longStep >= 7 {
          longStep := 0;
        }
      }
      numGravCallsLeft := numGravCallsLeft - 1;
    }

    /** `finishpropagating`. */
    method FinishPropagating()
      requires Consistent(State())
      modifies this
      ensures State() == Finish(old(State())) && Consistent(State())
      ensures numGravCallsLeft == 0 && targetGpsTime == old(targetGpsTime)
      ensures old(numGravCallsLeft) != 0 ==> nsGpsTime == old(targetGpsTime)
    {
      FinishReachesTarget(State());
      while numGravCallsLeft != 0
        invariant Consistent(State())
        invariant Finish(State()) == Finish(old(State()))
        decreases numGravCallsLeft
      {
        OneGravCall();
      }
    }
  }
}
