/**
 * The step-count stop condition of the Python simulation package
 * (python/psim/plugins/stop.py): after every step it counts the step, logs
 * each further ten percent of the step budget reached, and asks the
 * simulation to stop once the budget is used up.
 *
 * The source compares two floating-point quotients; the model compares the
 * exact rationals.
 */
module StopPlugin {
  import opened Wrappers

  /** The plugin's counters: the step budget `n`, the steps taken and the
    * next progress percentage to log. */
  datatype Counters = Counters(n: int, steps: int, percent: int)

  /** A plugin built with budget `n`. */
  function Fresh(n: int): Counters {
    Counters(n, 0, 10)
  }

  const ZeroDivision: string := "ZeroDivisionError: division by zero"

  /** `steps / n >= percent / 100`, compared exactly. */
  predicate Reached(steps: int, n: int, percent: int)
    requires n != 0
  {
    (steps as real) / (n as real) >= (percent as real) / 100.0
  }

  /** For a positive budget, the progress test is the integer comparison
    * `100 * steps >= percent * n`. */
  lemma ReachedExactly(steps: int, n: int, percent: int)
    requires n > 0
    ensures Reached(steps, n, percent) <==> 100 * steps >= percent * n
  {
    var q := (steps as real) / (n as real);
    assert q * (n as real) == steps as real;
    var p := (percent as real) / 100.0;
    assert p * 100.0 == percent as real;
    if q >= p {
      assert q * (100.0 * n as real) >= p * (100.0 * n as real);
    } else {
      assert q * (100.0 * n as real) < p * (100.0 * n as real);
    }
  }

  /** `initialize`: a non-zero step count from the command line replaces the
    * budget; zero (the default) keeps it. */
  function Initialized(c: Counters, argSteps: int): (r: Counters)
    ensures r.steps == c.steps && r.percent == c.percent
    ensures r.n == (if argSteps != 0 then argSteps else c.n)
  {
    if argSteps == 0 then c else c.(n := argSteps)
  }

  /** `poststep`: the new counters, and whether the simulation is asked to
    * stop. A zero budget raises before the stop test is reached. */
  function AfterStep(c: Counters): (r: (Counters, Result<bool, string>))
    ensures r.0.n == c.n && r.0.steps == c.steps + 1
    ensures c.n == 0 <==> r.1.Err?
    ensures c.n == 0 ==> r.1.error == ZeroDivision && r.0.percent == c.percent
    ensures c.n != 0 ==> r.0.percent == if Reached(c.steps + 1, c.n, c.percent) then c.percent + 10 else c.percent
    ensures c.n != 0 ==> (r.1.value <==> c.n > 0 && c.steps + 1 >= c.n)
  {
    var steps := c.steps + 1;
    if c.n == 0 then (c.(steps := steps), Err(ZeroDivision))
    else
      var percent := if Reached(steps, c.n, c.percent) then c.percent + 10 else c.percent;
      (Counters(c.n, steps, percent), Ok(!(c.n <= 0 || steps < c.n)))
  }

  /** The counters after `k` steps. */
  function Run(c: Counters, k: nat): Counters {
    if k == 0 then c else AfterStep(Run(c, k - 1)).0
  }

  /** What the percentage counter promises for a positive budget: it is a
    * multiple of ten, every percentage it has passed was reached, and with a
    * budget of at least ten steps it is exactly the next one to reach (a
    * smaller budget passes more than ten percent per step, and the counter
    * grows by at most ten per step). */
  ghost predicate Tracking(c: Counters) {
    c.n > 0 && c.steps >= 0 && c.percent >= 10 && c.percent % 10 == 0
    && (c.percent - 10) * c.n <= 100 * c.steps
    && (c.n >= 10 ==> 100 * c.steps < c.percent * c.n)
  }

  lemma {:induction false} StepKeepsTracking(c: Counters)
    requires Tracking(c)
    ensures Tracking(AfterStep(c).0)
  {
    var r := AfterStep(c).0;
    var n, p := c.n, c.percent;
    ReachedExactly(c.steps + 1, n, p);
    Distributes(p, 10, n);
    Distributes(p, -10, n);
    if Reached(c.steps + 1, n, p) {
      assert r == Counters(n, c.steps + 1, p + 10);
      assert (p + 10) % 10 == 0;
    } else {
      assert r == Counters(n, c.steps + 1, p);
    }
  }

  lemma Distributes(a: int, b: int, n: int)
    ensures (a + b) * n == a * n + b * n
  {
  }

  /** Over a run from a fresh plugin with a positive budget, the step count
    * is the number of steps, the percentage counter keeps its promise, and
    * the simulation is asked to stop exactly from step `n` on. */
  lemma {:induction false} RunStopsAtBudget(n: int, k: nat)
    requires n > 0
    ensures Run(Fresh(n), k).n == n && Run(Fresh(n), k).steps == k
    ensures Tracking(Run(Fresh(n), k))
    ensures k > 0 ==> AfterStep(Run(Fresh(n), k - 1)).1 == Ok(k >= n)
  {
    if k > 0 {
      var c := Run(Fresh(n), k - 1);
      RunStopsAtBudget(n, k - 1);
      StepKeepsTracking(c);
      assert Run(Fresh(n), k) == AfterStep(c).0;
      assert c.n == n && c.steps + 1 == k;
    } else {
      assert (10 - 10) * n == 0;
      assert n >= 10 ==> 0 < 10 * n;
    }
  }

  /** A plugin left at its default budget of zero fails on its first step. */
  lemma DefaultBudgetDividesByZero()
    ensures AfterStep(Initialized(Fresh(0), 0)).1 == Err(ZeroDivision)
  {
  }

  class StopOnSteps {
    var n: int
    var steps: int
    var percent: int

    function State(): Counters
      reads this
    {
      Counters(n, steps, percent)
    }

    constructor(budget: int)
      ensures State() == Fresh(budget)
    {
      n := budget;
      steps := 0;
      percent := 10;
    }

    /** `initialize`, given the parsed `--steps` argument. */
    method Initialize(argSteps: int)
      modifies this
      ensures State() == Initialized(old(State()), argSteps)
    {
      if argSteps != 0 {
        n := argSteps;
      }
    }

    /** `poststep`: `Ok(true)` when it calls `should_stop`, `Err` when the
      * progress test divides by a zero budget. */
    method Poststep() returns (r: Result<bool, string>)
      modifies this
      ensures (State(), r) == AfterStep(old(State()))
    {
      steps := steps + 1;
      if n == 0 {
        return Err(ZeroDivision);
      }
      if Reached(steps, n, percent) {
        percent := percent + 10;
      }
      if n <= 0 || steps < n {
        return Ok(false);
      }
      r := Ok(true);
    }
  }
}
