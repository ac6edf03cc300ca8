/**
 * The lazily evaluated state field (include/psim/core/state_field_lazy.hpp):
 * a read evaluates the field's function once and caches the result until the
 * field is reset.
 *
 * The function usually reads other parts of the simulation, so it is modelled
 * as a function of an environment `E` given to each read.
 */
module StateFieldLazyModel {

  /** The field's mutable state, as a value: whether the cached value is up to
    * date, and the cached value. */
  datatype Cache<T> = Cache(evaluated: bool, value: T)

  /** The outcome of reading: the new cache and the value returned. */
  function Read<E, T>(c: Cache<T>, f: E -> T, env: E): (r: (Cache<T>, T))
    ensures r.0.evaluated && r.1 == r.0.value
    ensures c.evaluated ==> r.0 == c
    ensures !c.evaluated ==> r.1 == f(env)
  {
    if c.evaluated then (c, c.value) else (Cache(true, f(env)), f(env))
  }

  /** `reset` clears the flag and keeps the stale value. */
  function Cleared<T>(c: Cache<T>): (r: Cache<T>)
    ensures !r.evaluated && r.value == c.value
  {
    c.(evaluated := false)
  }

  /** A second read returns what the first one did, whatever the environment
    * does in between. */
  lemma ReadIsCached<E, T>(c: Cache<T>, f: E -> T, env1: E, env2: E)
    ensures Read(Read(c, f, env1).0, f, env2) == Read(c, f, env1)
  {
  }

  /** A read after `reset` evaluates the function afresh. */
  lemma ReadAfterReset<E, T>(c: Cache<T>, f: E -> T, env: E)
    ensures Read(Cleared(c), f, env).1 == f(env)
  {
  }

  class StateFieldLazy<E, T> {
    /** The evaluation function, fixed at construction. */
    const evaluate: E -> T
    var evaluated: bool
    var value: T
    /** How many times the function has been called. */
    ghost var evaluations: nat

    /** A new field holds no up-to-date value; the stored value is whatever
      * the type's default constructor gives, passed in as `initial`. */
    constructor(f: E -> T, initial: T)
      ensures evaluate == f && !evaluated && value == initial && evaluations == 0
    {
      evaluate := f;
      evaluated := false;
      value := initial;
      evaluations := 0;
    }

    /** `operator T const&`: evaluates only when the cached value is stale. */
    method Get(env: E) returns (v: T)
      modifies this
      ensures (Cache(evaluated, value), v) == Read(old(Cache(evaluated, value)), evaluate, env)
      ensures evaluations == if old(evaluated) then old(evaluations) else old(evaluations) + 1
    {
      if !evaluated {
        value := evaluate(env);
        evaluated := true;
        evaluations := evaluations + 1;
      }
      v := value;
    }

    /** `reset`: only the flag changes. */
    method Reset()
      modifies this
      ensures Cache(evaluated, value) == Cleared(old(Cache(evaluated, value)))
      ensures evaluations == old(evaluations)
    {
      evaluated := false;
    }
  }

  /** The life of one field: the first read evaluates, the second reuses the
    * cached value, and a read after `reset` evaluates again. */
  method ReadResetRead<E, T>(f: E -> T, initial: T, env1: E, env2: E, env3: E) returns (a: T, b: T, c: T)
    ensures a == f(env1) && b == f(env1) && c == f(env3)
  {
    var field := new StateFieldLazy(f, initial);
    a := field.Get(env1);
    b := field.Get(env2);
    assert field.evaluations == 1;
    field.Reset();
    c := field.Get(env3);
    assert field.evaluations == 2;
  }
}
