/**
 * The plotting plugin of the Python simulation package
 * (python/psim/plugins/plot.py). A plot names an `x` array and one or more
 * `y` arrays (or `z` arrays for a 3-D plot); an array is either a logged
 * field or one component `.x`, `.y`, `.z` or `.w` of a logged field. The
 * plotter samples every needed field every `step` steps, and at the end
 * cuts the samples into the arrays the plots draw.
 *
 * Reading the plot files, drawing with matplotlib and waiting for the user
 * are not part of this model.
 */
module PlotPlugin {
  import opened Wrappers

  // ----- Field names -----

  /** The component an array selects: 0 to 3 for a trailing `.x`, `.y`,
    * `.z` or `.w`, none otherwise. */
  function ComponentOf(arrayName: string): (r: Option<nat>)
    ensures r.Some? <==> |arrayName| >= 2 && arrayName[|arrayName| - 2] == '.' && arrayName[|arrayName| - 1] in "xyzw"
    ensures r.Some? ==> r.value < 4 && "xyzw"[r.value] == arrayName[|arrayName| - 1]
  {
    if |arrayName| < 2 || arrayName[|arrayName| - 2] != '.' then None
    else if arrayName[|arrayName| - 1] == 'x' then Some(0)
    else if arrayName[|arrayName| - 1] == 'y' then Some(1)
    else if arrayName[|arrayName| - 1] == 'z' then Some(2)
    else if arrayName[|arrayName| - 1] == 'w' then Some(3)
    else None
  }

  /** `_mangle_field`: the field an array is drawn from. */
  function MangleField(arrayName: string): (r: string)
    ensures ComponentOf(arrayName).Some? ==> arrayName == r + ['.', "xyzw"[ComponentOf(arrayName).value]]
    ensures ComponentOf(arrayName).None? ==> r == arrayName
  {
    if ComponentOf(arrayName).Some? then arrayName[..|arrayName| - 2] else arrayName
  }

  // ----- Plots -----

  /** A `y` or `z` entry of a plot file: one name or a list of names. */
  datatype Axis = One(name: string) | Many(names: seq<string>)

  /** Python truthiness of an entry: a non-empty name or a non-empty list. */
  predicate Truthy(a: Option<Axis>) {
    match a
    case None => false
    case Some(One(s)) => s != ""
    case Some(Many(l)) => l != []
  }

  function AsList(a: Axis): Axis {
    match a
    case One(s) => Many([s])
    case Many(l) => a
  }

  function Items(a: Axis): (r: set<string>)
    ensures a.One? ==> r == {a.name}
    ensures a.Many? ==> forall s :: s in r <==> s in a.names
  {
    match a
    case One(s) => {s}
    case Many(l) => set s | s in l
  }

  /** What the `arrays` property caches on its first call: `x`, the `y`
    * entries and, for a 3-D plot, the `z` entries. When the plot has no `y`
    * the property raises after caching `{x}` alone. */
  function CachedArrays(x: string, y: Option<Axis>, z: Option<Axis>): (r: set<string>)
    ensures x in r
    ensures y.None? ==> r == {x}
    ensures y.Some? ==> forall s :: s in r <==> s == x || s in Items(y.value) || (Truthy(z) && s in Items(z.value))
  {
    if y.None? then {x}
    else {x} + Items(y.value) + (if Truthy(z) then Items(z.value) else {})
  }

  /** The image of a set of arrays under `_mangle_field`. */
  function FieldsOf(arrays: set<string>): set<string> {
    set a | a in arrays :: MangleField(a)
  }

  /** The loop of the `fields` property: adds the field of each array in
    * turn. */
  method MangleAll(arrays: set<string>) returns (fields: set<string>)
    ensures fields == FieldsOf(arrays)
  {
    fields := {};
    var remaining := arrays;
    while remaining != {}
      invariant remaining <= arrays
      invariant fields == FieldsOf(arrays - remaining)
      decreases remaining
    {
      var a :| a in remaining;
      fields := fields + {MangleField(a)};
      remaining := remaining - {a};
    }
    assert arrays - {} == arrays;
  }

  /** A plot logs the field of every array it draws, and nothing else. */
  lemma FieldsAreMangledArrays(arrays: set<string>, f: string)
    ensures f in FieldsOf(arrays) <==> exists a :: a in arrays && MangleField(a) == f
  {
  }

  const MissingY: string := "AttributeError: 'Plot' object has no attribute 'y'"

  class Plot {
    var x: string
    var y: Option<Axis>
    var z: Option<Axis>
    /** The memoised sets; empty until computed, as the source's `None` and
      * empty set are both recomputed. */
    var arrays: set<string>
    var fields: set<string>

    /** A memoised set is either not computed yet or what the property
      * computes. */
    ghost predicate Valid()
      reads this
    {
      (arrays == {} || arrays == CachedArrays(x, y, z))
      && (fields == {} || fields == FieldsOf(CachedArrays(x, y, z)))
    }

    constructor Init(x: string, y: Option<Axis>, z: Option<Axis>)
      ensures this.x == x && this.y == y && this.z == z && arrays == {} && fields == {} && Valid()
    {
      this.x, this.y, this.z := x, y, z;
      arrays, fields := {}, {};
    }

    /** The `arrays` property: the cached set if there is one, otherwise the
      * set computed and cached; without a `y` it raises, leaving `{x}`
      * cached, so a second call answers `{x}`. */
    method Arrays() returns (r: Result<set<string>, string>)
      requires Valid()
      modifies this
      ensures Valid() && x == old(x) && y == old(y) && z == old(z) && fields == old(fields)
      ensures arrays == CachedArrays(x, y, z)
      ensures old(arrays) != {} ==> r == Ok(old(arrays))
      ensures old(arrays) == {} ==> r == if y.None? then Err(MissingY) else Ok(CachedArrays(x, y, z))
    {
      if arrays != {} {
        return Ok(arrays);
      }
      arrays := {x};
      if y.None? {
        return Err(MissingY);
      }
      arrays := arrays + Items(y.value);
      if Truthy(z) {
        arrays := arrays + Items(z.value);
      }
      r := Ok(arrays);
    }

    /** The `fields` property: the fields to log for this plot, the image of
      * its arrays under `_mangle_field`. */
    method Fields() returns (r: Result<set<string>, string>)
      requires Valid()
      modifies this
      ensures Valid() && x == old(x) && y == old(y) && z == old(z)
      ensures old(fields) != {} ==> r == Ok(old(fields))
      ensures old(fields) == {} && old(arrays) == {} && y.None? ==> r == Err(MissingY)
      ensures old(fields) == {} && (old(arrays) != {} || y.Some?) ==> r == Ok(FieldsOf(CachedArrays(x, y, z)))
    {
      if fields != {} {
        return Ok(fields);
      }
      var all := Arrays();
      if all.Err? {
        return Err(all.error);
      }
      fields := MangleAll(all.value);
      r := Ok(fields);
    }
  }

  /** The constructor: a truthy `z` makes a 3-D plot and is turned into a
    * list; otherwise `y` is turned into a list, and a plot without `y`
    * raises. */
  method NewPlot(x: string, y: Option<Axis>, z: Option<Axis>) returns (r: Result<Plot, string>)
    ensures r.Ok? <==> Truthy(z) || y.Some?
    ensures r.Err? ==> r.error == MissingY
    ensures r.Ok? ==> fresh(r.value) && r.value.Valid() && r.value.arrays == {} && r.value.fields == {}
    ensures r.Ok? ==> r.value.x == x
    ensures r.Ok? && Truthy(z) ==> r.value.y == y && r.value.z == Some(AsList(z.value))
    ensures r.Ok? && !Truthy(z) ==> r.value.y == Some(AsList(y.value)) && r.value.z == z
  {
    if Truthy(z) {
      var p := new Plot.Init(x, y, Some(AsList(z.value)));
      return Ok(p);
    }
    if y.None? {
      return Err(MissingY);
    }
    var p := new Plot.Init(x, Some(AsList(y.value)), z);
    r := Ok(p);
  }

  /** Making a one-name entry a list does not change the arrays drawn. */
  lemma AsListKeepsItems(a: Axis)
    ensures Items(AsList(a)) == Items(a)
  {
  }

  // ----- Sampling -----

  /** A logged value: a scalar or a vector. */
  datatype Datum = Scalar(x: real) | Vector(components: seq<real>)

  /** The plotter's sampling state: the steps since the last sample and the
    * samples taken of each field. */
  datatype Log = Log(n: int, samples: map<string, seq<Datum>>)

  /** `poststep`: every `step` steps each field gets the current value
    * appended and the counter restarts; a step of zero or less records
    * nothing. */
  function AfterPoststep(l: Log, step: int, sim: string -> Datum): (r: Log)
    ensures r.samples.Keys == l.samples.Keys
    ensures step > 0 && (l.n + 1) % step == 0 ==>
      r.n == 0 && forall k :: k in l.samples ==> r.samples[k] == l.samples[k] + [sim(k)]
    ensures !(step > 0 && (l.n + 1) % step == 0) ==> r == Log(l.n + 1, l.samples)
  {
    var n := l.n + 1;
    if step > 0 && n % step == 0 then Log(0, map k | k in l.samples :: l.samples[k] + [sim(k)])
    else Log(n, l.samples)
  }

  /** The log after one `poststep` per simulation state in `sims`. */
  function Sampled(l: Log, step: int, sims: seq<string -> Datum>): Log
    decreases |sims|
  {
    if sims == [] then l else AfterPoststep(Sampled(l, step, sims[..|sims| - 1]), step, sims[|sims| - 1])
  }

  /** The samples one field should hold after the steps in `sims`: one per
    * `step` steps, sample `i` being the value at step `(i + 1) * step`, with
    * `n` steps since the last one. */
  ghost predicate SampledEvery(s: seq<Datum>, n: int, step: int, sims: seq<string -> Datum>, k: string)
    requires step > 0
  {
    0 <= n < step && |sims| == |s| * step + n
    && forall i :: 0 <= i < |s| ==> SampleAt(s, step, sims, k, i)
  }

  /** Sample `i` is the value at step `(i + 1) * step`. */
  ghost predicate SampleAt(s: seq<Datum>, step: int, sims: seq<string -> Datum>, k: string, i: int)
    requires 0 <= i < |s|
  {
    0 <= (i + 1) * step - 1 < |sims| && s[i] == sims[(i + 1) * step - 1](k)
  }

  lemma MultiplyMonotone(a: int, b: int, c: int)
    requires 0 <= a <= b && c > 0
    ensures a * c <= b * c
  {
  }

  /** One more step keeps a field's samples as `SampledEvery` describes. */
  lemma SampledEveryStep(s: seq<Datum>, n: int, step: int, sims: seq<string -> Datum>, sim: string -> Datum, k: string)
    requires step > 0 && SampledEvery(s, n, step, sims, k)
    ensures (n + 1) % step == 0 ==> SampledEvery(s + [sim(k)], 0, step, sims + [sim], k)
    ensures (n + 1) % step != 0 ==> SampledEvery(s, n + 1, step, sims + [sim], k)
  {
    if n + 1 == step {
      assert (n + 1) % step == 0;
      SampleTaken(s, n, step, sims, sim, k);
    } else {
      assert (n + 1) % step == n + 1;
      NoSampleTaken(s, n, step, sims, sim, k);
    }
  }

  lemma SampleTaken(s: seq<Datum>, n: int, step: int, sims: seq<string -> Datum>, sim: string -> Datum, k: string)
    requires step > 0 && SampledEvery(s, n, step, sims, k) && n + 1 == step
    ensures SampledEvery(s + [sim(k)], 0, step, sims + [sim], k)
  {
    var s', sims' := s + [sim(k)], sims + [sim];
    assert (|s| + 1) * step == |s| * step + step;
    forall i | 0 <= i < |s'|
      ensures SampleAt(s', step, sims', k, i)
    {
      SampleTakenAt(s, n, step, sims, sim, k, i);
    }
  }

  lemma SampleTakenAt(s: seq<Datum>, n: int, step: int, sims: seq<string -> Datum>, sim: string -> Datum, k: string, i: nat)
    requires step > 0 && SampledEvery(s, n, step, sims, k) && n + 1 == step && i <= |s|
    ensures SampleAt(s + [sim(k)], step, sims + [sim], k, i)
  {
    var c := |s|;
    assert (c + 1) * step == c * step + step;
    MultiplyMonotone(1, i + 1, step);
    MultiplyMonotone(i + 1, c + 1, step);
    var j := (i + 1) * step - 1;
    if i < c {
      assert SampleAt(s, step, sims, k, i);
    } else {
      assert j == |sims|;
    }
  }

  lemma NoSampleTaken(s: seq<Datum>, n: int, step: int, sims: seq<string -> Datum>, sim: string -> Datum, k: string)
    requires step > 0 && SampledEvery(s, n, step, sims, k) && n + 1 < step
    ensures SampledEvery(s, n + 1, step, sims + [sim], k)
  {
    forall i | 0 <= i < |s|
      ensures SampleAt(s, step, sims + [sim], k, i)
    {
      assert SampleAt(s, step, sims, k, i);
      var j := (i + 1) * step - 1;
      assert (sims + [sim])[j] == sims[j];
    }
  }

  /** Samples are taken on steps `step`, `2 * step`, ...: after `m` steps
    * each field holds `m / step` samples, sample `i` being the value at step
    * `(i + 1) * step`, and the counter holds `m % step`. */
  lemma {:induction false} SamplesEveryStep(keys: set<string>, step: int, sims: seq<string -> Datum>)
    requires step > 0
    ensures Sampled(Log(0, map k | k in keys :: []), step, sims).samples.Keys == keys
    ensures forall k :: k in keys ==>
      var l := Sampled(Log(0, map k | k in keys :: []), step, sims);
      SampledEvery(l.samples[k], l.n, step, sims, k)
  {
    var start := Log(0, map k | k in keys :: []);
    if sims != [] {
      var m := |sims| - 1;
      SamplesEveryStep(keys, step, sims[..m]);
      var before := Sampled(start, step, sims[..m]);
      var after := AfterPoststep(before, step, sims[m]);
      assert Sampled(start, step, sims) == after;
      assert sims[..m] + [sims[m]] == sims;
      forall k | k in keys
        ensures SampledEvery(after.samples[k], after.n, step, sims, k)
      {
        SampledEveryStep(before.samples[k], before.n, step, sims[..m], sims[m], k);
      }
    } else {
      assert 0 % step == 0;
    }
  }

  /** With a step of zero or less nothing is ever sampled. */
  lemma {:induction false} NoSamplesWithoutStep(l: Log, step: int, sims: seq<string -> Datum>)
    requires step <= 0
    ensures Sampled(l, step, sims) == Log(l.n + |sims|, l.samples)
  {
    if sims != [] {
      NoSamplesWithoutStep(l, step, sims[..|sims| - 1]);
    }
  }

  // ----- Cutting samples into arrays -----

  /** The samples of one array: the whole samples of its field, or the
    * selected component of each; `None` when the field was not logged or a
    * sample has no such component. */
  function Selected(arrayName: string, samples: map<string, seq<Datum>>): (r: Option<seq<Datum>>)
    ensures r.Some? ==> MangleField(arrayName) in samples && |r.value| == |samples[MangleField(arrayName)]|
    ensures ComponentOf(arrayName).None? ==>
      r == if arrayName in samples then Some(samples[arrayName]) else None
    ensures ComponentOf(arrayName).Some? ==>
      var c, f := ComponentOf(arrayName).value, MangleField(arrayName);
      (r.Some? <==> f in samples && forall i :: 0 <= i < |samples[f]| ==> samples[f][i].Vector? && c < |samples[f][i].components|)
      && (r.Some? ==> forall i :: 0 <= i < |r.value| ==> r.value[i] == Scalar(samples[f][i].components[c]))
  {
    var f := MangleField(arrayName);
    if f !in samples then None
    else if ComponentOf(arrayName).None? then Some(samples[f])
    else
      var c, s := ComponentOf(arrayName).value, samples[f];
      if forall i :: 0 <= i < |s| ==> s[i].Vector? && c < |s[i].components| then
        Some(seq(|s|, i requires 0 <= i < |s| && s[i].Vector? && c < |s[i].components| => Scalar(s[i].components[c])))
      else None
  }

  const CannotSelect: string := "a logged field lacks the selected component"

  /** What `cleanup` builds: nothing when the step is not positive, else the
    * samples of every array the plots draw. */
  ghost function CleanedUp(step: int, names: set<string>, samples: map<string, seq<Datum>>): Result<Option<map<string, seq<Datum>>>, string> {
    if step <= 0 then Ok(None)
    else if forall a :: a in names ==> Selected(a, samples).Some? then Ok(Some(map a | a in names :: Selected(a, samples).value))
    else Err(CannotSelect)
  }

  /** Every field named in some plot. */
  function Union(plotFields: seq<set<string>>): set<string> {
    if plotFields == [] then {} else Union(plotFields[..|plotFields| - 1]) + plotFields[|plotFields| - 1]
  }

  /** A field is logged exactly when some plot needs it. */
  lemma {:induction false} UnionMembers(plotFields: seq<set<string>>, f: string)
    ensures f in Union(plotFields) <==> exists i :: 0 <= i < |plotFields| && f in plotFields[i]
  {
    if plotFields != [] {
      var m := |plotFields| - 1;
      UnionMembers(plotFields[..m], f);
      if f in Union(plotFields[..m]) {
        var i :| 0 <= i < m && f in plotFields[..m][i];
        assert f in plotFields[i];
      }
      if exists i :: 0 <= i < |plotFields| && f in plotFields[i] {
        var i :| 0 <= i < |plotFields| && f in plotFields[i];
        if i < m {
          assert f in plotFields[..m][i];
        }
      }
    }
  }

  /** The inner loop of `initialize`: a field not logged yet gets an empty
    * sample list. */
  method AddFields(collected: map<string, seq<Datum>>, fields: set<string>) returns (r: map<string, seq<Datum>>)
    requires forall f :: f in collected ==> collected[f] == []
    ensures r.Keys == collected.Keys + fields
    ensures forall f :: f in r ==> r[f] == []
  {
    r := collected;
    var remaining := fields;
    while remaining != {}
      invariant remaining <= fields
      invariant forall f :: f in r <==> f in collected || (f in fields && f !in remaining)
      invariant forall f :: f in r ==> r[f] == []
      decreases remaining
    {
      var f :| f in remaining;
      if f !in r || |r[f]| == 0 {
        r := r[f := []];
      }
      remaining := remaining - {f};
    }
  }

  /** The loop of `initialize` over the plots read. */
  method EmptyLogs(plotFields: seq<set<string>>) returns (collected: map<string, seq<Datum>>)
    ensures collected.Keys == Union(plotFields)
    ensures forall f :: f in collected ==> collected[f] == []
  {
    collected := map[];
    for i := 0 to |plotFields|
      invariant collected.Keys == Union(plotFields[..i])
      invariant forall f :: f in collected ==> collected[f] == []
    {
      assert plotFields[..i + 1][..i] == plotFields[..i];
      collected := AddFields(collected, plotFields[i]);
    }
    assert plotFields[..|plotFields|] == plotFields;
  }

  /** The loop of `poststep` over the logged fields: each gets the current
    * value appended. */
  method SampleAll(samples: map<string, seq<Datum>>, sim: string -> Datum) returns (updated: map<string, seq<Datum>>)
    ensures updated == map k | k in samples :: samples[k] + [sim(k)]
  {
    var keys := samples.Keys;
    updated := samples;
    while keys != {}
      invariant keys <= samples.Keys && updated.Keys == samples.Keys
      invariant forall k :: k in samples ==> updated[k] == if k in keys then samples[k] else samples[k] + [sim(k)]
      decreases keys
    {
      var k :| k in keys;
      updated := updated[k := updated[k] + [sim(k)]];
      keys := keys - {k};
    }
  }

  class Plotter {
    var step: int
    var n: int
    var samples: map<string, seq<Datum>>

    function State(): Log
      reads this
    {
      Log(n, samples)
    }

    constructor(step: int)
      ensures this.step == step && State() == Log(0, map[])
    {
      this.step := step;
      n := 0;
      samples := map[];
    }

    /** The field map of `initialize`: one empty sample list per field any
      * plot needs, given the `fields` of each plot read. */
    method Initialize(plotFields: seq<set<string>>)
      modifies this
      ensures step == old(step) && n == old(n)
      ensures samples.Keys == Union(plotFields)
      ensures forall f :: f in samples ==> samples[f] == []
    {
      samples := EmptyLogs(plotFields);
    }

    /** `poststep`, given the simulation's current values. */
    method Poststep(sim: string -> Datum)
      modifies this
      ensures step == old(step)
      ensures State() == AfterPoststep(old(State()), step, sim)
    {
      n := n + 1;
      if step > 0 && n % step == 0 {
        n := 0;
        samples := SampleAll(samples, sim);
      }
    }

    /** `cleanup`, given every array the plots draw. */
    method Cleanup(names: set<string>) returns (r: Result<Option<map<string, seq<Datum>>>, string>)
      ensures r == CleanedUp(step, names, samples)
    {
      if !(step > 0) {
        return Ok(None);
      }
      var arrays: map<string, seq<Datum>> := map[];
      var remaining := names;
      while remaining != {}
        invariant remaining <= names
        invariant forall a :: a in names - remaining ==> Selected(a, samples).Some?
        invariant arrays == map a | a in names - remaining :: Selected(a, samples).value
        decreases remaining
      {
        var a :| a in remaining;
        var selected := Selected(a, samples);
        if selected.None? {
          return Err(CannotSelect);
        }
        arrays := arrays[a := selected.value];
        remaining := remaining - {a};
      }
      assert names - {} == names;
      r := Ok(Some(arrays));
    }
  }
}
