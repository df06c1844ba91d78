/**
  A gauge that reports the largest value it was updated with since it was
  last measured, and then forgets it.

  The source keeps a double initialised to the lowest finite double and
  treats that value as "idle". Here the stored value is an Option: None is
  that sentinel. An Update with the lowest double itself leaves the source's
  gauge idle, so such an update is indistinguishable from no update at all;
  reals have no lowest value, so in this model every Update makes the gauge
  non-idle.
 */
module MaxGauges {
  import opened Wrappers
  import opened Ids

  /** What one measurement of a gauge holding `v` reports. */
  function MeasureOf(id: Id, v: Option<real>): (r: seq<Measurement>)
    ensures v.None? ==> r == []
    ensures v.Some? ==> |r| == 1 && r[0].value == v.value
    ensures v.Some? ==> r[0].id.name == id.name && Find(r[0].id.tags, "statistic") == Some("max")
    ensures v.Some? ==> forall k :: k != "statistic" ==> Find(r[0].id.tags, k) == Find(id.tags, k)
  {
    if v.None? then [] else [Measurement(WithStat(id, "max"), v.value)]
  }

  function Larger(a: real, b: real): real {
    if a < b then b else a
  }

  /** The stored value after an update with `v` (update_max). */
  function RaiseTo(v: Option<real>, x: real): (r: Option<real>)
    ensures r.Some? && x <= r.value
    ensures v.Some? ==> v.value <= r.value
    ensures r.value == x || (v.Some? && r.value == v.value)
  {
    if v.None? then Some(x) else Some(Larger(v.value, x))
  }

  /** The stored value after updates with each of `xs`, in order. */
  function RaiseAll(v: Option<real>, xs: seq<real>): Option<real>
    decreases |xs|
  {
    if xs == [] then v else RaiseAll(RaiseTo(v, xs[0]), xs[1..])
  }

  /**
    After updates with a non-empty `xs` starting idle, the gauge holds the
    largest of them.
   */
  lemma {:induction false} UpdatesKeepMaximum(v: Option<real>, xs: seq<real>)
    requires xs != [] || v.Some?
    ensures RaiseAll(v, xs).Some?
    ensures forall i :: 0 <= i < |xs| ==> xs[i] <= RaiseAll(v, xs).value
    ensures v.Some? ==> v.value <= RaiseAll(v, xs).value
    ensures RaiseAll(v, xs).value in xs || (v.Some? && RaiseAll(v, xs).value == v.value)
    decreases |xs|
  {
    if xs != [] {
      var w := RaiseTo(v, xs[0]);
      UpdatesKeepMaximum(w, xs[1..]);
      assert forall i :: 1 <= i < |xs| ==> xs[i] == xs[1..][i - 1];
      if RaiseAll(w, xs[1..]).value in xs[1..] {
        var j :| 0 <= j < |xs[1..]| && xs[1..][j] == RaiseAll(w, xs[1..]).value;
        assert xs[j + 1] == RaiseAll(w, xs[1..]).value;
      }
    }
  }

  class MaxGauge {
    /** The identity the gauge was created with. */
    const id: Id
    /** The largest value since the last measurement; None is the idle sentinel. */
    var value: Option<real>

    /** A new gauge is idle. */
    constructor(id: Id)
      ensures this.id == id && MeterId() == id
      ensures Get().None?
    {
      this.id := id;
      value := None;
    }

    function MeterId(): Id {
      id
    }

    /** The current value, without resetting it (None: the idle sentinel). */
    function Get(): Option<real>
      reads this
    {
      value
    }

    /**
      Exchanges the sentinel back in and reports the old value, as one "max"
      measurement, unless the gauge was idle.
     */
    method Measure() returns (ms: seq<Measurement>)
      modifies this
      ensures value.None?
      ensures ms == MeasureOf(id, old(value))
    {
      var v := value;
      value := None;
      if v.None? {
        ms := [];
      } else {
        ms := [Measurement(WithStat(id, "max"), v.value)];
      }
    }

    /** Raises the stored value to `x` if `x` is larger (update_max). */
    method Update(x: real)
      modifies this
      ensures value == RaiseTo(old(value), x)
    {
      if value.None? || value.value < x {
        value := Some(x);
      }
    }
  }

  /**
    A queue-size gauge updated with 5, 2 and 9: the next measurement reports
    9 under the "max" statistic, and one right after it reports nothing.
   */
  method QueueSizeScenario(id: Id) returns (first: seq<Measurement>, second: seq<Measurement>)
    ensures first == [Measurement(WithStat(id, "max"), 9.0)]
    ensures second == []
  {
    var g := new MaxGauge(id);
    g.Update(5.0);
    g.Update(2.0);
    g.Update(9.0);
    first := g.Measure();
    second := g.Measure();
  }
}
