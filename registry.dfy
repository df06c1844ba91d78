/**
  The registry: the configuration it was built with and the store of meters,
  one per identity. Only max gauges are held here (see README).
 */
module Registries {
  import opened Wrappers
  import opened Ids
  import opened Seqs
  import opened MaxGauges

  /** The configuration fields the registry and the publisher read. */
  datatype Config = Config(uri: string, batchSize: int, commonTags: Tags)

  /** CreateId: an identity with exactly the given name and tags. */
  function CreateId(name: string, tags: Tags): (id: Id)
    ensures id.name == name && id.tags == tags
  {
    Id(name, tags)
  }

  /** A sequence lists each element of `keys` exactly once. */
  ghost predicate Enumerates<T>(order: seq<T>, keys: set<T>) {
    && |order| == |keys|
    && (forall i :: 0 <= i < |order| ==> order[i] in keys)
    && (forall k :: k in keys ==> k in order)
    && (forall i, j :: 0 <= i < j < |order| ==> order[i] != order[j])
  }

  /**
    The measurements of the gauges listed in `order`, concatenated, when
    gauge `id` holds `vals[id]`.
   */
  function MeasureAll(order: seq<Id>, vals: map<Id, Option<real>>): seq<Measurement>
    requires forall i :: 0 <= i < |order| ==> order[i] in vals
    decreases |order|
  {
    if order == [] then []
    else MeasureOf(order[0], vals[order[0]]) + MeasureAll(order[1..], vals)
  }

  /** MeasureAll grows at the back one gauge at a time. */
  lemma {:induction false} MeasureAllSnoc(order: seq<Id>, id: Id, vals: map<Id, Option<real>>)
    requires forall i :: 0 <= i < |order| ==> order[i] in vals
    requires id in vals
    ensures MeasureAll(order + [id], vals) == MeasureAll(order, vals) + MeasureOf(id, vals[id])
    decreases |order|
  {
    if order == [] {
      assert order + [id] == [id];
      assert [id][1..] == [];
    } else {
      assert (order + [id])[1..] == order[1..] + [id];
      MeasureAllSnoc(order[1..], id, vals);
    }
  }

  /**
    A measurement comes out of MeasureAll exactly when it is the "max"
    measurement of a listed, non-idle gauge.
   */
  lemma {:induction false} MeasureAllMembers(order: seq<Id>, vals: map<Id, Option<real>>, m: Measurement)
    requires forall i :: 0 <= i < |order| ==> order[i] in vals
    ensures m in MeasureAll(order, vals) <==>
      exists i :: 0 <= i < |order| && vals[order[i]].Some?
        && m == Measurement(WithStat(order[i], "max"), vals[order[i]].value)
    decreases |order|
  {
    if order != [] {
      MeasureAllMembers(order[1..], vals, m);
      if exists i :: 0 <= i < |order| && vals[order[i]].Some?
          && m == Measurement(WithStat(order[i], "max"), vals[order[i]].value) {
        var i :| 0 <= i < |order| && vals[order[i]].Some?
          && m == Measurement(WithStat(order[i], "max"), vals[order[i]].value);
        if i > 0 {
          assert order[1..][i - 1] == order[i];
        }
      }
      if m in MeasureAll(order[1..], vals) {
        var i :| 0 <= i < |order[1..]| && vals[order[1..][i]].Some?
          && m == Measurement(WithStat(order[1..][i], "max"), vals[order[1..][i]].value);
        assert order[i + 1] == order[1..][i];
      }
    }
  }

  /** Every listed gauge contributes its own measurements: the length is the sum of theirs. */
  function CountNonIdle(order: seq<Id>, vals: map<Id, Option<real>>): nat
    requires forall i :: 0 <= i < |order| ==> order[i] in vals
    decreases |order|
  {
    if order == [] then 0
    else (if vals[order[0]].Some? then 1 else 0) + CountNonIdle(order[1..], vals)
  }

  lemma {:induction false} MeasureAllLength(order: seq<Id>, vals: map<Id, Option<real>>)
    requires forall i :: 0 <= i < |order| ==> order[i] in vals
    ensures |MeasureAll(order, vals)| == CountNonIdle(order, vals)
    decreases |order|
  {
    if order != [] {
      MeasureAllLength(order[1..], vals);
    }
  }

  class Registry {
    const config: Config
    /** The meter store: identity to meter. */
    var meters: map<Id, MaxGauge>

    /** Each meter is stored under its own identity. */
    ghost predicate Valid()
      reads this
    {
      forall id :: id in meters ==> meters[id].id == id
    }

    /** The value each stored gauge holds. */
    ghost function Values(): (vals: map<Id, Option<real>>)
      reads this, meters.Values
      ensures vals.Keys == meters.Keys
    {
      map id | id in meters :: meters[id].value
    }

    /** A new registry holds its configuration and no meters. */
    constructor(config: Config)
      ensures this.config == config && GetConfig() == config
      ensures meters == map[] && Valid()
    {
      this.config := config;
      meters := map[];
    }

    function GetConfig(): Config {
      config
    }

    /**
      insert_if_needed: stores `meter` under its identity unless a meter is
      already stored there; returns the stored meter, so the first insert wins.
     */
    method InsertIfNeeded(meter: MaxGauge) returns (r: MaxGauge)
      requires Valid()
      modifies this
      ensures Valid()
      ensures old(meter.id in meters) ==> meters == old(meters) && r == old(meters[meter.id])
      ensures meter.id !in old(meters) ==> meters == old(meters)[meter.id := meter] && r == meter
      ensures r.id == meter.id && meter.id in meters && meters[meter.id] == r
      ensures forall id :: id != meter.id ==> (id in meters <==> id in old(meters))
      ensures forall id :: id != meter.id && id in meters ==> meters[id] == old(meters[id])
      ensures |meters| <= |old(meters)| + 1
    {
      if meter.id in meters {
        r := meters[meter.id];
      } else {
        meters := meters[meter.id := meter];
        r := meter;
      }
    }

    /** GetMaxGauge(id): the gauge stored under `id`, registering a new idle one if there is none. */
    method GetMaxGauge(id: Id) returns (g: MaxGauge)
      requires Valid()
      modifies this
      ensures Valid()
      ensures id in meters && meters[id] == g && g.id == id
      ensures id in old(meters) ==> meters == old(meters) && g == old(meters[id])
      ensures id !in old(meters) ==> fresh(g) && g.value.None? && meters == old(meters)[id := g]
    {
      var created := new MaxGauge(id);
      g := InsertIfNeeded(created);
    }

    /** GetMaxGauge(name): the same as GetMaxGauge with an identity of that name and no tags. */
    method GetMaxGaugeByName(name: string) returns (g: MaxGauge)
      requires Valid()
      modifies this
      ensures Valid()
      ensures Id(name, []) in meters && meters[Id(name, [])] == g && g.id == Id(name, [])
      ensures Id(name, []) in old(meters) ==> meters == old(meters) && g == old(meters[Id(name, [])])
      ensures Id(name, []) !in old(meters) ==> fresh(g) && g.value.None? && meters == old(meters)[Id(name, []) := g]
    {
      g := GetMaxGauge(CreateId(name, []));
    }

    /**
      The store's iteration order: every stored identity exactly once. The
      order of an unordered map is unspecified, so any enumeration will do.
     */
    method KeyOrder() returns (order: seq<Id>)
      ensures Enumerates(order, meters.Keys)
    {
      var rem := meters.Keys;
      order := [];
      while rem != {}
        invariant rem <= meters.Keys
        invariant forall i :: 0 <= i < |order| ==> order[i] in meters && order[i] !in rem
        invariant forall id :: id in meters && id !in rem ==> id in order
        invariant forall i, j :: 0 <= i < j < |order| ==> order[i] != order[j]
        invariant |order| + |rem| == |meters.Keys|
        decreases rem
      {
        var id :| id in rem;
        order := order + [id];
        rem := rem - {id};
      }
    }

    /**
      Measurements: measures every stored gauge once, in the store's
      iteration order, and concatenates what they report. Every gauge is
      idle afterwards.
     */
    method Measurements() returns (res: seq<Measurement>, order: seq<Id>)
      requires Valid()
      modifies meters.Values
      ensures Enumerates(order, meters.Keys)
      ensures res == MeasureAll(order, old(Values()))
      ensures forall id :: id in meters ==> meters[id].value.None?
    {
      order := KeyOrder();
      res := MeasureInOrder(order);
    }

    /** The loop of Measurements: measures the gauges listed in `order`, one after another. */
    method MeasureInOrder(order: seq<Id>) returns (res: seq<Measurement>)
      requires Valid()
      requires forall j :: 0 <= j < |order| ==> order[j] in meters
      requires forall i, j :: 0 <= i < j < |order| ==> order[i] != order[j]
      modifies meters.Values
      ensures res == MeasureAll(order, old(Values()))
      ensures forall j :: 0 <= j < |order| ==> meters[order[j]].value.None?
    {
      ghost var vals := Values();
      res := [];
      var i := 0;
      while i < |order|
        invariant 0 <= i <= |order|
        invariant forall j :: i <= j < |order| ==> meters[order[j]].value == vals[order[j]]
        invariant forall j :: 0 <= j < i ==> meters[order[j]].value.None?
        invariant res == MeasureAll(order[..i], vals)
      {
        var ms := meters[order[i]].Measure();
        MeasureAllSnoc(order[..i], order[i], vals);
        TakeSnoc(order, i);
        res := res + ms;
        i := i + 1;
      }
      assert order[..i] == order;
    }

    /** Meters: a handle to every stored meter, one per entry; the store is unchanged. */
    method Meters() returns (handles: seq<MaxGauge>, order: seq<Id>)
      requires Valid()
      ensures Enumerates(order, meters.Keys)
      ensures |handles| == |meters|
      ensures forall i :: 0 <= i < |handles| ==> handles[i] == meters[order[i]]
      ensures forall id :: id in meters ==> meters[id] in handles
    {
      order := KeyOrder();
      handles := [];
      var i := 0;
      while i < |order|
        invariant 0 <= i <= |order| && |handles| == i
        invariant forall j :: 0 <= j < i ==> handles[j] == meters[order[j]]
      {
        handles := handles + [meters[order[i]]];
        i := i + 1;
      }
      forall id | id in meters
        ensures meters[id] in handles
      {
        var j :| 0 <= j < |order| && order[j] == id;
        assert handles[j] == meters[id];
      }
    }
  }
}
