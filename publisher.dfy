/**
  The publisher: its Start/Stop lifecycle, one send cycle over the
  registry's measurements, and the wait between cycles.

  The lifecycle is a small state machine over the publisher's flags, the
  worker thread's joinability and the process-wide "HTTP initialised" flag;
  `Lifecycle` is that state as a value, StartStep and StopStep are the two
  transitions, and the Publisher class performs them in place.
 */
module Publishing {
  import opened Wrappers
  import opened Ids
  import opened BatchEncoder
  import opened MaxGauges
  import opened Registries
  import opened Sending

  /** The period of the sender loop, in milliseconds. */
  const SendEveryMillis: nat := 5000

  // ---------------------------------------------------------------------
  // Lifecycle

  /**
    The publisher's flags (started, should-stop), whether the worker thread
    is joinable, how many workers were spawned, and the process-wide HTTP
    flag with the number of global HTTP initialisations and shutdowns.
   */
  datatype Lifecycle = Lifecycle(
    started: bool, shouldStop: bool, workerJoinable: bool, spawned: nat,
    httpInitialized: bool, inits: nat, shutdowns: nat)

  /** A new publisher in a process where HTTP was never initialised. */
  const Initial: Lifecycle := Lifecycle(false, false, false, 0, false, 0, 0)

  /**
    Start: initialise HTTP once per process, before anything else; then,
    with a non-empty uri and not yet started, mark started and spawn the
    worker.
   */
  function StartStep(s: Lifecycle, uri: string): (t: Lifecycle)
    ensures t.httpInitialized
    ensures t.inits == s.inits + (if s.httpInitialized then 0 else 1)
    ensures t.spawned == s.spawned + (if uri != "" && !s.started then 1 else 0)
    ensures t.started == (s.started || uri != "")
    ensures t.shouldStop == s.shouldStop && t.shutdowns == s.shutdowns
  {
    var s1 := if s.httpInitialized then s else s.(httpInitialized := true, inits := s.inits + 1);
    if uri == "" then s1
    else if s1.started then s1
    else s1.(started := true, workerJoinable := true, spawned := s1.spawned + 1)
  }

  /**
    Stop as written: nothing when never started; otherwise set should-stop,
    join the worker and shut HTTP down. Joining a thread that is no longer
    joinable throws std::system_error, which escapes the noexcept
    Registry::Stop and terminates the process: None.
   */
  function StopAsWritten(s: Lifecycle): (t: Option<Lifecycle>)
    ensures !s.started ==> t == Some(s)
    ensures t.None? <==> s.started && !s.workerJoinable
  {
    if !s.started then Some(s)
    else if !s.workerJoinable then None
    else Some(s.(shouldStop := true, workerJoinable := false, shutdowns := s.shutdowns + 1))
  }

  /** Stop, joining (and shutting HTTP down) only while the worker is joinable. */
  function StopStep(s: Lifecycle): (t: Lifecycle)
    ensures !s.started ==> t == s
    ensures s.started ==> t.shouldStop && !t.workerJoinable
    ensures t.shutdowns == s.shutdowns + (if s.started && s.workerJoinable then 1 else 0)
  {
    if !s.started then s
    else if s.workerJoinable then s.(shouldStop := true, workerJoinable := false, shutdowns := s.shutdowns + 1)
    else s.(shouldStop := true)
  }

  datatype LifecycleCall = CallStart | CallStop

  /** A sequence of Start and Stop calls on one publisher whose uri is `uri`. */
  function Run(s: Lifecycle, calls: seq<LifecycleCall>, uri: string): Lifecycle
    decreases |calls|
  {
    if calls == [] then s
    else Run(if calls[0] == CallStart then StartStep(s, uri) else StopStep(s), calls[1..], uri)
  }

  /** The same calls with Stop as written; None once the process terminated. */
  function RunAsWritten(s: Lifecycle, calls: seq<LifecycleCall>, uri: string): Option<Lifecycle>
    decreases |calls|
  {
    if calls == [] then Some(s)
    else
      var t := if calls[0] == CallStart then Some(StartStep(s, uri)) else StopAsWritten(s);
      if t.None? then None else RunAsWritten(t.value, calls[1..], uri)
  }

  /**
    What holds in every state a publisher reaches: HTTP was initialised
    once if at all; a worker was spawned once exactly when started, and it
    is joinable until the one Stop that joins it and shuts HTTP down.
   */
  ghost predicate Consistent(s: Lifecycle) {
    && s.inits == (if s.httpInitialized then 1 else 0)
    && s.spawned == (if s.started then 1 else 0)
    && (s.started ==> s.httpInitialized)
    && (s.shouldStop ==> s.started)
    && (s.workerJoinable <==> s.started && !s.shouldStop)
    && s.shutdowns == (if s.shouldStop then 1 else 0)
  }

  lemma {:induction false} RunConsistent(s: Lifecycle, calls: seq<LifecycleCall>, uri: string)
    requires Consistent(s)
    ensures Consistent(Run(s, calls, uri))
    ensures s.started ==> Run(s, calls, uri).started && Run(s, calls, uri).spawned == s.spawned
    decreases |calls|
  {
    if calls != [] {
      var t := if calls[0] == CallStart then StartStep(s, uri) else StopStep(s);
      assert Consistent(t);
      RunConsistent(t, calls[1..], uri);
    }
  }

  /**
    From a new publisher, any sequence of Start and Stop calls initialises
    HTTP at most once, spawns at most one worker and shuts HTTP down at most
    once.
   */
  lemma AtMostOnce(calls: seq<LifecycleCall>, uri: string)
    ensures Run(Initial, calls, uri).inits <= 1
    ensures Run(Initial, calls, uri).spawned <= 1
    ensures Run(Initial, calls, uri).shutdowns <= 1
  {
    RunConsistent(Initial, calls, uri);
  }

  /** Once started (in particular after a Stop), no call spawns another worker. */
  lemma NoRespawn(s: Lifecycle, calls: seq<LifecycleCall>, uri: string)
    requires Consistent(s) && s.started
    ensures Run(s, calls, uri).spawned == s.spawned == 1
  {
    RunConsistent(s, calls, uri);
  }

  /** Start with an empty uri still initialises HTTP, and spawns nothing. */
  lemma StartWithoutUri(s: Lifecycle)
    requires !s.httpInitialized
    ensures StartStep(s, "").httpInitialized && StartStep(s, "").inits == s.inits + 1
    ensures StartStep(s, "").spawned == s.spawned && StartStep(s, "").started == s.started
  {
  }

  /** Stop on a publisher that was never started changes nothing. */
  lemma StopNeverStarted(s: Lifecycle, uri: string)
    requires Consistent(s) && !s.started
    ensures StopStep(s) == s && StopAsWritten(s) == Some(s)
    ensures Run(s, [CallStop], uri) == s
  {
  }

  /** As written: Start, Stop, Stop with a uri terminates the process on the second Stop. */
  lemma DoubleStopTerminates(uri: string)
    requires uri != ""
    ensures RunAsWritten(Initial, [CallStart, CallStop], uri).Some?
    ensures RunAsWritten(Initial, [CallStart, CallStop, CallStop], uri) == None
  {
    var s1 := StartStep(Initial, uri);
    var s2 := StopAsWritten(s1).value;
    assert s2.started && !s2.workerJoinable;
    assert [CallStart, CallStop, CallStop][1..] == [CallStop, CallStop];
    assert [CallStop, CallStop][1..] == [CallStop];
    assert [CallStart, CallStop][1..] == [CallStop];
  }

  /** With the joinable check, a second Stop is harmless. */
  lemma StopIdempotent(s: Lifecycle)
    ensures StopStep(StopStep(s)) == StopStep(s)
  {
  }

  /** As written and with the check, Stop agrees whenever the worker can still be joined. */
  lemma StopAgrees(s: Lifecycle)
    requires Consistent(s) && !(s.started && !s.workerJoinable)
    ensures StopAsWritten(s) == Some(StopStep(s))
  {
  }

  // ---------------------------------------------------------------------
  // The wait between send cycles

  lemma DivBelow(e: nat, t: nat, k: nat)
    requires t > 0
    ensures e / t < k <==> e < k * t
  {
    var q := e / t;
    var r := e % t;
    assert e == q * t + r && 0 <= r < t;
    if q < k {
      assert q + 1 <= k;
      assert (q + 1) * t <= k * t by {
        MulMonotone(q + 1, k, t);
      }
      assert e < (q + 1) * t;
    } else {
      MulMonotone(k, q, t);
      assert k * t <= q * t;
    }
  }

  lemma MulMonotone(a: nat, b: nat, t: nat)
    requires a <= b
    ensures a * t <= b * t
  {
    assert b * t == a * t + (b - a) * t;
  }

  /**
    The sender's wait after a cycle that took `elapsed` clock ticks
    (`ticksPerMilli` per millisecond): whole elapsed milliseconds are
    compared with the period, and the wait is the rest of the period at full
    precision. None: no wait.
   */
  function SleepTicks(elapsed: nat, ticksPerMilli: nat): (r: Option<nat>)
    requires ticksPerMilli > 0
    ensures r.Some? <==> elapsed < SendEveryMillis * ticksPerMilli
    ensures r.Some? ==> r.value > 0 && elapsed + r.value == SendEveryMillis * ticksPerMilli
  {
    DivBelow(elapsed, ticksPerMilli, SendEveryMillis);
    var millis := elapsed / ticksPerMilli;
    if millis < SendEveryMillis then Some(SendEveryMillis * ticksPerMilli - elapsed) else None
  }

  // ---------------------------------------------------------------------
  // A send cycle

  /** Every measurement a max gauge reports carries the "max" statistic. */
  lemma {:induction false} MeasureAllHaveStatistic(order: seq<Id>, vals: map<Id, Option<real>>)
    requires forall i :: 0 <= i < |order| ==> order[i] in vals
    ensures AllHaveStatistic(MeasureAll(order, vals))
    ensures forall i :: 0 <= i < |MeasureAll(order, vals)| ==>
      OpFromTags(MeasureAll(order, vals)[i].id.tags) == Max
    decreases |order|
  {
    if order != [] {
      MeasureAllHaveStatistic(order[1..], vals);
      var head: seq<Measurement> := MeasureOf(order[0], vals[order[0]]);
      var rest: seq<Measurement> := MeasureAll(order[1..], vals);
      forall i | 0 <= i < |head + rest|
        ensures HasStatistic((head + rest)[i].id.tags)
        ensures OpFromTags((head + rest)[i].id.tags) == Max
      {
        if i >= |head| {
          assert (head + rest)[i] == rest[i - |head|];
        } else {
          assert "max" in MaxStatistics;
        }
      }
    }
  }

  /** The process-wide HTTP state (the static flag in Start and the global init/shutdown calls). */
  class HttpGlobal {
    var initialized: bool
    ghost var inits: nat
    ghost var shutdowns: nat

    constructor()
      ensures !initialized && inits == 0 && shutdowns == 0
    {
      initialized := false;
      inits := 0;
      shutdowns := 0;
    }
  }

  class Publisher {
    const registry: Registry
    const http: HttpGlobal
    var started: bool
    var shouldStop: bool
    /** Whether the worker thread object is joinable. */
    var workerJoinable: bool
    ghost var spawned: nat

    ghost function State(): Lifecycle
      reads this, http
    {
      Lifecycle(started, shouldStop, workerJoinable, spawned, http.initialized, http.inits, http.shutdowns)
    }

    /** A new publisher is neither started nor stopping. */
    constructor(registry: Registry, http: HttpGlobal)
      ensures this.registry == registry && this.http == http
      ensures !started && !shouldStop && !workerJoinable && spawned == 0
    {
      this.registry := registry;
      this.http := http;
      started := false;
      shouldStop := false;
      workerJoinable := false;
      spawned := 0;
    }

    method Start()
      modifies this, http
      ensures State() == StartStep(old(State()), registry.config.uri)
    {
      if !http.initialized {
        http.initialized := true;
        http.inits := http.inits + 1;
      }
      var cfg := registry.GetConfig();
      if cfg.uri == [] {
        return;
      }
      var wasStarted := started;
      started := true;
      if wasStarted {
        return;
      }
      workerJoinable := true;
      spawned := spawned + 1;
    }

    /** Stop, with the joinable check (see StopAsWritten for the code as written). */
    method Stop()
      modifies this, http
      ensures State() == StopStep(old(State()))
    {
      if !started {
        return;
      }
      shouldStop := true;
      if workerJoinable {
        workerJoinable := false;
        http.shutdowns := http.shutdowns + 1;
      }
    }

    /**
      One send cycle: measure the registry, cut and encode the batches, post
      them with `post` (which answers at most one status code per batch),
      and turn the codes into counter updates.
     */
    method SendMetrics(post: seq<seq<JsonItem>> -> seq<int>)
      returns (batches: seq<seq<JsonItem>>, codes: seq<int>, updates: seq<CounterAdd>,
               ghost measurements: seq<Measurement>, order: seq<Id>)
      requires registry.Valid() && registry.config.batchSize > 0
      requires forall bs :: |post(bs)| <= |bs|
      modifies registry.meters.Values
      ensures Enumerates(order, registry.meters.Keys)
      ensures measurements == MeasureAll(order, old(registry.Values()))
      ensures AllHaveStatistic(measurements)
      ensures batches == EncodeChunks(registry.config.commonTags, measurements, registry.config.batchSize)
      ensures codes == post(batches)
      ensures |codes| <= |Chunks(measurements, registry.config.batchSize)|
      ensures updates == StatusUpdates(codes, Lengths(Chunks(measurements, registry.config.batchSize)))
      ensures forall id :: id in registry.meters ==> registry.meters[id].value.None?
    {
      var cfg := registry.GetConfig();
      var ms;
      ms, order := registry.Measurements();
      measurements := ms;
      MeasureAllHaveStatistic(order, old(registry.Values()));
      var sizes;
      batches, sizes := EncodeBatches(cfg.commonTags, ms, cfg.batchSize);
      codes := post(batches);
      ChunksHaveStatistic(ms, cfg.batchSize);
      EncodeAllLength(cfg.commonTags, Chunks(ms, cfg.batchSize));
      updates := HandleStatuses(codes, sizes);
    }
  }
}
