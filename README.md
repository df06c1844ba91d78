# spectator-cpp publisher, registry and max gauge in Dafny

This project models three parts of the spectator-cpp metrics client and
proves properties of the model.

- **The publisher** (`spectator/publisher.h`) covers:
  - the `Start`/`Stop` flags and the one-time HTTP initialisation;
  - the wait between send cycles;
  - one send cycle. The registry's measurements are cut into consecutive
    batches of at most `batch_size`. Each batch is encoded as a flat JSON
    array, which holds a sorted string table followed by one op-coded
    record per measurement. The status code of each posted batch then
    becomes an update of the "sent" counter or of the per-status-code
    "error" counter.
- **The registry** (`spectator/registry.cc`) covers:
  - the meter store with its first-insert-wins `insert_if_needed`;
  - `Measurements` and `Meters`;
  - `CreateId`, the by-name getter and `GetConfig`.
- **The max gauge** (`spectator/max_gauge.cc`) covers a gauge that keeps
  the largest value since it was last measured. Measuring exchanges that
  value for the idle sentinel.

Layout, one module per file:

- `wrappers.dfy` (`Option`)
- `ids.dfy` (tags, identities, measurements)
- `seqs.dfy` (small sequence facts)
- `str_order.dfy`: `std::string` ordering, and `std::sort` as an in-place insertion sort on an array.
- `batch_encoder.dfy`: the string table and the records. It also has a decoder of the payload, which serves as the encoder's inverse.
- `sending.dfy`: the batching loop and status accounting.
- `max_gauge.dfy` (the `MaxGauge` class)
- `registry.dfy` (the `Registry` class)
- `publisher.dfy`: the lifecycle, the wait rule, and the `Publisher` class with its send cycle.

Modelling choices:

- **Values.** Doubles are reals. The gauge's sentinel (the lowest double)
  is `None` in an `Option<real>`.
- **Tags and hash maps.** A tag collection is a sequence in iteration
  order. The program leaves hash-map iteration order unspecified:
  - For the string table and the registry's store, the model picks an
    arbitrary enumeration (`:|`).
  - For a tag collection, the order is fixed as the order of the
    sequence.
  - Identities are equal when their names and tag sequences are equal, so
    tag order takes part in equality; see "Left out".
- **The payload** is a `seq<JsonItem>`. It is built by the same sequence
  of appends as the source.
- **The transport.** `HttpClient::PostBatches` is the parameter `post` of
  `SendMetrics`. It may return fewer status codes than there are batches.
- **Code over documented design.** The client's documented design has a
  configurable send interval and an idempotent `Stop`. The model follows
  the code instead:
  - The send period is the constant 5000 ms (`kSendEveryMillis`), not a
    configurable interval.
  - As written, a second `Stop` is not idempotent: `Publishing.StopAsWritten`
    and `Publishing.RunAsWritten` model that behaviour. The imperative
    `Publisher.Stop` performs the corrected `Stop`, which checks that the
    worker is joinable; see "Findings".

## Model

| member | source | states |
|---|---|---|
| BatchEncoder.OpFromTags | spectator/publisher.h:123-135 | Add exactly for count/totalAmount/totalTime/totalOfSquares/percentile, Max exactly for max/gauge/activeTasks/duration, Unknown exactly for any other statistic value |
| BatchEncoder.TableStringsExactly | spectator/publisher.h:89-103 | a string is in the batch's table iff it is "name", a common tag key or value, a measurement's name, or one of its tag keys or values, whatever its statistic |
| BatchEncoder.TagStringsMembers | spectator/publisher.h:91-94 | the strings a tag collection adds are exactly its keys and values |
| BatchEncoder.BatchStringsMembers | spectator/publisher.h:96-103 | the strings the measurements add are exactly their names and tag keys and values |
| BatchEncoder.InternTags | spectator/publisher.h:91-94 | after the loop, the table's key set is the old key set plus every key and value of the tags |
| BatchEncoder.CollectStrings | spectator/publisher.h:89-103 | the filled map's key set is exactly the batch's table strings |
| BatchEncoder.KeysOf | spectator/publisher.h:104-108 | the new vector has one entry per map key, holds exactly the keys, with no duplicates |
| BatchEncoder.SortedKeys | spectator/publisher.h:104-109 | the key vector after std::sort is the unique strictly ascending listing of the key set |
| StrOrder.Sort | spectator/publisher.h:109 | std::sort of distinct strings: the array ends strictly ascending and is a permutation of its input |
| StrOrder.InsertAt | spectator/publisher.h:109 | one insertion step extends the sorted prefix by one element, keeps distinctness and the multiset |
| StrOrder.SwapDown | spectator/publisher.h:109 | exchanging neighbours keeps every other element, distinctness and the multiset |
| StrOrder.LessIrreflexive | spectator/publisher.h:109 | no string is before itself under std::string's operator< |
| StrOrder.LessTransitive | spectator/publisher.h:109 | operator< on strings is transitive |
| StrOrder.LessTotal | spectator/publisher.h:109 | of two different strings one is before the other |
| StrOrder.LessAsymmetric | spectator/publisher.h:109 | operator< on strings is asymmetric |
| StrOrder.SortedDistinct | spectator/publisher.h:109 | a strictly ascending vector has no duplicates |
| StrOrder.MinExists | spectator/publisher.h:109 | every non-empty set of strings has a least element |
| StrOrder.SortedOf | spectator/publisher.h:104-109 | the sorted listing of a set has no duplicates and only members of the set |
| StrOrder.SortedOfSorted | spectator/publisher.h:104-109 | the sorted listing is strictly ascending, lists every member of the set and has as many entries as the set |
| StrOrder.SortedUnique | spectator/publisher.h:104-109 | two strictly ascending sequences with the same members are equal |
| BatchEncoder.AssignRanks | spectator/publisher.h:110-112 | after the loop every string's index is its position in the sorted vector |
| BatchEncoder.RankTable | spectator/publisher.h:110-112 | the table holds exactly the sorted strings, strings[s_i] == i, and every index points back at its string |
| BatchEncoder.PushTable | spectator/publisher.h:113-119 | the payload gains [n, s_0, ..., s_{n-1}] behind what it held |
| BatchEncoder.BuildStrTable | spectator/publisher.h:86-121 | the returned table has exactly the batch's strings with their sorted ranks, and the payload gains the count and the strictly ascending strings |
| BatchEncoder.TagIndices | spectator/publisher.h:142-149 | one index pair per tag |
| BatchEncoder.AddTags | spectator/publisher.h:137-150 | appends the key and value index of every tag, in order, and nothing else |
| BatchEncoder.RecordPairs | spectator/publisher.h:158-165 | a record's tag section has T index pairs, 2T items, where T = common tags + own tags + 1 (the name pair) |
| BatchEncoder.Record | spectator/publisher.h:152-170 | an Unknown op gives no items; otherwise exactly 2T + 3 items: T first, the op code and the value last |
| BatchEncoder.AppendMeasurement | spectator/publisher.h:152-170 | the payload gains exactly the record of the measurement, common-tag pairs, id-tag pairs, name pair, op, value |
| BatchEncoder.AppendRecords | spectator/publisher.h:180-182 | the payload gains the records of all measurements, in order |
| BatchEncoder.MeasurementsToJson | spectator/publisher.h:172-186 | the payload is the batch's table followed by its records; `added` is the batch size, counting measurements with no record |
| BatchEncoder.DecodeEncodeBatch | spectator/publisher.h:143-148 | reading back a batch payload gives its sorted table and, for each recognised measurement in order, exactly its tags (common, own, name), op code and value: every written index is a valid table position naming the string it encodes |
| BatchEncoder.DecodeRecordsOfRecords | spectator/publisher.h:180-182 | the records of a batch decode to its expected records |
| BatchEncoder.DecodeRecordPairs | spectator/publisher.h:160-165 | the index pairs of a record decode to common tags, own tags, then ("name", name) |
| BatchEncoder.DecodeTagIndices | spectator/publisher.h:142-149 | the index pairs of a tag collection decode back to the tags |
| BatchEncoder.DecodeNamePair | spectator/publisher.h:162-165 | the name pair decodes to ("name", name) |
| BatchEncoder.DecodeHeader | spectator/publisher.h:114-119 | a table section followed by decodable records decodes to that table and those records |
| BatchEncoder.DecodePairsAppend | spectator/publisher.h:160-161 | decoding concatenated pair runs concatenates the decoded tags |
| BatchEncoder.DecodeOneRecord | spectator/publisher.h:159-168 | one record in front of others decodes to its tags, op and value in front of theirs |
| Sending.Chunks | spectator/publisher.h:211-223 | every batch is non-empty and at most batch_size long; all but the last are exactly batch_size |
| Sending.ChunksFlatten | spectator/publisher.h:211-223 | the batches concatenate, in order, back to the snapshot |
| Sending.ChunksCount | spectator/publisher.h:211-223 | the number of batches c is ceil(N / B): N <= c * B, and (c - 1) * B < N when N > 0; no batch for no measurements |
| Sending.ChunksCons | spectator/publisher.h:214-217 | the first batch is min(B, N) measurements from the front |
| Sending.ChunksHaveStatistic | spectator/publisher.h:211-223 | each batch of a snapshot whose measurements carry a statistic carries them too |
| Sending.Lengths | spectator/publisher.h:221 | batch_sizes[i] is the length of batch i |
| Sending.EncodeAllAt | spectator/publisher.h:220 | the i-th payload is the encoding of the i-th batch |
| Sending.EncodeAllLength | spectator/publisher.h:220 | there is one payload per batch |
| Sending.ChunksStep | spectator/publisher.h:214-222 | one loop iteration emits the encoding of measurements [from, to) in front of the rest |
| Sending.LengthsStep | spectator/publisher.h:214-222 | one loop iteration records to - from in front of the rest of the sizes |
| Sending.CutBatch | spectator/publisher.h:214-221 | the batch ends at from + min(batch_size, remaining), is encoded, and its size is to - from |
| Sending.EncodeBatches | spectator/publisher.h:211-223 | the loop yields exactly the encodings of the consecutive batches and their sizes |
| Sending.Digits | spectator/publisher.h:194 | the decimal digits of a status code, as std::to_string writes them: non-empty, only the characters 0-9, no leading zero except for 0 itself, which is "0" |
| Sending.ParseDigitsOfDigits | spectator/publisher.h:194 | the digits of a non-negative code read back as that code |
| Sending.ParseDecimalString | spectator/publisher.h:194 | std::to_string of the status code reads back as the code |
| Sending.ErrIdTags | spectator/publisher.h:192-196 | the error counter is spectator.measurementsErr tagged error=httpError and statusCode=<code> |
| Sending.ErrIdInjective | spectator/publisher.h:192-196 | different status codes go to different error counters |
| Sending.SentIsNoErr | spectator/publisher.h:188-196 | no error counter is the sent counter |
| Sending.UpdateSent | spectator/publisher.h:188-190 | the whole count goes to the untagged spectator.measurementsSent counter |
| Sending.UpdateHttpErr | spectator/publisher.h:192-198 | the whole count goes to spectator.measurementsErr tagged error=httpError and statusCode=std::to_string(code); that tag reads back as the code, and the counter is never the sent counter |
| Sending.StatusUpdate | spectator/publisher.h:229-237 | the update for one batch adds exactly that batch's size |
| Sending.HandleStatuses | spectator/publisher.h:225-238 | the loop issues, for code i, update_sent of size i on 200 and update_http_err(code, size i) otherwise, in order |
| Sending.SentAmount | spectator/publisher.h:225-238 | the sent counter grows by the sizes of exactly the batches answered 200 |
| Sending.ErrAmount | spectator/publisher.h:225-238 | the error counter of a code other than 200 grows by the sizes of exactly the batches answered with that code |
| Sending.TotalAmount | spectator/publisher.h:225-238 | across both counters, the amounts added sum to the sizes of the batches that got a status |
| Publishing.StartStep | spectator/publisher.h:19-36 | HTTP is initialised once, before the uri check; a worker is spawned only with a non-empty uri when not yet started; started is set with a non-empty uri |
| Publishing.Publisher.constructor | spectator/publisher.h:17-18 | a new publisher holds its registry, is not started, not stopping and has no worker |
| Publishing.Publisher.Start | spectator/publisher.h:19-36 | the publisher's flags and the global HTTP state move as StartStep says |
| Publishing.StopStep | spectator/publisher.h:38-47 | corrected Stop: nothing when never started; otherwise should-stop set, joined and shut down only while joinable |
| Publishing.Publisher.Stop | spectator/publisher.h:38-47 | the flags move as StopStep says |
| Publishing.StopAsWritten | spectator/publisher.h:38-47 | Stop as written: nothing when never started; terminates exactly when started and the worker is no longer joinable |
| Publishing.RunConsistent | spectator/publisher.h:19-47 | every state reached by Start and Stop calls keeps inits, spawns and shutdowns in step with the flags; started is never cleared |
| Publishing.AtMostOnce | spectator/publisher.h:19-47 | from a new publisher, any calls initialise HTTP at most once, spawn at most one worker, shut down at most once |
| Publishing.NoRespawn | spectator/publisher.h:30-33 | once started, including after Stop, no Start spawns another worker |
| Publishing.StartWithoutUri | spectator/publisher.h:20-29 | Start with an empty uri still initialises HTTP but spawns nothing and does not set started |
| Publishing.StopNeverStarted | spectator/publisher.h:39-41 | Stop on a never-started publisher changes nothing |
| Publishing.DoubleStopTerminates | spectator/publisher.h:38-47 | as written, Start, Stop, Stop with a uri terminates the process on the second Stop |
| Publishing.StopIdempotent | spectator/publisher.h:38-47 | with the joinable check a second Stop changes nothing |
| Publishing.StopAgrees | spectator/publisher.h:38-47 | the corrected Stop behaves as written whenever the worker can still be joined |
| Publishing.SleepTicks | spectator/publisher.h:68-78 | a wait happens exactly when elapsed whole milliseconds are below 5000, and it lasts the rest of the 5000 ms period, more than zero |
| Publishing.DivBelow | spectator/publisher.h:69-72 | truncated milliseconds are below the period exactly when the elapsed ticks are below the period in ticks |
| Publishing.MeasureAllHaveStatistic | spectator/publisher.h:123-135 | every measurement from the registry carries a statistic, and it maps to op Max |
| Publishing.Publisher.SendMetrics | spectator/publisher.h:200-239 | one cycle: the registry is measured once, the batches are the encodings of the consecutive chunks, the codes are what post answers, the counter updates follow the codes and batch sizes, and every gauge is idle afterwards, so a batch that was not sent is not reported again |
| Registries.CreateId | spectator/registry.cc:14-16 | the identity has exactly the given name and tags |
| Registries.Registry.constructor | spectator/registry.cc:9-12 | a new registry holds its config, GetConfig returns it, and the store is empty |
| Registries.Registry.InsertIfNeeded | spectator/registry.cc:70-77 | absent id: exactly that entry is added and the new meter returned; present id: store unchanged and the stored meter returned; other ids untouched; size grows by at most one |
| Registries.Registry.GetMaxGauge | spectator/registry.cc:44-46 | returns the gauge stored under the id, registering a new idle one only when none is stored |
| Registries.Registry.GetMaxGaugeByName | spectator/registry.cc:48-50 | the same as GetMaxGauge with the identity (name, no tags) |
| Registries.Registry.KeyOrder | spectator/registry.cc:91-108 | the store's iteration visits every stored identity exactly once |
| Registries.Registry.Measurements | spectator/registry.cc:91-99 | the result is the concatenated measurements of every stored gauge in iteration order, and every gauge is idle afterwards |
| Registries.Registry.MeasureInOrder | spectator/registry.cc:94-97 | the loop measures each listed gauge once and concatenates what they report |
| Registries.MeasureAllMembers | spectator/registry.cc:91-99 | a measurement is in the result iff it is the max measurement of a stored non-idle gauge |
| Registries.MeasureAllLength | spectator/registry.cc:91-99 | the length of the result is the sum of the gauges' outputs, one per non-idle gauge |
| Registries.MeasureAllSnoc | spectator/registry.cc:95-96 | each iteration appends one gauge's output behind the others |
| Registries.Registry.Meters | spectator/registry.cc:101-108 | one handle per entry, each the stored meter of its identity, every stored meter present, store unchanged |
| MaxGauges.MaxGauge.constructor | spectator/max_gauge.cc:8-10 | a new gauge is idle and MeterId returns the identity it was built with |
| MaxGauges.MeasureOf | spectator/max_gauge.cc:12-18 | idle reports nothing; otherwise one measurement with the stored value, the same name, statistic=max and every other tag kept |
| MaxGauges.MaxGauge.Measure | spectator/max_gauge.cc:12-18 | reports MeasureOf the old value and leaves the gauge idle, so a repeated Measure reports nothing |
| MaxGauges.RaiseTo | spectator/max_gauge.cc:24 | the stored value after update_max is at least the update and the old value, and is one of them |
| MaxGauges.MaxGauge.Update | spectator/max_gauge.cc:24 | the value becomes RaiseTo of the old value and the update |
| MaxGauges.UpdatesKeepMaximum | spectator/max_gauge.cc:24 | after any updates since the last Measure the gauge holds the largest of them |
| MaxGauges.QueueSizeScenario | spectator/max_gauge.cc:12-24 | updates 5, 2, 9 make the next Measure report 9 with statistic max, and the one after it nothing |
| Ids.WithStat | spectator/max_gauge.cc:17 | WithStat keeps the name, sets statistic to the given value and keeps every other tag |
| Ids.SetTag | spectator/publisher.h:194 | adding a tag sets that key's value and keeps every other key's value |
| Ids.Find | spectator/publisher.h:126 | a key's value is found exactly when a tag has that key, and it is that tag's value |

`MaxGauge.Get` and `MaxGauge.MeterId` (`spectator/max_gauge.cc:10`,
`20-22`) are plain reads of the gauge's fields. `Registry.GetConfig`
(`spectator/registry.cc:12`) is a plain read of the registry's field.
Their contracts appear in the constructor rows above.

## Left out

- Threads are left out because their point is concurrency. This covers the mutexes, the condition-variable wait, the memory ordering of the atomics, and the worker loop. Each transition is modelled as a single-threaded step.
- `HttpClient` is left out. `PostBatches` is the `post` parameter. `GlobalInit` and `GlobalShutdown` are counted in ghost fields of `HttpGlobal`.
- The logger and the clock are left out. The elapsed time is a parameter of `SleepTicks`.
- The timeouts `cfg.read_timeout || 2` and `cfg.connect_timeout || 1` are left out. They only configure the transport.
- `spectator/config.h` is not part of this model. `Config` holds the fields `publisher.h` reads: `uri`, `batch_size` and the common tags.
- `create_and_register_as_needed` and its meter-type check are in `registry.h`, which is not part of this model. The store holds only max gauges, so `Registries.Registry.GetMaxGauge` models the get-or-create as follows: it builds an idle gauge and passes it to `InsertIfNeeded`. There is no type check, since no other meter type can be stored.
- The Counter, Gauge, Timer, DistributionSummary and MonotonicCounter meters are left out, and so are their `GetX` overloads. Their sources are not visible.
  - `Registry` stores max gauges only.
  - `update_sent` and `update_http_err` return `CounterAdd` requests instead of updating counters in the registry.
- `Registry::Start`/`Stop` (`spectator/registry.cc:87-89`) are left out. They only delegate to the publisher; the `noexcept` of `Stop` matters for the finding below.
- Publishing.Publisher.SendMetrics requires `batch_size > 0`. With `batch_size == 0` the source's batching loop never advances. A negative size makes `std::min` negative, and `std::advance` then moves `to` before `from`, which is undefined behaviour. The model covers neither case.
- BatchEncoder.OpFromTags requires a `statistic` tag. What `tags.at` does without one depends on the `Tags` type, which is not visible.
- Double arithmetic is left out. Values are reals. An `Update` with the lowest double leaves the source's gauge idle; in the model every `Update` makes the gauge non-idle.
- The rapidjson document and allocator are left out. The payload is a sequence of `Int`/`Str`/`Num` items.
- Registries.Registry.InsertIfNeeded keys the store by the model's `Id`, whose equality is sequence equality of the tags. In the source, identities compare by the content of their tag set. So two identities whose tags differ only in order, or that repeat a key, are two keys in the model but the same meter in the source. For example, `CreateId("q", [a=1, b=2])` and `CreateId("q", [b=2, a=1])` give two gauges in the model. The first-insert-wins contract holds only for identities written with the same tag sequence.
- `Ids.SetTag` does not rule out duplicate keys. Tag collections are sequences, so a collection may hold two tags with the same key, which the source's hash-map `Tags` cannot. Lookups read the first such tag.

## Findings

| source | as written | input that shows it | evidently intended | confidence | as-written member | corrected member |
|---|---|---|---|---|---|---|
| spectator/publisher.h:38-47 | `Stop` only checks `started_`, which is never cleared, so a second `Stop` calls `sender_thread_.join()` again on a thread that is no longer joinable; `join` throws `std::system_error`, which escapes the `noexcept` `Registry::Stop` (spectator/registry.cc:89) and terminates the process | `Start` with a non-empty uri, then `Stop`, then `Stop` | a second `Stop` is a no-op (Start/Stop are meant to be idempotent) | medium, not executed | Publishing.DoubleStopTerminates | Publishing.StopIdempotent |
