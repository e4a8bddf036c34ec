# Verified model of KubeMonitor

KubeMonitor is a Kubernetes operator. Monitor objects start loops that collect samples
from databases; the samples go through a shared list per model and one size-limited queue
to Prometheus writers. This project models the parts of it whose correctness is not
visible from one function body, and proves properties of them for every input, every
history or every interleaving.

## Modules

- `SafeLists` and `Writers` are the locked list, its limited wrapper and the writer manager
  as classes. `Pipeline` is the concurrent system built from them: each event is one
  critical section, any number of goroutines run collection cycles, one goroutine reads.
  `PipelineConservation`, `PipelineOrder`, `PipelineDrains`, `PipelinePlaces`,
  `PipelineInversion`, `PipelineCounters`, `PipelineBound` and `PipelineReader` hold the
  invariants and the scenarios; `PipelineTheorems` states what every reachable state
  satisfies.
- `Lifecycles` is the state machine of worker tasks, stop channels, loops and handler
  settings over event histories; `HandlerSettings` says what an Init does to them, also
  when it fails half-way; `Monitors` holds the objects that Reconcile changes, proved to
  make exactly those transitions; `Factories` is the shared registry. `TickOverlaps` and
  `ForeignConfigs` say when loops or monitors get in each other's way, and `RedisInits` is
  the Init of one handler.
- `Samples` and `Processes` make, relist and convert samples.
- `JsonFlatteners`, `ShardStats`, `Indices` and `FanOuts` are the Elasticsearch handler's
  algorithms and its error-channel protocol.
- `ThreadStates` (MySQL), `ClusterFilters` (ClickHouse), `RedisLines` (Redis) and
  `SnakeCases` are sequential algorithms of the other handlers.

Iteration over a map picks any remaining key at each step, so what is proved holds for
every iteration order.

## What the proofs bring out

- The queue's capacity is not `maxSize`: with `k` producers and batches of at most `b` the
  exact maximum is `maxSize - 1 + k * b`, and some run reaches it.
- A batch size of zero delivers nothing; any larger one empties the queue.
- Stopping a loop does not interrupt its tick, so ticks of an old and a new loop of the
  same name can overlap: iff some start of the name finds one of its ticks under way. Each
  name still has exactly one loop that may start ticks.
- Several loops of one model can overtake each other between draining the shared list and
  pushing to the queue. A model's samples keep their order iff its batches are pushed in
  the order of their drains, and some run loses the order iff two goroutines serve the
  model, the queue has room and some sample converts.
- All monitors of a model share one handler. Each of its fields holds what the last
  reconcile that assigned it gave, and a refused Init assigns some fields only. A running
  monitor can be without its own configuration iff another one of the same model differs,
  one of them can be accepted, and the other can be accepted or assign some field. For
  redis a readable pool size in one of two differing configurations is enough: after a
  refused Init, samples from the old server are tagged with the new address.
- A fan-out can send on a closed channel if and only if two goroutines of one phase meet
  an error. A call can return without an error whatever fails, and then all errors are lost.
  A server about which the first phase learned nothing counts as the master.
- Flattening is independent of the iteration order iff joined keys do not collide, as in
  every tree whose keys are not empty and have no underscore: any of the colliding leaves
  can win.
- The buckets of indices are independent of it iff no index fits two of them.
- A series has no two labels of one name iff cleaning keeps the sample's keys apart.
- `SnakeCase` is idempotent except exactly where two underscores stand on both sides of
  dots, or one is left at the end; without dots, where the input ends in two underscores
  after something else.
- A keyspace line panics exactly when it has `keys=` in it and a part without `=`. A
  printed line is read at all iff some key ends in `keys`.

Where comments and code disagree the code is followed: flattening is documented as
covering nested interfaces but skips arrays (pkg/jsonx/jsonflattener.go:46-57), and a
comment says bools are ignored where the call keeps them
(internal/handlers/elasticsearch/elasticsearch.go:305-307).

## Model

| member | source | states |
|---|---|---|
| SafeLists.SafeList.PushFront | pkg/types/safe_list.go:18-23 | pushes one item at the queue's end |
| SafeLists.SafeList.PushFrontN | pkg/types/safe_list.go:25-31 | appends the items in their order, oldest first |
| SafeLists.SafeList.PopBack | pkg/types/safe_list.go:33-45 | gives the oldest item, or none on an empty list |
| SafeLists.SafeList.PopBackN | pkg/types/safe_list.go:47-69 | takes the min(n, length) oldest items, in order, and leaves the rest |
| SafeLists.SafeList.PopBackAll | pkg/types/safe_list.go:71-88 | takes everything, oldest first |
| SafeLists.SafeList.RemoveAll | pkg/types/safe_list.go:90-94 | empties the list |
| SafeLists.SafeListLimited.PushFront | pkg/types/safe_list.go:113-120 | one item is accepted iff the length was below maxSize |
| SafeLists.SafeListLimited.PushFrontN | pkg/types/safe_list.go:122-129 | undisturbed, a whole batch is accepted iff the length was below maxSize; a rejected one leaves no trace |
| SafeLists.SafeListLimited.PopBackN | pkg/types/safe_list.go:135-137 | as PopBackN of the list |
| Writers.Writers.Register | internal/writer/writers.go:72-84 | adds or replaces the writer iff it could be created |
| Writers.Writers.DeRegister | internal/writer/writers.go:60-70 | removes the writer, and reports whether there was one |
| Writers.Writers.WriteSamples | internal/writer/writers.go:104-130 | the queue and the started snapshot are those of WriteEffect |
| Writers.WriteUndisturbed | internal/writer/writers.go:104-130 | the pipeline events of one undisturbed call have the same effect as the method |
| Writers.Writers.SnapshotQueue | internal/writer/writers.go:132-151 | adds one batch to the queue counters, modulo 2^64, and sets the gauge to the given length |
| Writers.Writers.SnapshotWrite | internal/writer/writers.go:144-149 | adds one writer call to the write counters, modulo 2^64 |
| Writers.Writers.ReadBatch | internal/writer/writers.go:86-101 | a round of the reading loop takes a full batch or all there is |
| Writers.Writers.WriteTimeSeries | internal/writer/writers.go:161-176 | calls every registered writer exactly once; the counters are the same for every order |
| PipelineTheorems.Conservation | internal/controller/monitor_controller.go:85-115 | over all interleavings every push of a sample is in exactly one place: listed, in a loop's hands, dropped, rejected, queued, read or delivered |
| PipelineTheorems.QueueBound | pkg/types/safe_list.go:122-129 | the queue never exceeds maxSize - 1 + k * b; with maxSize <= 0 it stays empty |
| PipelineTheorems.QueueBoundReached | pkg/types/safe_list.go:122-129 | for every k, b and maxSize of at least one, some run reaches that bound |
| PipelineTheorems.QueueFifo | pkg/types/safe_list.go:25-88 | delivered, read and queued items are the accepted batches in push order, each batch contiguous |
| PipelineTheorems.ProducerOrder | internal/writer/writers.go:104-130 | a goroutine offers exactly the convertible samples it took, in order, and its accepted batches enter in the order offered |
| PipelineTheorems.DrainOrder | internal/controller/monitor_controller.go:85-97 | for any number of loops, what was pushed to a model's list is what they took, drain by drain, then what is listed; samples left by failed gathers leave no later than newer ones |
| PipelineTheorems.ModelOrder | pkg/process/process.go:9-98 | each of a model's queued items stood at a place of its list; they keep that order iff its batches are pushed in drain order |
| PipelineTheorems.OrderLostIff | internal/controller/monitor_controller.go:71-115 | given the model each goroutine serves, some run loses a model's order iff two serve it, the queue has room and a sample converts |
| PipelineInversion.InvertedRun | internal/controller/monitor_controller.go:71-115 | for any two goroutines that serve one model, a run in which the sample collected first is queued behind the later one |
| PipelineTheorems.SingleLoopOrder | internal/controller/monitor_controller.go:85-97 | with one loop for a model, samples leave its list, are offered and held in push order |
| PipelineTheorems.CountersAgree | internal/writer/writers.go:132-151 | each counter plus the pending snapshots equals what happened, modulo 2^64, in whatever order snapshots run; the write counters equal the calls and the failed calls |
| PipelineTheorems.CountersAtRest | internal/writer/writers.go:132-151 | with nothing pending, total minus failed equals delivered plus read plus queued, modulo 2^64 |
| PipelineTheorems.GaugeSeen | internal/writer/writers.go:132-143 | QueueSize always shows a length that the queue has had |
| PipelineCounters.GaugeStep | internal/writer/writers.go:124-143 | a snapshot is started with the present length, and running it sets the gauge to that |
| PipelineTheorems.ReaderDelivers | internal/writer/writers.go:86-101 | with batch >= 1, in every run without pushes the queue is empty iff there were at least ceil(length / batch) pops, and what they took is delivered or in hand, in order |
| PipelineTheorems.ReaderEmptiesQueue | internal/writer/writers.go:86-101 | with batch >= 1 and any number of writers, the reader can deliver the whole queue in exactly that many pops |
| PipelineTheorems.NothingDelivered | internal/writer/writers.go:86-101 | with batch = 0 no run ever delivers anything |
| Lifecycles.ChannelsAndLoops | pkg/worker/worker.go:38-89 | no channel is closed twice; a channel is open iff a task has it; each task has exactly one loop that may start ticks, and no other loop may |
| Lifecycles.RunningIffAccepted | internal/controller/monitor_controller.go:50-104 | a name has a task iff a reconcile accepted it with no NotFound or StopAll since, and its loop does the job in the spec of the first such reconcile |
| Lifecycles.TicksInForce | internal/controller/monitor_controller.go:85-97 | a tick that starts belongs to a monitor in force and does the job (model, labels, period) it was accepted with |
| TickOverlaps.TickingIff | pkg/worker/worker.go:52-56 | a tick is under way iff it was started while it might and has not ended |
| TickOverlaps.StartOverlapsIff | pkg/worker/worker.go:48-71 | after a start and the new loop's first tick, ticks of the name overlap iff one was under way at the start |
| TickOverlaps.CleanNoOverlap | pkg/worker/worker.go:48-71 | if every start of a name finds none of its ticks under way, no reachable state overlaps |
| TickOverlaps.OverlapIff | pkg/worker/worker.go:48-71 | a history can lead to an overlap, at some point and with one more tick, iff some start in it finds a tick of the name under way |
| TickOverlaps.TicksMayOverlap | pkg/worker/worker.go:48-71 | a concrete history with two ticks of one name under way |
| Lifecycles.LatestConfig | pkg/input/manager.go:47-53 | each field of a model's handler holds what the last reconcile that assigned it gave, accepted or refused |
| Lifecycles.LatestAccepted | pkg/input/manager.go:47-53 | if the model's last Init was accepted, its handler has that configuration in every field |
| Lifecycles.NothingOlder | internal/controller/monitor_controller.go:71-80 | a running monitor collects with nothing handed over before its own acceptance |
| ForeignConfigs.ForeignConfig | internal/controller/monitor_controller.go:71-80 | a history in which a running monitor collects with a field of another one's configuration, accepted or refused |
| ForeignConfigs.ForeignConfigIff | internal/controller/monitor_controller.go:71-80 | given all specs and what Inits can do, such a history exists iff two monitors share a known model and differ, one can be accepted and the other accepted or assign some field |
| ForeignConfigs.DeterminedForeignIff | internal/controller/monitor_controller.go:71-80 | the same for Inits whose outcome is a function of the configuration |
| HandlerSettings.SourceAfter | pkg/input/manager.go:47-53 | an Init changes where the fields it assigns come from, and no others |
| RedisInits.Instance.Init | internal/handlers/redis/redis.go:47-77 | refused iff the pool size cannot be read; a refused one replaces exactly the four texts and keeps the old client, while samples are tagged with the new address; each field comes from where the settings say |
| RedisInits.RedisForeignIff | internal/handlers/redis/redis.go:47-77 | a redis monitor can run without its own configuration iff two differ and the pool size of one can be read |
| Monitors.Workers.AddWorkerTask | pkg/worker/worker.go:38-46 | a new name gets a new open channel; an existing one changes nothing |
| Monitors.Workers.Run | pkg/worker/worker.go:48-57 | starts a loop on the task's channel, or fails without a task |
| Monitors.Workers.Stop | pkg/worker/worker.go:59-71 | the transition Stop; its close cannot meet a closed channel |
| Monitors.Workers.StopAll | pkg/worker/worker.go:82-89 | the transition StopAll for every visiting order; its closes cannot meet a closed channel |
| Monitors.MonitorReconciler.Reconcile | internal/controller/monitor_controller.go:50-104 | exactly the transition of the event, and an error exactly when reading, Init or the model lookup fails |
| Factories.SharedHandlerFactory.RegisterHandler | pkg/input/manager.go:63-70 | both registry maps keep the same keys; a model registered again gets a new handler and an empty list |
| Factories.Handler.Init | internal/handlers/redis/redis.go:47-77 | an accepted Init assigns every field from the new configuration, a failing one only some |
| Factories.SharedHandlerFactory.InitConfig | pkg/input/manager.go:47-53 | only the named model's settings change: all fields when Init is accepted, the assigned ones when it fails |
| Factories.SharedHandlerFactory.Gather | pkg/input/manager.go:27-37 | pushes to the model's one list and runs with the handler's present settings |
| Factories.SharedHandlerFactory.List | pkg/input/manager.go:80-86 | finds a list iff the model is supported |
| Factories.SharedHandlerFactory.Tick | internal/controller/monitor_controller.go:85-115 | a failed tick keeps what was pushed, untouched; a successful one forwards old samples, then new ones, without nils, all with this monitor's labels, a zero time replaced by the present one and no other changed, and empties the list |
| Samples.Sample.SetTime | pkg/types/sample.go:86-92 | sets the time unless it is zero or the epoch |
| Samples.NewSample | pkg/types/sample.go:24-44 | a fresh sample with the cleaned, prefixed name and the merged labels |
| Samples.MetricNameMeaning | pkg/types/sample.go:31-35 | the prefix, an underscore and the metric, of which five characters become underscores |
| Samples.LabelNameMeaning | pkg/types/sample.go:76-81 | four characters of a label become underscores, the others stay |
| Samples.MergedMeaning | pkg/types/sample.go:37-41 | each label has the value of the last map that has it |
| Samples.MergeLabels | pkg/types/sample.go:37-41 | merging gives that result for every iteration order |
| Samples.PushSamples | pkg/types/sample_list.go:21-28 | one fresh sample per field, listed together |
| Samples.ConvertTimeSeries | pkg/types/sample.go:46-84 | a series iff the value converts; its time is the sample's millisecond, for "s" and "m" cut to a multiple toward the epoch; the metric name first, then each label once; no two names are equal iff cleaning keeps the keys apart |
| Samples.NamesDistinctIff | pkg/types/sample.go:70-81 | label names are distinct iff the replacer is injective on the keys and none becomes __name__ |
| Samples.ClashingLabels | pkg/types/sample.go:76-81 | two keys that become one name |
| Samples.MinuteTruncation | pkg/types/sample.go:55-62 | the two-step minute truncation is the direct one toward zero, less than a minute away, also before the epoch |
| Samples.MinuteStable | pkg/types/sample.go:55-62 | truncating again to the minute or the second changes nothing |
| Samples.SecondThenMinute | pkg/types/sample.go:55-62 | truncating to the second first changes nothing |
| Processes.Process | pkg/process/process.go:9-98 | the list's non-nil samples in order, each enriched as if processed once even when listed twice; the zero time becomes the present time and no other time changes |
| Processes.EnrichPrecedence | pkg/process/process.go:67-84 | own labels win over global ones, those over additional ones; the address is the instance when there is one |
| Processes.EnrichTwice | pkg/process/process.go:67-84 | enriching again with the same labels changes nothing |
| Processes.ProcessTwice | pkg/process/process.go:9-98 | a second Process with the same labels gives the same list of unchanged samples |
| JsonFlatteners.JSONFlattener.FlattenJSON | pkg/jsonx/jsonflattener.go:12-20 | the numbers-only flattening |
| JsonFlatteners.JSONFlattener.FullFlattenJSON | pkg/jsonx/jsonflattener.go:23-77 | an error iff an unexpected value is reachable outside arrays; else a result that some visiting orders produce, its fields exactly from eligible leaves, every leaf's key holding a leaf's value |
| JsonFlatteners.ExactFields | pkg/jsonx/jsonflattener.go:23-77 | without collisions the result is the old fields overwritten by exactly the leaves |
| JsonFlatteners.ValueStored | pkg/jsonx/jsonflattener.go:58-69 | a wanted number, text or bool whose key no other wanted value has is stored unchanged |
| JsonFlatteners.FieldSource | pkg/jsonx/jsonflattener.go:58-69 | every new field stores a wanted value of the tree unchanged |
| JsonFlatteners.ProducedFlattened | pkg/jsonx/jsonflattener.go:34-77 | whatever orders produce meets that contract |
| JsonFlatteners.LeafCanWin | pkg/jsonx/jsonflattener.go:35-45 | for every leaf some orders leave its value under its key |
| JsonFlatteners.OneResultIff | pkg/jsonx/jsonflattener.go:35-45 | all orders give one result iff leaves do not collide |
| JsonFlatteners.CollisionAmbiguous | pkg/jsonx/jsonflattener.go:35-45 | a tree on which two orders produce different results |
| JsonFlatteners.JoinedKeyMeaning | pkg/jsonx/jsonflattener.go:36-39 | how keys are joined, including empty ones |
| JsonFlatteners.PlainKeysCollisionFree | pkg/jsonx/jsonflattener.go:36-39 | trees with non-empty keys without underscores have no collisions |
| ShardStats.ShardStatusCode | internal/handlers/elasticsearch/elasticsearch.go:686-698 | a code from 1 says which of the four known states it is, 0 is every other text |
| ShardStats.DeleteTextAndFlags | internal/handlers/elasticsearch/elasticsearch.go:399-404 | deleting during the iteration leaves exactly the other entries |
| ShardStats.GatherShard | internal/handlers/elasticsearch/elasticsearch.go:371-406 | the shard's fields, type and node from one full flattening; without collisions primary iff the tree holds true under routing_primary, the node is the text under routing_node, and the fields are its numbers and the coded state |
| ShardStats.PlainShardPrimary | internal/handlers/elasticsearch/elasticsearch.go:379-383 | in shards with plain keys that flag is routing.primary |
| ShardStats.OtherShardPrimary | internal/handlers/elasticsearch/elasticsearch.go:379-383 | a shard that is primary under another key |
| ShardStats.ShardRefinement | internal/handlers/elasticsearch/elasticsearch.go:371-406 | without collisions, for whatever orders, this equals a numbers-only flattening without routing_primary, plus the coded routing state |
| Indices.CompileIndexMatchers | internal/handlers/elasticsearch/elasticsearch.go:154-168 | one matcher per configured index, or an error iff one does not compile |
| Indices.FindBucket | internal/handlers/elasticsearch/elasticsearch.go:428-436 | a matcher's name if one accepts the index, else the index itself |
| Indices.CategorizeIndices | internal/handlers/elasticsearch/elasticsearch.go:414-442 | every index in exactly one bucket, once, where it fits; a result of appending the indices in some order |
| Indices.AllInOneBucket | internal/handlers/elasticsearch/elasticsearch.go:417-424 | without configured indices, or with _all first, there is one bucket of that name |
| Indices.OwnOrPatternBucket | internal/handlers/elasticsearch/elasticsearch.go:426-438 | otherwise an index is in the bucket of a pattern that accepts it, or in its own |
| Indices.BucketedProduced | internal/handlers/elasticsearch/elasticsearch.go:414-442 | every such bucketing is one that the loops can produce |
| Indices.LessMeaning | internal/handlers/elasticsearch/elasticsearch.go:333-335 | names are ordered by the first character in which they differ |
| Indices.VisitsNewest | internal/handlers/elasticsearch/elasticsearch.go:328-345 | with N > 0 exactly the min(N, size) greatest names of a bucket, greatest first |
| Indices.NewestUnique | internal/handlers/elasticsearch/elasticsearch.go:328-345 | there is only one such sequence for a set of names |
| Indices.VisitsAll | internal/handlers/elasticsearch/elasticsearch.go:325-338 | with N <= 0 every index of the bucket once |
| Indices.GatherBucket | internal/handlers/elasticsearch/elasticsearch.go:325-345 | visits that sequence in range, and stops at the first failing index |
| Indices.GatherIndices | internal/handlers/elasticsearch/elasticsearch.go:320-348 | all buckets are visited iff no index to visit fails |
| Indices.VisitsDetermined | internal/handlers/elasticsearch/elasticsearch.go:320-348 | with matchers that do not overlap the visits are the same for every iteration order, up to their order in a bucket when N <= 0 |
| Indices.BucketsDeterminedIff | internal/handlers/elasticsearch/elasticsearch.go:414-442 | the loops can produce only one bucketing iff no index fits two buckets |
| Indices.TwoBuckets | internal/handlers/elasticsearch/elasticsearch.go:428-436 | an index and two patterns for which it can end up in either bucket |
| FanOuts.SendsNeverBlock | internal/handlers/elasticsearch/elasticsearch.go:176-192 | a goroutine with an error can always send it |
| FanOuts.CleanReturn | internal/handlers/elasticsearch/elasticsearch.go:211-217 | when both selects took the default, every goroutine finished before the channels close |
| FanOuts.ReturnedError | internal/handlers/elasticsearch/elasticsearch.go:276-280 | a returned error was met by a goroutine of that phase |
| FanOuts.OutcomeIff | internal/handlers/elasticsearch/elasticsearch.go:171-284 | a call can return without an error whatever fails, or with the error of any goroutine that meets one, and nothing else |
| FanOuts.LostErrors | internal/handlers/elasticsearch/elasticsearch.go:211-217 | a return without an error has lost every error met; one with a second-phase error, all of the first phase |
| FanOuts.MasterConsulted | internal/handlers/elasticsearch/elasticsearch.go:250-258 | isMaster is used only after this call's first phase completed, and what it answers |
| FanOuts.PanicIffTwoFail | internal/handlers/elasticsearch/elasticsearch.go:171-284 | some schedule sends on a closed channel iff two goroutines of one phase meet an error |
| FanOuts.PanicAfterEarlyReturn | internal/handlers/elasticsearch/elasticsearch.go:211-215 | and only after an early return |
| ThreadStates.FoundStateStable | internal/handlers/mysql/processlist.go:137-170 | always a general state, never "execution of init_command", and stable when fed back |
| ThreadStates.FoundAnswers | internal/handlers/mysql/processlist.go:137-170 | what each rule answers, in terms of the raw texts up to case and underscores |
| ThreadStates.OneAnswer | internal/handlers/mysql/processlist.go:137-170 | those rules leave one answer |
| ThreadStates.CountStates | internal/handlers/mysql/processlist.go:106-129 | each state's count is the total of its rows, modulo 2^32 |
| ThreadStates.GatherProcesslistByState | internal/handlers/mysql/processlist.go:91-134 | the published states are exactly the general ones, each with the rows that the rules put there |
| ThreadStates.CountsAddUp | internal/handlers/mysql/processlist.go:106-129 | without overflow the counts add up to the rows |
| ClusterFilters.MakeFilter | internal/handlers/clickhouse/clickhouse.go:185-191 | the printed filter |
| ClusterFilters.ClusterIncludeExcludeFilter | internal/handlers/clickhouse/clickhouse.go:177-208 | the printed clause |
| ClusterFilters.LiteralRoundTrip | internal/handlers/clickhouse/clickhouse.go:182-184 | an escaped name is read back and ends exactly at its closing quote |
| ClusterFilters.EscapeInjective | internal/handlers/clickhouse/clickhouse.go:182-184 | different names are escaped differently |
| ClusterFilters.ListRoundTrip | internal/handlers/clickhouse/clickhouse.go:185-191 | a printed list is read back as that list |
| ClusterFilters.ClauseRoundTrip | internal/handlers/clickhouse/clickhouse.go:177-208 | the clause is read back as the two lists, for all lists |
| SnakeCases.SnakeCase | pkg/stringx/strx.go:7-31 | the output of the loop, position by position |
| SnakeCases.SnakeCaseMeaning | pkg/stringx/strx.go:7-31 | no dot or capital, at most twice as long, the same letters; a double underscore iff the input has one across dots, so none without dots |
| SnakeCases.LetterPlace | pkg/stringx/strx.go:11-28 | every letter is in the output, after the same letters |
| SnakeCases.WordStarts | pkg/stringx/strx.go:16-27 | an underscore stands directly before it iff, dots aside, the input has one there, or it is a capital with a lower-case neighbour |
| SnakeCases.CapitalStarts | pkg/stringx/strx.go:21-27 | so a capital after a letter starts a word iff a neighbour is lower-case, after a dot iff the next one is |
| SnakeCases.IdempotentIff | pkg/stringx/strx.go:7-31 | for every ASCII input, idempotent iff it neither makes a double underscore across dots nor leaves one at the end |
| SnakeCases.IdempotentWithoutDots | pkg/stringx/strx.go:16-22 | without dots that is: it does not end in two underscores after something else |
| SnakeCases.DottedNotIdempotent | pkg/stringx/strx.go:13-15 | an input with a dot on which it is not idempotent |
| RedisLines.ParseKeyspaceLine | internal/handlers/redis/redis.go:272-279 | panics iff the line has keys= and a part without =; else the fields of its parts |
| RedisLines.GatherKeyspaceLine | internal/handlers/redis/redis.go:260-284 | else lists one fresh sample per field, tagged with the database; a panicking line lists nothing |
| RedisLines.KeyspacePanics | internal/handlers/redis/redis.go:274-276 | a line on which it panics |
| RedisLines.KeyspaceRoundTrip | internal/handlers/redis/redis.go:260-284 | printed entries are read back with the last write to each key; the line passes the guard iff a key ends in keys |
| RedisLines.LastWritesOfMap | internal/handlers/redis/redis.go:272-279 | for the entries of a map that is the map |
| RedisLines.ParseReplicationLine | internal/handlers/redis/redis.go:358-379 | ip and port are the last texts given to them, each other key but state has the last number given to it, and parts not of the form k=v do not matter |
| RedisLines.GatherReplicationLine | internal/handlers/redis/redis.go:344-384 | lists one fresh sample per field, tagged with the replica's id, ip and port |
| RedisLines.ReplicaTagsMeaning | internal/handlers/redis/redis.go:350-369 | id, ip and port are set as far as known, other tags stay |
| RedisLines.JoinSplit | internal/handlers/redis/redis.go:358-360 | split parts join to the line again and hold no separator |
| RedisLines.OneDescription | internal/handlers/redis/redis.go:359-379 | that determines the result |
| RedisLines.ReplicationRoundTrip | internal/handlers/redis/redis.go:359-379 | printed numbers are read back as last writes, ip and port as the last texts, whatever other parts stand in between |
| RedisLines.ReplicaId | internal/handlers/redis/redis.go:356-356 | the cutset removes exactly the prefix before digits |
| RedisLines.TrimLeftMeaning | internal/handlers/redis/redis.go:356-356 | of any name, a front of characters of the cutset |
| RedisLines.ParsePrinted | internal/handlers/redis/redis.go:275-278 | every int64 is read back from its decimal text |
| RedisLines.ParseIntMeaning | internal/handlers/redis/redis.go:275-278 | only a sign or none and digits worth an int64 are read |

## Left out

- HTTP, SQL, Redis and Kubernetes calls, protobuf and snappy encoding, logging and timers: their outcomes are arbitrary parameters of the methods and events.
- `container/list`: the list is a sequence, front first; the element a push returns is not modelled.
- Type assertions when items leave the list: the element types in use never fail them.
- Writers.Writers.WriteTimeSeries: one call at a time; the source reads the writer map without its lock, and nothing is claimed about a concurrent removal.
- WriteFailTotal counts marshalling errors only, because a failed POST is not reported by Write; the model takes a writer's result as given.
- PipelineTheorems.QueueBound: a negative batch size is not modelled, because taking from a non-empty list with it panics.
- PipelineTheorems.GaugeSeen: the gauge need not show the latest length, because snapshots may run in any order.
- Lifecycles: reconciles are serial, as in the default setup, a closed stop channel starts no new tick, and status updates are not modelled. Monitors are keyed by name alone, as in the source.
- Processes.Process: every sample has a label map, as all samples made by NewSample do; writing into a nil map panics.
- HandlerSettings: for handlers other than redis, which fields a refused Init had assigned is a parameter; the model keeps from which configuration each field came, not what the handler computes from it.
- Lifecycles.LatestConfig: a collection that runs while Init assigns fields reads them without a lock; the model takes an Init as one step.
- Factories.Handler.Init: the outcome is a parameter; RedisInits derives it for redis.
- RedisInits: reading the pool size (conv.ToInt) is a partial function given as a parameter.
- Factories.SharedHandlerFactory.Tick: one undisturbed tick; what other loops of the model do in between is in the Pipeline modules.
- FanOuts.MasterConsulted: one call; concurrent calls on the same handler share and replace its server table.
- The HTTP steps of the second phase of Gather are one step per goroutine, around which isMaster may be consulted any number of times.
- Indices: glob matching is an arbitrary predicate per configured index; names are ordered by character.
- ThreadStates.FoundStateStable: assumes of the lower-casing of runes only its ASCII part.
- SnakeCases.SnakeCase: character classes are the ASCII ones, so the results are about ASCII inputs.
- RedisLines: the commandstats line, whose guarded loop is that of the replication line with a float field; the general line parser.
- ToFloat64 and ParseFloat: the numeric conversion ladders are partial functions given as parameters.
- The remaining handlers' queries, the cluster health and node statistics, the generated client code and the configuration files: copying without a property of their own.
