# Shard collection, running maximum, table settings and symbol mapping — a Dafny model

This project models four pieces of CrateDB's SQL layer as immutable datatypes
and total functions, and proves properties of them with Dafny:

- **`ShardCollectSource`** (modules `ShardRegistry`, `ShardCollectSource`,
  `RowOrdering`): the node-local source that turns a routed collect phase into
  one batch iterator. It keeps a registry from shard id to a memoizing
  supplier of the shard's collector provider, driven by the index lifecycle
  callbacks. It chooses between in-memory shard rows, an ordered merge of
  per-shard ordered collectors, an empty iterator, a single per-shard
  iterator, and a concurrent or sequential composite. It decides what a
  missing index or a failing shard turns into: skipped, rethrown, wrapped, or
  replaced by a remote collector.
- **`MaximumAggregation`**: the `max` aggregation state. Null is the bottom
  element. The value is replaced only by a strictly greater input, and the
  replacement charges a size delta to the query's memory accounting. The
  state also has a stream encoding: a null flag, then the value.
- **`TableSettingsResolver`**: a table's settings come from its index, or from
  the index template when the table is partitioned. Each path has its own
  not-found error.
- **`MappingSymbolVisitor`**: single-step symbol substitution. The map lookup
  happens before the visitor descends into a symbol's arguments.

Iterators, the ordered merge and the composites are opaque tags. The model
says which one is built and over which shards, not how it iterates. The row
ordering of the shard rows is a comparator parameter, and the rows really are
sorted by its reverse. The registry is a `map` threaded through every lookup, because a
lookup forces the shard's memoizing supplier. Each entry counts how many factory
answers its supplier has stored. The factory may return null or throw, and a
throw is not stored. `ShardRegistry.Valid` is the invariant that a
registration stores at most one answer and that the memo holds the
factory's answer.

Collaborators whose code is not part of this model are parameters. These are
the provider factory; the providers' `getIterator`, `getOrderedCollector` and
`getRowForShard`; `IndexParts.isPartitioned`; `UnassignedShard.isUnassigned`
and `markAssigned`; the ORDER BY row comparator; `TableIdent.indexName`;
`PartitionName.templateName`; and the size estimator of the aggregated type.
The cluster metadata and the index services become sets of index names.
Java's map iteration order becomes the order of a sequence.

## Model

| member | source | states |
|---|---|---|
| `ShardRegistry.OnShardCreated` | sql/src/main/java/io/crate/execution/engine/collect/sources/ShardCollectSource.java:220-236 | the shard must be absent; afterwards it is registered with a supplier that has not run the factory, the other entries are unchanged, and the memo invariant is kept |
| `ShardRegistry.OnShardClosed` | sql/src/main/java/io/crate/execution/engine/collect/sources/ShardCollectSource.java:238-243 | the shard must be registered; afterwards exactly that entry is gone and the others are unchanged |
| `ShardRegistry.OnShardDeleted` | sql/src/main/java/io/crate/execution/engine/collect/sources/ShardCollectSource.java:245-252 | the entry is removed exactly when present (the flag says so); an absent shard leaves the registry unchanged |
| `ShardRegistry.Lookup` | sql/src/main/java/io/crate/execution/engine/collect/sources/ShardCollectSource.java:372-382 | with a valid registry the answer is `ProviderOf` for the registered shards, whatever the memo holds; a factory that throws passes its exception on and leaves the supplier unforced, so it runs again at the next lookup; a forced supplier is not forced again; no entry is added or removed |
| `ShardRegistry.ProviderOf` | sql/src/main/java/io/crate/execution/engine/collect/sources/ShardCollectSource.java:372-382 | a provider exactly for a registered shard whose factory returns one; an unregistered shard and a null provider give shard-not-found for that shard; a throwing factory's exception passes unchanged |
| `ShardRegistry.ReplayBuildsAtMostOnce` | sql/src/main/java/io/crate/execution/engine/collect/sources/ShardCollectSource.java:218-253 | over any history of create, close and delete callbacks and lookups, every registration has stored a factory answer at most once, and what it stores is the factory's non-throwing answer |
| `ShardRegistry.CreateThenCloseRestores` | sql/src/main/java/io/crate/execution/engine/collect/sources/ShardCollectSource.java:220-243 | registering a shard and closing it again restores the registry |
| `ShardRegistry.DeleteIsIdempotent` | sql/src/main/java/io/crate/execution/engine/collect/sources/ShardCollectSource.java:245-252 | deleting a shard twice is the same as deleting it once |
| `ShardRegistry.LookupIsMemoized` | sql/src/main/java/io/crate/execution/engine/collect/sources/ShardCollectSource.java:231-234 | a second lookup of the same shard answers the same and changes nothing |
| `ShardCollectSource.RequireMoveToStart` | sql/src/main/java/io/crate/execution/engine/collect/sources/ShardCollectSource.java:268 | move-to-start support is required exactly when the caller asks for it and the projectors do not provide an independent scroll |
| `ShardCollectSource.ChooseIterator` | sql/src/main/java/io/crate/execution/engine/collect/sources/ShardCollectSource.java:270-312 | in-memory rows exactly for shard granularity; ordered merge exactly for doc granularity with an ORDER BY; otherwise empty for 0 iterators, single for 1, and for 2 or more concurrent with shard projections and sequential without |
| `ShardCollectSource.Combine` | sql/src/main/java/io/crate/execution/engine/collect/sources/ShardCollectSource.java:290-312 | no iterators give the empty iterator, one is returned unchanged, more are combined concurrently if there are shard projections and sequentially otherwise |
| `ShardCollectSource.ShardPath` | sql/src/main/java/io/crate/execution/engine/collect/sources/ShardCollectSource.java:270-273 | shard granularity yields in-memory rows, at most one per listed shard of a known index; the registry keeps its keys and its invariant |
| `ShardCollectSource.ShardPathMatchesContribution` | sql/src/main/java/io/crate/execution/engine/collect/sources/ShardCollectSource.java:270-273 | with a valid registry and a routing entry, the shard-granularity path fails exactly when a shard of a served index fails; otherwise its in-memory rows are a permutation of the routing's provider rows followed by its unassigned rows, exactly those without an ORDER BY and sorted by the reversed row ordering with one |
| `ShardCollectSource.OrderedPath` | sql/src/main/java/io/crate/execution/engine/collect/sources/ShardCollectSource.java:274-282 | the ordered path yields one ordered merge with the requested move-to-start support whose collectors all belong to routed shards; a node without routing fails with a null-pointer exception |
| `ShardCollectSource.OrderedPathMatchesReference` | sql/src/main/java/io/crate/execution/engine/collect/sources/ShardCollectSource.java:274-282 | with a valid registry and a routing entry, the ordered path fails exactly with the reference's exception and otherwise merges the reference collectors |
| `ShardCollectSource.UnorderedPath` | sql/src/main/java/io/crate/execution/engine/collect/sources/ShardCollectSource.java:284-312 | without routing the result is the empty iterator; otherwise the combined iterators cover exactly the shards of the available indices in routing order, with the required scroll support, none remote when the fetch id is collected, and the kind is the one `ChooseIterator` picks for their count |
| `ShardCollectSource.UnorderedPathMatchesReference` | sql/src/main/java/io/crate/execution/engine/collect/sources/ShardCollectSource.java:284-312 | with a valid registry and a routing entry, the unordered path fails exactly with the reference's exception and otherwise combines the reference iterators |
| `ShardCollectSource.CombineKeepsSources` | sql/src/main/java/io/crate/execution/engine/collect/sources/ShardCollectSource.java:290-312 | combining keeps exactly the given iterators as sources and yields the kind `ChooseIterator` picks for their count |
| `ShardCollectSource.GetIterator` | sql/src/main/java/io/crate/execution/engine/collect/sources/ShardCollectSource.java:256-314 | the plan built has the kind `ChooseIterator` picks for its source count; the ordered merge gets move-to-start support only as `RequireMoveToStart` says; on the unordered path a node without routing gets the empty iterator, the iterators cover exactly the shards of the available indices in routing order, with the required scroll support, and none is remote when the fetch id is collected |
| `ShardCollectSource.GetIteratorMatchesReference` | sql/src/main/java/io/crate/execution/engine/collect/sources/ShardCollectSource.java:256-314 | with a valid registry and a routing entry, each granularity answers as its path's reference: shard granularity fails exactly when a served shard fails and otherwise holds the routing's rows; doc granularity with an ORDER BY merges the reference's ordered collectors or fails with its exception; otherwise the reference's per-shard iterators are combined or its exception raised |
| `ShardCollectSource.MissingIndexPolicy` | sql/src/main/java/io/crate/execution/engine/collect/sources/ShardCollectSource.java:394-408 | a missing index is skipped exactly when it is partitioned and rethrown otherwise |
| `ShardCollectSource.UnorderedShardFailurePolicy` | sql/src/main/java/io/crate/execution/engine/collect/sources/ShardCollectSource.java:419-434 | a missing or illegal-state shard is replaced by a remote collector unless the fetch id is collected, when it is rethrown; index-not-found is rethrown; an interrupt is wrapped in a runtime exception; any other exception is wrapped as unhandled; an error, which the exception clause does not catch, propagates unchanged |
| `ShardCollectSource.CollectShard` | sql/src/main/java/io/crate/execution/engine/collect/sources/ShardCollectSource.java:409-434 | with a valid registry the answer is the memo-free `ShardIteratorOf`: a local iterator exactly when `OpenFailure` finds nothing to raise, otherwise what `UnorderedShardFailurePolicy` makes of the failure, a remote collector or the exception it raises; an unregistered shard is collected remotely, or fails with shard-not-found when the fetch id is collected |
| `ShardCollectSource.OpenFailure` | sql/src/main/java/io/crate/execution/engine/collect/sources/ShardCollectSource.java:417-434 | nothing is raised exactly when the lookup gives a provider and its `getIterator` succeeds; a failing lookup's exception is the one raised |
| `ShardCollectSource.CollectShardOutcomes` | sql/src/main/java/io/crate/execution/engine/collect/sources/ShardCollectSource.java:417-434 | for a registered shard: a null provider goes remote unless the fetch id is collected; from the factory or `getIterator`, an illegal state goes remote unless the fetch id is collected, a missing index is rethrown, an interrupt becomes a runtime exception, and anything else is wrapped as unhandled |
| `ShardCollectSource.CollectIndexShards` | sql/src/main/java/io/crate/execution/engine/collect/sources/ShardCollectSource.java:409-435 | on success there is one iterator per listed shard of the index, in order |
| `ShardCollectSource.CollectIndex` | sql/src/main/java/io/crate/execution/engine/collect/sources/ShardCollectSource.java:391-408 | an index without metadata or index service contributes nothing if partitioned and fails with index-not-found for that index otherwise, without touching the registry |
| `ShardCollectSource.GetIterators` | sql/src/main/java/io/crate/execution/engine/collect/sources/ShardCollectSource.java:384-438 | on success the iterators cover exactly the shards of the available indices in routing order, every unavailable index was a partition, and no iterator is remote when the fetch id is collected; the registry keeps its keys and its invariant |
| `ShardCollectSource.FirstRaising` | sql/src/main/java/io/crate/execution/engine/collect/sources/ShardCollectSource.java:415-434 | the position of the first shard whose answer is an exception: every earlier shard's answer is an iterator and the shard there raises |
| `ShardCollectSource.CollectIndexShardsMatchesReference` | sql/src/main/java/io/crate/execution/engine/collect/sources/ShardCollectSource.java:415-435 | with a valid registry an available index's iterators are exactly `IndexIterators`: the first shard exception, or each shard's memo-free answer in shard order, remote collectors included |
| `ShardCollectSource.GetIteratorsMatchesReference` | sql/src/main/java/io/crate/execution/engine/collect/sources/ShardCollectSource.java:384-438 | with a valid registry `getIterators` answers exactly `RoutingIterators`: a vanished partition gives nothing, any other missing index fails with index-not-found, the first shard exception fails the path, and otherwise every entry's iterators follow in routing order |
| `ShardCollectSource.RoutingIteratorsFailIffSomeEntryFails` | sql/src/main/java/io/crate/execution/engine/collect/sources/ShardCollectSource.java:391-436 | the unordered path fails exactly when one of its routing entries fails |
| `ShardCollectSource.HealthyShardsAreAllLocal` | sql/src/main/java/io/crate/execution/engine/collect/sources/ShardCollectSource.java:384-438 | when every listed index is available and every shard is registered, has a provider and opens, the unordered path succeeds with only local iterators |
| `ShardCollectSource.MissingPlainIndexFails` | sql/src/main/java/io/crate/execution/engine/collect/sources/ShardCollectSource.java:394-408 | a missing index that is not a partition makes the unordered path fail |
| `ShardCollectSource.OrderedShardFailurePolicy` | sql/src/main/java/io/crate/execution/engine/collect/sources/ShardCollectSource.java:342-351 | on the ordered path a missing or illegal-state shard is rethrown, index-not-found ends the index's loop for a partition and is rethrown otherwise, and any other throwable, errors included, is wrapped |
| `ShardCollectSource.OrderedIndexCollectors` | sql/src/main/java/io/crate/execution/engine/collect/sources/ShardCollectSource.java:330-352 | the collectors built for an index are a prefix of its shards, all of them when the index is not partitioned |
| `ShardCollectSource.OrderedCollectors` | sql/src/main/java/io/crate/execution/engine/collect/sources/ShardCollectSource.java:316-353 | success needs metadata for every routed index; the collectors are routed shards, and all routed shards in order when no index is partitioned |
| `ShardCollectSource.OrderedFailure` | sql/src/main/java/io/crate/execution/engine/collect/sources/ShardCollectSource.java:334-351 | nothing is raised exactly when the lookup gives a provider and its `getOrderedCollector` succeeds; a failing lookup's exception is the one raised |
| `ShardCollectSource.FirstOrderedFailure` | sql/src/main/java/io/crate/execution/engine/collect/sources/ShardCollectSource.java:330-351 | the position of the first shard whose ordered collector cannot be opened: every earlier shard opens and the shard there fails |
| `ShardCollectSource.OrderedIndexCollectorsMatchesReference` | sql/src/main/java/io/crate/execution/engine/collect/sources/ShardCollectSource.java:330-352 | with a valid registry an index's ordered collectors are exactly `OrderedIndexReference`: all shards when none fails; at the first failing shard, the shards before it for a partition's missing index, and otherwise the exception `OrderedShardFailurePolicy` raises |
| `ShardCollectSource.OrderedCollectorsMatchesReference` | sql/src/main/java/io/crate/execution/engine/collect/sources/ShardCollectSource.java:316-353 | with a valid registry the ordered collectors are exactly `OrderedReference`: an index unknown to the metadata fails with a null pointer, the first index failure ends the collection, and otherwise every index's collectors follow in routing order |
| `ShardCollectSource.OrderedMissingShardIsFatal` | sql/src/main/java/io/crate/execution/engine/collect/sources/ShardCollectSource.java:342-343 | on the ordered path an unregistered shard fails the collection with shard-not-found instead of being collected remotely |
| `ShardCollectSource.ShardRowFailurePolicy` | sql/src/main/java/io/crate/execution/engine/collect/sources/ShardCollectSource.java:476-480 | on the shard-row path a missing or illegal-state shard is reported unassigned and anything else is wrapped |
| `ShardCollectSource.ShardRowOf` | sql/src/main/java/io/crate/execution/engine/collect/sources/ShardCollectSource.java:464-481 | an unassigned shard number is reported under its assigned number; with a valid registry the outcome is `ShardOutcomeOf` for the registered shards: an unregistered shard, a null provider or a not-found or illegal-state failure is unassigned under its own number, a null row yields nothing, a row is kept, and any other failure is wrapped as unhandled |
| `ShardCollectSource.RowFailure` | sql/src/main/java/io/crate/execution/engine/collect/sources/ShardCollectSource.java:476-480 | a failure reports the shard unassigned exactly when the shard-row policy says so, and is wrapped as unhandled otherwise |
| `ShardCollectSource.Contribution` | sql/src/main/java/io/crate/execution/engine/collect/sources/ShardCollectSource.java:470-477 | a found row adds that row, a null row adds nothing, an unassigned shard adds one row describing it |
| `ShardCollectSource.IndexServedRows` | sql/src/main/java/io/crate/execution/engine/collect/sources/ShardCollectSource.java:464-481 | an index with a service contributes at most one row per shard and only the unhandled-server exception escapes; with a valid registry it fails exactly when one of its shards fails, and otherwise adds `ServedContribution`, each shard's outcome in shard order |
| `ShardCollectSource.UnservedRows` | sql/src/main/java/io/crate/execution/engine/collect/sources/ShardCollectSource.java:457-463 | an index without a service reports every one of its shards as unassigned, under its assigned number |
| `ShardCollectSource.GatherShardRows` | sql/src/main/java/io/crate/execution/engine/collect/sources/ShardCollectSource.java:449-482 | indices without metadata are skipped; at most one row per shard of the known indices; every unassigned row belongs to a known index; only the unhandled-server exception escapes |
| `ShardCollectSource.GatherShardRowsMatchesContribution` | sql/src/main/java/io/crate/execution/engine/collect/sources/ShardCollectSource.java:449-482 | with a valid registry the gathering fails exactly when a shard of a served index fails, and otherwise adds every entry's contribution in routing order: nothing for an unknown index, every shard unassigned under its assigned number for an index without a service, and each shard's outcome for a served index |
| `ShardCollectSource.ShardRows` | sql/src/main/java/io/crate/execution/engine/collect/sources/ShardCollectSource.java:440-496 | a node without routing fails with a null pointer; the result is a permutation of the provider rows followed by the unassigned rows, unchanged without ORDER BY and sorted by the reversed ordering with one |
| `ShardCollectSource.ShardRowsMatchContribution` | sql/src/main/java/io/crate/execution/engine/collect/sources/ShardCollectSource.java:440-496 | with a valid registry and a routing entry, the shard rows fail exactly when a shard of a served index fails; otherwise they are a permutation of the routing's provider rows followed by its unassigned rows, and exactly those without an ORDER BY |
| `RowOrdering.Insert` | sql/src/main/java/io/crate/execution/engine/collect/sources/ShardCollectSource.java:492-494 | inserting a row keeps the other rows, and keeps the sequence sorted by the reversed comparator |
| `RowOrdering.SortReversed` | sql/src/main/java/io/crate/execution/engine/collect/sources/ShardCollectSource.java:492-494 | the sorted rows are a permutation of the input, sorted by the reversed comparator when its signs are consistent |
| `MaximumAggregation.CompareValue` | sql/src/main/java/io/crate/operation/aggregation/impl/MaximumAggregation.java:144-149 | null vs null is 0, null vs value is -1, value vs null is 1, otherwise the values' comparison; negative, zero and positive exactly for below, equal and above |
| `MaximumAggregation.CompareValueAntisymmetric` | sql/src/main/java/io/crate/operation/aggregation/impl/MaximumAggregation.java:144-149 | swapping the operands negates the comparison |
| `MaximumAggregation.CompareTo` | sql/src/main/java/io/crate/operation/aggregation/impl/MaximumAggregation.java:139-142 | a null state gives -1; otherwise the comparison of the two values |
| `MaximumAggregation.SetValue` | sql/src/main/java/io/crate/operation/aggregation/impl/MaximumAggregation.java:133-136 | the value is replaced and the estimated delta is always charged |
| `MaximumAggregation.Add` | sql/src/main/java/io/crate/operation/aggregation/impl/MaximumAggregation.java:123-131 | null changes neither value nor accounting; the new value is the larger of old and input; the delta is charged exactly when the value is replaced, and ties keep the old value |
| `MaximumAggregation.AddIsGuardedSetValue` | sql/src/main/java/io/crate/operation/aggregation/impl/MaximumAggregation.java:127-135 | `add` is `setValue` guarded by the strict comparison, so both charge by one rule |
| `MaximumAggregation.Reduce` | sql/src/main/java/io/crate/operation/aggregation/impl/MaximumAggregation.java:112-121 | a null other value is a no-op; otherwise the value is the larger of the two, charged only on replacement |
| `MaximumAggregation.ReduceIsAddOfOtherValue` | sql/src/main/java/io/crate/operation/aggregation/impl/MaximumAggregation.java:112-131 | reducing another state is adding its value |
| `MaximumAggregation.Iterate` | sql/src/main/java/io/crate/operation/aggregation/impl/MaximumAggregation.java:91-97 | always returns true and has the effect of `add` on the first argument |
| `MaximumAggregation.AggregateIsMaximum` | sql/src/main/java/io/crate/operation/aggregation/impl/MaximumAggregation.java:91-131 | iterating a whole column leaves its maximum: an upper bound of the initial value and every row, drawn from them |
| `MaximumAggregation.AggregateNullsIsIdentity` | sql/src/main/java/io/crate/operation/aggregation/impl/MaximumAggregation.java:123-126 | a column of nulls changes neither the value nor the accounting |
| `MaximumAggregation.ReduceOfPartialAggregates` | sql/src/main/java/io/crate/operation/aggregation/impl/MaximumAggregation.java:112-131 | aggregating two halves separately and reducing gives the maximum of the whole column |
| `MaximumAggregation.AccountingTelescopes` | sql/src/main/java/io/crate/operation/aggregation/impl/MaximumAggregation.java:117-135 | when the estimator charges a size difference, the total charged equals the final value's size minus the initial one's |
| `MaximumAggregation.WriteTo` | sql/src/main/java/io/crate/operation/aggregation/impl/MaximumAggregation.java:67-74 | a null flag, followed by the value only when it is non-null |
| `MaximumAggregation.ReadFrom` | sql/src/main/java/io/crate/operation/aggregation/impl/MaximumAggregation.java:60-65 | a true flag leaves the state as it was and consumes one token; a false flag followed by a value installs it through `setValue`, charging the estimator's delta, and consumes two tokens; a missing token fails with end of stream; the rest of the stream is a suffix of the input |
| `MaximumAggregation.WriteReadRoundTrip` | sql/src/main/java/io/crate/operation/aggregation/impl/MaximumAggregation.java:60-74 | reading what `writeTo` wrote into a fresh state restores the value, consumes exactly the written tokens and charges the fresh state for its value |
| `TableSettingsResolver.Get` | sql/src/main/java/io/crate/execution/engine/pipeline/TableSettingsResolver.java:36-41 | the partitioned flag alone selects the path; each path fails exactly when its lookup misses, with its own error |
| `TableSettingsResolver.ForTable` | sql/src/main/java/io/crate/execution/engine/pipeline/TableSettingsResolver.java:43-49 | found index metadata gives exactly that index's settings; missing metadata gives index-not-found carrying the table's index name |
| `TableSettingsResolver.ForPartitionedTable` | sql/src/main/java/io/crate/execution/engine/pipeline/TableSettingsResolver.java:51-58 | the template is looked up by the name derived from schema and name; found gives its settings, missing gives table-unknown |
| `TableSettingsResolver.PartitionedIgnoresIndices` | sql/src/main/java/io/crate/execution/engine/pipeline/TableSettingsResolver.java:51-58 | the partitioned path gives the same answer whatever the index map holds |
| `TableSettingsResolver.PlainIgnoresTemplates` | sql/src/main/java/io/crate/execution/engine/pipeline/TableSettingsResolver.java:43-49 | the plain path gives the same answer whatever the templates hold |
| `MappingSymbolVisitor.InPlace` | sql/src/main/java/io/crate/analyze/symbol/MappingSymbolVisitor.java:34-39 | always the one shared instance, with the in-place flag set |
| `MappingSymbolVisitor.Copying` | sql/src/main/java/io/crate/analyze/symbol/MappingSymbolVisitor.java:35-43 | always the one shared instance, with the in-place flag clear |
| `MappingSymbolVisitor.Get` | sql/src/main/java/io/crate/analyze/symbol/MappingSymbolVisitor.java:51 | a missing key and a key mapped to null both give null |
| `MappingSymbolVisitor.Process` | sql/src/main/java/io/crate/analyze/symbol/MappingSymbolVisitor.java:50-56 | a mapped symbol yields exactly its mapping; an unmapped leaf is returned as is; an unmapped function keeps its name and arity |
| `MappingSymbolVisitor.ProcessUntouchedIsIdentity` | sql/src/main/java/io/crate/analyze/symbol/MappingSymbolVisitor.java:50-56 | a symbol none of whose subsymbols is mapped comes back unchanged |
| `MappingSymbolVisitor.ProcessNullMappingIsIdentity` | sql/src/main/java/io/crate/analyze/symbol/MappingSymbolVisitor.java:51-55 | a mapping that is empty or holds only nulls changes nothing |
| `MappingSymbolVisitor.SubstitutionIsSingleStep` | sql/src/main/java/io/crate/analyze/symbol/MappingSymbolVisitor.java:51-53 | with a mapped to b and b mapped to c, processing a gives b, not c |
| `MappingSymbolVisitor.MappedFunctionIsNotDescended` | sql/src/main/java/io/crate/analyze/symbol/MappingSymbolVisitor.java:50-54 | a mapped function is replaced wholesale, whatever its arguments map to |
| `MappingSymbolVisitor.UnmappedFunctionDescends` | sql/src/main/java/io/crate/analyze/symbol/MappingSymbolVisitor.java:51-55 | an unmapped function's arguments are each processed under the same mapping |

## Left out

- Constructor wiring, logging, `getProjectorFactory` and the projectors that wrap the chosen iterator are not modelled. The plan is the iterator before wrapping.
- The thread pool, the idle-thread count and the fallback on rejection are concurrency. The concurrent composite is a tag.
- `AsyncCompositeBatchIterator`, `CompositeBatchIterator`, `OrderedLuceneBatchIteratorFactory`, `OrderingByPosition` and the row accounting of the ordered merge are not part of this model. No claim is made about merge order or concurrency.
- Remote-collector construction is not modelled; a remote collector is a tag naming its shard.
- `SharedShardContexts.getOrCreateContext` on the ordered path is not modelled. Its own failures are left out with it.
- Java `assert` statements in the create and close callbacks are preconditions. The model does not cover a run with assertions disabled, where `put` would overwrite an entry.
- The system-table transformation of unassigned shards is one `UnassignedRow` per unassigned shard. Any filtering it performs is not modelled.
- The cluster state is a snapshot. Concurrent lifecycle callbacks during a collect are not modelled.
- MaximumAggregation: the byte-level stream encoding is not modelled. A value is one abstract token. `SizeEstimator` internals are not modelled; the estimator is a parameter. The circuit-breaker ceiling of `VariableSizeAggregationState` is not modelled; accounting is the running sum of charged deltas. The per-type registration loop is not modelled. Values are ordered like integers.
- MaximumAggregation.ReadFrom: a token of the wrong kind is an error of the abstract codec. A byte stream has no such case.
- ShardRegistry.Lookup: a factory that throws is a fixed answer per shard; a factory that throws on one call and succeeds on a later one is not modelled.
- MappingSymbolVisitor.Process: the visitor's mode is carried but never read. Symbols are values, so an in-place rewrite that is visible through a function shared at two places of the input tree has no counterpart, and no claim is made that the two modes agree.
- MappingSymbolVisitor: `ReplacingSymbolVisitor` is not part of this model. Its recursion is plain structural recursion over a function's arguments, and in-place mutation versus copying is not modelled.
- TableSettingsResolver: `TableIdent.indexName` and `PartitionName.templateName` are not part of this model. They are parameters.
