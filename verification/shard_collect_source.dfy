/**
 * The shard collect source: builds the single batch iterator that gathers a
 * collect phase's rows from the shards on the local node, or that gathers
 * rows describing those shards. Iterators and merges are
 * opaque tags; what is modelled is which iterator is chosen, over which
 * shards, and what happens when an index or shard is missing.
 */
module ShardCollectSource {
  import opened Wrappers
  import opened ShardRegistry
  import RowOrdering

  datatype Granularity = Cluster | Node | Shard | Doc

  /** One entry of the local node's routing: an index and its shard numbers, in map iteration order. */
  datatype IndexShards = IndexShards(index: string, shards: seq<int>)

  /** The parts of a (normalized) routed collect phase that the source looks at. */
  datatype Phase = Phase(
    maxRowGranularity: Granularity,
    hasOrderBy: bool,
    hasShardProjections: bool,
    // the projectors provide a scroll of their own, so the source need not support move-to-start
    providesIndependentScroll: bool,
    // the collected columns contain the fetch id (a query-then-fetch collect)
    collectsFetchId: bool,
    // the routing's entry for the local node; `None` when the node has none
    localRouting: Option<seq<IndexShards>>)

  /** A row: one produced by a shard's provider, or one describing an unassigned shard. */
  datatype Row = AssignedRow(cells: seq<int>) | UnassignedRow(index: string, num: int)

  /** A per-shard iterator: the shard's local iterator, or a collector that fetches the shard remotely. */
  datatype ShardIterator = LocalIterator(shard: ShardId, requiresScroll: bool) | RemoteCollector(shard: ShardId)

  /** The iterator `getIterator` builds (before the projectors wrap it). */
  datatype Plan =
    | InMemoryRows(rows: seq<Row>)
    | OrderedMerge(collectors: seq<ShardId>, supportMoveToStart: bool)
    | EmptyIterator
    | SingleIterator(it: ShardIterator)
    | ConcurrentComposite(its: seq<ShardIterator>)
    | SequentialComposite(its: seq<ShardIterator>)

  datatype IteratorKind = InMemoryKind | OrderedMergeKind | EmptyKind | SingleKind | ConcurrentKind | SequentialKind

  /** How an exception leaves the source: unchanged, or wrapped in one of two exception types. */
  datatype Raised = Thrown(f: Failure) | UnhandledServer(cause: Failure) | RuntimeWrapped(cause: Failure)

  /** What the source does about a missing index or a failing shard. */
  datatype Disposition = Skip | Rethrow | WrapUnhandled | WrapRuntime | UseRemoteCollector | ReportUnassigned

  /**
   * The local node as the source sees it. The index services, the providers
   * and the helpers for index names and unassigned shard numbers are not part
   * of this model and appear as their observable behaviour.
   */
  datatype Node = Node(
    // indices the cluster metadata knows
    metaData: set<string>,
    // indices with an index service on this node
    indexServices: set<string>,
    create: Factory,
    // a provider's `getIterator`: `Some(f)` when it throws `f`
    openIterator: ShardId -> Option<Failure>,
    // a provider's `getOrderedCollector`: `Some(f)` when it throws `f`
    openOrdered: ShardId -> Option<Failure>,
    // a provider's `getRowForShard`: the row's cells, null, or an exception
    rowForShard: ShardId -> Result<Option<seq<int>>, Failure>,
    // `IndexParts.isPartitioned`
    isPartitioned: string -> bool,
    // `UnassignedShard.isUnassigned` and `UnassignedShard.markAssigned`
    isUnassigned: int -> bool,
    markAssigned: int -> int,
    // the row ordering of the phase's ORDER BY
    rowOrder: RowOrdering.Comparator<Row>)

  // -----------------------------------------------------------------------
  // The pure decisions
  // -----------------------------------------------------------------------

  /** Move-to-start support is required only if asked for and the projectors do not scroll on their own. */
  function RequireMoveToStart(supportMoveToStart: bool, providesIndependentScroll: bool): (b: bool)
    ensures b ==> supportMoveToStart
    ensures providesIndependentScroll ==> !b
    ensures supportMoveToStart && !providesIndependentScroll ==> b
  {
    supportMoveToStart && !providesIndependentScroll
  }

  /**
   * The iterator `getIterator` chooses from the granularity, the presence of
   * an ORDER BY, the number of per-shard iterators and the presence of shard
   * projections.
   */
  function ChooseIterator(g: Granularity, hasOrderBy: bool, n: nat, hasShardProjections: bool): (k: IteratorKind)
    ensures k == InMemoryKind <==> g == Shard
    ensures k == OrderedMergeKind <==> g == Doc && hasOrderBy
    ensures k == EmptyKind <==> g != Shard && !(g == Doc && hasOrderBy) && n == 0
    ensures k == SingleKind <==> g != Shard && !(g == Doc && hasOrderBy) && n == 1
    ensures k == ConcurrentKind ==> n >= 2 && hasShardProjections
    ensures k == SequentialKind ==> n >= 2 && !hasShardProjections
    ensures g != Shard && !(g == Doc && hasOrderBy) && n >= 2 ==>
      k == (if hasShardProjections then ConcurrentKind else SequentialKind)
  {
    if g == Shard then InMemoryKind
    else if g == Doc && hasOrderBy then OrderedMergeKind
    else if n == 0 then EmptyKind
    else if n == 1 then SingleKind
    else if hasShardProjections then ConcurrentKind
    else SequentialKind
  }

  /** A missing index on the unordered path: a partition may vanish, any other index may not. */
  function MissingIndexPolicy(partitioned: bool): (d: Disposition)
    ensures d == Skip <==> partitioned
    ensures d == Rethrow <==> !partitioned
  {
    if partitioned then Skip else Rethrow
  }

  /**
   * An exception from one shard on the unordered path. A missing or closed
   * shard is collected remotely, unless the fetch id is collected (the fetch
   * needs a local reader). A missing index propagates unchanged so that it
   * can be retried; an interrupt becomes a runtime exception; any other
   * exception is wrapped. Only exceptions are caught: an error propagates
   * unchanged.
   */
  function UnorderedShardFailurePolicy(f: Failure, collectsFetchId: bool): (d: Disposition)
    ensures d == UseRemoteCollector <==> (f.ShardNotFound? || f.IllegalShardState?) && !collectsFetchId
    ensures d == Rethrow <==>
      ((f.ShardNotFound? || f.IllegalShardState?) && collectsFetchId) || f.IndexNotFound? || f.JavaError?
    ensures d == WrapRuntime <==> f.Interrupted?
    ensures d == WrapUnhandled <==> f.NullPointer? || f.OtherException?
  {
    match f
    case ShardNotFound(_) => if collectsFetchId then Rethrow else UseRemoteCollector
    case IllegalShardState(_) => if collectsFetchId then Rethrow else UseRemoteCollector
    case Interrupted => WrapRuntime
    case IndexNotFound(_) => Rethrow
    case JavaError(_) => Rethrow
    case _ => WrapUnhandled
  }

  /**
   * An exception from one shard on the ordered path: missing shards are
   * fatal, a missing partition ends the collection of that index's shards,
   * any other throwable, errors included, is wrapped.
   */
  function OrderedShardFailurePolicy(f: Failure, partitioned: bool): (d: Disposition)
    ensures d == Skip <==> f.IndexNotFound? && partitioned
    ensures d == Rethrow <==> f.ShardNotFound? || f.IllegalShardState? || (f.IndexNotFound? && !partitioned)
    ensures d == WrapUnhandled <==> f.Interrupted? || f.NullPointer? || f.OtherException? || f.JavaError?
  {
    match f
    case ShardNotFound(_) => Rethrow
    case IllegalShardState(_) => Rethrow
    case IndexNotFound(_) => if partitioned then Skip else Rethrow
    case _ => WrapUnhandled
  }

  /** An exception from one shard on the shard-row path: a missing or closed shard is reported as unassigned. */
  function ShardRowFailurePolicy(f: Failure): (d: Disposition)
    ensures d == ReportUnassigned <==> f.ShardNotFound? || f.IllegalShardState?
    ensures d == WrapUnhandled <==> !(f.ShardNotFound? || f.IllegalShardState?)
  {
    if f.ShardNotFound? || f.IllegalShardState? then ReportUnassigned else WrapUnhandled
  }

  /** The exception a raising disposition produces. */
  function Raise(d: Disposition, f: Failure): Raised
    requires d == Rethrow || d == WrapUnhandled || d == WrapRuntime
  {
    match d
    case Rethrow => Thrown(f)
    case WrapUnhandled => UnhandledServer(f)
    case WrapRuntime => RuntimeWrapped(f)
  }

  // -----------------------------------------------------------------------
  // Shards named by the routing
  // -----------------------------------------------------------------------

  /** The shard ids of one routing entry, in order. */
  function ShardIdsOf(index: string, shards: seq<int>): (ids: seq<ShardId>)
    ensures |ids| == |shards|
    ensures forall i :: 0 <= i < |shards| ==> ids[i] == ShardId(index, shards[i])
  {
    seq(|shards|, i requires 0 <= i < |shards| => ShardId(index, shards[i]))
  }

  /** The shard each iterator reads. */
  function ShardsOf(its: seq<ShardIterator>): (ids: seq<ShardId>)
    ensures |ids| == |its|
    ensures forall i :: 0 <= i < |its| ==> ids[i] == its[i].shard
  {
    seq(|its|, i requires 0 <= i < |its| => its[i].shard)
  }

  lemma ShardIdsOfCons(index: string, shards: seq<int>)
    requires |shards| > 0
    ensures ShardIdsOf(index, shards) == [ShardId(index, shards[0])] + ShardIdsOf(index, shards[1..])
  {
    assert forall i :: 1 <= i < |shards| ==> shards[i] == shards[1..][i - 1];
  }

  /** Concatenating iterator lists concatenates their shards and keeps what holds of each element. */
  lemma ConcatIterators(a: seq<ShardIterator>, b: seq<ShardIterator>, requiresScroll: bool)
    ensures ShardsOf(a + b) == ShardsOf(a) + ShardsOf(b)
    ensures LocalScrollAs(a, requiresScroll) && LocalScrollAs(b, requiresScroll) ==> LocalScrollAs(a + b, requiresScroll)
    ensures AllLocal(a) && AllLocal(b) ==> AllLocal(a + b)
  {
    assert forall i :: |a| <= i < |a + b| ==> (a + b)[i] == b[i - |a|];
  }

  /** Every local iterator was asked for the given scroll support. */
  predicate LocalScrollAs(its: seq<ShardIterator>, requiresScroll: bool)
  {
    forall i :: 0 <= i < |its| && its[i].LocalIterator? ==> its[i].requiresScroll == requiresScroll
  }

  /** No shard is collected remotely. */
  predicate AllLocal(its: seq<ShardIterator>)
  {
    forall i :: 0 <= i < |its| ==> its[i].LocalIterator?
  }

  /** An index whose shards can be collected here: known to the metadata and served on this node. */
  predicate Available(node: Node, index: string)
  {
    index in node.metaData && index in node.indexServices
  }

  /** Every index of the routing that is not available is a partition. */
  predicate MissingArePartitions(node: Node, entries: seq<IndexShards>)
  {
    forall i :: 0 <= i < |entries| && !Available(node, entries[i].index) ==> node.isPartitioned(entries[i].index)
  }

  /** Every shard of every available index, in routing order: what the unordered path must cover. */
  function ExpectedShards(node: Node, entries: seq<IndexShards>): seq<ShardId>
    decreases |entries|
  {
    if |entries| == 0 then []
    else
      (if Available(node, entries[0].index) then ShardIdsOf(entries[0].index, entries[0].shards) else [])
      + ExpectedShards(node, entries[1..])
  }

  /** Every shard the routing names, in order. */
  function AllShards(entries: seq<IndexShards>): seq<ShardId>
    decreases |entries|
  {
    if |entries| == 0 then []
    else ShardIdsOf(entries[0].index, entries[0].shards) + AllShards(entries[1..])
  }

  /** The total number of shard numbers the routing lists for indices the metadata knows. */
  function KnownShardCount(node: Node, entries: seq<IndexShards>): nat
    decreases |entries|
  {
    if |entries| == 0 then 0
    else (if entries[0].index in node.metaData then |entries[0].shards| else 0) + KnownShardCount(node, entries[1..])
  }

  // -----------------------------------------------------------------------
  // getIterators: the unordered path
  // -----------------------------------------------------------------------

  /**
   * What opening a shard's iterator raises, if anything, read off the node
   * and the set of registered shards alone: the provider lookup's exception,
   * or else the provider's `getIterator`'s.
   */
  function OpenFailure(node: Node, registered: set<ShardId>, id: ShardId): (f: Option<Failure>)
    ensures f.None? <==> ProviderOf(registered, id, node.create).Ok? && node.openIterator(id).None?
    ensures ProviderOf(registered, id, node.create).Err? ==> f == Some(ProviderOf(registered, id, node.create).error)
  {
    match ProviderOf(registered, id, node.create)
    case Err(f) => Some(f)
    case Ok(_) => node.openIterator(id)
  }

  /** The iterator of one shard on the unordered path, or the collector replacing it. */
  function CollectShard(node: Node, reg: Registry, id: ShardId, requiresScroll: bool, collectsFetchId: bool)
    : (r: (Result<ShardIterator, Raised>, Registry))
    ensures r.0.Ok? ==> r.0.value.shard == id
    ensures r.0.Ok? && r.0.value.LocalIterator? ==> r.0.value.requiresScroll == requiresScroll
    ensures r.0.Ok? && r.0.value.RemoteCollector? ==> !collectsFetchId
    ensures r.1.Keys == reg.Keys
    ensures Valid(reg, node.create) ==> Valid(r.1, node.create)
    ensures Valid(reg, node.create) ==>
      var f := OpenFailure(node, reg.Keys, id);
      && (f.None? <==> r.0 == Ok(LocalIterator(id, requiresScroll)))
      && (f.Some? && UnorderedShardFailurePolicy(f.value, collectsFetchId) == UseRemoteCollector ==>
            r.0 == Ok(RemoteCollector(id)))
      && (f.Some? && UnorderedShardFailurePolicy(f.value, collectsFetchId) != UseRemoteCollector ==>
            r.0 == Err(Raise(UnorderedShardFailurePolicy(f.value, collectsFetchId), f.value)))
    ensures id !in reg ==>
      r.0 == (if collectsFetchId then Err(Thrown(ShardNotFound(id))) else Ok(RemoteCollector(id)))
    ensures Valid(reg, node.create) ==> r.0 == ShardIteratorOf(node, reg.Keys, id, requiresScroll, collectsFetchId)
  {
    var providerOut := Lookup(reg, id, node.create);
    var provider, reg' := providerOut.0, providerOut.1;
    var failure := if provider.Err? then Some(provider.error) else node.openIterator(id);
    match failure
    case None => (Ok(LocalIterator(id, requiresScroll)), reg')
    case Some(f) =>
      var d := UnorderedShardFailurePolicy(f, collectsFetchId);
      if d == UseRemoteCollector then (Ok(RemoteCollector(id)), reg')
      else (Err(Raise(d, f)), reg')
  }

  /**
   * The unordered path's answer for a registered shard, case by case: a
   * factory returning null or a closed shard goes remote unless the fetch id
   * is collected; a missing index propagates unchanged; an interrupt is
   * wrapped in a runtime exception; any other exception, a throwing
   * factory's included, is wrapped as unhandled; an error propagates unchanged.
   */
  lemma CollectShardOutcomes(node: Node, reg: Registry, id: ShardId, requiresScroll: bool, collectsFetchId: bool, f: Failure)
    requires Valid(reg, node.create) && id in reg
    ensures node.create(id) == Ok(None) ==>
      CollectShard(node, reg, id, requiresScroll, collectsFetchId).0
        == if collectsFetchId then Err(Thrown(ShardNotFound(id))) else Ok(RemoteCollector(id))
    ensures node.create(id) == Err(f) || (node.create(id).Ok? && node.create(id).value.Some? && node.openIterator(id) == Some(f)) ==>
      var r := CollectShard(node, reg, id, requiresScroll, collectsFetchId).0;
      && (f.IllegalShardState? ==> r == if collectsFetchId then Err(Thrown(f)) else Ok(RemoteCollector(id)))
      && (f.IndexNotFound? ==> r == Err(Thrown(f)))
      && (f.Interrupted? ==> r == Err(RuntimeWrapped(f)))
      && (f.NullPointer? || f.OtherException? ==> r == Err(UnhandledServer(f)))
      && (f.JavaError? ==> r == Err(Thrown(f)))
  {
  }

  /** The iterators of one index's shards, stopping at the first exception. */
  function CollectIndexShards(node: Node, reg: Registry, index: string, shards: seq<int>, requiresScroll: bool, collectsFetchId: bool)
    : (r: (Result<seq<ShardIterator>, Raised>, Registry))
    ensures r.0.Ok? ==> ShardsOf(r.0.value) == ShardIdsOf(index, shards)
    ensures r.0.Ok? ==> LocalScrollAs(r.0.value, requiresScroll)
    ensures r.0.Ok? && collectsFetchId ==> AllLocal(r.0.value)
    ensures r.1.Keys == reg.Keys
    ensures Valid(reg, node.create) ==> Valid(r.1, node.create)
    decreases |shards|
  {
    if |shards| == 0 then (Ok([]), reg)
    else
      var firstOut := CollectShard(node, reg, ShardId(index, shards[0]), requiresScroll, collectsFetchId);
      var first, reg1 := firstOut.0, firstOut.1;
      if first.Err? then (Err(first.error), reg1)
      else
        var restOut := CollectIndexShards(node, reg1, index, shards[1..], requiresScroll, collectsFetchId);
        var rest, reg2 := restOut.0, restOut.1;
        if rest.Err? then (Err(rest.error), reg2)
        else
          ShardIdsOfCons(index, shards);
          ConcatIterators([first.value], rest.value, requiresScroll);
          (Ok([first.value] + rest.value), reg2)
  }

  /**
   * One routing entry of `getIterators`: an index without metadata or without
   * an index service is skipped when it is a partition and is fatal otherwise;
   * an available index contributes one iterator per shard.
   */
  function CollectIndex(node: Node, reg: Registry, e: IndexShards, requiresScroll: bool, collectsFetchId: bool)
    : (r: (Result<seq<ShardIterator>, Raised>, Registry))
    ensures !Available(node, e.index) ==> r.1 == reg
    ensures !Available(node, e.index) ==>
      r.0 == (if node.isPartitioned(e.index) then Ok([]) else Err(Thrown(IndexNotFound(e.index))))
    ensures r.0.Ok? ==> ShardsOf(r.0.value) == if Available(node, e.index) then ShardIdsOf(e.index, e.shards) else []
    ensures r.0.Ok? ==> LocalScrollAs(r.0.value, requiresScroll)
    ensures r.0.Ok? && collectsFetchId ==> AllLocal(r.0.value)
    ensures r.1.Keys == reg.Keys
    ensures Valid(reg, node.create) ==> Valid(r.1, node.create)
  {
    if !Available(node, e.index) then
      if MissingIndexPolicy(node.isPartitioned(e.index)) == Skip then (Ok([]), reg)
      else (Err(Thrown(IndexNotFound(e.index))), reg)
    else CollectIndexShards(node, reg, e.index, e.shards, requiresScroll, collectsFetchId)
  }

  /**
   * `getIterators`: one iterator per shard of every available index, in
   * routing order, stopping at the first exception.
   */
  function GetIterators(node: Node, reg: Registry, entries: seq<IndexShards>, requiresScroll: bool, collectsFetchId: bool)
    : (r: (Result<seq<ShardIterator>, Raised>, Registry))
    ensures r.0.Ok? ==> ShardsOf(r.0.value) == ExpectedShards(node, entries)
    ensures r.0.Ok? ==> LocalScrollAs(r.0.value, requiresScroll)
    ensures r.0.Ok? && collectsFetchId ==> AllLocal(r.0.value)
    ensures r.0.Ok? ==> MissingArePartitions(node, entries)
    ensures r.1.Keys == reg.Keys
    ensures Valid(reg, node.create) ==> Valid(r.1, node.create)
    decreases |entries|
  {
    if |entries| == 0 then (Ok([]), reg)
    else
      var headOut := CollectIndex(node, reg, entries[0], requiresScroll, collectsFetchId);
      var head, reg1 := headOut.0, headOut.1;
      if head.Err? then (Err(head.error), reg1)
      else
        var restOut := GetIterators(node, reg1, entries[1..], requiresScroll, collectsFetchId);
        var rest, reg2 := restOut.0, restOut.1;
        if rest.Err? then (Err(rest.error), reg2)
        else
          ConcatIterators(head.value, rest.value, requiresScroll);
          assert MissingArePartitions(node, entries) by {
            assert forall i :: 1 <= i < |entries| ==> entries[i] == entries[1..][i - 1];
          }
          (Ok(head.value + rest.value), reg2)
  }

  /** A shard that is registered, whose factory gives a provider and whose iterator opens. */
  predicate Healthy(node: Node, reg: Registry, id: ShardId)
  {
    OpenFailure(node, reg.Keys, id).None?
  }

  /**
   * When every listed index is available and every listed shard is healthy,
   * the unordered path succeeds and collects every shard locally.
   */
  lemma {:induction false} HealthyShardsAreAllLocal(node: Node, reg: Registry, entries: seq<IndexShards>, requiresScroll: bool, collectsFetchId: bool)
    requires Valid(reg, node.create)
    requires forall i :: 0 <= i < |entries| ==> Available(node, entries[i].index)
    requires forall id :: id in AllShards(entries) ==> Healthy(node, reg, id)
    ensures GetIterators(node, reg, entries, requiresScroll, collectsFetchId).0.Ok?
    ensures AllLocal(GetIterators(node, reg, entries, requiresScroll, collectsFetchId).0.value)
    decreases |entries|
  {
    if |entries| > 0 {
      var e := entries[0];
      var tail := entries[1..];
      assert AllShards(entries) == ShardIdsOf(e.index, e.shards) + AllShards(tail);
      HealthyIndexIsAllLocal(node, reg, e.index, e.shards, requiresScroll, collectsFetchId);
      var headOut := CollectIndex(node, reg, e, requiresScroll, collectsFetchId);
      var head, reg1 := headOut.0, headOut.1;
      assert forall i :: 0 <= i < |tail| ==> tail[i] == entries[i + 1];
      forall id | id in AllShards(tail)
        ensures Healthy(node, reg1, id)
      {
        assert id in AllShards(entries);
      }
      HealthyShardsAreAllLocal(node, reg1, tail, requiresScroll, collectsFetchId);
      var restOut := GetIterators(node, reg1, tail, requiresScroll, collectsFetchId);
      var rest, reg2 := restOut.0, restOut.1;
      assert GetIterators(node, reg, entries, requiresScroll, collectsFetchId).0 == Ok(head.value + rest.value);
    }
  }

  lemma {:induction false} HealthyIndexIsAllLocal(node: Node, reg: Registry, index: string, shards: seq<int>, requiresScroll: bool, collectsFetchId: bool)
    requires Valid(reg, node.create)
    requires forall id :: id in ShardIdsOf(index, shards) ==> Healthy(node, reg, id)
    ensures CollectIndexShards(node, reg, index, shards, requiresScroll, collectsFetchId).0.Ok?
    ensures AllLocal(CollectIndexShards(node, reg, index, shards, requiresScroll, collectsFetchId).0.value)
    decreases |shards|
  {
    if |shards| > 0 {
      ShardIdsOfCons(index, shards);
      var id := ShardId(index, shards[0]);
      assert Healthy(node, reg, id);
      var firstOut := CollectShard(node, reg, id, requiresScroll, collectsFetchId);
      var first, reg1 := firstOut.0, firstOut.1;
      assert first == Ok(LocalIterator(id, requiresScroll));
      forall id' | id' in ShardIdsOf(index, shards[1..])
        ensures Healthy(node, reg1, id')
      {
        assert id' in ShardIdsOf(index, shards);
      }
      HealthyIndexIsAllLocal(node, reg1, index, shards[1..], requiresScroll, collectsFetchId);
      var rest := CollectIndexShards(node, reg1, index, shards[1..], requiresScroll, collectsFetchId).0.value;
      ConcatIterators([first.value], rest, requiresScroll);
      assert CollectIndexShards(node, reg, index, shards, requiresScroll, collectsFetchId).0 == Ok([first.value] + rest);
    }
  }

  /** A missing index that is not a partition makes the unordered path fail. */
  lemma MissingPlainIndexFails(node: Node, reg: Registry, entries: seq<IndexShards>, requiresScroll: bool, collectsFetchId: bool, i: nat)
    requires i < |entries| && !Available(node, entries[i].index) && !node.isPartitioned(entries[i].index)
    ensures GetIterators(node, reg, entries, requiresScroll, collectsFetchId).0.Err?
  {
  }

  // -----------------------------------------------------------------------
  // The unordered path, read off the registered shards alone
  // -----------------------------------------------------------------------

  /**
   * One shard's answer on the unordered path: its local iterator when
   * nothing is raised, otherwise whatever `UnorderedShardFailurePolicy`
   * makes of the failure (a remote collector or an exception).
   */
  function ShardIteratorOf(node: Node, registered: set<ShardId>, id: ShardId, requiresScroll: bool, collectsFetchId: bool)
    : Result<ShardIterator, Raised>
  {
    match OpenFailure(node, registered, id)
    case None => Ok(LocalIterator(id, requiresScroll))
    case Some(f) =>
      var d := UnorderedShardFailurePolicy(f, collectsFetchId);
      if d == UseRemoteCollector then Ok(RemoteCollector(id)) else Err(Raise(d, f))
  }

  /** The position of the first shard whose answer is an exception, or the number of shards if there is none. */
  function FirstRaising(node: Node, registered: set<ShardId>, index: string, shards: seq<int>, requiresScroll: bool, collectsFetchId: bool)
    : (k: nat)
    ensures k <= |shards|
    ensures forall i :: 0 <= i < k ==>
      ShardIteratorOf(node, registered, ShardId(index, shards[i]), requiresScroll, collectsFetchId).Ok?
    ensures k < |shards| ==> ShardIteratorOf(node, registered, ShardId(index, shards[k]), requiresScroll, collectsFetchId).Err?
    decreases |shards|
  {
    if |shards| == 0 then 0
    else if ShardIteratorOf(node, registered, ShardId(index, shards[0]), requiresScroll, collectsFetchId).Err? then 0
    else
      var k := FirstRaising(node, registered, index, shards[1..], requiresScroll, collectsFetchId);
      assert forall i :: 1 <= i < k + 1 ==> shards[i] == shards[1..][i - 1];
      k + 1
  }

  /**
   * The iterators of one available index: the first exception among its
   * shards' answers, or else one answer per shard, in shard order.
   */
  function IndexIterators(node: Node, registered: set<ShardId>, index: string, shards: seq<int>, requiresScroll: bool, collectsFetchId: bool)
    : Result<seq<ShardIterator>, Raised>
  {
    var k := FirstRaising(node, registered, index, shards, requiresScroll, collectsFetchId);
    if k < |shards| then Err(ShardIteratorOf(node, registered, ShardId(index, shards[k]), requiresScroll, collectsFetchId).error)
    else Ok(seq(|shards|, i requires 0 <= i < |shards| =>
      ShardIteratorOf(node, registered, ShardId(index, shards[i]), requiresScroll, collectsFetchId).value))
  }

  /**
   * What one routing entry gives on the unordered path: an unavailable
   * index gives nothing if it is a partition and fails otherwise; an
   * available one gives its shards' iterators.
   */
  function EntryIterators(node: Node, registered: set<ShardId>, e: IndexShards, requiresScroll: bool, collectsFetchId: bool)
    : Result<seq<ShardIterator>, Raised>
  {
    if !Available(node, e.index) then
      (if node.isPartitioned(e.index) then Ok([]) else Err(Thrown(IndexNotFound(e.index))))
    else IndexIterators(node, registered, e.index, e.shards, requiresScroll, collectsFetchId)
  }

  /** The entries' iterators in routing order, or the first entry's failure. */
  function RoutingIterators(node: Node, registered: set<ShardId>, entries: seq<IndexShards>, requiresScroll: bool, collectsFetchId: bool)
    : Result<seq<ShardIterator>, Raised>
    decreases |entries|
  {
    if |entries| == 0 then Ok([])
    else
      match EntryIterators(node, registered, entries[0], requiresScroll, collectsFetchId)
      case Err(e) => Err(e)
      case Ok(head) =>
        match RoutingIterators(node, registered, entries[1..], requiresScroll, collectsFetchId)
        case Err(e) => Err(e)
        case Ok(rest) => Ok(head + rest)
  }

  /** The unordered path fails exactly when one of its routing entries fails. */
  lemma {:induction false} RoutingIteratorsFailIffSomeEntryFails(node: Node, registered: set<ShardId>, entries: seq<IndexShards>, requiresScroll: bool, collectsFetchId: bool)
    ensures RoutingIterators(node, registered, entries, requiresScroll, collectsFetchId).Err? <==>
      exists i :: 0 <= i < |entries| && EntryIterators(node, registered, entries[i], requiresScroll, collectsFetchId).Err?
    decreases |entries|
  {
    if |entries| > 0 {
      RoutingIteratorsFailIffSomeEntryFails(node, registered, entries[1..], requiresScroll, collectsFetchId);
      if exists i :: 0 <= i < |entries| && EntryIterators(node, registered, entries[i], requiresScroll, collectsFetchId).Err? {
        var i :| 0 <= i < |entries| && EntryIterators(node, registered, entries[i], requiresScroll, collectsFetchId).Err?;
        if i > 0 {
          assert entries[1..][i - 1] == entries[i];
        }
      }
      if exists i :: 0 <= i < |entries[1..]| && EntryIterators(node, registered, entries[1..][i], requiresScroll, collectsFetchId).Err? {
        var i :| 0 <= i < |entries[1..]| && EntryIterators(node, registered, entries[1..][i], requiresScroll, collectsFetchId).Err?;
        assert entries[i + 1] == entries[1..][i];
      }
    }
  }

  /** How an index's iterators unfold over a first shard that does not raise. */
  lemma IndexIteratorsStep(node: Node, registered: set<ShardId>, index: string, shards: seq<int>, requiresScroll: bool, collectsFetchId: bool)
    requires |shards| > 0
    requires ShardIteratorOf(node, registered, ShardId(index, shards[0]), requiresScroll, collectsFetchId).Ok?
    ensures var rest := IndexIterators(node, registered, index, shards[1..], requiresScroll, collectsFetchId);
      IndexIterators(node, registered, index, shards, requiresScroll, collectsFetchId) ==
        if rest.Err? then Err(rest.error)
        else Ok([ShardIteratorOf(node, registered, ShardId(index, shards[0]), requiresScroll, collectsFetchId).value] + rest.value)
  {
    var k := FirstRaising(node, registered, index, shards[1..], requiresScroll, collectsFetchId);
    assert FirstRaising(node, registered, index, shards, requiresScroll, collectsFetchId) == k + 1;
    if k < |shards| - 1 {
      assert shards[1..][k] == shards[k + 1];
    } else {
      var all := IndexIterators(node, registered, index, shards, requiresScroll, collectsFetchId).value;
      var rest := IndexIterators(node, registered, index, shards[1..], requiresScroll, collectsFetchId).value;
      assert forall i :: 1 <= i < |shards| ==> all[i] == rest[i - 1] by {
        forall i | 1 <= i < |shards|
          ensures all[i] == rest[i - 1]
        {
          assert shards[1..][i - 1] == shards[i];
        }
      }
      assert all == [ShardIteratorOf(node, registered, ShardId(index, shards[0]), requiresScroll, collectsFetchId).value] + rest;
    }
  }

  /** With a consistent registry, the iterators of an available index are exactly its reference iterators. */
  lemma {:induction false} CollectIndexShardsMatchesReference(node: Node, reg: Registry, index: string, shards: seq<int>, requiresScroll: bool, collectsFetchId: bool)
    requires Valid(reg, node.create)
    ensures CollectIndexShards(node, reg, index, shards, requiresScroll, collectsFetchId).0
      == IndexIterators(node, reg.Keys, index, shards, requiresScroll, collectsFetchId)
    decreases |shards|
  {
    if |shards| == 0 {
      assert IndexIterators(node, reg.Keys, index, shards, requiresScroll, collectsFetchId).value == [];
    } else {
      var firstOut := CollectShard(node, reg, ShardId(index, shards[0]), requiresScroll, collectsFetchId);
      if firstOut.0.Ok? {
        var restOut := CollectIndexShards(node, firstOut.1, index, shards[1..], requiresScroll, collectsFetchId);
        assert CollectIndexShards(node, reg, index, shards, requiresScroll, collectsFetchId).0 ==
          if restOut.0.Err? then Err(restOut.0.error) else Ok([firstOut.0.value] + restOut.0.value);
        CollectIndexShardsMatchesReference(node, firstOut.1, index, shards[1..], requiresScroll, collectsFetchId);
        IndexIteratorsStep(node, reg.Keys, index, shards, requiresScroll, collectsFetchId);
      } else {
        assert FirstRaising(node, reg.Keys, index, shards, requiresScroll, collectsFetchId) == 0;
      }
    }
  }

  /**
   * With a consistent registry, `getIterators` answers exactly the reference:
   * the first failing entry's exception, or every entry's iterators in
   * routing order, each shard's being its memo-free answer.
   */
  lemma {:induction false} GetIteratorsMatchesReference(node: Node, reg: Registry, entries: seq<IndexShards>, requiresScroll: bool, collectsFetchId: bool)
    requires Valid(reg, node.create)
    ensures GetIterators(node, reg, entries, requiresScroll, collectsFetchId).0
      == RoutingIterators(node, reg.Keys, entries, requiresScroll, collectsFetchId)
    decreases |entries|
  {
    if |entries| > 0 {
      var e := entries[0];
      if Available(node, e.index) {
        CollectIndexShardsMatchesReference(node, reg, e.index, e.shards, requiresScroll, collectsFetchId);
      }
      var headOut := CollectIndex(node, reg, e, requiresScroll, collectsFetchId);
      if headOut.0.Ok? {
        GetIteratorsMatchesReference(node, headOut.1, entries[1..], requiresScroll, collectsFetchId);
      }
    }
  }

  // -----------------------------------------------------------------------
  // createMultiShardScoreDocCollector: the ordered path
  // -----------------------------------------------------------------------

  /**
   * The ordered collectors of one index's shards. A missing partition ends
   * this index's loop, keeping the collectors already built; every other
   * exception ends the whole collection.
   */
  function OrderedIndexCollectors(node: Node, reg: Registry, index: string, shards: seq<int>)
    : (r: (Result<seq<ShardId>, Raised>, Registry))
    ensures r.0.Ok? ==> r.0.value <= ShardIdsOf(index, shards)
    ensures r.0.Ok? && !node.isPartitioned(index) ==> r.0.value == ShardIdsOf(index, shards)
    ensures r.0.Err? ==> r.0.error.Thrown? || r.0.error.UnhandledServer?
    ensures r.1.Keys == reg.Keys
    ensures Valid(reg, node.create) ==> Valid(r.1, node.create)
    decreases |shards|
  {
    if |shards| == 0 then (Ok([]), reg)
    else
      var id := ShardId(index, shards[0]);
      var providerOut := Lookup(reg, id, node.create);
      var provider, reg1 := providerOut.0, providerOut.1;
      var failure := if provider.Err? then Some(provider.error) else node.openOrdered(id);
      assert ShardIdsOf(index, shards) == [id] + ShardIdsOf(index, shards[1..]);
      match failure
      case Some(f) =>
        var d := OrderedShardFailurePolicy(f, node.isPartitioned(index));
        if d == Skip then (Ok([]), reg1) else (Err(Raise(d, f)), reg1)
      case None =>
        var restOut := OrderedIndexCollectors(node, reg1, index, shards[1..]);
        var rest, reg2 := restOut.0, restOut.1;
        if rest.Err? then (Err(rest.error), reg2)
        else (Ok([id] + rest.value), reg2)
  }

  /**
   * The ordered collectors of every routed shard. The index's metadata is
   * dereferenced without a null check, so an index unknown to the metadata
   * fails with a null pointer.
   */
  function OrderedCollectors(node: Node, reg: Registry, entries: seq<IndexShards>)
    : (r: (Result<seq<ShardId>, Raised>, Registry))
    ensures r.0.Ok? ==> AllKnown(node, entries)
    ensures r.0.Ok? ==> |r.0.value| <= |AllShards(entries)|
    ensures r.0.Ok? ==> forall id :: id in r.0.value ==> id in AllShards(entries)
    ensures r.0.Ok? && NoPartitions(node, entries) ==> r.0.value == AllShards(entries)
    ensures r.1.Keys == reg.Keys
    ensures Valid(reg, node.create) ==> Valid(r.1, node.create)
    decreases |entries|
  {
    if |entries| == 0 then (Ok([]), reg)
    else if entries[0].index !in node.metaData then (Err(Thrown(NullPointer)), reg)
    else
      var headOut := OrderedIndexCollectors(node, reg, entries[0].index, entries[0].shards);
      var head, reg1 := headOut.0, headOut.1;
      if head.Err? then (Err(head.error), reg1)
      else
        var restOut := OrderedCollectors(node, reg1, entries[1..]);
        var rest, reg2 := restOut.0, restOut.1;
        if rest.Err? then (Err(rest.error), reg2)
        else
          assert AllKnown(node, entries) && NoPartitions(node, entries) == (
                   !node.isPartitioned(entries[0].index) && NoPartitions(node, entries[1..])) by {
            assert forall i :: 1 <= i < |entries| ==> entries[i] == entries[1..][i - 1];
          }
          ConcatWithin(head.value, ShardIdsOf(entries[0].index, entries[0].shards), rest.value, AllShards(entries[1..]));
          (Ok(head.value + rest.value), reg2)
  }

  /** Every index of the routing is known to the metadata. */
  predicate AllKnown(node: Node, entries: seq<IndexShards>)
  {
    forall i :: 0 <= i < |entries| ==> entries[i].index in node.metaData
  }

  /** A prefix of one list followed by elements of another stays within their concatenation. */
  lemma ConcatWithin(a: seq<ShardId>, a': seq<ShardId>, b: seq<ShardId>, b': seq<ShardId>)
    requires a <= a' && |b| <= |b'| && forall id :: id in b ==> id in b'
    ensures |a + b| <= |a' + b'|
    ensures forall id :: id in a + b ==> id in a' + b'
  {
  }

  /** No index of the routing is a partition. */
  predicate NoPartitions(node: Node, entries: seq<IndexShards>)
  {
    forall i :: 0 <= i < |entries| ==> !node.isPartitioned(entries[i].index)
  }

  /**
   * What opening a shard's ordered collector raises, if anything, read off
   * the node and the set of registered shards alone: the provider lookup's
   * exception, or else the provider's `getOrderedCollector`'s.
   */
  function OrderedFailure(node: Node, registered: set<ShardId>, id: ShardId): (f: Option<Failure>)
    ensures f.None? <==> ProviderOf(registered, id, node.create).Ok? && node.openOrdered(id).None?
    ensures ProviderOf(registered, id, node.create).Err? ==> f == Some(ProviderOf(registered, id, node.create).error)
  {
    match ProviderOf(registered, id, node.create)
    case Err(f) => Some(f)
    case Ok(_) => node.openOrdered(id)
  }

  /** The position of the first shard whose ordered collector cannot be opened, or the number of shards if there is none. */
  function FirstOrderedFailure(node: Node, registered: set<ShardId>, index: string, shards: seq<int>): (k: nat)
    ensures k <= |shards|
    ensures forall i :: 0 <= i < k ==> OrderedFailure(node, registered, ShardId(index, shards[i])).None?
    ensures k < |shards| ==> OrderedFailure(node, registered, ShardId(index, shards[k])).Some?
    decreases |shards|
  {
    if |shards| == 0 then 0
    else if OrderedFailure(node, registered, ShardId(index, shards[0])).Some? then 0
    else
      var k := FirstOrderedFailure(node, registered, index, shards[1..]);
      assert forall i :: 1 <= i < k + 1 ==> shards[i] == shards[1..][i - 1];
      k + 1
  }

  /**
   * The ordered collectors of one index: every shard's, up to the first
   * shard that cannot be opened. There `OrderedShardFailurePolicy` decides:
   * a partition's missing index keeps the collectors built so far and ends
   * the index, and anything else raises.
   */
  function OrderedIndexReference(node: Node, registered: set<ShardId>, index: string, shards: seq<int>)
    : Result<seq<ShardId>, Raised>
  {
    var k := FirstOrderedFailure(node, registered, index, shards);
    if k == |shards| then Ok(ShardIdsOf(index, shards))
    else
      var f := OrderedFailure(node, registered, ShardId(index, shards[k])).value;
      var d := OrderedShardFailurePolicy(f, node.isPartitioned(index));
      if d == Skip then Ok(ShardIdsOf(index, shards[..k])) else Err(Raise(d, f))
  }

  /**
   * The ordered collectors of every routed index in routing order, or the
   * first failure; an index unknown to the metadata fails with a null pointer.
   */
  function OrderedReference(node: Node, registered: set<ShardId>, entries: seq<IndexShards>): Result<seq<ShardId>, Raised>
    decreases |entries|
  {
    if |entries| == 0 then Ok([])
    else if entries[0].index !in node.metaData then Err(Thrown(NullPointer))
    else
      match OrderedIndexReference(node, registered, entries[0].index, entries[0].shards)
      case Err(e) => Err(e)
      case Ok(head) =>
        match OrderedReference(node, registered, entries[1..])
        case Err(e) => Err(e)
        case Ok(rest) => Ok(head + rest)
  }

  /** How an index's ordered collectors unfold over a first shard that opens. */
  lemma OrderedIndexReferenceStep(node: Node, registered: set<ShardId>, index: string, shards: seq<int>)
    requires |shards| > 0 && OrderedFailure(node, registered, ShardId(index, shards[0])).None?
    ensures var rest := OrderedIndexReference(node, registered, index, shards[1..]);
      OrderedIndexReference(node, registered, index, shards) ==
        if rest.Err? then Err(rest.error) else Ok([ShardId(index, shards[0])] + rest.value)
  {
    var k := FirstOrderedFailure(node, registered, index, shards[1..]);
    assert FirstOrderedFailure(node, registered, index, shards) == k + 1;
    if k < |shards| - 1 {
      assert shards[1..][k] == shards[k + 1];
      PrefixShardIdsCons(index, shards, k);
    } else {
      ShardIdsOfCons(index, shards);
    }
  }

  lemma PrefixShardIdsCons(index: string, shards: seq<int>, k: nat)
    requires k < |shards|
    ensures ShardIdsOf(index, shards[..k + 1]) == [ShardId(index, shards[0])] + ShardIdsOf(index, shards[1..][..k])
  {
    assert shards[..k + 1][1..] == shards[1..][..k];
    ShardIdsOfCons(index, shards[..k + 1]);
  }

  /** With a consistent registry, the ordered collectors of one index are exactly its reference collectors. */
  lemma {:induction false} OrderedIndexCollectorsMatchesReference(node: Node, reg: Registry, index: string, shards: seq<int>)
    requires Valid(reg, node.create)
    ensures OrderedIndexCollectors(node, reg, index, shards).0 == OrderedIndexReference(node, reg.Keys, index, shards)
    decreases |shards|
  {
    if |shards| > 0 {
      var id := ShardId(index, shards[0]);
      var providerOut := Lookup(reg, id, node.create);
      if OrderedFailure(node, reg.Keys, id).None? {
        OrderedIndexCollectorsMatchesReference(node, providerOut.1, index, shards[1..]);
        OrderedIndexReferenceStep(node, reg.Keys, index, shards);
      } else {
        assert FirstOrderedFailure(node, reg.Keys, index, shards) == 0;
        assert shards[..0] == [];
      }
    }
  }

  /**
   * With a consistent registry, the ordered path's collectors are exactly the
   * reference: a missing or closed shard is fatal, a partition's missing
   * index ends that index only, and every other failure is wrapped.
   */
  lemma {:induction false} OrderedCollectorsMatchesReference(node: Node, reg: Registry, entries: seq<IndexShards>)
    requires Valid(reg, node.create)
    ensures OrderedCollectors(node, reg, entries).0 == OrderedReference(node, reg.Keys, entries)
    decreases |entries|
  {
    if |entries| > 0 && entries[0].index in node.metaData {
      OrderedIndexCollectorsMatchesReference(node, reg, entries[0].index, entries[0].shards);
      var headOut := OrderedIndexCollectors(node, reg, entries[0].index, entries[0].shards);
      if headOut.0.Ok? {
        OrderedCollectorsMatchesReference(node, headOut.1, entries[1..]);
      }
    }
  }

  /** On the ordered path, a routed shard that is not registered fails the whole collection. */
  lemma OrderedMissingShardIsFatal(node: Node, reg: Registry, index: string, num: int)
    requires Valid(reg, node.create) && index in node.metaData && ShardId(index, num) !in reg
    ensures OrderedCollectors(node, reg, [IndexShards(index, [num])]).0 == Err(Thrown(ShardNotFound(ShardId(index, num))))
  {
  }

  // -----------------------------------------------------------------------
  // getShardsIterator: rows about the shards themselves
  // -----------------------------------------------------------------------

  /** What one shard contributes to the shard rows. */
  datatype ShardOutcome = RowFound(row: Row) | NoRow | Unassigned(num: int)

  /** Rows gathered so far: provider rows, and rows for the unassigned shards. */
  datatype Gathered = Gathered(rows: seq<Row>, unassigned: seq<Row>)

  const NOTHING: Gathered := Gathered([], [])

  /** Rows gathered in one stretch followed by rows gathered in the next. */
  function Append(g: Gathered, h: Gathered): (r: Gathered)
    ensures r.rows == g.rows + h.rows && r.unassigned == g.unassigned + h.unassigned
  {
    Gathered(g.rows + h.rows, g.unassigned + h.unassigned)
  }

  lemma AppendAssociative(g: Gathered, h: Gathered, k: Gathered)
    ensures Append(Append(g, h), k) == Append(g, Append(h, k))
  {
  }

  /** The rows one shard's outcome adds: a found row, nothing, or a row describing the shard as unassigned. */
  function Contribution(index: string, o: ShardOutcome): (r: Gathered)
    ensures |r.rows| + |r.unassigned| <= 1
    ensures o.RowFound? ==> r.rows == [o.row] && r.unassigned == []
    ensures o.Unassigned? ==> r.rows == [] && r.unassigned == [UnassignedRow(index, o.num)]
    ensures o.NoRow? ==> r == NOTHING
  {
    match o
    case RowFound(row) => Gathered([row], [])
    case NoRow => NOTHING
    case Unassigned(num) => Gathered([], [UnassignedRow(index, num)])
  }

  /** A failure of one shard on the shard-row path: unassigned under its own number, or wrapped. */
  function RowFailure(shard: int, f: Failure): (r: Result<ShardOutcome, Raised>)
    ensures r == Ok(Unassigned(shard)) <==> ShardRowFailurePolicy(f) == ReportUnassigned
    ensures r == Err(UnhandledServer(f)) <==> ShardRowFailurePolicy(f) == WrapUnhandled
  {
    if ShardRowFailurePolicy(f) == ReportUnassigned then Ok(Unassigned(shard)) else Err(UnhandledServer(f))
  }

  /**
   * What one shard of an index with an index service yields, read off the
   * node and the set of registered shards alone: an unassigned shard number
   * is reported under its assigned number; an unregistered shard, a factory
   * returning null, or a factory or `getRowForShard` failing with a missing
   * or closed shard is reported unassigned under its own number; a null row
   * yields nothing; a row is kept; any other failure is wrapped.
   */
  function ShardOutcomeOf(node: Node, registered: set<ShardId>, index: string, shard: int): Result<ShardOutcome, Raised>
  {
    var id := ShardId(index, shard);
    if node.isUnassigned(shard) then Ok(Unassigned(node.markAssigned(shard)))
    else if id !in registered then Ok(Unassigned(shard))
    else match node.create(id)
      case Err(f) => RowFailure(shard, f)
      case Ok(None) => Ok(Unassigned(shard))
      case Ok(Some(_)) =>
        match node.rowForShard(id)
        case Err(f) => RowFailure(shard, f)
        case Ok(None) => Ok(NoRow)
        case Ok(Some(cells)) => Ok(RowFound(AssignedRow(cells)))
  }

  /**
   * One shard of an index with an index service: an unassigned shard number
   * is reported unassigned under its assigned number; otherwise the
   * provider's row is taken, a null row is dropped, and a missing or closed
   * shard is reported unassigned.
   */
  function ShardRowOf(node: Node, reg: Registry, index: string, shard: int)
    : (r: (Result<ShardOutcome, Raised>, Registry))
    ensures node.isUnassigned(shard) ==> r == (Ok(Unassigned(node.markAssigned(shard))), reg)
    ensures r.0.Ok? && r.0.value.Unassigned? && !node.isUnassigned(shard) ==> r.0.value.num == shard
    ensures r.0.Ok? && r.0.value.RowFound? ==> r.0.value.row.AssignedRow?
    ensures ShardId(index, shard) !in reg && !node.isUnassigned(shard) ==> r.0 == Ok(Unassigned(shard))
    ensures r.0.Err? ==> r.0.error.UnhandledServer?
    ensures Valid(reg, node.create) ==> r.0 == ShardOutcomeOf(node, reg.Keys, index, shard)
    ensures r.1.Keys == reg.Keys
    ensures Valid(reg, node.create) ==> Valid(r.1, node.create)
  {
    if node.isUnassigned(shard) then (Ok(Unassigned(node.markAssigned(shard))), reg)
    else
      var id := ShardId(index, shard);
      var providerOut := Lookup(reg, id, node.create);
      var provider, reg1 := providerOut.0, providerOut.1;
      var outcome: Result<Option<seq<int>>, Failure> := if provider.Err? then Err(provider.error) else node.rowForShard(id);
      match outcome
      case Ok(None) => (Ok(NoRow), reg1)
      case Ok(Some(cells)) => (Ok(RowFound(AssignedRow(cells))), reg1)
      case Err(f) => (RowFailure(shard, f), reg1)
  }

  /** Every row of `rows` describes an unassigned shard of an index the metadata knows. */
  predicate UnassignedOfKnown(node: Node, rows: seq<Row>)
  {
    forall i :: 0 <= i < |rows| ==> rows[i].UnassignedRow? && rows[i].index in node.metaData
  }

  /** Some listed shard of the index fails on the shard-row path. */
  predicate SomeShardFails(node: Node, registered: set<ShardId>, index: string, shards: seq<int>)
  {
    exists i :: 0 <= i < |shards| && ShardOutcomeOf(node, registered, index, shards[i]).Err?
  }

  /** The rows the shards of a served index contribute, in shard order (a failing shard contributes nothing). */
  function ServedContribution(node: Node, registered: set<ShardId>, index: string, shards: seq<int>): Gathered
    decreases |shards|
  {
    if |shards| == 0 then NOTHING
    else
      var o := ShardOutcomeOf(node, registered, index, shards[0]);
      Append(if o.Ok? then Contribution(index, o.value) else NOTHING,
             ServedContribution(node, registered, index, shards[1..]))
  }

  /**
   * The rows of one index with an index service, in shard order. With a
   * consistent registry this fails exactly when one of its shards fails, and
   * otherwise adds each shard's outcome in turn.
   */
  function IndexServedRows(node: Node, reg: Registry, index: string, shards: seq<int>, g: Gathered)
    : (r: (Result<Gathered, Raised>, Registry))
    requires index in node.metaData && UnassignedOfKnown(node, g.unassigned)
    ensures r.0.Ok? ==> |r.0.value.rows| + |r.0.value.unassigned| <= |g.rows| + |g.unassigned| + |shards|
    ensures r.0.Ok? ==> g.rows <= r.0.value.rows && UnassignedOfKnown(node, r.0.value.unassigned)
    ensures r.0.Err? ==> r.0.error.UnhandledServer?
    ensures Valid(reg, node.create) ==> (r.0.Err? <==> SomeShardFails(node, reg.Keys, index, shards))
    ensures Valid(reg, node.create) && r.0.Ok? ==>
      r.0.value == Append(g, ServedContribution(node, reg.Keys, index, shards))
    ensures r.1.Keys == reg.Keys
    ensures Valid(reg, node.create) ==> Valid(r.1, node.create)
    decreases |shards|
  {
    if |shards| == 0 then (Ok(g), reg)
    else
      var oOut := ShardRowOf(node, reg, index, shards[0]);
      var o, reg1 := oOut.0, oOut.1;
      if o.Err? then (Err(o.error), reg1)
      else
        var c := Contribution(index, o.value);
        var restOut := IndexServedRows(node, reg1, index, shards[1..], Append(g, c));
        ServedStep(node, reg, index, shards);
        AppendAssociative(g, c, ServedContribution(node, reg.Keys, index, shards[1..]));
        restOut
  }

  /** How the served contribution and the failure test unfold over the first shard. */
  lemma ServedStep(node: Node, reg: Registry, index: string, shards: seq<int>)
    requires |shards| > 0
    ensures SomeShardFails(node, reg.Keys, index, shards) <==>
      ShardOutcomeOf(node, reg.Keys, index, shards[0]).Err? || SomeShardFails(node, reg.Keys, index, shards[1..])
  {
  }

  /** An index without an index service: every shard is reported unassigned, under its assigned number. */
  function UnservedRows(node: Node, index: string, shards: seq<int>): (rows: seq<Row>)
    ensures |rows| == |shards|
    ensures forall i :: 0 <= i < |shards| ==> rows[i] == UnassignedRow(index, node.markAssigned(shards[i]))
  {
    seq(|shards|, i requires 0 <= i < |shards| => UnassignedRow(index, node.markAssigned(shards[i])))
  }

  /**
   * What one routing entry contributes: nothing for an index unknown to the
   * metadata, every shard unassigned for an index without an index service,
   * and its shards' outcomes otherwise.
   */
  function EntryContribution(node: Node, registered: set<ShardId>, e: IndexShards): Gathered
  {
    if e.index !in node.metaData then NOTHING
    else if e.index !in node.indexServices then Gathered([], UnservedRows(node, e.index, e.shards))
    else ServedContribution(node, registered, e.index, e.shards)
  }

  /** A routing entry whose index is served here and one of whose shards fails. */
  predicate EntryFails(node: Node, registered: set<ShardId>, e: IndexShards)
  {
    e.index in node.metaData && e.index in node.indexServices && SomeShardFails(node, registered, e.index, e.shards)
  }

  /** The entries' contributions, in routing order. */
  function RoutingContribution(node: Node, registered: set<ShardId>, entries: seq<IndexShards>): Gathered
    decreases |entries|
  {
    if |entries| == 0 then NOTHING
    else Append(EntryContribution(node, registered, entries[0]), RoutingContribution(node, registered, entries[1..]))
  }

  predicate SomeEntryFails(node: Node, registered: set<ShardId>, entries: seq<IndexShards>)
  {
    exists i :: 0 <= i < |entries| && EntryFails(node, registered, entries[i])
  }

  /** The rows of every routed index, in routing order; an index unknown to the metadata is skipped. */
  function GatherShardRows(node: Node, reg: Registry, entries: seq<IndexShards>, g: Gathered)
    : (r: (Result<Gathered, Raised>, Registry))
    requires UnassignedOfKnown(node, g.unassigned)
    ensures r.0.Ok? ==> |r.0.value.rows| + |r.0.value.unassigned| <= |g.rows| + |g.unassigned| + KnownShardCount(node, entries)
    ensures r.0.Ok? ==> g.rows <= r.0.value.rows && UnassignedOfKnown(node, r.0.value.unassigned)
    ensures r.0.Err? ==> r.0.error.UnhandledServer?
    ensures r.1.Keys == reg.Keys
    ensures Valid(reg, node.create) ==> Valid(r.1, node.create)
    decreases |entries|
  {
    if |entries| == 0 then (Ok(g), reg)
    else
      var e := entries[0];
      if e.index !in node.metaData then GatherShardRows(node, reg, entries[1..], g)
      else if e.index !in node.indexServices then
        GatherShardRows(node, reg, entries[1..], Append(g, Gathered([], UnservedRows(node, e.index, e.shards))))
      else
        var servedOut := IndexServedRows(node, reg, e.index, e.shards, g);
        var served, reg1 := servedOut.0, servedOut.1;
        if served.Err? then (Err(served.error), reg1)
        else GatherShardRows(node, reg1, entries[1..], served.value)
  }

  /**
   * With a consistent registry, gathering the shard rows fails exactly when a
   * shard of a served index fails, and otherwise adds each routing entry's
   * contribution in routing order.
   */
  lemma {:induction false} GatherShardRowsMatchesContribution(node: Node, reg: Registry, entries: seq<IndexShards>, g: Gathered)
    requires Valid(reg, node.create) && UnassignedOfKnown(node, g.unassigned)
    ensures var r := GatherShardRows(node, reg, entries, g).0;
      && (r.Err? <==> SomeEntryFails(node, reg.Keys, entries))
      && (r.Ok? ==> r.value == Append(g, RoutingContribution(node, reg.Keys, entries)))
    decreases |entries|
  {
    if |entries| > 0 {
      var e := entries[0];
      var rest := RoutingContribution(node, reg.Keys, entries[1..]);
      GatherStep(node, reg.Keys, entries);
      assert RoutingContribution(node, reg.Keys, entries) == Append(EntryContribution(node, reg.Keys, e), rest);
      if e.index !in node.metaData {
        assert GatherShardRows(node, reg, entries, g) == GatherShardRows(node, reg, entries[1..], g);
        assert Append(NOTHING, rest) == rest;
        GatherShardRowsMatchesContribution(node, reg, entries[1..], g);
      } else if e.index !in node.indexServices {
        var c := Gathered([], UnservedRows(node, e.index, e.shards));
        assert GatherShardRows(node, reg, entries, g) == GatherShardRows(node, reg, entries[1..], Append(g, c));
        GatherShardRowsMatchesContribution(node, reg, entries[1..], Append(g, c));
        AppendAssociative(g, c, rest);
      } else {
        var servedOut := IndexServedRows(node, reg, e.index, e.shards, g);
        if servedOut.0.Ok? {
          assert GatherShardRows(node, reg, entries, g) == GatherShardRows(node, servedOut.1, entries[1..], servedOut.0.value);
          GatherShardRowsMatchesContribution(node, servedOut.1, entries[1..], servedOut.0.value);
          AppendAssociative(g, EntryContribution(node, reg.Keys, e), rest);
        }
      }
    }
  }

  /** How the failure test over the entries unfolds over the first entry. */
  lemma GatherStep(node: Node, registered: set<ShardId>, entries: seq<IndexShards>)
    requires |entries| > 0
    ensures SomeEntryFails(node, registered, entries) <==>
      EntryFails(node, registered, entries[0]) || SomeEntryFails(node, registered, entries[1..])
  {
  }

  /**
   * `getShardsIterator`: the provider rows followed by the unassigned-shard
   * rows, sorted by the reversed row ordering when the phase has an ORDER BY.
   * The routing's entry for the local node is dereferenced without a null
   * check.
   */
  function ShardRows(node: Node, reg: Registry, phase: Phase): (r: (Result<seq<Row>, Raised>, Registry))
    ensures phase.localRouting.None? ==> r.0 == Err(Thrown(NullPointer))
    ensures phase.localRouting.Some? && r.0.Ok? ==>
      var g := GatherShardRows(node, reg, phase.localRouting.value, NOTHING).0;
      && g.Ok?
      && multiset(r.0.value) == multiset(g.value.rows + g.value.unassigned)
      && (!phase.hasOrderBy ==> r.0.value == g.value.rows + g.value.unassigned)
    ensures phase.localRouting.Some? && r.0.Ok? ==> |r.0.value| <= KnownShardCount(node, phase.localRouting.value)
    ensures r.0.Ok? && phase.hasOrderBy && RowOrdering.SignConsistent(node.rowOrder) ==>
      RowOrdering.SortedReversed(r.0.value, node.rowOrder)
    ensures r.1.Keys == reg.Keys
    ensures Valid(reg, node.create) ==> Valid(r.1, node.create)
  {
    match phase.localRouting
    case None => (Err(Thrown(NullPointer)), reg)
    case Some(entries) =>
      var gOut := GatherShardRows(node, reg, entries, NOTHING);
      var g, reg1 := gOut.0, gOut.1;
      if g.Err? then (Err(g.error), reg1)
      else
        var rows := g.value.rows + g.value.unassigned;
        (Ok(if phase.hasOrderBy then RowOrdering.SortReversed(rows, node.rowOrder) else rows), reg1)
  }

  /**
   * With a consistent registry, the shard rows fail exactly when a shard of a
   * served index fails; otherwise they are the routing's provider rows
   * followed by its unassigned-shard rows, reordered only under an ORDER BY.
   */
  lemma ShardRowsMatchContribution(node: Node, reg: Registry, phase: Phase)
    requires Valid(reg, node.create) && phase.localRouting.Some?
    ensures var r := ShardRows(node, reg, phase).0;
      var c := RoutingContribution(node, reg.Keys, phase.localRouting.value);
      && (r.Err? <==> SomeEntryFails(node, reg.Keys, phase.localRouting.value))
      && (r.Ok? ==> multiset(r.value) == multiset(c.rows + c.unassigned))
      && (r.Ok? && !phase.hasOrderBy ==> r.value == c.rows + c.unassigned)
  {
    GatherShardRowsMatchesContribution(node, reg, phase.localRouting.value, NOTHING);
    var c := RoutingContribution(node, reg.Keys, phase.localRouting.value);
    assert Append(NOTHING, c) == c;
  }

  // -----------------------------------------------------------------------
  // getIterator
  // -----------------------------------------------------------------------

  /** Combines the per-shard iterators of the unordered path. */
  function Combine(its: seq<ShardIterator>, hasShardProjections: bool): (p: Plan)
    ensures |its| == 0 ==> p == EmptyIterator
    ensures |its| == 1 ==> p == SingleIterator(its[0])
    ensures |its| >= 2 ==> p == if hasShardProjections then ConcurrentComposite(its) else SequentialComposite(its)
  {
    if |its| == 0 then EmptyIterator
    else if |its| == 1 then SingleIterator(its[0])
    else if hasShardProjections then ConcurrentComposite(its)
    else SequentialComposite(its)
  }

  function KindOf(p: Plan): IteratorKind
  {
    match p
    case InMemoryRows(_) => InMemoryKind
    case OrderedMerge(_, _) => OrderedMergeKind
    case EmptyIterator => EmptyKind
    case SingleIterator(_) => SingleKind
    case ConcurrentComposite(_) => ConcurrentKind
    case SequentialComposite(_) => SequentialKind
  }

  /** The shard iterators a plan of the unordered path combines. */
  function Sources(p: Plan): seq<ShardIterator>
  {
    match p
    case SingleIterator(it) => [it]
    case ConcurrentComposite(its) => its
    case SequentialComposite(its) => its
    case _ => []
  }

  /** The shard-granularity path: the shard rows, held in memory. */
  function ShardPath(node: Node, reg: Registry, phase: Phase): (r: (Result<Plan, Raised>, Registry))
    ensures r.0.Ok? ==> r.0.value.InMemoryRows?
    ensures r.0.Ok? && phase.localRouting.Some? ==> |r.0.value.rows| <= KnownShardCount(node, phase.localRouting.value)
    ensures r.1.Keys == reg.Keys
    ensures Valid(reg, node.create) ==> Valid(r.1, node.create)
  {
    var rowsOut := ShardRows(node, reg, phase);
    var rows, reg1 := rowsOut.0, rowsOut.1;
    if rows.Err? then (Err(rows.error), reg1) else (Ok(InMemoryRows(rows.value)), reg1)
  }

  /** The ordered path: one ordered merge over the routed shards' ordered collectors. */
  function OrderedPath(node: Node, reg: Registry, phase: Phase, moveToStart: bool): (r: (Result<Plan, Raised>, Registry))
    ensures phase.localRouting.None? ==> r.0 == Err(Thrown(NullPointer))
    ensures r.0.Ok? ==> r.0.value.OrderedMerge? && r.0.value.supportMoveToStart == moveToStart
    ensures r.0.Ok? && phase.localRouting.Some? ==>
      forall id :: id in r.0.value.collectors ==> id in AllShards(phase.localRouting.value)
    ensures r.1.Keys == reg.Keys
    ensures Valid(reg, node.create) ==> Valid(r.1, node.create)
  {
    match phase.localRouting
    case None => (Err(Thrown(NullPointer)), reg)
    case Some(entries) =>
      var idsOut := OrderedCollectors(node, reg, entries);
      var ids, reg1 := idsOut.0, idsOut.1;
      if ids.Err? then (Err(ids.error), reg1) else (Ok(OrderedMerge(ids.value, moveToStart)), reg1)
  }

  /** The unordered path: the per-shard iterators, combined. */
  function UnorderedPath(node: Node, reg: Registry, phase: Phase, moveToStart: bool): (r: (Result<Plan, Raised>, Registry))
    ensures phase.localRouting.None? ==> r.0 == Ok(EmptyIterator)
    ensures r.0.Ok? ==> r.0.value == Combine(Sources(r.0.value), phase.hasShardProjections)
    ensures r.0.Ok? && phase.maxRowGranularity != Shard && !(phase.maxRowGranularity == Doc && phase.hasOrderBy) ==>
      KindOf(r.0.value) == ChooseIterator(phase.maxRowGranularity, phase.hasOrderBy, |Sources(r.0.value)|, phase.hasShardProjections)
    ensures r.0.Ok? && phase.localRouting.Some? ==>
      ShardsOf(Sources(r.0.value)) == ExpectedShards(node, phase.localRouting.value)
    ensures r.0.Ok? ==> LocalScrollAs(Sources(r.0.value), moveToStart)
    ensures r.0.Ok? && phase.collectsFetchId ==> AllLocal(Sources(r.0.value))
    ensures r.1.Keys == reg.Keys
    ensures Valid(reg, node.create) ==> Valid(r.1, node.create)
  {
    match phase.localRouting
    case None => (Ok(Combine([], phase.hasShardProjections)), reg)
    case Some(entries) =>
      var itsOut := GetIterators(node, reg, entries, moveToStart, phase.collectsFetchId);
      var its, reg1 := itsOut.0, itsOut.1;
      if its.Err? then (Err(its.error), reg1)
      else
        CombineKeepsSources(its.value, phase.hasShardProjections);
        (Ok(Combine(its.value, phase.hasShardProjections)), reg1)
  }

  /**
   * With a consistent registry and a routing entry, the unordered path
   * fails exactly as the reference does, and otherwise combines the
   * reference iterators.
   */
  lemma UnorderedPathMatchesReference(node: Node, reg: Registry, phase: Phase, moveToStart: bool)
    requires Valid(reg, node.create) && phase.localRouting.Some?
    ensures var r := UnorderedPath(node, reg, phase, moveToStart).0;
      var ref := RoutingIterators(node, reg.Keys, phase.localRouting.value, moveToStart, phase.collectsFetchId);
      && (r.Err? <==> ref.Err?)
      && (r.Err? ==> r.error == ref.error)
      && (r.Ok? ==> r.value == Combine(ref.value, phase.hasShardProjections))
  {
    GetIteratorsMatchesReference(node, reg, phase.localRouting.value, moveToStart, phase.collectsFetchId);
  }

  /**
   * With a consistent registry and a routing entry, the ordered path fails
   * exactly as the reference does, and otherwise merges the reference
   * collectors.
   */
  lemma OrderedPathMatchesReference(node: Node, reg: Registry, phase: Phase, moveToStart: bool)
    requires Valid(reg, node.create) && phase.localRouting.Some?
    ensures var r := OrderedPath(node, reg, phase, moveToStart).0;
      var ref := OrderedReference(node, reg.Keys, phase.localRouting.value);
      && (r.Err? <==> ref.Err?)
      && (r.Err? ==> r.error == ref.error)
      && (r.Ok? ==> r.value == OrderedMerge(ref.value, moveToStart))
  {
    OrderedCollectorsMatchesReference(node, reg, phase.localRouting.value);
  }

  lemma CombineKeepsSources(its: seq<ShardIterator>, hasShardProjections: bool)
    ensures Sources(Combine(its, hasShardProjections)) == its
    ensures forall g: Granularity, hasOrderBy: bool {:trigger ChooseIterator(g, hasOrderBy, |its|, hasShardProjections)} ::
      g != Shard && !(g == Doc && hasOrderBy) ==>
        KindOf(Combine(its, hasShardProjections)) == ChooseIterator(g, hasOrderBy, |its|, hasShardProjections)
  {
  }

  /**
   * `getIterator`: shard granularity yields the shard rows in memory; doc
   * granularity with an ORDER BY yields the ordered merge of the shards'
   * ordered collectors; otherwise the per-shard iterators are combined.
   */
  function GetIterator(node: Node, reg: Registry, phase: Phase, supportMoveToStart: bool)
    : (r: (Result<Plan, Raised>, Registry))
    ensures r.0.Ok? ==>
      KindOf(r.0.value) == ChooseIterator(phase.maxRowGranularity, phase.hasOrderBy, |Sources(r.0.value)|, phase.hasShardProjections)
    ensures r.0.Ok? && r.0.value.OrderedMerge? ==>
      r.0.value.supportMoveToStart == RequireMoveToStart(supportMoveToStart, phase.providesIndependentScroll)
    ensures r.0.Ok? && r.0.value.InMemoryRows? && phase.localRouting.Some? ==>
      |r.0.value.rows| <= KnownShardCount(node, phase.localRouting.value)
    ensures r.0.Ok? && r.0.value.OrderedMerge? && phase.localRouting.Some? ==>
      forall id :: id in r.0.value.collectors ==> id in AllShards(phase.localRouting.value)
    ensures phase.maxRowGranularity != Shard && !(phase.maxRowGranularity == Doc && phase.hasOrderBy) ==>
      && (phase.localRouting.None? ==> r.0 == Ok(EmptyIterator))
      && (phase.localRouting.Some? && r.0.Ok? ==>
            ShardsOf(Sources(r.0.value)) == ExpectedShards(node, phase.localRouting.value))
      && (r.0.Ok? ==> LocalScrollAs(Sources(r.0.value), RequireMoveToStart(supportMoveToStart, phase.providesIndependentScroll)))
      && (r.0.Ok? && phase.collectsFetchId ==> AllLocal(Sources(r.0.value)))
    ensures r.1.Keys == reg.Keys
    ensures Valid(reg, node.create) ==> Valid(r.1, node.create)
  {
    var moveToStart := RequireMoveToStart(supportMoveToStart, phase.providesIndependentScroll);
    if phase.maxRowGranularity == Shard then ShardPath(node, reg, phase)
    else if phase.maxRowGranularity == Doc && phase.hasOrderBy then OrderedPath(node, reg, phase, moveToStart)
    else UnorderedPath(node, reg, phase, moveToStart)
  }

  /**
   * With a consistent registry and a routing entry, the shard-granularity
   * path fails exactly when a shard of a served index fails; otherwise its
   * in-memory rows are the routing's provider rows followed by its
   * unassigned-shard rows, in that order without an ORDER BY and sorted by
   * the reversed row ordering with one.
   */
  lemma ShardPathMatchesContribution(node: Node, reg: Registry, phase: Phase)
    requires Valid(reg, node.create) && phase.localRouting.Some?
    ensures var r := ShardPath(node, reg, phase).0;
      var c := RoutingContribution(node, reg.Keys, phase.localRouting.value);
      && (r.Err? <==> SomeEntryFails(node, reg.Keys, phase.localRouting.value))
      && (r.Ok? ==> r.value.InMemoryRows? && multiset(r.value.rows) == multiset(c.rows + c.unassigned))
      && (r.Ok? && !phase.hasOrderBy ==> r.value.rows == c.rows + c.unassigned)
      && (r.Ok? && phase.hasOrderBy && RowOrdering.SignConsistent(node.rowOrder) ==>
            RowOrdering.SortedReversed(r.value.rows, node.rowOrder))
  {
    ShardRowsMatchContribution(node, reg, phase);
  }

  /**
   * With a consistent registry and a routing entry, `getIterator` answers
   * what the reference of the path it selects answers: the shard rows for
   * shard granularity, the merge of the reference's ordered collectors for
   * doc granularity with an ORDER BY, and the combination of the reference's
   * per-shard iterators otherwise, each failing exactly as its reference does.
   */
  lemma GetIteratorMatchesReference(node: Node, reg: Registry, phase: Phase, supportMoveToStart: bool)
    requires Valid(reg, node.create) && phase.localRouting.Some?
    ensures var r := GetIterator(node, reg, phase, supportMoveToStart).0;
      var entries := phase.localRouting.value;
      var moveToStart := RequireMoveToStart(supportMoveToStart, phase.providesIndependentScroll);
      && (phase.maxRowGranularity == Shard ==>
            && (r.Err? <==> SomeEntryFails(node, reg.Keys, entries))
            && (r.Ok? ==> r.value.InMemoryRows? &&
                  multiset(r.value.rows) == multiset(RoutingContribution(node, reg.Keys, entries).rows
                                                     + RoutingContribution(node, reg.Keys, entries).unassigned)))
      && (phase.maxRowGranularity == Doc && phase.hasOrderBy ==>
            var ref := OrderedReference(node, reg.Keys, entries);
            r == if ref.Err? then Err(ref.error) else Ok(OrderedMerge(ref.value, moveToStart)))
      && (phase.maxRowGranularity != Shard && !(phase.maxRowGranularity == Doc && phase.hasOrderBy) ==>
            var ref := RoutingIterators(node, reg.Keys, entries, moveToStart, phase.collectsFetchId);
            r == if ref.Err? then Err(ref.error) else Ok(Combine(ref.value, phase.hasShardProjections)))
  {
    var moveToStart := RequireMoveToStart(supportMoveToStart, phase.providesIndependentScroll);
    if phase.maxRowGranularity == Shard {
      ShardPathMatchesContribution(node, reg, phase);
    } else if phase.maxRowGranularity == Doc && phase.hasOrderBy {
      OrderedPathMatchesReference(node, reg, phase, moveToStart);
    } else {
      UnorderedPathMatchesReference(node, reg, phase, moveToStart);
    }
  }
}
