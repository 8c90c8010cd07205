/**
 * The node-local shard registry of the shard collect source: a map from
 * shard id to a memoizing supplier of the shard's collector provider,
 * maintained by the index lifecycle callbacks and read by the collect paths.
 */
module ShardRegistry {
  import opened Wrappers

  /** A shard: the name of its index and its number within the index. */
  datatype ShardId = ShardId(index: string, num: int)

  /** A shard's collector provider (opaque: identified by the shard it serves). */
  datatype Provider = Provider(shard: ShardId)

  /**
   * The throwables the collect source tells apart. A provider lookup raises
   * `ShardNotFound` itself and passes on whatever the provider factory
   * throws; the others come from the providers and the index services.
   * `OtherException` is any other checked or runtime exception, and
   * `JavaError` a throwable that is not an exception at all.
   */
  datatype Failure =
    | ShardNotFound(shard: ShardId)
    | IllegalShardState(shard: ShardId)
    | IndexNotFound(index: string)
    | Interrupted
    | NullPointer
    | OtherException(code: int)
    | JavaError(code: int)

  /**
   * The provider factory. It may return null (`Ok(None)`) or throw
   * (`Err(f)`); it is called lazily, on the first lookup after registration,
   * never while registering.
   */
  type Factory = ShardId -> Result<Option<Provider>, Failure>

  /**
   * The state of a memoizing supplier: not yet forced, or holding what the
   * factory returned (null included). A factory that throws leaves the
   * supplier unforced, so the next lookup runs the factory again.
   */
  datatype Memo = Unforced | Forced(provider: Option<Provider>)

  /**
   * A registry entry: the supplier's memo and `builds`, the number of
   * factory answers the supplier has stored for this registration
   * (bookkeeping for the proofs).
   */
  datatype Entry = Entry(memo: Memo, builds: nat)

  type Registry = map<ShardId, Entry>

  /**
   * Every memo is consistent with the factory and every registration has run
   * the factory at most once: exactly once if the memo is forced, never otherwise.
   */
  ghost predicate Valid(reg: Registry, create: Factory)
  {
    forall id :: id in reg ==>
      match reg[id].memo
      case Unforced => reg[id].builds == 0
      case Forced(p) => reg[id].builds == 1 && create(id) == Ok(p)
  }

  /**
   * What `getCollectorProviderSafe` answers for a shard, read off the set of
   * registered shards and the factory alone, without any memo: unregistered
   * or null means `ShardNotFound`, and a throwing factory's exception passes.
   */
  function ProviderOf(registered: set<ShardId>, id: ShardId, create: Factory): (r: Result<Provider, Failure>)
    ensures r.Ok? <==> id in registered && create(id).Ok? && create(id).value.Some?
    ensures r.Ok? ==> Ok(Some(r.value)) == create(id)
    ensures id !in registered ==> r == Err(ShardNotFound(id))
    ensures id in registered && create(id).Err? ==> r == Err(create(id).error)
    ensures id in registered && create(id) == Ok(None) ==> r == Err(ShardNotFound(id))
  {
    if id !in registered then Err(ShardNotFound(id))
    else match create(id)
      case Err(f) => Err(f)
      case Ok(None) => Err(ShardNotFound(id))
      case Ok(Some(p)) => Ok(p)
  }

  /**
   * `afterIndexShardCreated`: the shard must not be registered yet; it gets a
   * fresh, not yet forced supplier. The factory does not run.
   */
  function OnShardCreated(reg: Registry, id: ShardId): (r: Registry)
    requires id !in reg
    ensures r.Keys == reg.Keys + {id}
    ensures r[id].memo.Unforced? && r[id].builds == 0
    ensures forall k :: k in reg ==> r[k] == reg[k]
    ensures forall create: Factory :: Valid(reg, create) ==> Valid(r, create)
  {
    reg[id := Entry(Unforced, 0)]
  }

  /** `beforeIndexShardClosed`: the shard must be registered, and is removed. */
  function OnShardClosed(reg: Registry, id: ShardId): (r: Registry)
    requires id in reg
    ensures r.Keys == reg.Keys - {id}
    ensures |r| == |reg| - 1
    ensures forall k :: k in r ==> r[k] == reg[k]
    ensures forall create: Factory :: Valid(reg, create) ==> Valid(r, create)
  {
    assert reg.Keys == (reg - {id}).Keys + {id};
    reg - {id}
  }

  /**
   * `beforeIndexShardDeleted`: removes the shard if it is registered and
   * otherwise leaves the registry as it is. The flag tells whether an entry
   * was removed.
   */
  function OnShardDeleted(reg: Registry, id: ShardId): (r: (Registry, bool))
    ensures r.1 <==> id in reg
    ensures r.0.Keys == reg.Keys - {id}
    ensures id !in reg ==> r.0 == reg
    ensures forall k :: k in r.0 ==> r.0[k] == reg[k]
    ensures forall create: Factory :: Valid(reg, create) ==> Valid(r.0, create)
  {
    if id in reg then (reg - {id}, true) else (reg, false)
  }

  /**
   * `getCollectorProviderSafe`: an unregistered shard and a supplier yielding
   * null are both `ShardNotFound`. Looking a shard up forces its supplier;
   * a forced supplier is not forced again. A factory that throws passes its
   * exception on and leaves the supplier unforced. No entry is added or
   * removed.
   */
  function Lookup(reg: Registry, id: ShardId, create: Factory): (r: (Result<Provider, Failure>, Registry))
    ensures r.0.Err? && r.0.error != ShardNotFound(id) ==>
      id in reg && reg[id].memo.Unforced? && create(id) == Err(r.0.error) && r.1 == reg
    ensures id !in reg ==> r == (Err(ShardNotFound(id)), reg)
    ensures r.1.Keys == reg.Keys
    ensures forall k :: k in reg && k != id ==> r.1[k] == reg[k]
    ensures id in reg ==> (r.1[id].memo.Forced? <==> reg[id].memo.Forced? || create(id).Ok?)
    ensures id in reg && reg[id].memo.Forced? ==> r.1 == reg
    ensures r.0.Ok? ==> id in reg && r.1[id].memo == Forced(Some(r.0.value))
    ensures Valid(reg, create) ==> Valid(r.1, create)
    ensures Valid(reg, create) ==> r.0 == ProviderOf(reg.Keys, id, create)
  {
    if id !in reg then (Err(ShardNotFound(id)), reg)
    else
      var e := reg[id];
      match e.memo
      case Forced(p) =>
        if p.None? then (Err(ShardNotFound(id)), reg) else (Ok(p.value), reg)
      case Unforced =>
        match create(id)
        case Err(f) => (Err(f), reg)
        case Ok(p) =>
          var reg' := reg[id := Entry(Forced(p), e.builds + 1)];
          if p.None? then (Err(ShardNotFound(id)), reg') else (Ok(p.value), reg')
  }

  /** The events that drive the registry: the three lifecycle callbacks and provider lookups. */
  datatype Event =
    | ShardCreated(id: ShardId)
    | ShardClosed(id: ShardId)
    | ShardDeleted(id: ShardId)
    | ProviderLookup(id: ShardId)

  /**
   * Replays a history of events. `None` when a callback's assertion fails:
   * a shard created twice, or closed while not registered.
   */
  function Replay(reg: Registry, events: seq<Event>, create: Factory): Option<Registry>
    decreases |events|
  {
    if |events| == 0 then Some(reg)
    else
      var next := match events[0]
        case ShardCreated(id) => if id in reg then None else Some(OnShardCreated(reg, id))
        case ShardClosed(id) => if id !in reg then None else Some(OnShardClosed(reg, id))
        case ShardDeleted(id) => Some(OnShardDeleted(reg, id).0)
        case ProviderLookup(id) => Some(Lookup(reg, id, create).1);
      if next.None? then None else Replay(next.value, events[1..], create)
  }

  /**
   * Over any history of callbacks and lookups, every registration has built
   * its provider at most once, and the provider it holds is the factory's.
   */
  lemma {:induction false} ReplayBuildsAtMostOnce(reg: Registry, events: seq<Event>, create: Factory)
    requires Valid(reg, create)
    requires Replay(reg, events, create).Some?
    ensures Valid(Replay(reg, events, create).value, create)
    ensures forall id :: id in Replay(reg, events, create).value ==>
      Replay(reg, events, create).value[id].builds <= 1
    decreases |events|
  {
    if |events| > 0 {
      var next := match events[0]
        case ShardCreated(id) => OnShardCreated(reg, id)
        case ShardClosed(id) => OnShardClosed(reg, id)
        case ShardDeleted(id) => OnShardDeleted(reg, id).0
        case ProviderLookup(id) => Lookup(reg, id, create).1;
      assert Replay(reg, events, create) == Replay(next, events[1..], create);
      ReplayBuildsAtMostOnce(next, events[1..], create);
    }
  }

  /** Registering a shard and closing it again restores the registry. */
  lemma CreateThenCloseRestores(reg: Registry, id: ShardId)
    requires id !in reg
    ensures OnShardClosed(OnShardCreated(reg, id), id) == reg
  {
  }

  /** Deleting twice is deleting once. */
  lemma DeleteIsIdempotent(reg: Registry, id: ShardId)
    ensures OnShardDeleted(OnShardDeleted(reg, id).0, id).0 == OnShardDeleted(reg, id).0
  {
  }

  /**
   * A second lookup of the same shard changes nothing and answers the same;
   * this holds for a throwing factory too, which is run again and throws again.
   */
  lemma LookupIsMemoized(reg: Registry, id: ShardId, create: Factory)
    ensures Lookup(Lookup(reg, id, create).1, id, create) == Lookup(reg, id, create)
  {
  }
}
