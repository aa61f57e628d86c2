/**
 The subgraph runner: what one block stream event does to the store, the entity cache and the hosts.
 Requests whose outcome the runner does not control are fields of `Attempt` and `Environment`.
 */
module Runner {
  import opened Wrappers
  import opened Chain
  import opened Entities
  import H = Hosts

  // ------------------------------------------------------------------ the store's contract

  /** One committed block and the content it replaced. */
  datatype Commit = Commit(block: Block, before: Content)

  /** `ptr` is `Origin` until a block or a start block is stored; `sources` are the dynamic data sources. */
  datatype Store = Store(ptr: Block, log: seq<Commit>, content: Content, sources: seq<H.Host>)

  /** Stores a block atomically; it must lie above the pointer. */
  function Transact(s: Store, b: Block, immutable: set<string>, mods: seq<Modification>, sources: seq<H.Host>): Option<Store> {
    var c := ApplyAll(s.content, immutable, mods);
    if Number(b) <= Number(s.ptr) || c.None? then None
    else Some(Store(b, s.log + [Commit(b, s.content)], c.value, s.sources + sources))
  }

  /** Takes back every committed block with a number above `n`, newest first. */
  function Undo(s: Store, n: int): Store
    decreases |s.log|
  {
    if s.log == [] || Number(s.log[|s.log| - 1].block) <= n then s
    else Undo(s.(log := s.log[..|s.log| - 1], content := s.log[|s.log| - 1].before), n)
  }

  function RevertStore(s: Store, to: Block): Store {
    Undo(s, Number(to)).(ptr := to, sources := H.CreatedBefore(s.sources, Number(to) + 1))
  }

  /** No null attribute is stored, neither now nor in what a revert brings back. */
  ghost predicate StoreNullFree(s: Store) {
    NullFree(s.content) && forall i :: 0 <= i < |s.log| ==> NullFree(s.log[i].before)
  }

  lemma {:induction false} UndoNullFree(s: Store, n: int)
    requires StoreNullFree(s)
    ensures StoreNullFree(Undo(s, n))
    decreases |s.log|
  {
    if s.log != [] && Number(s.log[|s.log| - 1].block) > n {
      UndoNullFree(s.(log := s.log[..|s.log| - 1], content := s.log[|s.log| - 1].before), n);
    }
  }

  // ------------------------------------------------------------------ handlers

  /** `complete` says whether the data is valid by itself; if not, the entity is looked up. */
  datatype HandlerOp =
    | GetEntity(key: EntityKey)
    | SetEntity(key: EntityKey, data: Entity, complete: bool)
    | DeleteEntity(key: EntityKey)
  {
    function Changes(): set<EntityKey> {
      if GetEntity? then {} else {key}
    }

    function LooksUp(): set<EntityKey> {
      if GetEntity? || (SetEntity? && !complete) then {key} else {}
    }
  }

  /** One handler; a deterministic error, such as setting an invalid entity, ends it and discards all its changes. */
  datatype HandlerCall = HandlerCall(ops: seq<HandlerOp>, fails: bool)

  function DoOp(c: Content, op: HandlerOp): Content {
    match op
    case GetEntity(_) => c
    case SetEntity(k, data, _) => SetIn(c, k, data)
    case DeleteEntity(k) => c - {k}
  }

  function DoOps(c: Content, ops: seq<HandlerOp>): Content {
    if ops == [] then c else DoOp(DoOps(c, ops[..|ops| - 1]), ops[|ops| - 1])
  }

  /** The content after the handlers ran one after the other directly on it. */
  function RunHandlers(c: Content, calls: seq<HandlerCall>): Content {
    if calls == [] then c
    else
      var before := RunHandlers(c, calls[..|calls| - 1]);
      if calls[|calls| - 1].fails then before else DoOps(before, calls[|calls| - 1].ops)
  }

  predicate HasErrors(calls: seq<HandlerCall>) {
    exists i :: 0 <= i < |calls| && calls[i].fails
  }

  /** The entities that the operations change. */
  function Changed(ops: seq<HandlerOp>): set<EntityKey> {
    if ops == [] then {} else Changed(ops[..|ops| - 1]) + ops[|ops| - 1].Changes()
  }

  /** The entities that the operations look up. */
  function LookedUp(ops: seq<HandlerOp>): set<EntityKey> {
    if ops == [] then {} else LookedUp(ops[..|ops| - 1]) + ops[|ops| - 1].LooksUp()
  }

  /** Handlers that fail change nothing; what they looked up stays cached. */
  function ChangedBy(calls: seq<HandlerCall>): set<EntityKey> {
    if calls == [] then {}
    else ChangedBy(calls[..|calls| - 1]) + if calls[|calls| - 1].fails then {} else Changed(calls[|calls| - 1].ops)
  }

  function LookedUpBy(calls: seq<HandlerCall>): set<EntityKey> {
    if calls == [] then {} else LookedUpBy(calls[..|calls| - 1]) + LookedUp(calls[|calls| - 1].ops)
  }

  lemma OpsPush(c: Content, changed: set<EntityKey>, known: set<EntityKey>, ops: seq<HandlerOp>, i: nat)
    requires i < |ops|
    ensures DoOps(c, ops[..i + 1]) == DoOp(DoOps(c, ops[..i]), ops[i])
    ensures changed + Changed(ops[..i + 1]) == (changed + Changed(ops[..i])) + ops[i].Changes()
    ensures known + LookedUp(ops[..i + 1]) == (known + LookedUp(ops[..i])) + ops[i].LooksUp()
  {
    assert ops[..i + 1][..i] == ops[..i];
  }

  lemma CallsPush(c: Content, changed: set<EntityKey>, known: set<EntityKey>, calls: seq<HandlerCall>, i: nat)
    requires i < |calls|
    ensures var before := RunHandlers(c, calls[..i]);
            RunHandlers(c, calls[..i + 1]) == if calls[i].fails then before else DoOps(before, calls[i].ops)
    ensures changed + ChangedBy(calls[..i + 1])
         == (changed + ChangedBy(calls[..i])) + if calls[i].fails then {} else Changed(calls[i].ops)
    ensures known + LookedUpBy(calls[..i + 1]) == (known + LookedUpBy(calls[..i])) + LookedUp(calls[i].ops)
  {
    assert calls[..i + 1][..i] == calls[..i];
  }

  // ------------------------------------------------------------------ what the runner cannot control

  datatype Mapping = MappingUnknown | MappingPossibleReorg | MappingOk

  /** The data sources created since the last round, at least one, and the handlers that then run for them. */
  datatype Round = Round(first: H.Info, more: seq<H.Info>, calls: seq<HandlerCall>, fails: bool) {
    function Created(): seq<H.Info> {
      [first] + more
    }
  }

  /** Everything `process_block` meets on the way. */
  datatype Attempt = Attempt(
    poiSupportFails: bool,         // asking whether the store supports proofs of indexing
    mapping: Mapping,              // how processing the block's triggers ends
    calls: seq<HandlerCall>,       // the handlers of the block's triggers
    rounds: seq<Round>,            // data sources they create, and those that these create in turn
    canceled: bool,
    poi: seq<HandlerOp>,           // the proof of indexing
    poiFails: bool,
    modificationsFail: bool,
    keep: set<EntityKey>,          // entities that survive eviction from the cache
    transactFails: bool,
    failFast: bool,                // fail-fast is enabled and the deployment is not synced
    statusFails: bool              // reading or changing the deployment's status
  )

  /** What `handle_process_block` reads besides. */
  datatype Environment = Environment(
    timerExpired: bool,            // the pointer was last updated more than five minutes ago
    cachedHead: Option<int>,
    headFails: bool,
    bookkeepingFails: bool
  )

  datatype Config = Config(
    nonFatalErrors: bool,
    staticFilters: bool,
    stopBlock: Option<int>,
    immutable: set<string>,
    poiType: string
  )

  /** The content the block's handlers ask for. */
  function Wanted(c: Content, a: Attempt): Content {
    DoOps(RunRounds(RunHandlers(c, a.calls), a.rounds), a.poi)
  }

  function RunRounds(c: Content, rounds: seq<Round>): Content {
    if rounds == [] then c else RunHandlers(RunRounds(c, rounds[..|rounds| - 1]), rounds[|rounds| - 1].calls)
  }

  /** All data sources that the rounds create, in order. */
  function AllInfos(rounds: seq<Round>): seq<H.Info> {
    if rounds == [] then [] else AllInfos(rounds[..|rounds| - 1]) + rounds[|rounds| - 1].Created()
  }

  lemma {:induction false} AllInfosPrefix(rounds: seq<Round>, k: nat) returns (rest: seq<H.Info>)
    requires k <= |rounds|
    ensures AllInfos(rounds) == AllInfos(rounds[..k]) + rest
  {
    if k == |rounds| {
      rest := [];
      assert rounds[..k] == rounds;
    } else {
      rest := AllInfosPrefix(rounds[..|rounds| - 1], k);
      assert rounds[..|rounds| - 1][..k] == rounds[..k];
      rest := rest + rounds[|rounds| - 1].Created();
    }
  }

  /** The first `i` rounds created all their data sources, which left the hosts `now`. */
  ghost predicate CreatedSoFar(hosts: seq<H.Host>, rounds: seq<Round>, i: nat, n: nat, max: Option<nat>, now: seq<H.Host>)
    requires i <= |rounds|
  {
    H.AddAll(hosts, AllInfos(rounds[..i]), n, max) == (now, H.AllCreated)
  }

  /** How creating the data sources of all rounds ends. */
  ghost predicate CreationEnds(hosts: seq<H.Host>, rounds: seq<Round>, n: nat, max: Option<nat>, now: seq<H.Host>, status: H.Creation) {
    H.AddAll(hosts, AllInfos(rounds), n, max) == (now, status)
  }

  /** One more round adds its data sources; if one of them fails, the remaining rounds do not matter. */
  lemma NextRound(hosts: seq<H.Host>, now: seq<H.Host>, rounds: seq<Round>, i: nat, n: nat, max: Option<nat>)
    requires i < |rounds| && CreatedSoFar(hosts, rounds, i, n, max, now)
    ensures var r := H.AddAll(now, rounds[i].Created(), n, max);
            if r.1.AllCreated? then CreatedSoFar(hosts, rounds, i + 1, n, max, r.0)
            else CreationEnds(hosts, rounds, n, max, r.0, r.1)
  {
    assert rounds[..i + 1][..i] == rounds[..i];
    H.AddAllConcat(hosts, AllInfos(rounds[..i]), rounds[i].Created(), n, max);
    var rest := AllInfosPrefix(rounds, i + 1);
    H.AddAllConcat(hosts, AllInfos(rounds[..i + 1]), rest, n, max);
  }

  lemma LastRound(hosts: seq<H.Host>, now: seq<H.Host>, rounds: seq<Round>, n: nat, max: Option<nat>)
    requires CreatedSoFar(hosts, rounds, |rounds|, n, max, now)
    ensures CreationEnds(hosts, rounds, n, max, now, H.AllCreated)
  {
    assert rounds[..|rounds|] == rounds;
  }

  lemma RoundsPush(c: Content, changed: set<EntityKey>, known: set<EntityKey>, rounds: seq<Round>, i: nat)
    requires i < |rounds|
    ensures RunRounds(c, rounds[..i + 1]) == RunHandlers(RunRounds(c, rounds[..i]), rounds[i].calls)
    ensures changed + ChangedIn(rounds[..i + 1]) == (changed + ChangedIn(rounds[..i])) + ChangedBy(rounds[i].calls)
    ensures known + LookedUpIn(rounds[..i + 1]) == (known + LookedUpIn(rounds[..i])) + LookedUpBy(rounds[i].calls)
  {
    assert rounds[..i + 1][..i] == rounds[..i];
  }

  function ChangedIn(rounds: seq<Round>): set<EntityKey> {
    if rounds == [] then {} else ChangedIn(rounds[..|rounds| - 1]) + ChangedBy(rounds[|rounds| - 1].calls)
  }

  function LookedUpIn(rounds: seq<Round>): set<EntityKey> {
    if rounds == [] then {} else LookedUpIn(rounds[..|rounds| - 1]) + LookedUpBy(rounds[|rounds| - 1].calls)
  }

  function AllChanged(a: Attempt): set<EntityKey> {
    ChangedBy(a.calls) + ChangedIn(a.rounds) + Changed(a.poi)
  }

  function AllLookedUp(a: Attempt): set<EntityKey> {
    LookedUpBy(a.calls) + LookedUpIn(a.rounds) + LookedUp(a.poi)
  }

  lemma UnionsAssociate(a: Attempt, known: set<EntityKey>)
    ensures (({} + ChangedBy(a.calls)) + ChangedIn(a.rounds)) + Changed(a.poi) == AllChanged(a)
    ensures ((known + LookedUpBy(a.calls)) + LookedUpIn(a.rounds)) + LookedUp(a.poi) == known + AllLookedUp(a)
  {
  }

  /** Every stored immutable entity that the block changes was cached before, or was looked up in the block. */
  ghost predicate ImmutablesLookedUp(cfg: Config, cached: set<EntityKey>, c: Content, a: Attempt) {
    forall k :: k in AllChanged(a) && k.entityType in cfg.immutable && k in c ==> k in cached + AllLookedUp(a)
  }

  predicate AnyError(a: Attempt) {
    HasErrors(a.calls) || exists i :: 0 <= i < |a.rounds| && HasErrors(a.rounds[i].calls)
  }

  predicate Fatal(cfg: Config, a: Attempt) {
    AnyError(a) && !cfg.nonFatalErrors
  }

  datatype Action = Continue | Restart | Stop

  datatype BlockResult = Proceed(action: Action) | Unknown | Deterministic | Canceled | AssertionFailed

  /** What handling an event ends in: an action, an error that ends the run, or a panic. */
  datatype Handled = Act(action: Action) | RunFails | Panics

  const SKIP_DISTANCE := 1000

  /** `close_to_chain_head`: the block is at most `n` blocks behind a known head. */
  predicate CloseToChainHead(b: Block, head: Option<int>, n: int) {
    head.Some? && Number(b) >= head.value - n
  }

  /** Empty blocks far from the head are not stored while the timer runs. */
  predicate Skips(b: Block, synced: bool, env: Environment) {
    && !Carries(b) && !env.timerExpired && !synced && !env.headFails
    && !CloseToChainHead(b, env.cachedHead, SKIP_DISTANCE)
  }

  /** `after` is `before` plus one commit of block `b` with data sources `more`. */
  ghost predicate Commits(before: Store, after: Store, b: Block, more: seq<H.Host>) {
    && Number(before.ptr) < Number(b)
    && after.ptr == b
    && after.log == before.log + [Commit(b, before.content)]
    && after.sources == before.sources + more
  }

  /** Only entities of the proof of indexing changed. */
  ghost predicate OnlyPoiChanged(cfg: Config, before: Content, after: Content) {
    forall k: EntityKey :: k.entityType != cfg.poiType ==> Lookup(after, k) == Lookup(before, k)
  }

  /**
   What the handlers' changes come to once the block's transaction is in: exactly what they ask for, iff no
   immutable entity that was stored before is changed unseen. `cached` are the entities in the cache before.
   */
  ghost predicate ContentEffect(cfg: Config, cached: set<EntityKey>, before: Content, after: Content, a: Attempt) {
    if Fatal(cfg, a) then OnlyPoiChanged(cfg, before, after)
    else after == Wanted(before, a) <==> ImmutablesLookedUp(cfg, cached, before, a)
  }

  /** A block is either stored whole, together with the data sources it created, or not at all. */
  ghost predicate BlockEffect(cfg: Config, cached: set<EntityKey>, before: Store, after: Store, more: seq<H.Host>,
                              b: Block, a: Attempt, committed: bool)
  {
    if committed then Commits(before, after, b, more) && ContentEffect(cfg, cached, before.content, after.content, a)
    else after == before
  }

  /** All that handling a block may do to store and hosts, seen from outside. */
  ghost predicate HandlesBlock(before: Store, hosts: seq<H.Host>, synced: bool, b: Block, env: Environment,
                               after: Store, hosts': seq<H.Host>, r: Handled, committed: bool)
  {
    && hosts <= hosts'
    && (forall i :: |hosts| <= i < |hosts'| ==> hosts'[i].creationBlock == Some(Number(b)))
    && (if committed then Commits(before, after, b, hosts'[|hosts|..]) else after == before)
    && (Skips(b, synced, env) ==> r == Act(Continue) && !committed && hosts' == hosts)
    && (r == Act(Continue) && !committed ==> Skips(b, synced, env))
  }

  /** All that handling a revert may do to store and hosts, seen from outside. */
  ghost predicate HandlesRevert(before: Store, hosts: seq<H.Host>, to: Block, after: Store, hosts': seq<H.Host>, r: Handled) {
    if before.ptr.Origin? then r == Panics && after == before && hosts' == hosts
    else if Number(to) >= Number(before.ptr) then r == Act(Continue) && after == before && hosts' == hosts
    else
      || (r == Act(Restart) && after == before && hosts' == hosts)
      || (r == Act(Continue) && after == RevertStore(before, to) && hosts' == H.PopFrom(hosts, Number(before.ptr)))
  }

  // ------------------------------------------------------------------ running handlers in the cache

  ghost predicate NoHandlerRuns(ec: EntityCache)
    reads ec
  {
    ec.Valid() && !ec.inHandler && ec.Outside() == ec.Seen()
  }

  /** No handler runs; the cache shows `seen`, has pending changes of `changed` and holds `known`. */
  ghost predicate Between(ec: EntityCache, seen: Content, changed: set<EntityKey>, known: set<EntityKey>)
    reads ec
  {
    NoHandlerRuns(ec) && ec.Seen() == seen && ec.Touched() == changed && ec.current.Keys == known
  }

  /** A handler runs; besides, `outer` are the changes it started with. */
  ghost predicate Within(ec: EntityCache, outer: Ops, seen: Content, changed: set<EntityKey>, known: set<EntityKey>)
    reads ec
  {
    && ec.Valid() && ec.inHandler && ec.updates == outer
    && ec.Seen() == seen && ec.Touched() == changed && ec.current.Keys == known
  }

  method RunOp(ec: EntityCache, op: HandlerOp)
    requires ec.Valid() && (!ec.inHandler ==> ec.Outside() == ec.Seen())
    modifies ec
    ensures if old(ec.inHandler)
            then Within(ec, old(ec.updates), DoOp(old(ec.Seen()), op), old(ec.Touched()) + op.Changes(), old(ec.current).Keys + op.LooksUp())
            else Between(ec, DoOp(old(ec.Seen()), op), old(ec.Touched()) + op.Changes(), old(ec.current).Keys + op.LooksUp())
  {
    match op
    case GetEntity(k) => var _ := ec.Get(k);
    case SetEntity(k, data, complete) => var _ := ec.Set(k, data, if complete then Complete else Partial(true));
    case DeleteEntity(k) => ec.RemoveKey(k);
  }

  method RunOps(ec: EntityCache, ops: seq<HandlerOp>)
    requires ec.Valid() && (!ec.inHandler ==> ec.Outside() == ec.Seen())
    modifies ec
    ensures if old(ec.inHandler)
            then Within(ec, old(ec.updates), DoOps(old(ec.Seen()), ops), old(ec.Touched()) + Changed(ops), old(ec.current).Keys + LookedUp(ops))
            else Between(ec, DoOps(old(ec.Seen()), ops), old(ec.Touched()) + Changed(ops), old(ec.current).Keys + LookedUp(ops))
  {
    ghost var outer, seen, changed, known := ec.updates, ec.Seen(), ec.Touched(), ec.current.Keys;
    for i := 0 to |ops|
      invariant if old(ec.inHandler)
                then Within(ec, outer, DoOps(seen, ops[..i]), changed + Changed(ops[..i]), known + LookedUp(ops[..i]))
                else Between(ec, DoOps(seen, ops[..i]), changed + Changed(ops[..i]), known + LookedUp(ops[..i]))
    {
      OpsPush(seen, changed, known, ops, i);
      RunOp(ec, ops[i]);
    }
    assert ops[..|ops|] == ops;
  }

  method RunCall(ec: EntityCache, call: HandlerCall)
    requires NoHandlerRuns(ec)
    modifies ec
    ensures Between(ec, if call.fails then old(ec.Seen()) else DoOps(old(ec.Seen()), call.ops),
                    old(ec.Touched()) + (if call.fails then {} else Changed(call.ops)), old(ec.current).Keys + LookedUp(call.ops))
  {
    ec.EnterHandler();
    RunOps(ec, call.ops);
    if call.fails {
      ec.ExitHandlerAndDiscardChanges();
    } else {
      ec.ExitHandler();
    }
  }

  /** Handlers run in the cache see and leave what they would see and leave in the store. */
  method RunCalls(ec: EntityCache, calls: seq<HandlerCall>)
    requires NoHandlerRuns(ec)
    modifies ec
    ensures Between(ec, RunHandlers(old(ec.Seen()), calls), old(ec.Touched()) + ChangedBy(calls), old(ec.current).Keys + LookedUpBy(calls))
  {
    ghost var seen, changed, known := ec.Seen(), ec.Touched(), ec.current.Keys;
    for i := 0 to |calls|
      invariant Between(ec, RunHandlers(seen, calls[..i]), changed + ChangedBy(calls[..i]), known + LookedUpBy(calls[..i]))
    {
      CallsPush(seen, changed, known, calls, i);
      RunCall(ec, calls[i]);
    }
    assert calls[..|calls|] == calls;
  }

  /** `mods.retain(is_poi)`. */
  function PoiOnly(cfg: Config, mods: seq<Modification>): seq<Modification> {
    if mods == [] then []
    else PoiOnly(cfg, mods[..|mods| - 1]) + if mods[|mods| - 1].key.entityType == cfg.poiType then [mods[|mods| - 1]] else []
  }

  lemma {:induction false} PoiOnlyMods(cfg: Config, c: Content, mods: seq<Modification>)
    ensures forall i :: 0 <= i < |PoiOnly(cfg, mods)| ==> PoiOnly(cfg, mods)[i].key.entityType == cfg.poiType
  {
    if mods == [] {
    } else {
      PoiOnlyMods(cfg, c, mods[..|mods| - 1]);
    }
  }

  lemma {:induction false} ApplyTouchesOnly(cfg: Config, c: Content, immutable: set<string>, mods: seq<Modification>)
    requires forall i :: 0 <= i < |mods| ==> mods[i].key.entityType == cfg.poiType
    ensures ApplyAll(c, immutable, mods).Some? ==> OnlyPoiChanged(cfg, c, ApplyAll(c, immutable, mods).value)
  {
    if mods == [] {
    } else {
      ApplyTouchesOnly(cfg, c, immutable, mods[..|mods| - 1]);
    }
  }

  lemma {:induction false} ApplyNullFree(c: Content, immutable: set<string>, mods: seq<Modification>)
    requires NullFree(c)
    ensures ApplyAll(c, immutable, mods).Some? ==> NullFree(ApplyAll(c, immutable, mods).value)
  {
    if mods == [] {
    } else {
      ApplyNullFree(c, immutable, mods[..|mods| - 1]);
      var m := mods[|mods| - 1];
      if !m.RemoveEntity? {
        assert WithoutNulls(WithoutNulls(m.data)) == WithoutNulls(m.data);
      }
    }
  }

  lemma LookedUpMeansKnown(cfg: Config, c: Content, a: Attempt, cached: set<EntityKey>, cache: Lfu, ops: Ops)
    requires ops.Keys == AllChanged(a) && cache.Keys == cached + AllLookedUp(a)
    ensures ImmutablesKnown(cache, c, cfg.immutable, ops) <==> ImmutablesLookedUp(cfg, cached, c, a)
  {
  }

  /** A transaction of nothing but the proof of indexing. */
  lemma PoiTransaction(cfg: Config, s: Store, b: Block, mods: seq<Modification>, sources: seq<H.Host>)
    ensures var t := Transact(s, b, cfg.immutable, PoiOnly(cfg, mods), sources);
            t.Some? ==> OnlyPoiChanged(cfg, s.content, t.value.content)
  {
    PoiOnlyMods(cfg, s.content, mods);
    ApplyTouchesOnly(cfg, s.content, cfg.immutable, PoiOnly(cfg, mods));
  }

  // ------------------------------------------------------------------ the runner

  /** What the stream delivers, and what handling it meets. */
  datatype StreamEvent =
    | BlockEvent(block: Block, env: Environment, attempt: Attempt)
    | RevertEvent(to: Block, revertFails: bool)
    | ErrorEvent(canceled: bool)

  /** Blocks and revert targets are blocks, not the position before genesis. */
  predicate WellFormed(event: StreamEvent) {
    match event
    case BlockEvent(b, _, _) => b.Child?
    case RevertEvent(to, _) => to.Child?
    case ErrorEvent(_) => true
  }

  class SubgraphRunner {
    const cfg: Config
    const instance: H.SubgraphInstance
    var store: Store
    var entityLfuCache: Lfu
    var synced: bool

    /** What holds whenever the runner waits for the next event. */
    ghost predicate Valid()
      reads this
    {
      StoreNullFree(store) && Agrees(entityLfuCache, store.content)
    }

    constructor (cfg: Config, instance: H.SubgraphInstance, store: Store)
      requires StoreNullFree(store)
      ensures Valid() && this.store == store && this.cfg == cfg && this.instance == instance && !synced
    {
      this.cfg := cfg;
      this.instance := instance;
      this.store := store;
      entityLfuCache := map[];
      synced := false;
    }

    /** Creates the host of one data source, unless it is a duplicate; `rest` are those still to come. */
    method CreateDataSource(info: H.Info, ghost rest: seq<H.Info>, n: nat) returns (created: seq<H.Host>, status: H.Creation)
      modifies instance
      ensures instance.hosts == old(instance.hosts) + created
      ensures created == [] || created == [H.Host(info.source, Some(n))]
      ensures H.AddAll(old(instance.hosts), [info] + rest, n, instance.maxDataSources)
           == if status.AllCreated? then H.AddAll(instance.hosts, rest, n, instance.maxDataSources) else (instance.hosts, status)
    {
      assert ([info] + rest)[1..] == rest;
      if !info.instantiates {
        return [], H.Failed;
      }
      var ds := H.Host(info.source, Some(n));
      if instance.maxDataSources.Some? && |instance.hosts| >= instance.maxDataSources.value {
        return [], H.Failed;
      }
      if instance.hosts != [] && !H.AtMost(instance.hosts[|instance.hosts| - 1].creationBlock, ds.creationBlock) {
        return [], H.Misordered;
      }
      var added := instance.AddDynamicDataSource(ds, info.builds);
      match added
      case BuildFailed => return [], H.Failed;
      case AddedHost(_) => return [ds], H.AllCreated;
      case Duplicate => return [], H.AllCreated;
    }

    /** Creates hosts for new data sources; returns those that were not duplicates. */
    method CreateDynamicDataSources(infos: seq<H.Info>, n: nat) returns (dataSources: seq<H.Host>, status: H.Creation)
      modifies instance
      ensures instance.hosts == old(instance.hosts) + dataSources
      ensures forall i :: 0 <= i < |dataSources| ==> dataSources[i].creationBlock == Some(n)
      ensures (instance.hosts, status) == H.AddAll(old(instance.hosts), infos, n, instance.maxDataSources)
    {
      dataSources, status := [], H.AllCreated;
      for i := 0 to |infos|
        invariant instance.hosts == old(instance.hosts) + dataSources
        invariant forall i :: 0 <= i < |dataSources| ==> dataSources[i].creationBlock == Some(n)
        invariant H.AddAll(old(instance.hosts), infos, n, instance.maxDataSources)
               == H.AddAll(instance.hosts, infos[i..], n, instance.maxDataSources)
        invariant status.AllCreated?
      {
        assert infos[i..] == [infos[i]] + infos[i + 1..];
        var created;
        created, status := CreateDataSource(infos[i], infos[i + 1..], n);
        dataSources := dataSources + created;
        if !status.AllCreated? {
          return;
        }
      }
    }

    /** One round of the loop of `process_block`: creates data sources and runs their handlers. */
    method RunRound(ec: EntityCache, round: Round, n: nat) returns (dataSources: seq<H.Host>, status: H.Creation)
      requires NoHandlerRuns(ec)
      modifies ec, instance
      ensures instance.hosts == old(instance.hosts) + dataSources
      ensures forall i :: 0 <= i < |dataSources| ==> dataSources[i].creationBlock == Some(n)
      ensures NoHandlerRuns(ec)
      ensures !status.Failed? ==>
                (instance.hosts, status) == H.AddAll(old(instance.hosts), round.Created(), n, instance.maxDataSources)
      ensures status.AllCreated? ==>
                Between(ec, RunHandlers(old(ec.Seen()), round.calls), old(ec.Touched()) + ChangedBy(round.calls),
                        old(ec.current).Keys + LookedUpBy(round.calls))
    {
      dataSources, status := CreateDynamicDataSources(round.Created(), n);
      if status.AllCreated? {
        RunCalls(ec, round.calls);
        if round.fails {
          status := H.Failed;
        }
      }
    }

    /** The `i`-th round; `hosts`, `seen`, `changed` and `known` are what the first one started from. */
    method RunNextRound(ec: EntityCache, rounds: seq<Round>, i: nat, n: nat, ghost hosts: seq<H.Host>,
                        ghost seen: Content, ghost changed: set<EntityKey>, ghost known: set<EntityKey>)
      returns (dataSources: seq<H.Host>, status: H.Creation)
      requires i < |rounds| && CreatedSoFar(hosts, rounds, i, n, instance.maxDataSources, instance.hosts)
      requires Between(ec, RunRounds(seen, rounds[..i]), changed + ChangedIn(rounds[..i]), known + LookedUpIn(rounds[..i]))
      modifies ec, instance
      ensures instance.hosts == old(instance.hosts) + dataSources
      ensures forall i :: 0 <= i < |dataSources| ==> dataSources[i].creationBlock == Some(n)
      ensures NoHandlerRuns(ec)
      ensures status.Misordered? ==> CreationEnds(hosts, rounds, n, instance.maxDataSources, instance.hosts, status)
      ensures status.AllCreated? ==>
                && CreatedSoFar(hosts, rounds, i + 1, n, instance.maxDataSources, instance.hosts)
                && Between(ec, RunRounds(seen, rounds[..i + 1]), changed + ChangedIn(rounds[..i + 1]),
                           known + LookedUpIn(rounds[..i + 1]))
    {
      NextRound(hosts, instance.hosts, rounds, i, n, instance.maxDataSources);
      RoundsPush(seen, changed, known, rounds, i);
      dataSources, status := RunRound(ec, rounds[i], n);
    }

    /** The loop of `process_block`: rounds until none creates more data sources. */
    method RunAllRounds(ec: EntityCache, rounds: seq<Round>, n: nat) returns (dataSources: seq<H.Host>, status: H.Creation)
      requires NoHandlerRuns(ec)
      modifies ec, instance
      ensures instance.hosts == old(instance.hosts) + dataSources
      ensures forall i :: 0 <= i < |dataSources| ==> dataSources[i].creationBlock == Some(n)
      ensures NoHandlerRuns(ec)
      ensures !status.Failed? ==>
                CreationEnds(old(instance.hosts), rounds, n, instance.maxDataSources, instance.hosts, status)
      ensures status.AllCreated? ==>
                Between(ec, RunRounds(old(ec.Seen()), rounds), old(ec.Touched()) + ChangedIn(rounds),
                        old(ec.current).Keys + LookedUpIn(rounds))
    {
      dataSources, status := [], H.AllCreated;
      ghost var hosts, seen, changed, known := instance.hosts, ec.Seen(), ec.Touched(), ec.current.Keys;
      for i := 0 to |rounds|
        invariant instance.hosts == hosts + dataSources
        invariant forall i :: 0 <= i < |dataSources| ==> dataSources[i].creationBlock == Some(n)
        invariant CreatedSoFar(hosts, rounds, i, n, instance.maxDataSources, instance.hosts)
        invariant Between(ec, RunRounds(seen, rounds[..i]), changed + ChangedIn(rounds[..i]), known + LookedUpIn(rounds[..i]))
        invariant status.AllCreated?
      {
        var more;
        more, status := RunNextRound(ec, rounds, i, n, hosts, seen, changed, known);
        dataSources := dataSources + more;
        if !status.AllCreated? {
          return;
        }
      }
      LastRound(hosts, instance.hosts, rounds, n, instance.maxDataSources);
      assert rounds[..|rounds|] == rounds;
    }

    /** The handlers of a block, the rounds of data-source creation, and then the proof of indexing. */
    method RunHandlersAndPoi(ec: EntityCache, a: Attempt, n: nat) returns (dataSources: seq<H.Host>, status: H.Creation)
      requires Between(ec, ec.Seen(), {}, ec.current.Keys)
      modifies ec, instance
      ensures instance.hosts == old(instance.hosts) + dataSources
      ensures forall i :: 0 <= i < |dataSources| ==> dataSources[i].creationBlock == Some(n)
      ensures !status.Failed? ==>
                CreationEnds(old(instance.hosts), a.rounds, n, instance.maxDataSources, instance.hosts, status)
      ensures status.AllCreated? && !a.canceled ==>
                Between(ec, Wanted(old(ec.Seen()), a), AllChanged(a), old(ec.current).Keys + AllLookedUp(a))
    {
      ghost var known := ec.current.Keys;
      RunCalls(ec, a.calls);
      dataSources, status := RunAllRounds(ec, a.rounds, n);
      if status.AllCreated? && !a.canceled {
        RunOps(ec, a.poi);
        UnionsAssociate(a, known);
      }
    }

    method ProcessBlock(b: Block, a: Attempt) returns (r: BlockResult, ghost committed: bool)
      requires Valid() && b.Child?
      modifies this`store, this`entityLfuCache, instance
      ensures StoreNullFree(store)
      ensures r.Proceed? || r.Canceled? ==> Agrees(entityLfuCache, store.content)
      ensures old(instance.hosts) <= instance.hosts
      ensures forall i :: |old(instance.hosts)| <= i < |instance.hosts| ==> instance.hosts[i].creationBlock == Some(Number(b))
      ensures BlockEffect(cfg, old(entityLfuCache).Keys, old(store), store, instance.hosts[|old(instance.hosts)|..], b, a, committed)
      ensures !committed ==> r != Proceed(Continue) && r != Deterministic
      ensures !committed && instance.hosts != old(instance.hosts) ==> !r.Proceed?
      ensures committed ==> (r == Deterministic <==> Fatal(cfg, a))
      ensures r == Proceed(Restart) ==> a.mapping == MappingPossibleReorg || (a.rounds != [] && !cfg.staticFilters)
      ensures r != Proceed(Stop)
      ensures r.AssertionFailed? ==>
                Fatal(cfg, a) || H.AddAll(old(instance.hosts), AllInfos(a.rounds), Number(b), instance.maxDataSources).1.Misordered?
    {
      committed := false;
      if a.poiSupportFails {
        return Unknown, false;
      }
      var ec := new EntityCache.WithCurrent(store.content, cfg.immutable, entityLfuCache);
      ghost var cached := entityLfuCache.Keys;
      entityLfuCache := map[];
      match a.mapping
      case MappingUnknown => return Unknown, false;
      case MappingPossibleReorg => return Proceed(Restart), false;
      case MappingOk =>
        var needsRestart := a.rounds != [] && !cfg.staticFilters;
        var dataSources, status := RunHandlersAndPoi(ec, a, Number(b));
        if status.Failed? {
          return Unknown, false;
        }
        if status.Misordered? {
          return AssertionFailed, false;
        }
        if a.canceled {
          return Canceled, false;
        }
        if a.poiFails || a.modificationsFail {
          return Unknown, false;
        }
        r, committed := Finish(b, a, ec, cached, dataSources, needsRestart);
    }

    /** The last part of `process_block`: modifications, transaction and verdict. */
    method Finish(b: Block, a: Attempt, ec: EntityCache, ghost cached: set<EntityKey>, dataSources: seq<H.Host>, needsRestart: bool)
      returns (r: BlockResult, ghost committed: bool)
      requires StoreNullFree(store) && b.Child? && entityLfuCache == map[]
      requires ec.Valid() && !ec.inHandler && ec.store == store.content && ec.immutable == cfg.immutable
      requires ec.Seen() == Wanted(store.content, a) && ec.Touched() == AllChanged(a)
      requires ec.current.Keys == cached + AllLookedUp(a)
      modifies this`store, this`entityLfuCache, ec
      ensures StoreNullFree(store)
      ensures r.Proceed? || r.Canceled? ==> Agrees(entityLfuCache, store.content)
      ensures BlockEffect(cfg, cached, old(store), store, dataSources, b, a, committed)
      ensures !committed ==> r == Unknown || r == AssertionFailed
      ensures r.AssertionFailed? ==> Fatal(cfg, a)
      ensures committed ==> (r == Deterministic <==> Fatal(cfg, a))
      ensures r.Proceed? ==> r.action == if needsRestart then Restart else Continue
    {
      LookedUpMeansKnown(cfg, store.content, a, cached, ec.current, ec.updates);
      var mods, cache := ec.AsModifications(a.keep);
      // The cache was moved out when the block began; nothing may have filled its place.
      assert entityLfuCache == map[];
      entityLfuCache := cache;
      r, committed := TransactBlock(b, a, cached, mods, dataSources, needsRestart);
    }

    /** Transacts the modifications and decides how to go on. */
    method TransactBlock(b: Block, a: Attempt, ghost cached: set<EntityKey>, modifications: seq<Modification>,
                         dataSources: seq<H.Host>, needsRestart: bool)
      returns (r: BlockResult, ghost committed: bool)
      requires StoreNullFree(store) && b.Child?
      requires ApplyAll(store.content, cfg.immutable, modifications).Some? ==>
                 var after := ApplyAll(store.content, cfg.immutable, modifications).value;
                 && Agrees(entityLfuCache, after)
                 && (after == Wanted(store.content, a) <==> ImmutablesLookedUp(cfg, cached, store.content, a))
      modifies this`store
      ensures StoreNullFree(store)
      ensures r.Proceed? || r.Canceled? ==> Agrees(entityLfuCache, store.content)
      ensures BlockEffect(cfg, cached, old(store), store, dataSources, b, a, committed)
      ensures !committed ==> r == Unknown || r == AssertionFailed
      ensures r.AssertionFailed? ==> Fatal(cfg, a)
      ensures committed ==> (r == Deterministic <==> Fatal(cfg, a))
      ensures r.Proceed? ==> r.action == if needsRestart then Restart else Continue
    {
      var mods := modifications;
      var fatal := AnyError(a) && !cfg.nonFatalErrors;
      if fatal {
        PoiTransaction(cfg, store, b, mods, dataSources);
        mods := PoiOnly(cfg, mods);
        if |mods| != 1 {
          return AssertionFailed, false;
        }
      }
      if a.transactFails {
        return Unknown, false;
      }
      ApplyNullFree(store.content, cfg.immutable, mods);
      var transacted := Transact(store, b, cfg.immutable, mods, dataSources);
      if transacted.None? {
        return Unknown, false;
      }
      store := transacted.value;
      if fatal {
        return Deterministic, true;
      }
      if AnyError(a) && a.failFast {
        return if a.statusFails then Unknown else Canceled, true;
      }
      return Proceed(if needsRestart then Restart else Continue), true;
    }

    method HandleProcessBlock(b: Block, env: Environment, a: Attempt) returns (r: Handled, ghost committed: bool)
      requires Valid() && b.Child?
      modifies this`store, this`entityLfuCache, this`synced, instance
      ensures r.Act? ==> Valid()
      ensures HandlesBlock(old(store), old(instance.hosts), old(synced), b, env, store, instance.hosts, r, committed)
      ensures old(Skips(b, synced, env)) ==> entityLfuCache == old(entityLfuCache)
      ensures BlockEffect(cfg, old(entityLfuCache).Keys, old(store), store, instance.hosts[|old(instance.hosts)|..], b, a, committed)
      ensures committed && Fatal(cfg, a) ==> r == RunFails
      ensures r.Panics? ==>
                Fatal(cfg, a) || H.AddAll(old(instance.hosts), AllInfos(a.rounds), Number(b), instance.maxDataSources).1.Misordered?
      ensures old(synced) ==> synced
    {
      committed := false;
      if !Carries(b) && !env.timerExpired && !synced {
        if env.headFails {
          return RunFails, committed;
        }
        if !CloseToChainHead(b, env.cachedHead, SKIP_DISTANCE) {
          return Act(Continue), committed;
        }
      }
      var result;
      result, committed := ProcessBlock(b, a);
      match result
      case Proceed(action) =>
        if !synced {
          if env.headFails {
            return RunFails, committed;
          }
          if CloseToChainHead(b, env.cachedHead, 1) {
            synced := true;
          }
        }
        if env.bookkeepingFails {
          return RunFails, committed;
        }
        if action == Restart {
          return Act(Restart), committed;
        }
        if cfg.stopBlock.Some? && Number(b) >= cfg.stopBlock.value {
          return Act(Stop), committed;
        }
        return Act(Continue), committed;
      case Canceled => return Act(Stop), committed;
      case AssertionFailed => return Panics, committed;
      case Deterministic =>
        entityLfuCache := map[];
        return RunFails, committed;
      case Unknown =>
        entityLfuCache := map[];
        if a.statusFails {
          return RunFails, committed;
        }
        return Act(Restart), committed;
    }

    method HandleRevert(to: Block, revertFails: bool) returns (r: Handled)
      requires Valid() && to.Child?
      modifies this`store, this`entityLfuCache, instance
      ensures r.Panics? <==> old(store).ptr.Origin?
      ensures r.Act? ==> Valid()
      ensures HandlesRevert(old(store), old(instance.hosts), to, store, instance.hosts, r)
      ensures r == Act(Restart) ==> revertFails
      ensures r == Act(Continue) && revertFails ==> Number(to) >= Number(old(store).ptr)
    {
      if store.ptr.Origin? {
        return Panics; // unwrapping the absent pointer
      }
      var n := Number(store.ptr);
      if Number(to) >= n {
        return Act(Continue);
      }
      if revertFails {
        return Act(Restart);
      }
      UndoNullFree(store, Number(to));
      store := RevertStore(store, to);
      instance.RevertDataSources(n);
      entityLfuCache := map[];
      return Act(Continue);
    }

    method HandleErr(canceled: bool) returns (r: Handled)
      requires Valid()
      ensures r == Act(if canceled then Stop else Continue) && Valid()
    {
      return Act(if canceled then Stop else Continue);
    }

    method HandleStreamEvent(event: StreamEvent) returns (r: Handled)
      requires Valid() && WellFormed(event)
      modifies this`store, this`entityLfuCache, this`synced, instance
      ensures r.Act? ==> Valid()
    {
      match event
      case BlockEvent(b, env, a) =>
        ghost var committed;
        r, committed := HandleProcessBlock(b, env, a);
      case RevertEvent(to, revertFails) => r := HandleRevert(to, revertFails);
      case ErrorEvent(canceled) => r := HandleErr(canceled);
    }

    /**
     `run`, for any events and any outcome of handling them: whenever the runner waits for the next event,
     its cache agrees with the store. `waits` are those moments.
     */
    method Run(events: seq<StreamEvent>) returns (handled: nat, ended: bool, ghost waits: seq<(Lfu, Content)>)
      requires Valid() && forall i :: 0 <= i < |events| ==> WellFormed(events[i])
      modifies this`store, this`entityLfuCache, this`synced, instance
      ensures handled <= |events| && (!ended ==> handled == |events| && Valid())
      ensures |waits| == if ended then handled else handled + 1
      ensures forall i :: 0 <= i < |waits| ==> Agrees(waits[i].0, waits[i].1)
      ensures waits != [] ==> waits[0] == old((entityLfuCache, store.content))
      ensures !ended ==> waits[handled] == (entityLfuCache, store.content)
    {
      handled, ended, waits := 0, false, [(entityLfuCache, store.content)];
      while handled < |events|
        invariant 0 <= handled <= |events| && |waits| == handled + 1 && Valid()
        invariant forall i :: 0 <= i < |waits| ==> Agrees(waits[i].0, waits[i].1)
        invariant waits[0] == old((entityLfuCache, store.content)) && waits[handled] == (entityLfuCache, store.content)
      {
        var r := HandleStreamEvent(events[handled]);
        handled := handled + 1;
        if !r.Act? || r.action == Stop {
          return handled, true, waits;
        }
        waits := waits + [(entityLfuCache, store.content)];
      }
    }
  }
}
