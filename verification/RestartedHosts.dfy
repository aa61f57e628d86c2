/**
 What a start that takes back a failed block does to the hosts. They are loaded before the block is
 taken back, so a data source that the block created keeps its host. When the block runs again the data
 source counts as a duplicate and is not stored, and after one more start its host is gone.
 */
module RestartedHosts {
  import opened Wrappers
  import opened Chain
  import opened PollingStream
  import opened Reconciliation
  import opened Runner
  import opened Pipeline
  import opened UnwrapPanic
  import H = Hosts

  /** A data source that has a host already is created without an effect. */
  lemma DuplicateIsNotAdded(hosts: seq<H.Host>, info: H.Info, n: nat)
    requires H.HasSource(hosts, info.source) && info.instantiates && info.builds
    requires hosts != [] && H.AtMost(hosts[|hosts| - 1].creationBlock, Some(n))
    ensures H.AddAll(hosts, [info], n, None) == (hosts, H.AllCreated)
  {
    assert [info][1..] == [];
  }

  // ------------------------------------------------------------------ a lost data source

  /** Genesis and one block after it, which carries a trigger. */
  ghost predicate TwoBlocks(genesis: Block, b: Block) {
    && genesis.Child? && genesis.parent.Origin?
    && b.Child? && b.parent == genesis && b.triggers == 1
  }

  lemma TwoBlocksNumbers(genesis: Block, b: Block)
    requires TwoBlocks(genesis, b)
    ensures Number(genesis) == 0 && Number(b) == 1 && At(b, 0) == genesis && At(b, 1) == b
    ensures Anc(genesis, b) && TotalTriggers([b]) == 1
  {
    AncParent(genesis, b);
    assert [b][..0] == [];
  }

  function GenesisContext(genesis: Block, threshold: nat): Context {
    NewContext(genesis, threshold, [], 10, 0)
  }

  /** A runner at genesis that has just started. */
  ghost predicate AtGenesis(s: System, genesis: Block, b: Block, threshold: nat) {
    && s.world == World(b, b, genesis, genesis) && s.life == Running && !s.synced
    && s.stream == NewStream(GenesisContext(genesis, threshold)) && s.future == ReadHead && s.queue == []
    && s.seen == genesis && s.store.ptr == genesis
  }

  /** Whatever the threshold, the reconciliation finds the block after genesis. */
  lemma NextIsFound(s0: System, s: System, genesis: Block, b: Block, threshold: nat)
    requires TwoBlocks(genesis, b) && Reaches(s0, s) && s.life == Running && s.future == ReadHead
    requires s.world == World(b, b, genesis, genesis)
    requires s.stream == Stream(Reconciliation, 0, GenesisContext(genesis, threshold))
    ensures Reaches(s0, s.(future := Resolved(NextBlocks([b], 1))))
  {
    TwoBlocksNumbers(genesis, b);
    var ctx := s.stream.ctx;
    if threshold == 0 {
      assert Direct(ctx, b) == BeyondThreshold;
      assert NextRangeSize(ctx) == 1 && ScanEnd(ctx, b) == 1;
      DoRequest(s0, s, CheckMainChain(b));
      DoRequest(s0, s.(future := CheckMainChain(b)), Scan(1, 1));
      assert ScanResult(1, b, [b]);
      DoRequest(s0, s.(future := Scan(1, 1)), Resolved(NextBlocks([b], 1)));
    } else {
      assert Direct(ctx, b) == WithinThreshold;
      DoRequest(s0, s, CompareAncestor(b));
      DoRequest(s0, s.(future := CompareAncestor(b)), LoadTriggers(b));
      DoRequest(s0, s.(future := LoadTriggers(b)), Resolved(NextBlocks([b], 1)));
    }
  }

  /** The stream once it has yielded the block after genesis. */
  function DeliveredStream(genesis: Block, b: Block, threshold: nat): Stream {
    Stream(YieldingBlocks([]), 0,
           GenesisContext(genesis, threshold).(current := b, previousTriggersPerBlock := 1.0, previousBlockRangeSize := 1))
  }

  /** The system once the block waits for the runner. */
  function Delivered(s: System, genesis: Block, b: Block, threshold: nat): System {
    s.(stream := DeliveredStream(genesis, b, threshold), future := Resolved(NextBlocks([b], 1)), queue := [ProcessBlock(b)])
  }

  lemma BlockIsDelivered(s0: System, s: System, genesis: Block, b: Block, threshold: nat)
    requires TwoBlocks(genesis, b) && Reaches(s0, s) && AtGenesis(s, genesis, b, threshold)
    ensures Reaches(s0, Delivered(s, genesis, b, threshold))
  {
    TwoBlocksNumbers(genesis, b);
    DoPoll(s0, s);
    NextIsFound(s0, Polled(s), genesis, b, threshold);
    var found := Polled(s).(future := Resolved(NextBlocks([b], 1)));
    DoPoll(s0, found);
    DoPoll(s0, Polled(found));
    assert [b][1..] == [] && [] + [ProcessBlock(b)] == [ProcessBlock(b)];
    assert Polled(Polled(found)).stream == DeliveredStream(genesis, b, threshold);
  }

  // The store at genesis and with the block committed, and the host of the data source that the block creates.
  const CREATED := H.Host(0, Some(1))

  function EmptyStore(genesis: Block): Store { Store(genesis, [], map[], []) }
  function FullStore(b: Block, sources: seq<H.Host>): Store { Store(b, [Commit(b, map[])], map[], sources) }

  function Started(genesis: Block, b: Block, threshold: nat, hosts: seq<H.Host>, inSync: bool): System {
    System(World(b, b, genesis, genesis), NewStream(GenesisContext(genesis, threshold)), ReadHead, [], genesis,
           EmptyStore(genesis), [], hosts, inSync, true, false, Running, genesis, genesis)
  }

  /** The block creates a data source, another handler fails deterministically, and the runner ends. */
  function FailedAfter(genesis: Block, b: Block, threshold: nat): System {
    Delivered(Started(genesis, b, threshold, [], true), genesis, b, threshold).
      (store := FullStore(b, [CREATED]), hosts := [CREATED], life := Stopped)
  }

  lemma BlockFails(genesis: Block, b: Block, threshold: nat)
    requires TwoBlocks(genesis, b)
    ensures Reaches(Started(genesis, b, threshold, [], true), FailedAfter(genesis, b, threshold))
  {
    TwoBlocksNumbers(genesis, b);
    var s0 := Started(genesis, b, threshold, [], true);
    assert ValidWorld(s0.world, threshold);
    assert Run([s0]);
    BlockIsDelivered(s0, s0, genesis, b, threshold);
    var s, s' := Delivered(s0, genesis, b, threshold), FailedAfter(genesis, b, threshold);
    var env := Environment(false, None, false, false);
    assert Commits(s.store, s'.store, b, s'.hosts[|s.hosts|..]);
    assert BlockStep(s, env, RunFails, true, s');
    ReachesNext(s0, s, s');
  }

  lemma StoreIsEmptyAgain(genesis: Block, b: Block)
    requires TwoBlocks(genesis, b)
    ensures RevertStore(FullStore(b, [CREATED]), genesis) == EmptyStore(genesis)
  {
    TwoBlocksNumbers(genesis, b);
    var s := FullStore(b, [CREATED]);
    assert s.log[..0] == [] && s.sources[..0] == [];
    assert Undo(s.(log := []), 0) == s.(log := []);
    assert Undo(s, 0) == s.(log := []);
    assert H.CreatedBefore([CREATED], 1) == [];
  }

  /** A start that takes the last block back, after which a host has no stored data source. */
  ghost predicate Outlives(s: System, s': System) {
    StartStep(s, true, s') && s'.hosts != s'.manifest + s'.store.sources
  }

  /** Starting again takes the block back; the host of its data source stays. */
  lemma BlockIsTakenBack(genesis: Block, b: Block, threshold: nat)
    requires TwoBlocks(genesis, b)
    ensures Outlives(FailedAfter(genesis, b, threshold), Started(genesis, b, threshold, [CREATED], false))
    ensures Next(FailedAfter(genesis, b, threshold), Started(genesis, b, threshold, [CREATED], false))
  {
    TwoBlocksNumbers(genesis, b);
    var s := FailedAfter(genesis, b, threshold);
    assert s.store.sources[0].creationBlock.value == 1;
    StoreIsEmptyAgain(genesis, b);
    assert StartStep(s, true, Started(genesis, b, threshold, [CREATED], false));
  }

  /** For every reorg threshold, a run that ends with such a start. */
  lemma HostOutlivesItsBlock(threshold: nat) returns (run: seq<System>)
    ensures Run(run) && |run| > 1 && run[0].stream.ctx.reorgThreshold == threshold
    ensures Outlives(run[|run| - 2], run[|run| - 1])
  {
    var genesis := Child(Origin, 0, 0);
    var b := Child(genesis, 0, 1);
    BlockFails(genesis, b, threshold);
    BlockIsTakenBack(genesis, b, threshold);
    run := LastStep(Started(genesis, b, threshold, [], true), FailedAfter(genesis, b, threshold),
                    Started(genesis, b, threshold, [CREATED], false));
  }

  lemma LastStep(s0: System, s: System, s': System) returns (run: seq<System>)
    requires Reaches(s0, s) && Next(s, s')
    ensures Run(run) && |run| > 1 && run[0] == s0 && run[|run| - 2] == s && run[|run| - 1] == s'
  {
    run :| Run(run) && run[0] == s0 && run[|run| - 1] == s;
    run := Longer(run, s');
  }

  lemma Longer(run: seq<System>, s: System) returns (run': seq<System>)
    requires Run(run) && Next(run[|run| - 1], s)
    ensures Run(run') && run' == run + [s]
  {
    run' := run + [s];
    forall i | 0 <= i < |run'| - 1 ensures Next(run'[i], run'[i + 1]) {
      assert run'[i] == run[i];
      assert i < |run| - 1 ==> run'[i + 1] == run[i + 1];
    }
  }

  /** The block runs again; its data source has a host already, so nothing is stored for it. */
  function CommittedAgain(genesis: Block, b: Block, threshold: nat): System {
    Delivered(Started(genesis, b, threshold, [CREATED], false), genesis, b, threshold).
      (store := FullStore(b, []), queue := [], seen := b)
  }

  function StartedAtBlock(genesis: Block, b: Block, threshold: nat): System {
    CommittedAgain(genesis, b, threshold).
      (stream := NewStream(GenesisContext(b, threshold)), future := ReadHead, hosts := [], hostsInSync := true)
  }

  /** A run ends with the failed block running again without an error, and one more start. */
  ghost predicate Loses(x: System, info: H.Info, y: System, z: System) {
    && x.life == Running && x.queue != [] && x.queue[0].ProcessBlock?
    && y.life == Running && y.store.ptr == x.queue[0].block && y.store.ptr.Child?
    && H.AddAll(x.hosts, [info], Number(y.store.ptr), None) == (y.hosts, H.AllCreated)
    && StartStep(y, false, z) && z.store == y.store
    && !H.HasSource(z.hosts, info.source)
  }

  lemma BlockRunsAgain(genesis: Block, b: Block, threshold: nat)
    requires TwoBlocks(genesis, b)
    ensures var x := Delivered(Started(genesis, b, threshold, [CREATED], false), genesis, b, threshold);
            Reaches(Started(genesis, b, threshold, [], true), x) && Next(x, CommittedAgain(genesis, b, threshold))
  {
    TwoBlocksNumbers(genesis, b);
    BlockFails(genesis, b, threshold);
    BlockIsTakenBack(genesis, b, threshold);
    var s0, s := Started(genesis, b, threshold, [], true), Started(genesis, b, threshold, [CREATED], false);
    ReachesNext(s0, FailedAfter(genesis, b, threshold), s);
    BlockIsDelivered(s0, s, genesis, b, threshold);
    var x, y := Delivered(s, genesis, b, threshold), CommittedAgain(genesis, b, threshold);
    assert Commits(x.store, y.store, b, y.hosts[|x.hosts|..]);
    assert [ProcessBlock(b)][1..] == [];
    assert BlockStep(x, Environment(false, None, false, false), Act(Continue), true, y);
  }

  lemma SourceIsGone(genesis: Block, b: Block, threshold: nat)
    requires TwoBlocks(genesis, b)
    ensures Loses(Delivered(Started(genesis, b, threshold, [CREATED], false), genesis, b, threshold),
                  H.Info(0, true, true), CommittedAgain(genesis, b, threshold), StartedAtBlock(genesis, b, threshold))
  {
    TwoBlocksNumbers(genesis, b);
    assert [CREATED][0].source == 0;
    DuplicateIsNotAdded([CREATED], H.Info(0, true, true), 1);
  }

  /**
   For every reorg threshold, a run at whose end a block is committed that created a data source when it
   ran, and the data source is neither stored nor does it have a host.
   */
  lemma DataSourceIsLost(threshold: nat) returns (run: seq<System>, info: H.Info)
    ensures Run(run) && |run| > 2 && run[0].stream.ctx.reorgThreshold == threshold
    ensures Loses(run[|run| - 3], info, run[|run| - 2], run[|run| - 1])
  {
    var genesis := Child(Origin, 0, 0);
    var b := Child(genesis, 0, 1);
    BlockRunsAgain(genesis, b, threshold);
    SourceIsGone(genesis, b, threshold);
    info := H.Info(0, true, true);
    var x := Delivered(Started(genesis, b, threshold, [CREATED], false), genesis, b, threshold);
    run := LastTwoSteps(Started(genesis, b, threshold, [], true), x,
                        CommittedAgain(genesis, b, threshold), StartedAtBlock(genesis, b, threshold));
  }

  lemma LastTwoSteps(s0: System, x: System, y: System, z: System) returns (run: seq<System>)
    requires Reaches(s0, x) && Next(x, y) && Next(y, z)
    ensures Run(run) && |run| > 2 && run[0] == s0
    ensures run[|run| - 3] == x && run[|run| - 2] == y && run[|run| - 1] == z
  {
    run := LastStep(s0, x, y);
    run := Longer(run, z);
  }
}
