/** What the pipeline invariant means for the store, the hosts and the runner's assertions. */
module PipelineTheorems {
  import opened Wrappers
  import opened Chain
  import opened PollingStream
  import opened Reconciliation
  import opened Runner
  import opened Pipeline
  import H = Hosts

  // ------------------------------------------------------------------ the store and the chain

  /**
   In every state of every run the stored pointer is the block the runner has reached or an ancestor
   with only empty blocks in between, and the buffered events lead from there to the stream's position.
   */
  lemma PointerTracksStream(run: seq<System>, i: nat)
    requires Run(run) && i < |run| && run[i].life == Running
    ensures Anc(run[i].store.ptr, run[i].seen)
    ensures Bearing(Path(run[i].store.ptr, run[i].seen)) == []
    ensures Replay(run[i].seen, run[i].queue, run[i].stream.ctx.current, run[i].world.anchor)
    ensures |run[i].queue| <= BUFFERED_BLOCK_STREAM_SIZE + 1
  {
    RunInv(run, i);
    QuietBearsNothing(run[i].store.ptr, run[i].seen);
  }

  /**
   In every state of every run the committed blocks with triggers are exactly the blocks with triggers
   on the path from the floor to the pointer, each once and in order. A start block that was final to
   begin with stays the floor.
   */
  lemma CommittedBlocksAreThePath(run: seq<System>, i: nat)
    requires Run(run) && i < |run|
    ensures Anc(run[i].floor, run[i].store.ptr)
    ensures Bearing(Blocks(run[i].store.log)) == Bearing(Path(run[i].floor, run[i].store.ptr))
    ensures Anc(run[0].start, run[0].world.anchor) ==> run[i].floor == run[0].start
  {
    RunInv(run, i);
    StartAndAnchorStay(run, i);
  }

  lemma {:induction false} StartAndAnchorStay(run: seq<System>, i: nat)
    requires Run(run) && i < |run|
    ensures run[i].start == run[0].start && run[i].world.anchor == run[0].world.anchor && run[i].manifest == run[0].manifest
  {
    if i == 0 {
    } else {
      StartAndAnchorStay(run, i - 1);
      var s, s' := run[i - 1], run[i];
      assert Next(s, s');
      if !ChainStep(s, s') && !RequestStep(s, s') && !(exists a :: StreamStep(s, a, s')) {
        assert RunnerStep(s, s');
      }
    }
  }

  /** A revert event either leaves the store alone or takes back exactly the newest block. */
  lemma RevertsMoveOneBlock(run: seq<System>, i: nat, r: Handled)
    requires Run(run) && i + 1 < |run| && RevertStep(run[i], r, run[i + 1])
    ensures run[i + 1].store != run[i].store ==>
              && run[i].store.ptr == run[i].seen && run[i].store.ptr.Child?
              && run[i + 1].store == RevertStore(run[i].store, run[i].store.ptr.parent)
              && run[i + 1].store.ptr == run[i].store.ptr.parent
  {
    RunInv(run, i);
    RevertStepInv(run[i], r, run[i + 1]);
  }

  /** The store never refuses a block as a duplicate: blocks reach the runner above the pointer. */
  lemma BlocksComeAboveThePointer(run: seq<System>, i: nat)
    requires Run(run) && i < |run| && run[i].life == Running && run[i].queue != [] && run[i].queue[0].ProcessBlock?
    ensures Number(run[i].queue[0].block) > Number(run[i].store.ptr)
    ensures Anc(run[i].store.ptr, run[i].queue[0].block)
  {
    RunInv(run, i);
    QuietThenHop(run[i].store.ptr, run[i].seen, run[i].queue[0].block);
  }

  /** No reconciliation ever tries to revert the genesis block. */
  lemma GenesisIsNeverReverted(run: seq<System>, i: nat)
    requires Run(run) && i < |run| && run[i].life == Running && run[i].stream.mode == Reconciliation
    ensures run[i].future != Panicked
    ensures run[i].future == LoadParent ==> run[i].stream.ctx.current.Child? && run[i].stream.ctx.current.parent.Child?
  {
    RunInv(run, i);
    if run[i].future == LoadParent {
      AboveGenesis(run[i].stream.ctx.current, run[i].world.anchor);
    }
  }

  // ------------------------------------------------------------------ a revert whose write fails

  /**
   The pointer that the runner reads moves to the target of a revert before the store is written. Should
   the write fail, the stream starts over at the target while the newest block is still stored. When the
   next block from there is stored as well, the committed blocks are those on the path iff the block that
   should be gone carries no trigger, or was never committed.
   */
  lemma FailedRevertIff(s: Store, s': Store, floor: Block, b: Block, more: seq<H.Host>)
    requires LogInv(s.log, floor, s.ptr) && s.ptr.Child? && Hop(s.ptr.parent, b) && Commits(s, s', b, more)
    ensures var low := if floor == s.ptr then s.ptr.parent else floor;
            && Anc(low, b)
            && (Bearing(Blocks(s'.log)) == Bearing(Path(low, b)) <==> !Carries(s.ptr) || floor == s.ptr)
  {
    var to := s.ptr.parent;
    HopBearsLast(to, b);
    assert s'.log[..|s'.log| - 1] == s.log;
    BearingConcat(Blocks(s.log), [b]);
    if floor == s.ptr {
      assert s.log == [];
      assert Blocks(s'.log) == [b];
    } else {
      AncParent(floor, s.ptr);
      PathConcat(floor, to, b);
      BearingConcat(Path(floor, to), Path(to, b));
      assert Path(floor, s.ptr) == Path(floor, to) + [s.ptr];
      BearingConcat(Path(floor, to), [s.ptr]);
      OneBears(s.ptr);
      AddedInBetween(Bearing(Path(floor, to)), Bearing([s.ptr]), Bearing([b]));
    }
  }

  lemma OneBears(b: Block)
    ensures Bearing([b]) == [] <==> !Carries(b)
  {
    assert [b][..0] == [];
  }

  lemma AddedInBetween(x: seq<Block>, y: seq<Block>, z: seq<Block>)
    ensures (x + y) + z == x + z <==> y == []
  {
    assert |(x + y) + z| == |x| + |y| + |z|;
    if y == [] {
      assert x + y == x;
    }
  }

  // ------------------------------------------------------------------ the hosts

  lemma {:induction false} CreatedBeforeConcat(a: seq<H.Host>, b: seq<H.Host>, n: int)
    ensures H.CreatedBefore(a + b, n) == H.CreatedBefore(a, n) + H.CreatedBefore(b, n)
  {
    if b == [] {
      assert a + b == a;
    } else {
      assert (a + b)[..|a + b| - 1] == a + b[..|b| - 1];
      CreatedBeforeConcat(a, b[..|b| - 1], n);
    }
  }

  lemma {:induction false} ManifestStays(manifest: seq<H.Host>, n: int)
    requires forall i :: 0 <= i < |manifest| ==> manifest[i].creationBlock.None?
    ensures H.CreatedBefore(manifest, n) == manifest
  {
    if manifest == [] {
    } else {
      ManifestStays(manifest[..|manifest| - 1], n);
      assert manifest == manifest[..|manifest| - 1] + [manifest[|manifest| - 1]];
    }
  }

  lemma {:induction false} CreatedBeforeIsPrefix(hosts: seq<H.Host>, n: int)
    requires H.Sorted(hosts)
    ensures H.CreatedBefore(hosts, n) <= hosts && H.CreatedUpTo(H.CreatedBefore(hosts, n), n - 1)
  {
    H.PopIsFilter(hosts, n);
    if hosts != [] {
      CreatedBeforeIsPrefix(hosts[..|hosts| - 1], n);
    }
  }

  lemma ManifestFirst(manifest: seq<H.Host>, sources: seq<H.Host>, n: int)
    requires forall i :: 0 <= i < |manifest| ==> manifest[i].creationBlock.None?
    requires H.Sorted(sources) && H.CreatedUpTo(sources, n)
    ensures H.Sorted(manifest + sources) && H.CreatedUpTo(manifest + sources, n)
  {
    var hosts, m := manifest + sources, |manifest|;
    assert forall i :: m <= i < |hosts| ==> hosts[i] == sources[i - m];
    assert forall i :: 0 <= i < m ==> hosts[i] == manifest[i];
  }

  /** The hosts of a synchronised runner are sorted by creation block and bounded by the pointer. */
  lemma HostsSorted(s: System)
    requires HostInv(s) && s.hostsInSync
    ensures H.Sorted(s.hosts) && H.CreatedUpTo(s.hosts, Number(s.store.ptr))
  {
    ManifestFirst(s.manifest, s.store.sources, Number(s.store.ptr));
  }

  lemma SourcesAfterCommit(sources: seq<H.Host>, more: seq<H.Host>, p: int, b: nat)
    requires H.Sorted(sources) && H.CreatedUpTo(sources, p) && p <= b
    requires forall i :: 0 <= i < |more| ==> more[i].creationBlock == Some(b)
    ensures H.Sorted(sources + more) && H.CreatedUpTo(sources + more, b)
  {
    var all := sources + more;
    assert forall i :: 0 <= i < |sources| ==> all[i] == sources[i];
    assert forall i :: |sources| <= i < |all| ==> all[i] == more[i - |sources|];
  }

  /** Reverting to the parent pops exactly the hosts of the reverted data sources. */
  lemma RevertKeepsHosts(manifest: seq<H.Host>, sources: seq<H.Host>, n: nat)
    requires forall i :: 0 <= i < |manifest| ==> manifest[i].creationBlock.None?
    requires H.Sorted(sources)
    ensures H.PopFrom(manifest + sources, n) == manifest + H.CreatedBefore(sources, n)
  {
    var hosts := manifest + sources;
    assert H.Sorted(hosts) by {
      assert forall i :: |manifest| <= i < |hosts| ==> hosts[i] == sources[i - |manifest|];
      assert forall i :: 0 <= i < |manifest| ==> hosts[i] == manifest[i];
    }
    H.PopIsFilter(hosts, n);
    CreatedBeforeConcat(manifest, sources, n);
    ManifestStays(manifest, n);
  }

  lemma BlockStepHosts(s: System, env: Environment, r: Handled, committed: bool, s': System)
    requires HostInv(s) && BlockStep(s, env, r, committed, s') && Number(s.store.ptr) < Number(s.queue[0].block)
    ensures HostInv(s')
  {
    if committed {
      var more := s'.hosts[|s.hosts|..];
      assert forall i :: 0 <= i < |more| ==> more[i] == s'.hosts[|s.hosts| + i];
      SourcesAfterCommit(s.store.sources, more, Number(s.store.ptr), Number(s.queue[0].block));
      if s.hostsOrdered {
        SourcesAfterCommit(s.hosts, more, Number(s.store.ptr) + 1, Number(s.queue[0].block));
        assert s'.hosts == s.hosts + more;
      }
      if s.hostsInSync {
        HostsAfterCommit(s.manifest, s.store.sources, s.hosts, s'.hosts);
      }
    }
  }

  lemma HostsAfterCommit(manifest: seq<H.Host>, sources: seq<H.Host>, hosts: seq<H.Host>, hosts': seq<H.Host>)
    requires hosts == manifest + sources && hosts <= hosts'
    ensures hosts' == manifest + (sources + hosts'[|hosts|..])
  {
  }

  lemma SourcesAfterRevert(s: Store)
    requires H.Sorted(s.sources) && s.ptr.Child?
    requires forall i :: 0 <= i < |s.sources| ==> s.sources[i].creationBlock.Some?
    ensures var to := s.ptr.parent; var after := RevertStore(s, to).sources;
            && after == H.CreatedBefore(s.sources, Number(s.ptr))
            && H.Sorted(after) && H.CreatedUpTo(after, Number(to))
            && forall i :: 0 <= i < |after| ==> after[i].creationBlock.Some?
  {
    CreatedBeforeIsPrefix(s.sources, Number(s.ptr));
  }

  lemma RevertStepHosts(s: System, r: Handled, s': System)
    requires Inv(s) && HostInv(s) && RevertStep(s, r, s')
    ensures HostInv(s')
  {
    RevertStepInv(s, r, s');
    if s.hostsOrdered {
      H.PopIsFilter(s.hosts, Number(s.store.ptr));
      CreatedBeforeIsPrefix(s.hosts, Number(s.store.ptr));
    }
    if s.store.ptr.Child? && Number(s.queue[0].to) < Number(s.store.ptr) && r == Act(Continue) {
      SourcesAfterRevert(s.store);
      RevertKeepsHosts(s.manifest, s.store.sources, Number(s.store.ptr));
    }
  }

  lemma StartStepHosts(s: System, unfail: bool, s': System)
    requires Inv(s) && HostInv(s) && StartStep(s, unfail, s')
    ensures HostInv(s')
  {
    ManifestFirst(s.manifest, s.store.sources, Number(s.store.ptr));
    if unfail {
      SourcesAfterRevert(s.store);
      TakenBackIff(s.store.sources, Number(s.store.ptr));
    }
  }

  /** Taking back block `n` changes the stored data sources iff one was created in it. */
  lemma TakenBackIff(sources: seq<H.Host>, n: int)
    requires H.Sorted(sources) && H.CreatedUpTo(sources, n)
    ensures H.CreatedBefore(sources, n) == sources <==> !CreatedIn(sources, n)
  {
    CreatedBeforeIsPrefix(sources, n);
    if !CreatedIn(sources, n) {
      H.AllCreatedBefore(sources, n);
    }
  }

  /**
   After a start, in every run, the hosts are those of the manifest and the stored data sources iff the
   start took no block back in which a stored data source was created.
   */
  lemma StartedHostsMatchIff(run: seq<System>, i: nat, unfail: bool)
    requires Run(run) && i + 1 < |run| && StartStep(run[i], unfail, run[i + 1])
    ensures run[i + 1].hosts == run[i + 1].manifest + run[i + 1].store.sources
       <==> !unfail || !CreatedIn(run[i].store.sources, Number(run[i].store.ptr))
  {
    HostsMatchStore(run, i);
    RunInv(run, i);
    var s, s' := run[i], run[i + 1];
    if unfail {
      SourcesAfterRevert(s.store);
      TakenBackIff(s.store.sources, Number(s.store.ptr));
      if s.manifest + s.store.sources == s.manifest + s'.store.sources {
        assert s.store.sources == (s.manifest + s.store.sources)[|s.manifest|..];
        assert s'.store.sources == (s.manifest + s'.store.sources)[|s.manifest|..];
      }
    }
  }

  lemma InitHosts(s: System)
    requires Init(s)
    ensures HostInv(s)
  {
    assert s.manifest + [] == s.manifest;
  }

  lemma NextHosts(s: System, s': System)
    requires Inv(s) && HostInv(s) && Next(s, s')
    ensures HostInv(s')
  {
    if ChainStep(s, s') || RequestStep(s, s') || exists a :: StreamStep(s, a, s') {
    } else if env, r, committed :| BlockStep(s, env, r, committed, s') {
      BlockStepInv(s, env, r, committed, s');
      BlockStepHosts(s, env, r, committed, s');
    } else if r :| RevertStep(s, r, s') {
      RevertStepHosts(s, r, s');
    } else if r :| ErrorStep(s, r, s') {
    } else {
      var unfail :| StartStep(s, unfail, s');
      StartStepHosts(s, unfail, s');
    }
  }

  /**
   In every state of every run in which no block failed after it created data sources, and none whose
   data sources were stored was taken back by a start, the hosts are those of the manifest followed by
   one for each stored data source. Taken-back blocks leave the order of the hosts alone.
   */
  lemma {:induction false} HostsMatchStore(run: seq<System>, i: nat)
    requires Run(run) && i < |run|
    ensures HostInv(run[i])
  {
    if i == 0 {
      InitHosts(run[0]);
    } else {
      HostsMatchStore(run, i - 1);
      RunInv(run, i - 1);
      NextHosts(run[i - 1], run[i]);
    }
  }

  // ------------------------------------------------------------------ in all runs

  /** Every host of the manifest and of the stored data sources is among the runner's hosts. */
  ghost predicate HasStoredHosts(s: System) {
    && (forall i :: 0 <= i < |s.manifest| ==> s.manifest[i] in s.hosts)
    && (forall i :: 0 <= i < |s.store.sources| ==> s.store.sources[i] in s.hosts)
  }

  lemma {:induction false} PopKeepsOlder(hosts: seq<H.Host>, n: int, h: H.Host)
    requires h in hosts && (h.creationBlock.Some? ==> h.creationBlock.value < n)
    ensures h in H.PopFrom(hosts, n)
  {
    var front, last := hosts[..|hosts| - 1], hosts[|hosts| - 1];
    if last.creationBlock.Some? && last.creationBlock.value >= n {
      PopKeepsOlder(front, n, h);
    }
  }

  lemma {:induction false} CreatedBeforeIsOlder(hosts: seq<H.Host>, n: int, h: H.Host)
    requires h in H.CreatedBefore(hosts, n)
    ensures h in hosts && (h.creationBlock.Some? ==> h.creationBlock.value < n)
  {
    var front, last := hosts[..|hosts| - 1], hosts[|hosts| - 1];
    if h in H.CreatedBefore(front, n) {
      CreatedBeforeIsOlder(front, n, h);
    } else {
      assert h == last;
    }
  }

  lemma RevertKeepsStoredHosts(s: System, r: Handled, s': System)
    requires Inv(s) && HostInv(s) && HasStoredHosts(s) && RevertStep(s, r, s')
    ensures HasStoredHosts(s')
  {
    RevertStepInv(s, r, s');
    if s'.store != s.store {
      var n := Number(s.store.ptr);
      forall i | 0 <= i < |s.manifest| ensures s.manifest[i] in s'.hosts {
        PopKeepsOlder(s.hosts, n, s.manifest[i]);
      }
      forall i | 0 <= i < |s'.store.sources| ensures s'.store.sources[i] in s'.hosts {
        CreatedBeforeIsOlder(s.store.sources, n, s'.store.sources[i]);
        PopKeepsOlder(s.hosts, n, s'.store.sources[i]);
      }
    }
  }

  lemma BlockKeepsStoredHosts(s: System, env: Environment, r: Handled, committed: bool, s': System)
    requires HasStoredHosts(s) && BlockStep(s, env, r, committed, s')
    ensures HasStoredHosts(s')
  {
    assert s'.hosts == s.hosts + s'.hosts[|s.hosts|..];
  }

  lemma StartKeepsStoredHosts(s: System, unfail: bool, s': System)
    requires StartStep(s, unfail, s')
    ensures HasStoredHosts(s')
  {
    if unfail {
      forall i | 0 <= i < |s'.store.sources| ensures s'.store.sources[i] in s'.hosts {
        CreatedBeforeIsOlder(s.store.sources, Number(s.store.ptr), s'.store.sources[i]);
      }
    }
  }

  lemma NextKeepsStoredHosts(s: System, s': System)
    requires Inv(s) && HostInv(s) && HasStoredHosts(s) && Next(s, s')
    ensures HasStoredHosts(s')
  {
    if ChainStep(s, s') || RequestStep(s, s') || exists a :: StreamStep(s, a, s') {
    } else if env, r, committed :| BlockStep(s, env, r, committed, s') {
      BlockKeepsStoredHosts(s, env, r, committed, s');
    } else if r :| RevertStep(s, r, s') {
      RevertKeepsStoredHosts(s, r, s');
    } else if r :| ErrorStep(s, r, s') {
    } else {
      var unfail :| StartStep(s, unfail, s');
      StartKeepsStoredHosts(s, unfail, s');
    }
  }

  lemma InitHasStoredHosts(s: System)
    requires Init(s)
    ensures HasStoredHosts(s)
  {
  }

  /** In every state of every run, whatever failed before, every stored data source has its host. */
  lemma {:induction false} StoredSourcesHaveHosts(run: seq<System>, i: nat)
    requires Run(run) && i < |run|
    ensures HasStoredHosts(run[i])
  {
    if i == 0 {
      InitHasStoredHosts(run[0]);
    } else {
      StoredSourcesHaveHosts(run, i - 1);
      HostsMatchStore(run, i - 1);
      RunInv(run, i - 1);
      NextKeepsStoredHosts(run[i - 1], run[i]);
    }
  }

  /**
   The assertion that hosts stay ordered by creation block fires in no run, as long as no block failed
   after it created data sources; it does not matter which blocks were taken back by a start.
   */
  lemma HostOrderAssertionHolds(run: seq<System>, i: nat, created: seq<H.Info>, max: Option<nat>)
    requires Run(run) && i < |run| && run[i].life == Running && run[i].hostsOrdered
    requires run[i].queue != [] && run[i].queue[0].ProcessBlock?
    ensures Number(run[i].queue[0].block) >= 0
    ensures !H.AddAll(run[i].hosts, created, Number(run[i].queue[0].block), max).1.Misordered?
  {
    HostsMatchStore(run, i);
    BlocksComeAboveThePointer(run, i);
    H.AddAllKeepsOrder(run[i].hosts, created, Number(run[i].queue[0].block), max);
  }
}
