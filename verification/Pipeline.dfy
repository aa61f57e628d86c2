/**
 The indexing pipeline as one state machine: chain, polling stream, buffer, runner and store take
 steps in any order. The invariant relates the store to the chain in every reachable state.
 */
module Pipeline {
  import opened Wrappers
  import opened Chain
  import opened PollingStream
  import opened Reconciliation
  import opened Runner
  import H = Hosts

  const BUFFERED_BLOCK_STREAM_SIZE := 100

  datatype Life = Running | Stopped | Crashed

  /**
   `seen` is the block the runner reached by the events it has consumed, stored or not. `start` is the
   pointer the deployment began with and `floor` the lowest pointer since. `hostsOrdered` is lowered when
   a block fails after it created hosts, and raised when the runner starts anew. `hostsInSync` is lowered
   besides when a start takes back a block whose data sources were stored.
   */
  datatype System = System(
    world: World,
    stream: Stream,
    future: Future,
    queue: seq<Item>,
    seen: Block,
    store: Store,
    manifest: seq<H.Host>,
    hosts: seq<H.Host>,
    hostsInSync: bool,
    hostsOrdered: bool,
    synced: bool,
    life: Life,
    start: Block,
    floor: Block
  )

  // ------------------------------------------------------------------ steps

  /** `new_block_stream`: a stream and an empty buffer that start at the store's pointer. */
  ghost predicate FreshStream(s: System, s': System) {
    && s'.stream == NewStream(NewContext(s'.store.ptr, s.stream.ctx.reorgThreshold, s.stream.ctx.startBlocks,
                                         s'.stream.ctx.maxBlockRangeSize, s.stream.ctx.targetTriggersPerBlockRange))
    && s'.future == ReadHead && s'.queue == [] && s'.seen == s'.store.ptr
  }

  ghost predicate Same(s: System, s': System) {
    s'.world == s.world && s'.manifest == s.manifest && s'.start == s.start
  }

  ghost predicate ChainStep(s: System, s': System) {
    WorldStep(s.world, s'.world, s.stream.ctx.reorgThreshold) && s' == s.(world := s'.world)
  }

  ghost predicate RequestStep(s: System, s': System) {
    && s.life == Running && s.stream.mode == Reconciliation
    && ValidContext(s.stream.ctx) && Number(s.world.head) < BLOCK_NUMBER_MAX
    && FutureStep(s.world, s.stream.ctx, s.future, s'.future)
    && s' == s.(future := s'.future)
  }

  /** What polling the future returns. */
  function PollFuture(f: Future): FuturePoll {
    match f
    case Resolved(next) => FutureReady(next)
    case Failed => FutureFailed
    case _ => FuturePending
  }

  /** One round of the stream's loop; what it yields goes to the end of the buffer, which must have room. */
  ghost predicate StreamStep(s: System, a: Answer, s': System) {
    && s.life == Running && |s.queue| <= BUFFERED_BLOCK_STREAM_SIZE
    && a.future == PollFuture(s.future)
    && var (stream, outcome) := Step(s.stream, a);
       s' == s.(stream := stream,
                future := if s.stream.mode.BeginReconciliation? then ReadHead else s.future,
                queue := if outcome.Yield? then s.queue + [outcome.item] else s.queue)
  }

  ghost predicate AfterEvent(s: System, position: Block, r: Handled, s': System)
    requires s.queue != []
  {
    match r
    case Act(Continue) =>
      && s'.life == Running && s'.stream == s.stream && s'.future == s.future
      && s'.queue == s.queue[1..] && s'.seen == position
    case Act(Restart) => s'.life == Running && FreshStream(s, s')
    case Act(Stop) => s'.life == Stopped && s'.stream == s.stream
    case RunFails => s'.life == Stopped && s'.stream == s.stream
    case Panics => s'.life == Crashed && s'.stream == s.stream
  }

  ghost predicate BlockStep(s: System, env: Environment, r: Handled, committed: bool, s': System) {
    && s.life == Running && s.queue != [] && s.queue[0].ProcessBlock?
    && (env.cachedHead.Some? ==> env.cachedHead.value <= Number(s.world.head))
    && Same(s, s') && s'.floor == s.floor
    && HandlesBlock(s.store, s.hosts, s.synced, s.queue[0].block, env, s'.store, s'.hosts, r, committed)
    && s'.hostsInSync == (s.hostsInSync && (committed || s'.hosts == s.hosts))
    && s'.hostsOrdered == (s.hostsOrdered && (committed || s'.hosts == s.hosts))
    && AfterEvent(s, s.queue[0].block, r, s')
  }

  ghost predicate RevertStep(s: System, r: Handled, s': System) {
    && s.life == Running && s.queue != [] && s.queue[0].Revert?
    && Same(s, s') && s'.synced == s.synced && s'.hostsInSync == s.hostsInSync && s'.hostsOrdered == s.hostsOrdered
    && HandlesRevert(s.store, s.hosts, s.queue[0].to, s'.store, s'.hosts, r)
    && s'.floor == (if Number(s'.store.ptr) < Number(s.floor) then s'.store.ptr else s.floor)
    && AfterEvent(s, s.queue[0].to, r, s')
  }

  ghost predicate ErrorStep(s: System, r: Handled, s': System) {
    && s.life == Running && s.queue != [] && s.queue[0].StreamError?
    && (r == Act(Continue) || r == Act(Stop))
    && Same(s, s') && s'.synced == s.synced && s'.hostsInSync == s.hostsInSync && s'.hostsOrdered == s.hostsOrdered
    && s'.store == s.store && s'.hosts == s.hosts && s'.floor == s.floor
    && AfterEvent(s, s.seen, r, s')
  }

  /** Some of the data sources were created in block `n`. */
  ghost predicate CreatedIn(sources: seq<H.Host>, n: int) {
    exists i :: 0 <= i < |sources| && sources[i].creationBlock.Some? && sources[i].creationBlock.value == n
  }

  /**
   Starts the runner again, after it stopped or its process died. The hosts are loaded first; then the
   last block is taken back if it failed, and the hosts stay as they were loaded.
   */
  ghost predicate StartStep(s: System, unfail: bool, s': System) {
    && s'.life == Running
    && Same(s, s') && !s'.synced && s'.floor == s.floor
    && (unfail ==>
          && s.store.log != [] && s.store.log[|s.store.log| - 1].block == s.store.ptr
          && s.store.ptr.Child? && s.store.ptr.parent.Child?)
    && s'.store == (if unfail then RevertStore(s.store, s.store.ptr.parent) else s.store)
    && s'.hosts == s.manifest + s.store.sources && s'.hostsOrdered
    && s'.hostsInSync == !(unfail && CreatedIn(s.store.sources, Number(s.store.ptr)))
    && FreshStream(s, s')
  }

  ghost predicate RunnerStep(s: System, s': System) {
    || (exists env, r, committed :: BlockStep(s, env, r, committed, s'))
    || (exists r :: RevertStep(s, r, s'))
    || (exists r :: ErrorStep(s, r, s'))
    || (exists unfail :: StartStep(s, unfail, s'))
  }

  ghost predicate Next(s: System, s': System) {
    ChainStep(s, s') || RequestStep(s, s') || (exists a :: StreamStep(s, a, s')) || RunnerStep(s, s')
  }

  ghost predicate Init(s: System) {
    && ValidWorld(s.world, s.stream.ctx.reorgThreshold)
    && s.store.log == [] && s.store.sources == [] && s.store.ptr == s.start == s.floor
    && SameGenesis(s.start, s.world.anchor)
    && s.life == Running && !s.synced && s.hostsInSync && s.hostsOrdered && s.hosts == s.manifest
    && (forall i :: 0 <= i < |s.manifest| ==> s.manifest[i].creationBlock.None?)
    && FreshStream(s, s)
  }

  ghost predicate Run(run: seq<System>) {
    && run != [] && Init(run[0])
    && forall i :: 0 <= i < |run| - 1 ==> Next(run[i], run[i + 1])
  }

  // ------------------------------------------------------------------ the invariant

  /** The events of `queue` lead from `x` to `y`: hops forward, and reverts to the parent of non-final blocks. */
  ghost predicate Replay(x: Block, queue: seq<Item>, y: Block, anchor: Block)
    decreases |queue|
  {
    if queue == [] then x == y
    else
      match queue[0]
      case ProcessBlock(b) => Hop(x, b) && SameGenesis(b, anchor) && Replay(b, queue[1..], y, anchor)
      case Revert(to) => x.Child? && to == x.parent && to.Child? && !Anc(x, anchor) && Replay(to, queue[1..], y, anchor)
      case StreamError => Replay(x, queue[1..], y, anchor)
  }

  ghost predicate StreamInv(w: World, stream: Stream, future: Future) {
    && ValidContext(stream.ctx) && SameGenesis(stream.ctx.current, w.anchor)
    && (stream.mode.Reconciliation? ==> FutureInv(w, stream.ctx, future))
    && (stream.mode.YieldingBlocks? ==>
          && Hops(stream.ctx.current, stream.mode.next)
          && forall i :: 0 <= i < |stream.mode.next| ==> SameGenesis(stream.mode.next[i], w.anchor))
  }

  /** `v` is `p` or comes after it, and no block after `p` up to `v` carries a trigger. */
  ghost predicate Quiet(p: Block, v: Block) {
    Anc(p, v) && forall n :: Number(p) < n <= Number(v) ==> !Carries(At(v, n))
  }

  function Blocks(log: seq<Commit>): seq<Block> {
    if log == [] then [] else Blocks(log[..|log| - 1]) + [log[|log| - 1].block]
  }

  ghost predicate LogInv(log: seq<Commit>, floor: Block, ptr: Block) {
    && Anc(floor, ptr)
    && Bearing(Blocks(log)) == Bearing(Path(floor, ptr))
    && LogOrder(log, floor, ptr)
  }

  ghost predicate LogOrder(log: seq<Commit>, floor: Block, ptr: Block) {
    && (forall i :: 0 <= i < |log| ==> Number(floor) < Number(log[i].block) <= Number(ptr))
    && (forall i, j :: 0 <= i < j < |log| ==> Number(log[i].block) < Number(log[j].block))
  }

  ghost predicate HostInv(s: System) {
    && (s.hostsInSync ==> s.hosts == s.manifest + s.store.sources)
    && (s.hostsOrdered ==> H.Sorted(s.hosts) && H.CreatedUpTo(s.hosts, Number(s.store.ptr) + 1))
    && (forall i :: 0 <= i < |s.manifest| ==> s.manifest[i].creationBlock.None?)
    && H.Sorted(s.store.sources) && H.CreatedUpTo(s.store.sources, Number(s.store.ptr))
    && (forall i :: 0 <= i < |s.store.sources| ==> s.store.sources[i].creationBlock.Some?)
  }

  ghost predicate StoreInv(s: System) {
    && LogInv(s.store.log, s.floor, s.store.ptr)
    && SameGenesis(s.store.ptr, s.world.anchor)
    && (Anc(s.start, s.world.anchor) ==> s.floor == s.start)
  }

  ghost predicate RunningInv(s: System) {
    && StreamInv(s.world, s.stream, s.future)
    && Quiet(s.store.ptr, s.seen)
    && Replay(s.seen, s.queue, s.stream.ctx.current, s.world.anchor)
    && |s.queue| <= BUFFERED_BLOCK_STREAM_SIZE + 1
  }

  ghost predicate Inv(s: System) {
    && ValidWorld(s.world, s.stream.ctx.reorgThreshold)
    && StoreInv(s)
    && (s.life == Running ==> RunningInv(s))
  }

  // ------------------------------------------------------------------ positions

  lemma QuietThenHop(p: Block, v: Block, b: Block)
    requires Quiet(p, v) && Hop(v, b)
    ensures Hop(p, b)
    ensures !Carries(b) ==> Quiet(p, b)
  {
    AncTrans(p, v, b);
    forall n | Number(p) < n < Number(b) ensures !Carries(At(b, n)) {
      if n <= Number(v) {
        AtAt(b, Number(v), n);
      }
    }
  }

  lemma QuietParent(p: Block, v: Block)
    requires Quiet(p, v) && v.Child? && p != v
    ensures Quiet(p, v.parent)
  {
    AncParent(p, v);
    forall n | Number(p) < n <= Number(v.parent) ensures !Carries(At(v.parent, n)) {
      assert At(v, n) == At(v.parent, n);
    }
  }

  lemma {:induction false} QuietBearsNothing(p: Block, v: Block)
    requires Quiet(p, v)
    ensures Bearing(Path(p, v)) == []
    decreases v
  {
    if p != v {
      QuietParent(p, v);
      QuietBearsNothing(p, v.parent);
      assert Path(p, v)[..|Path(p, v)| - 1] == Path(p, v.parent);
      assert !Carries(At(v, Number(v)));
    }
  }

  /** On a hop, only the block it lands on can carry triggers. */
  lemma HopBearsLast(p: Block, b: Block)
    requires Hop(p, b)
    ensures Bearing(Path(p, b)) == Bearing([b])
  {
    AncParent(p, b);
    forall n | Number(p) < n <= Number(b.parent) ensures !Carries(At(b.parent, n)) {
      assert At(b, n) == At(b.parent, n);
    }
    QuietBearsNothing(p, b.parent);
    assert Path(p, b) == Path(p, b.parent) + [b];
    BearingConcat(Path(p, b.parent), [b]);
  }

  // ------------------------------------------------------------------ the queue

  lemma {:induction false} ReplayAppend(x: Block, queue: seq<Item>, y: Block, item: Item, z: Block, anchor: Block)
    requires Replay(x, queue, y, anchor) && Replay(y, [item], z, anchor)
    ensures Replay(x, queue + [item], z, anchor)
    decreases |queue|
  {
    if queue == [] {
      assert queue + [item] == [item];
    } else {
      assert (queue + [item])[1..] == queue[1..] + [item];
      match queue[0]
      case ProcessBlock(b) => ReplayAppend(b, queue[1..], y, item, z, anchor);
      case Revert(to) => ReplayAppend(to, queue[1..], y, item, z, anchor);
      case StreamError => ReplayAppend(x, queue[1..], y, item, z, anchor);
    }
  }

  // ------------------------------------------------------------------ the log

  lemma {:induction false} UndoLog(s: Store, n: int)
    requires forall i, j :: 0 <= i < j < |s.log| ==> Number(s.log[i].block) < Number(s.log[j].block)
    ensures Undo(s, n).log <= s.log
    ensures Blocks(Undo(s, n).log) == UpTo(Blocks(s.log), n)
    decreases |s.log|
  {
    if s.log == [] {
    } else {
      var front, last := s.log[..|s.log| - 1], s.log[|s.log| - 1];
      if Number(last.block) > n {
        UndoLog(s.(log := front, content := last.before), n);
        BlocksUpTo(s.log, n);
      } else {
        BlocksNumbers(s.log, n);
        UpToAll(Blocks(s.log), n);
      }
    }
  }

  lemma {:induction false} UndoNumbers(s: Store, n: int)
    requires forall i, j :: 0 <= i < j < |s.log| ==> Number(s.log[i].block) < Number(s.log[j].block)
    ensures forall i :: 0 <= i < |Undo(s, n).log| ==> Number(Undo(s, n).log[i].block) <= n
    decreases |s.log|
  {
    if s.log != [] && Number(s.log[|s.log| - 1].block) > n {
      UndoNumbers(s.(log := s.log[..|s.log| - 1], content := s.log[|s.log| - 1].before), n);
    }
  }

  /** A block above the limit does not count. */
  lemma BlocksUpTo(log: seq<Commit>, n: int)
    requires log != [] && Number(log[|log| - 1].block) > n
    ensures UpTo(Blocks(log), n) == UpTo(Blocks(log[..|log| - 1]), n)
  {
    var blocks := Blocks(log);
    assert blocks[..|blocks| - 1] == Blocks(log[..|log| - 1]);
    assert UpTo(blocks[..|blocks| - 1], n) + [] == UpTo(blocks[..|blocks| - 1], n);
  }

  lemma {:induction false} BlocksNumbers(log: seq<Commit>, n: int)
    requires forall i :: 0 <= i < |log| ==> Number(log[i].block) <= n
    ensures forall i :: 0 <= i < |Blocks(log)| ==> Number(Blocks(log)[i]) <= n
  {
    if log == [] {
    } else {
      BlocksNumbers(log[..|log| - 1], n);
    }
  }

  /** Storing a block keeps the log exact. */
  lemma CommitKeepsLog(before: Store, after: Store, b: Block, more: seq<H.Host>, floor: Block)
    requires LogInv(before.log, floor, before.ptr) && Hop(before.ptr, b) && Commits(before, after, b, more)
    ensures LogInv(after.log, floor, after.ptr)
  {
    CommitKeepsBearing(before, after, b, more, floor);
    forall i | 0 <= i < |after.log| ensures Number(floor) < Number(after.log[i].block) <= Number(b) {
      assert i < |before.log| ==> after.log[i] == before.log[i];
    }
    forall i, j | 0 <= i < j < |after.log| ensures Number(after.log[i].block) < Number(after.log[j].block) {
      assert after.log[i] == before.log[i];
      assert j < |before.log| ==> after.log[j] == before.log[j];
    }
  }

  lemma CommitKeepsBearing(before: Store, after: Store, b: Block, more: seq<H.Host>, floor: Block)
    requires LogInv(before.log, floor, before.ptr) && Hop(before.ptr, b) && Commits(before, after, b, more)
    ensures Anc(floor, b) && Bearing(Blocks(after.log)) == Bearing(Path(floor, b))
  {
    PathConcat(floor, before.ptr, b);
    BearingConcat(Path(floor, before.ptr), Path(before.ptr, b));
    HopBearsLast(before.ptr, b);
    assert after.log[..|after.log| - 1] == before.log;
    BearingConcat(Blocks(before.log), [b]);
  }

  lemma RevertKeepsBearing(s: Store, floor: Block, to: Block)
    requires LogInv(s.log, floor, s.ptr) && Anc(floor, to) && Anc(to, s.ptr)
    ensures Bearing(Blocks(Undo(s, Number(to)).log)) == Bearing(Path(floor, to))
  {
    UndoLog(s, Number(to));
    UndoNumbers(s, Number(to));
    BearingUpTo(Blocks(s.log), Number(to));
    BearingUpTo(Path(floor, s.ptr), Number(to));
    UpToPath(floor, to, s.ptr);
  }

  lemma RevertAboveFloor(s: Store, floor: Block, to: Block)
    requires LogInv(s.log, floor, s.ptr) && Anc(floor, to) && Anc(to, s.ptr)
    ensures LogInv(Undo(s, Number(to)).log, floor, to)
  {
    RevertKeepsBearing(s, floor, to);
    UndoLog(s, Number(to));
    UndoNumbers(s, Number(to));
    LogOrderPrefix(s.log, Undo(s, Number(to)).log, floor, s.ptr, to);
  }

  lemma LogOrderPrefix(log: seq<Commit>, prefix: seq<Commit>, floor: Block, ptr: Block, to: Block)
    requires LogOrder(log, floor, ptr) && prefix <= log
    requires forall i :: 0 <= i < |prefix| ==> Number(prefix[i].block) <= Number(to)
    ensures LogOrder(prefix, floor, to)
  {
    assert forall i :: 0 <= i < |prefix| ==> prefix[i] == log[i];
  }

  /** Taking back the newest block keeps the log exact; below the floor the floor moves along. */
  lemma RevertKeepsLog(s: Store, floor: Block)
    requires LogInv(s.log, floor, s.ptr) && s.ptr.Child?
    ensures var to := s.ptr.parent;
            LogInv(RevertStore(s, to).log, if Number(to) < Number(floor) then to else floor, to)
  {
    if floor == s.ptr {
      assert s.log == [];
    } else {
      AncParent(floor, s.ptr);
      RevertAboveFloor(s, floor, s.ptr.parent);
    }
  }

  // ------------------------------------------------------------------ every step keeps the invariant

  lemma ChainStepInv(s: System, s': System)
    requires Inv(s) && ChainStep(s, s')
    ensures Inv(s')
  {
    if s.life == Running && s.stream.mode.Reconciliation? {
      FutureInvWorldStep(s.world, s'.world, s.stream.ctx, s.future);
    }
  }

  lemma RequestStepInv(s: System, s': System)
    requires Inv(s) && RequestStep(s, s')
    ensures Inv(s')
  {
    FutureStepKeepsInv(s.world, s.stream.ctx, s.future, s'.future);
  }

  lemma StreamStepInv(s: System, a: Answer, s': System)
    requires Inv(s) && StreamStep(s, a, s')
    ensures Inv(s')
  {
    var (stream, outcome) := Step(s.stream, a);
    StreamKeepsInv(s, a);
    if outcome.Yield? {
      ReplayAppend(s.seen, s.queue, s.stream.ctx.current, outcome.item, stream.ctx.current, s.world.anchor);
    }
  }

  /** A round of the loop yields an event that leads from the old position to the new one. */
  lemma StreamKeepsInv(s: System, a: Answer)
    requires Inv(s) && s.life == Running && a.future == PollFuture(s.future)
    ensures var (stream, outcome) := Step(s.stream, a);
            && StreamInv(s.world, stream, if s.stream.mode.BeginReconciliation? then ReadHead else s.future)
            && (if outcome.Yield? then Replay(s.stream.ctx.current, [outcome.item], stream.ctx.current, s.world.anchor)
                else stream.ctx.current == s.stream.ctx.current)
            && stream.ctx.reorgThreshold == s.stream.ctx.reorgThreshold
  {
    var (stream, outcome) := Step(s.stream, a);
    if outcome.Yield? {
      assert [outcome.item][1..] == [];
    }
    if s.stream.mode.Reconciliation? && outcome == Yield(Revert(stream.ctx.current)) {
      assert SameGenesis(stream.ctx.current, s.world.anchor);
    }
  }

  /** Starting over at the stored pointer satisfies everything that a running pipeline needs. */
  lemma FreshStreamInv(s: System, s': System)
    requires FreshStream(s, s') && SameGenesis(s'.store.ptr, s'.world.anchor)
    ensures RunningInv(s')
  {
  }

  lemma AfterEventInv(s: System, position: Block, r: Handled, s': System)
    requires Inv(s) && s.life == Running && s.queue != [] && s'.world == s.world && StoreInv(s')
    requires AfterEvent(s, position, r, s')
    requires r == Act(Continue) ==>
               Quiet(s'.store.ptr, position) && Replay(position, s.queue[1..], s.stream.ctx.current, s.world.anchor)
    ensures Inv(s')
  {
    if r == Act(Restart) {
      FreshStreamInv(s, s');
    }
  }

  lemma BlockStepInv(s: System, env: Environment, r: Handled, committed: bool, s': System)
    requires Inv(s) && BlockStep(s, env, r, committed, s')
    ensures Inv(s')
    ensures Number(s.queue[0].block) > Number(s.store.ptr)
  {
    var b := s.queue[0].block;
    QuietThenHop(s.store.ptr, s.seen, b);
    if committed {
      CommitKeepsLog(s.store, s'.store, b, s'.hosts[|s.hosts|..], s.floor);
    }
    AfterEventInv(s, b, r, s');
  }

  /** A revert the runner does not ignore takes exactly the newest stored block back. */
  lemma RevertStepInv(s: System, r: Handled, s': System)
    requires Inv(s) && RevertStep(s, r, s')
    ensures Inv(s')
    ensures s'.store == s.store ||
            (s.store.ptr == s.seen && s.store.ptr.Child? && s.queue[0].to == s.store.ptr.parent
             && s'.store == RevertStore(s.store, s.store.ptr.parent))
  {
    var to := s.queue[0].to;
    if s.store.ptr == s.seen {
      RevertKeepsLog(s.store, s.floor);
      assert SameGenesis(to, s.world.anchor);
    } else {
      QuietParent(s.store.ptr, s.seen);
    }
    AfterEventInv(s, to, r, s');
  }

  lemma ErrorStepInv(s: System, r: Handled, s': System)
    requires Inv(s) && ErrorStep(s, r, s')
    ensures Inv(s')
  {
    AfterEventInv(s, s.seen, r, s');
  }

  lemma StartStepInv(s: System, unfail: bool, s': System)
    requires Inv(s) && StartStep(s, unfail, s')
    ensures Inv(s')
  {
    if unfail {
      RevertKeepsLog(s.store, s.floor);
    }
    FreshStreamInv(s, s');
  }

  lemma NextInv(s: System, s': System)
    requires Inv(s) && Next(s, s')
    ensures Inv(s')
  {
    if ChainStep(s, s') {
      ChainStepInv(s, s');
    } else if RequestStep(s, s') {
      RequestStepInv(s, s');
    } else if a :| StreamStep(s, a, s') {
      StreamStepInv(s, a, s');
    } else if env, r, committed :| BlockStep(s, env, r, committed, s') {
      BlockStepInv(s, env, r, committed, s');
    } else if r :| RevertStep(s, r, s') {
      RevertStepInv(s, r, s');
    } else if r :| ErrorStep(s, r, s') {
      ErrorStepInv(s, r, s');
    } else {
      var unfail :| StartStep(s, unfail, s');
      StartStepInv(s, unfail, s');
    }
  }

  /** The invariant holds in every state of every run. */
  lemma {:induction false} RunInv(run: seq<System>, i: nat)
    requires Run(run) && i < |run|
    ensures Inv(run[i])
  {
    if i == 0 {
      FreshStreamInv(run[0], run[0]);
    } else {
      RunInv(run, i - 1);
      NextInv(run[i - 1], run[i]);
    }
  }
}
