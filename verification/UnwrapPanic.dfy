/**
 `handle_revert` unwraps the stored pointer on the grounds that the subgraph must have advanced
 before a revert can arrive. Skipped pointer updates break that: a deployment that starts without a
 pointer can receive a revert while it still has none. It is safe exactly for deployments that start
 with a pointer.
 */
module UnwrapPanic {
  import opened Wrappers
  import opened Chain
  import opened PollingStream
  import opened Reconciliation
  import opened Runner
  import opened Pipeline

  /** The runner is about to unwrap an absent pointer. */
  ghost predicate UnwrapPanics(s: System) {
    s.life == Running && s.queue != [] && s.queue[0].Revert? && s.store.ptr.Origin?
  }

  // ------------------------------------------------------------------ safe with a start pointer

  lemma BlockKeepsPointer(s: System, env: Environment, r: Handled, committed: bool, s': System)
    requires Inv(s) && s.store.ptr.Child? && BlockStep(s, env, r, committed, s')
    ensures s'.store.ptr.Child?
  {
    BlockStepInv(s, env, r, committed, s');
  }

  lemma RevertKeepsPointer(s: System, r: Handled, s': System)
    requires Inv(s) && s.store.ptr.Child? && RevertStep(s, r, s')
    ensures s'.store.ptr.Child?
  {
    RevertStepInv(s, r, s');
  }

  lemma NextKeepsPointer(s: System, s': System)
    requires Inv(s) && s.store.ptr.Child? && Next(s, s')
    ensures s'.store.ptr.Child?
  {
    if ChainStep(s, s') || RequestStep(s, s') {
    } else if a :| StreamStep(s, a, s') {
    } else if env, r, committed :| BlockStep(s, env, r, committed, s') {
      BlockKeepsPointer(s, env, r, committed, s');
    } else if r :| RevertStep(s, r, s') {
      RevertKeepsPointer(s, r, s');
    } else if r :| ErrorStep(s, r, s') {
    } else {
      var unfail :| StartStep(s, unfail, s');
    }
  }

  lemma {:induction false} PointerStays(run: seq<System>, i: nat)
    requires Run(run) && i < |run| && run[0].start.Child?
    ensures run[i].store.ptr.Child?
  {
    if i == 0 {
    } else {
      PointerStays(run, i - 1);
      RunInv(run, i - 1);
      NextKeepsPointer(run[i - 1], run[i]);
    }
  }

  // ------------------------------------------------------------------ a run that panics without one

  /** Some run from `s0` ends in `s`. */
  ghost predicate Reaches(s0: System, s: System) {
    exists run :: Run(run) && run[0] == s0 && run[|run| - 1] == s
  }

  lemma ReachesNext(s0: System, s: System, s': System)
    requires Reaches(s0, s) && Next(s, s')
    ensures Reaches(s0, s')
  {
    var run :| Run(run) && run[0] == s0 && run[|run| - 1] == s;
    var run' := run + [s'];
    forall i | 0 <= i < |run'| - 1 ensures Next(run'[i], run'[i + 1]) {
      assert run'[i] == run[i];
      assert i < |run| - 1 ==> run'[i + 1] == run[i + 1];
    }
    assert Run(run') && run'[0] == s0 && run'[|run'| - 1] == s';
  }

  const TICK := Answer(FuturePending, true, Updated)

  ghost function Polled(s: System): System {
    var (stream, outcome) := Step(s.stream, TICK.(future := PollFuture(s.future)));
    s.(stream := stream,
       future := if s.stream.mode.BeginReconciliation? then ReadHead else s.future,
       queue := if outcome.Yield? then s.queue + [outcome.item] else s.queue)
  }

  lemma DoPoll(s0: System, s: System)
    requires Reaches(s0, s) && s.life == Running && |s.queue| <= 10
    ensures Reaches(s0, Polled(s))
  {
    assert StreamStep(s, TICK.(future := PollFuture(s.future)), Polled(s));
    ReachesNext(s0, s, Polled(s));
  }

  lemma DoRequest(s0: System, s: System, f': Future)
    requires Reaches(s0, s) && s.life == Running && s.stream.mode == Reconciliation
    requires ValidContext(s.stream.ctx) && Number(s.world.head) < BLOCK_NUMBER_MAX
    requires FutureStep(s.world, s.stream.ctx, s.future, f')
    ensures Reaches(s0, s.(future := f'))
  {
    assert RequestStep(s, s.(future := f'));
    ReachesNext(s0, s, s.(future := f'));
  }

  lemma DoChain(s0: System, s: System, w': World)
    requires Reaches(s0, s) && WorldStep(s.world, w', s.stream.ctx.reorgThreshold)
    ensures Reaches(s0, s.(world := w'))
  {
    assert ChainStep(s, s.(world := w'));
    ReachesNext(s0, s, s.(world := w'));
  }

  /** The runner skips an empty block that is far from the head. */
  lemma DoSkip(s0: System, s: System)
    requires Reaches(s0, s) && s.life == Running && s.queue != [] && s.queue[0].ProcessBlock?
    requires !Carries(s.queue[0].block) && !s.synced && Number(s.queue[0].block) < Number(s.world.head) - SKIP_DISTANCE
    ensures Reaches(s0, s.(queue := s.queue[1..], seen := s.queue[0].block))
  {
    var s' := s.(queue := s.queue[1..], seen := s.queue[0].block);
    var env := Environment(false, Some(Number(s.world.head)), false, false);
    assert BlockStep(s, env, Act(Continue), false, s');
    ReachesNext(s0, s, s');
  }

  /** The context after one empty block was yielded. */
  function Advanced(ctx: Context, b: Block, range: RangeSize): Context {
    ctx.(current := b, previousTriggersPerBlock := 0.0, previousBlockRangeSize := range)
  }

  /** Yields one block that has just been scanned and begins the next reconciliation. */
  lemma DoYield(s0: System, s: System, b: Block, range: RangeSize)
    requires Reaches(s0, s) && s.life == Running && |s.queue| <= 5
    requires s.stream.mode == Reconciliation && s.stream.errCount == 0
    requires s.future == Resolved(NextBlocks([b], range)) && !Carries(b)
    ensures Reaches(s0, s.(stream := Stream(Reconciliation, 0, Advanced(s.stream.ctx, b, range)),
                           future := ReadHead, queue := s.queue + [ProcessBlock(b)]))
  {
    assert TotalTriggers([b]) == 0 by {
      assert [b][..0] == [];
    }
    DoPoll(s0, s);
    var s1 := Polled(s);
    assert s1.stream == Stream(YieldingBlocks([b]), 0, Advanced(s.stream.ctx, s.stream.ctx.current, range));
    DoPoll(s0, s1);
    var s2 := Polled(s1);
    assert [b][1..] == [];
    assert s2.stream == Stream(YieldingBlocks([]), 0, Advanced(s.stream.ctx, b, range));
    DoPoll(s0, s2);
    var s3 := Polled(s2);
    assert s3.stream == Stream(BeginReconciliation, 0, Advanced(s.stream.ctx, b, range));
    DoPoll(s0, s3);
  }

  /** A chain of one block after genesis, and a fork of it at genesis that grows long. No block carries triggers. */
  datatype Scene = Scene(genesis: Block, a1: Block, b1: Block, b2: Block, low: Block, top: Block)

  ghost predicate ValidScene(sc: Scene) {
    ValidFork(sc) && Anc(sc.b1, sc.low) && sc.top.Child? && sc.top.parent == sc.low && Number(sc.top) == 1500
  }

  ghost predicate ValidFork(sc: Scene) {
    && sc.genesis.Child? && sc.genesis.parent.Origin? && sc.genesis.triggers == 0
    && sc.a1.Child? && sc.a1.parent == sc.genesis && sc.a1.triggers == 0
    && sc.b1.Child? && sc.b1.parent == sc.genesis && sc.b1 != sc.a1
    && sc.b2.Child? && sc.b2.parent == sc.b1
  }

  lemma {:induction false} Grow(b: Block, k: nat) returns (t: Block)
    ensures Anc(b, t) && Number(t) == Number(b) + k
  {
    t := b;
    if k > 0 {
      var u := Grow(b, k - 1);
      t := Child(u, 2, 0);
      AncParent(b, t);
    }
  }

  lemma SceneExists() returns (sc: Scene)
    ensures ValidScene(sc)
  {
    var genesis := Child(Origin, 0, 0);
    var b1 := Child(genesis, 2, 0);
    var low := Grow(b1, 1498);
    sc := Scene(genesis, Child(genesis, 1, 0), b1, Child(b1, 2, 0), low, Child(low, 2, 0));
  }

  function ShortWorld(sc: Scene): World { World(sc.a1, sc.a1, sc.genesis, sc.genesis) }
  function ForkedWorld(sc: Scene): World { World(sc.b2, sc.b2, sc.b1, sc.genesis) }
  function LongWorld(sc: Scene): World { World(sc.top, sc.top, sc.low, sc.genesis) }

  lemma ShortWorldIsValid(sc: Scene, threshold: nat)
    requires ValidFork(sc)
    ensures ValidWorld(ShortWorld(sc), threshold)
    ensures WorldStep(ShortWorld(sc), ForkedWorld(sc), threshold)
  {
    AncParent(sc.genesis, sc.a1);
    AncParent(sc.genesis, sc.b1);
    AncParent(sc.b1, sc.b2);
  }

  lemma LongWorldIsValid(sc: Scene, threshold: nat)
    requires ValidScene(sc)
    ensures WorldStep(ForkedWorld(sc), LongWorld(sc), threshold)
  {
    AncParent(sc.genesis, sc.b1);
    AncTrans(sc.genesis, sc.b1, sc.low);
    AncParent(sc.low, sc.top);
  }

  function StartContext(threshold: nat): Context {
    NewContext(Origin, threshold, [], 10, 0)
  }

  function StartSystem(sc: Scene, threshold: nat): System {
    System(ShortWorld(sc), NewStream(StartContext(threshold)), ReadHead, [], Origin,
           Store(Origin, [], map[], []), [], [], true, true, false, Running, Origin, Origin)
  }

  function StateAfter(sc: Scene, threshold: nat, ctx: Context, queue: seq<Item>): System {
    StartSystem(sc, threshold).(stream := Stream(Reconciliation, 0, ctx), queue := queue)
  }

  lemma StartReaches(sc: Scene, threshold: nat)
    requires ValidFork(sc)
    ensures Reaches(StartSystem(sc, threshold), StateAfter(sc, threshold, StartContext(threshold), []))
  {
    ShortWorldIsValid(sc, threshold);
    var s0 := StartSystem(sc, threshold);
    assert Run([s0]);
    DoPoll(s0, s0);
  }

  /** From an absent pointer the stream yields the genesis block. */
  lemma FirstBlock(sc: Scene, threshold: nat)
    requires ValidFork(sc)
    ensures Reaches(StartSystem(sc, threshold),
                    StateAfter(sc, threshold, Advanced(StartContext(threshold), sc.genesis, 1), [ProcessBlock(sc.genesis)]))
  {
    ShortWorldIsValid(sc, threshold);
    StartReaches(sc, threshold);
    var s0, ctx := StartSystem(sc, threshold), StartContext(threshold);
    var s := StateAfter(sc, threshold, ctx, []);
    assert NextRangeSize(ctx) == 1 && ScanEnd(ctx, sc.a1) == 0;
    DoRequest(s0, s, Scan(0, 1));
    assert ScanResult(0, sc.genesis, [sc.genesis]);
    var next := NextBlocks([sc.genesis], 1);
    DoRequest(s0, s.(future := Scan(0, 1)), Resolved(next));
    DoYield(s0, s.(future := Resolved(next)), sc.genesis, 1);
    assert [] + [ProcessBlock(sc.genesis)] == [ProcessBlock(sc.genesis)];
  }

  /** What the second reconciliation resolves to: a scan with threshold zero, else a single block. */
  function SecondNext(sc: Scene, threshold: nat): NextBlocks {
    NextBlocks([sc.a1], if threshold == 0 then 10 else 1)
  }

  function AtGenesis(sc: Scene, threshold: nat): System {
    StateAfter(sc, threshold, Advanced(StartContext(threshold), sc.genesis, 1), [ProcessBlock(sc.genesis)])
  }

  lemma SceneNumbers(sc: Scene)
    requires ValidFork(sc)
    ensures Number(sc.genesis) == 0 && Number(sc.a1) == 1 && Number(sc.b1) == 1 && Number(sc.b2) == 2
    ensures At(sc.a1, 0) == sc.genesis && At(sc.a1, 1) == sc.a1
    ensures At(sc.b2, 1) == sc.b1 && At(sc.b2, 2) == sc.b2
  {
  }

  lemma SecondByScan(s0: System, s: System, sc: Scene)
    requires ValidFork(sc) && Reaches(s0, s) && s.life == Running && s.stream.mode == Reconciliation
    requires s.world == ShortWorld(sc) && s.future == ReadHead
    requires s.stream.ctx == Advanced(StartContext(0), sc.genesis, 1)
    ensures Reaches(s0, s.(future := Resolved(SecondNext(sc, 0))))
  {
    SceneNumbers(sc);
    var ctx := s.stream.ctx;
    assert Direct(ctx, sc.a1) == BeyondThreshold;
    DoRequest(s0, s, CheckMainChain(sc.a1));
    assert NextRangeSize(ctx) == 10 && ScanEnd(ctx, sc.a1) == 1;
    DoRequest(s0, s.(future := CheckMainChain(sc.a1)), Scan(1, 10));
    assert ScanResult(1, sc.a1, [sc.a1]);
    DoRequest(s0, s.(future := Scan(1, 10)), Resolved(SecondNext(sc, 0)));
  }

  lemma SecondByAncestor(s0: System, s: System, sc: Scene)
    requires ValidFork(sc) && Reaches(s0, s) && s.life == Running && s.stream.mode == Reconciliation
    requires s.world == ShortWorld(sc) && s.future == ReadHead
    requires ValidContext(s.stream.ctx) && s.stream.ctx.current == sc.genesis && s.stream.ctx.reorgThreshold > 0
    ensures Reaches(s0, s.(future := Resolved(NextBlocks([sc.a1], 1))))
  {
    SceneNumbers(sc);
    assert Direct(s.stream.ctx, sc.a1) == WithinThreshold;
    DoRequest(s0, s, CompareAncestor(sc.a1));
    DoRequest(s0, s.(future := CompareAncestor(sc.a1)), LoadTriggers(sc.a1));
    DoRequest(s0, s.(future := LoadTriggers(sc.a1)), Resolved(NextBlocks([sc.a1], 1)));
  }

  /** Then it yields the block after genesis. */
  lemma SecondBlock(sc: Scene, threshold: nat) returns (ctx: Context)
    requires ValidFork(sc)
    ensures ctx.current == sc.a1 && ctx.reorgThreshold == threshold && ValidContext(ctx)
    ensures Reaches(StartSystem(sc, threshold),
                    StateAfter(sc, threshold, ctx, [ProcessBlock(sc.genesis), ProcessBlock(sc.a1)]))
  {
    var s0, s := StartSystem(sc, threshold), AtGenesis(sc, threshold);
    FirstBlock(sc, threshold);
    if threshold == 0 {
      SecondByScan(s0, s, sc);
    } else {
      SecondByAncestor(s0, s, sc);
    }
    var next := SecondNext(sc, threshold);
    DoYield(s0, s.(future := Resolved(next)), sc.a1, next.rangeSize);
    ctx := Advanced(s.stream.ctx, sc.a1, next.rangeSize);
    assert [ProcessBlock(sc.genesis)] + [ProcessBlock(sc.a1)] == [ProcessBlock(sc.genesis), ProcessBlock(sc.a1)];
  }

  /** The chain forks at genesis, and the stream asks for the second block to be reverted. */
  lemma RevertArrives(sc: Scene, threshold: nat) returns (s: System)
    requires ValidFork(sc)
    ensures Reaches(StartSystem(sc, threshold), s)
    ensures s.life == Running && s.world == ForkedWorld(sc) && !s.synced && s.store.ptr == Origin
    ensures s.stream.ctx.reorgThreshold == threshold
    ensures s.queue == [ProcessBlock(sc.genesis), ProcessBlock(sc.a1), Revert(sc.genesis)]
  {
    ShortWorldIsValid(sc, threshold);
    SceneNumbers(sc);
    var s0 := StartSystem(sc, threshold);
    var ctx := SecondBlock(sc, threshold);
    var q := [ProcessBlock(sc.genesis), ProcessBlock(sc.a1)];
    DoChain(s0, StateAfter(sc, threshold, ctx, q), ForkedWorld(sc));
    s := StateAfter(sc, threshold, ctx, q).(world := ForkedWorld(sc));
    var asked := if threshold == 0 then CheckMainChain(sc.b2) else CompareAncestor(sc.b2);
    DoRequest(s0, s, asked);
    DoRequest(s0, s.(future := asked), LoadParent);
    DoRequest(s0, s.(future := LoadParent), Resolved(NextRevert(sc.genesis)));
    s := s.(future := Resolved(NextRevert(sc.genesis)));
    DoPoll(s0, s);
    s := Polled(s);
    assert q + [Revert(sc.genesis)] == [ProcessBlock(sc.genesis), ProcessBlock(sc.a1), Revert(sc.genesis)];
  }

  /** Without a start pointer, a run exists for every reorg threshold that ends in the unwrap. */
  lemma PanickingRun(threshold: nat) returns (run: seq<System>)
    ensures Run(run) && run[0].start == Origin && run[0].stream.ctx.reorgThreshold == threshold
    ensures UnwrapPanics(run[|run| - 1])
  {
    var sc := SceneExists();
    LongWorldIsValid(sc, threshold);
    var s0 := StartSystem(sc, threshold);
    var s := RevertArrives(sc, threshold);
    DoChain(s0, s, LongWorld(sc));
    s := s.(world := LongWorld(sc));
    DoSkip(s0, s);
    s := s.(queue := s.queue[1..], seen := s.queue[0].block);
    DoSkip(s0, s);
    s := s.(queue := s.queue[1..], seen := s.queue[0].block);
    run :| Run(run) && run[0] == s0 && run[|run| - 1] == s;
  }

  /** No run from `start` panics, whatever the chain does. */
  ghost predicate NeverPanics(start: Block, threshold: nat) {
    forall run: seq<System> :: Run(run) && run[0].start == start && run[0].stream.ctx.reorgThreshold == threshold
                  ==> forall i :: 0 <= i < |run| ==> !UnwrapPanics(run[i])
  }

  /** Unwrapping the stored pointer is safe in all runs iff the deployment starts with a pointer. */
  lemma UnwrapIsSafeIff(start: Block, threshold: nat)
    ensures NeverPanics(start, threshold) <==> start.Child?
  {
    if start.Child? {
      forall run: seq<System> | Run(run) && run[0].start == start && run[0].stream.ctx.reorgThreshold == threshold
        ensures forall i :: 0 <= i < |run| ==> !UnwrapPanics(run[i])
      {
        forall i | 0 <= i < |run| ensures !UnwrapPanics(run[i]) {
          PointerStays(run, i);
        }
      }
    } else {
      var run := PanickingRun(threshold);
      assert UnwrapPanics(run[|run| - 1]);
    }
  }
}
