/**
 While reverts wait in the buffer, the stored pointer can be ahead of the block that the buffered
 events lead to. It stays behind every block reached on the way exactly when no buffered revert goes
 below it.
 */
module QueuedReverts {
  import opened Chain
  import opened PollingStream
  import opened Reconciliation
  import opened Runner
  import opened Pipeline
  import opened UnwrapPanic

  /** `ptr` is an ancestor-or-equal of `x` and of every block that replaying the events from `x` reaches. */
  ghost predicate StaysBehind(ptr: Block, x: Block, queue: seq<Item>)
    decreases |queue|
  {
    && Anc(ptr, x)
    && (queue != [] ==>
          match queue[0]
          case ProcessBlock(b) => StaysBehind(ptr, b, queue[1..])
          case Revert(to) => StaysBehind(ptr, to, queue[1..])
          case StreamError => StaysBehind(ptr, x, queue[1..]))
  }

  predicate GoesBelow(item: Item, ptr: Block) {
    item.Revert? && Number(item.to) < Number(ptr)
  }

  lemma NoneGoesBelow(queue: seq<Item>, ptr: Block)
    requires queue != []
    ensures (forall i :: 0 <= i < |queue| ==> !GoesBelow(queue[i], ptr))
       <==> !GoesBelow(queue[0], ptr) && forall i :: 0 <= i < |queue[1..]| ==> !GoesBelow(queue[1..][i], ptr)
  {
    assert forall i :: 0 < i < |queue| ==> queue[i] == queue[1..][i - 1];
  }

  lemma {:induction false} StaysBehindIff(ptr: Block, x: Block, queue: seq<Item>, y: Block, anchor: Block)
    requires Anc(ptr, x) && Replay(x, queue, y, anchor)
    ensures StaysBehind(ptr, x, queue) <==> forall i :: 0 <= i < |queue| ==> !GoesBelow(queue[i], ptr)
    ensures StaysBehind(ptr, x, queue) ==> Anc(ptr, y)
    decreases |queue|
  {
    if queue == [] {
    } else {
      NoneGoesBelow(queue, ptr);
      match queue[0]
      case ProcessBlock(b) =>
        AncTrans(ptr, x, b);
        StaysBehindIff(ptr, b, queue[1..], y, anchor);
      case Revert(to) =>
        AncParent(ptr, x);
        if ptr != x {
          StaysBehindIff(ptr, to, queue[1..], y, anchor);
        }
      case StreamError =>
        StaysBehindIff(ptr, x, queue[1..], y, anchor);
    }
  }

  /**
   In every state of every run, the pointer is an ancestor-or-equal of every block that replaying the
   buffered events reaches, and so of the stream's position, iff no buffered revert goes below it.
   */
  lemma PointerStaysBehindIff(run: seq<System>, i: nat)
    requires Run(run) && i < |run| && run[i].life == Running
    ensures StaysBehind(run[i].store.ptr, run[i].seen, run[i].queue)
       <==> forall k :: 0 <= k < |run[i].queue| ==> !GoesBelow(run[i].queue[k], run[i].store.ptr)
    ensures StaysBehind(run[i].store.ptr, run[i].seen, run[i].queue) ==> Anc(run[i].store.ptr, run[i].stream.ctx.current)
  {
    RunInv(run, i);
    var s := run[i];
    StaysBehindIff(s.store.ptr, s.seen, s.queue, s.stream.ctx.current, s.world.anchor);
  }

  // ------------------------------------------------------------------ a pointer that is ahead

  function AheadContext(sc: Scene, threshold: nat): Context {
    NewContext(sc.a1, threshold, [], 10, 0)
  }

  /** A deployment that stands at a block which the chain has left. */
  function AheadStart(sc: Scene, threshold: nat): System {
    System(ForkedWorld(sc), NewStream(AheadContext(sc, threshold)), ReadHead, [], sc.a1,
           Store(sc.a1, [], map[], []), [], [], true, true, false, Running, sc.a1, sc.a1)
  }

  lemma AheadStartIsInit(sc: Scene, threshold: nat)
    requires ValidFork(sc)
    ensures Init(AheadStart(sc, threshold)) && Reaches(AheadStart(sc, threshold), AheadStart(sc, threshold))
  {
    ShortWorldIsValid(sc, threshold);
    SceneNumbers(sc);
    var s0 := AheadStart(sc, threshold);
    assert Run([s0]);
  }

  /** For every reorg threshold, a run in which the pointer is ahead of the stream: the revert waits in the buffer. */
  lemma PointerIsAhead(threshold: nat) returns (run: seq<System>)
    ensures Run(run) && run[0].start.Child? && run[0].stream.ctx.reorgThreshold == threshold
    ensures var s := run[|run| - 1];
            && s.life == Running && s.store.ptr.Child?
            && s.stream.ctx.current == s.store.ptr.parent && !Anc(s.store.ptr, s.stream.ctx.current)
  {
    var sc := SceneExists();
    AheadStartIsInit(sc, threshold);
    SceneNumbers(sc);
    var s0 := AheadStart(sc, threshold);
    DoPoll(s0, s0);
    var s := Polled(s0);
    var asked := if threshold == 0 then CheckMainChain(sc.b2) else CompareAncestor(sc.b2);
    DoRequest(s0, s, asked);
    DoRequest(s0, s.(future := asked), LoadParent);
    DoRequest(s0, s.(future := LoadParent), Resolved(NextRevert(sc.genesis)));
    s := s.(future := Resolved(NextRevert(sc.genesis)));
    DoPoll(s0, s);
    run :| Run(run) && run[0] == s0 && run[|run| - 1] == Polled(s);
  }
}
