/**
 The reconciliation future behind the polling stream, run against a chain whose head may change
 between any two of its requests, and the theorem that it settles on a head that stops moving.
 */
module Reconciliation {
  import opened Chain
  import opened PollingStream

  // ------------------------------------------------------------------ the environment

  /**
   `head` is the chain store's head, `node` the head the Ethereum node answers from, `fin` the
   newest block known to be final and `anchor` a block that was final from the start.
   */
  datatype World = World(head: Block, node: Block, fin: Block, anchor: Block)

  /** Blocks more than `threshold` below the chain head are final. The node may be ahead of or behind the final block. */
  ghost predicate ValidWorld(w: World, threshold: nat) {
    && w.anchor.Child?
    && Anc(w.anchor, w.fin)
    && (Anc(w.fin, w.node) || Anc(w.node, w.fin))
    && (w.head.Child? ==> Anc(w.fin, w.head))
    && Number(w.head) - threshold - 1 <= Number(w.fin)
    && Number(w.head) < BLOCK_NUMBER_MAX
  }

  /** Heads are replaced only by higher ones; the final prefix only grows. */
  ghost predicate WorldStep(w: World, w': World, threshold: nat) {
    && ValidWorld(w', threshold)
    && w'.anchor == w.anchor
    && Anc(w.fin, w'.fin)
    && (w'.head == w.head || Number(w'.head) > Number(w.head))
  }

  // ------------------------------------------------------------------ what a scan returns

  /**
   The contract of `scan_triggers` on the chain that ends in `top`: blocks of that chain from number
   `from` on, ascending, ending with `top`, and leaving out only blocks without triggers.
   */
  ghost predicate ScanResult(from: int, top: Block, blocks: seq<Block>) {
    ScanAscends(from, top, blocks) && ScanCovers(from, top, blocks)
  }

  ghost predicate ScanAscends(from: int, top: Block, blocks: seq<Block>) {
    && blocks != [] && blocks[|blocks| - 1] == top
    && (forall i :: 0 <= i < |blocks| ==> from <= Number(blocks[i]) && Anc(blocks[i], top))
    && (forall i, j :: 0 <= i < j < |blocks| ==> Number(blocks[i]) < Number(blocks[j]))
  }

  ghost predicate ScanCovers(from: int, top: Block, blocks: seq<Block>) {
    forall n :: from <= n <= Number(top) && 0 <= n && Carries(At(top, n)) ==> At(top, n) in blocks
  }

  /** `b` lies ahead of `x` and no block strictly between them carries a trigger. */
  ghost predicate Hop(x: Block, b: Block) {
    && Anc(x, b) && x != b
    && forall n :: Number(x) < n < Number(b) ==> !Carries(At(b, n))
  }

  /** Each block is a hop from the previous one. */
  ghost predicate Hops(x: Block, blocks: seq<Block>)
    decreases |blocks|
  {
    blocks == [] || (Hop(x, blocks[0]) && Hops(blocks[0], blocks[1..]))
  }

  lemma ScanFirstHop(x: Block, top: Block, blocks: seq<Block>)
    requires Anc(x, top) && ScanResult(Number(x) + 1, top, blocks)
    ensures Hop(x, blocks[0])
  {
    var b := blocks[0];
    AncLinear(x, b, top);
    assert forall i :: 0 <= i < |blocks| ==> Number(blocks[i]) >= Number(b);
    forall n | Number(x) < n < Number(b) ensures !Carries(At(b, n)) {
      AtAt(top, Number(b), n);
    }
  }

  lemma ScanRest(from: int, top: Block, blocks: seq<Block>)
    requires ScanResult(from, top, blocks) && |blocks| > 1
    ensures ScanResult(Number(blocks[0]) + 1, top, blocks[1..])
  {
    var b, rest := blocks[0], blocks[1..];
    assert rest[|rest| - 1] == top;
    assert forall i :: 0 <= i < |rest| ==> rest[i] == blocks[i + 1];
    forall n | Number(b) + 1 <= n <= Number(top) && 0 <= n && Carries(At(top, n)) ensures At(top, n) in rest {
      assert At(top, n) in blocks && At(top, n) != b;
    }
  }

  lemma {:induction false} ScanHops(x: Block, top: Block, blocks: seq<Block>)
    requires Anc(x, top) && ScanResult(Number(x) + 1, top, blocks)
    ensures Hops(x, blocks)
    decreases |blocks|
  {
    ScanFirstHop(x, top, blocks);
    if |blocks| > 1 {
      ScanRest(Number(x) + 1, top, blocks);
      ScanHops(blocks[0], top, blocks[1..]);
    }
  }

  /** Some result satisfies the contract: the trigger-bearing blocks and the last one. */
  lemma {:induction false} ScanResultExists(x: Block, top: Block) returns (blocks: seq<Block>)
    requires Anc(x, top) && x != top
    ensures ScanResult(Number(x) + 1, top, blocks)
  {
    blocks := Path(x, top);
    forall i | 0 <= i < |blocks| ensures Number(blocks[i]) == Number(x) + 1 + i && Anc(blocks[i], top) {
      PathNumbers(x, top, i);
    }
    forall n | Number(x) + 1 <= n <= Number(top) && 0 <= n && Carries(At(top, n)) ensures At(top, n) in blocks {
      assert blocks[n - Number(x) - 1] == At(top, n);
    }
  }

  // ------------------------------------------------------------------ the future

  /** Where a reconciliation future stands; every constructor but the last three awaits one request. */
  datatype Future =
    | ReadHead
    | CheckMainChain(head: Block)
    | Scan(to: int, rangeSize: RangeSize)
    | CompareAncestor(head: Block)
    | LoadTriggers(block: Block)
    | LoadParent
    | Resolved(next: NextBlocks)
    | Failed
    | Panicked

  predicate ValidContext(ctx: Context) {
    ctx.previousTriggersPerBlock >= 0.0
  }

  /** The request for the next blocks after `current`. */
  ghost function StartScan(ctx: Context, head: Block): Future
    requires ValidContext(ctx) && Direct(ctx, head).BeyondThreshold? && Number(head) < BLOCK_NUMBER_MAX
  {
    ScanBounds(ctx, head);
    Scan(ScanEnd(ctx, head), NextRangeSize(ctx))
  }

  /** One request of `get_next_step` answered in world `w`. Any request may also fail. */
  ghost predicate FutureStep(w: World, ctx: Context, f: Future, f': Future)
    requires ValidContext(ctx) && Number(w.head) < BLOCK_NUMBER_MAX
  {
    match f
    case ReadHead =>
      || f' == Failed
      || f' == (match Direct(ctx, w.head)
                case Stay => Resolved(NextDone)
                case BeyondThreshold =>
                  if ctx.current.Origin? then StartScan(ctx, w.head) else CheckMainChain(w.head)
                case WithinThreshold => CompareAncestor(w.head))
    case CheckMainChain(head) =>
      || f' == Failed
      || (Number(ctx.current) <= Number(w.node) && Direct(ctx, head).BeyondThreshold? && Number(head) < BLOCK_NUMBER_MAX &&
          f' == if At(w.node, Number(ctx.current)) == ctx.current then StartScan(ctx, head) else LoadParent)
    case Scan(to, rangeSize) =>
      || f' == Failed
      || (-1 <= to <= Number(w.node) && f'.Resolved? && f'.next.NextBlocks? && f'.next.rangeSize == rangeSize &&
          ScanResult(Number(ctx.current) + 1, At(w.node, to), f'.next.blocks))
    case CompareAncestor(head) =>
      || f' == Failed
      || f' == ReadHead // the block store lacks it: start over
      || (Number(ctx.current) < Number(head) &&
          var child := At(head, Number(ctx.current) + 1);
          f' == if child.parent == ctx.current then LoadTriggers(child) else LoadParent)
    case LoadTriggers(block) =>
      f' == Failed || f' == Resolved(NextBlocks([block], 1))
    case LoadParent =>
      || f' == Failed
      || f' == if ctx.current.Child? && ctx.current.parent.Child? then Resolved(NextRevert(ctx.current.parent))
               else Panicked // "genesis block can't be reverted"
    case Resolved(_) => false
    case Failed => false
    case Panicked => false
  }

  /** What a resolved future may tell a stream that stands at `current`. */
  ghost predicate GoodNext(current: Block, anchor: Block, next: NextBlocks) {
    match next
    case NextBlocks(blocks, _) => Hops(current, blocks) && forall i :: 0 <= i < |blocks| ==> SameGenesis(blocks[i], anchor)
    case NextRevert(to) => current.Child? && to == current.parent && to.Child? && !Anc(current, anchor)
    case NextDone => true
  }

  /** What a future in flight may rely on, whatever happened to the chain since it started. */
  ghost predicate FutureInv(w: World, ctx: Context, f: Future) {
    && SameGenesis(ctx.current, w.anchor)
    && match f
       case ReadHead => true
       case CheckMainChain(head) =>
         && ctx.current.Child? && Number(ctx.current) <= Number(w.fin)
         && Direct(ctx, head).BeyondThreshold? && Number(head) < BLOCK_NUMBER_MAX
       case Scan(to, _) => Anc(ctx.current, w.fin) && Number(ctx.current) < to
       case CompareAncestor(head) =>
         ctx.current.Child? && Number(ctx.current) < Number(head) && Anc(w.anchor, head)
       case LoadTriggers(block) => block.Child? && block.parent == ctx.current && ctx.current.Child?
       case LoadParent => ctx.current.Child? && !Anc(ctx.current, w.anchor)
       case Resolved(next) => GoodNext(ctx.current, w.anchor, next)
       case Failed => true
       case Panicked => false
  }

  lemma FutureInvWorldStep(w: World, w': World, ctx: Context, f: Future)
    requires ValidWorld(w, ctx.reorgThreshold) && WorldStep(w, w', ctx.reorgThreshold) && FutureInv(w, ctx, f)
    ensures FutureInv(w', ctx, f)
  {
    if f.Scan? {
      AncTrans(ctx.current, w.fin, w'.fin);
    }
  }

  /** A block that is not an ancestor of the anchor is not the genesis block. */
  lemma AboveGenesis(current: Block, anchor: Block)
    requires anchor.Child? && current.Child? && SameGenesis(current, anchor) && !Anc(current, anchor)
    ensures current.parent.Child?
  {
    if Number(current) == 0 {
      AtAnc(anchor, 0);
    }
  }

  lemma ChildOfHasGenesis(b: Block, anchor: Block)
    requires b.Child? && anchor.Child?
    requires SameGenesis(b.parent, anchor)
    requires b.parent.Child?
    ensures SameGenesis(b, anchor)
  {
  }

  lemma NextBlockHops(b: Block)
    requires b.Child?
    ensures Hops(b.parent, [b])
  {
    AncParent(b.parent, b);
    assert Hop(b.parent, b);
  }

  /** Every answer, in any valid world, leaves the future in a state it may rely on; it never panics. */
  lemma FutureStepKeepsInv(w: World, ctx: Context, f: Future, f': Future)
    requires ValidContext(ctx) && ValidWorld(w, ctx.reorgThreshold)
    requires FutureInv(w, ctx, f) && FutureStep(w, ctx, f, f')
    ensures FutureInv(w, ctx, f')
  {
    match f
    case ReadHead =>
      if f' != Failed && Direct(ctx, w.head).BeyondThreshold? {
        ScanBounds(ctx, w.head);
        OriginAnc(w.fin);
      } else if f' != Failed && Direct(ctx, w.head).WithinThreshold? {
        AncTrans(w.anchor, w.fin, w.head);
      }
    case CheckMainChain(head) =>
      if f' != Failed {
        MainChainCheck(w, ctx, head, f');
      }
    case Scan(to, _) =>
      if f' != Failed {
        ScanAnswer(w, ctx, to, f'.next.blocks);
      }
    case CompareAncestor(head) =>
      if f' == LoadParent {
        OffHead(w, ctx, head);
      }
    case LoadTriggers(block) =>
      if f' != Failed {
        NextBlockHops(block);
        ChildOfHasGenesis(block, w.anchor);
      }
    case LoadParent =>
      AboveGenesis(ctx.current, w.anchor);
  }

  /** Up to its own height, the node agrees with the final chain. */
  lemma NodeAgrees(w: World, x: Block)
    requires Anc(w.fin, w.node) || Anc(w.node, w.fin)
    requires Number(x) <= Number(w.fin) && Number(x) <= Number(w.node)
    ensures Anc(x, w.node) <==> Anc(x, w.fin)
  {
    if Anc(w.fin, w.node) {
      AtAt(w.node, Number(w.fin), Number(x));
    } else {
      AtAt(w.fin, Number(w.node), Number(x));
    }
  }

  lemma NodeHasGenesis(w: World)
    requires (Anc(w.fin, w.node) || Anc(w.node, w.fin)) && Anc(w.anchor, w.fin)
    ensures SameGenesis(w.node, w.anchor)
  {
    AncSameGenesis(w.anchor, w.fin);
    if Anc(w.fin, w.node) {
      AncSameGenesis(w.fin, w.node);
    } else {
      AncSameGenesis(w.node, w.fin);
    }
  }

  lemma MainChainCheck(w: World, ctx: Context, head: Block, f': Future)
    requires ValidContext(ctx) && ValidWorld(w, ctx.reorgThreshold)
    requires FutureInv(w, ctx, CheckMainChain(head)) && FutureStep(w, ctx, CheckMainChain(head), f') && f' != Failed
    ensures FutureInv(w, ctx, f')
  {
    NodeAgrees(w, ctx.current);
    if At(w.node, Number(ctx.current)) == ctx.current {
      ScanBounds(ctx, head);
    } else if Anc(ctx.current, w.anchor) {
      AncTrans(ctx.current, w.anchor, w.fin);
    }
  }

  lemma ScanAnswer(w: World, ctx: Context, to: int, blocks: seq<Block>)
    requires ValidWorld(w, ctx.reorgThreshold)
    requires Anc(ctx.current, w.fin) && Number(ctx.current) < to <= Number(w.node)
    requires ScanResult(Number(ctx.current) + 1, At(w.node, to), blocks)
    ensures Hops(ctx.current, blocks) && forall i :: 0 <= i < |blocks| ==> SameGenesis(blocks[i], w.anchor)
  {
    var top := At(w.node, to);
    NodeAgrees(w, ctx.current);
    AtAnc(w.node, to);
    AncLinear(ctx.current, top, w.node);
    ScanHops(ctx.current, top, blocks);
    NodeHasGenesis(w);
    forall i | 0 <= i < |blocks| ensures SameGenesis(blocks[i], w.anchor) {
      AncTrans(blocks[i], top, w.node);
      AncSameGenesis(blocks[i], w.node);
    }
  }

  lemma OffHead(w: World, ctx: Context, head: Block)
    requires FutureInv(w, ctx, CompareAncestor(head))
    requires At(head, Number(ctx.current) + 1).parent != ctx.current
    ensures !Anc(ctx.current, w.anchor)
  {
    if Anc(ctx.current, w.anchor) {
      AncTrans(ctx.current, w.anchor, head);
      AtAt(head, Number(ctx.current) + 1, Number(ctx.current));
    }
  }

  // ------------------------------------------------------------------ a head that stands still

  /** What one fault-free reconciliation returns while chain store and node both stand at `head`. */
  ghost predicate PassResult(ctx: Context, head: Block, r: NextBlocks)
    requires ValidContext(ctx) && Number(head) < BLOCK_NUMBER_MAX
  {
    match Direct(ctx, head)
    case Stay => r == NextDone
    case BeyondThreshold =>
      ScanBounds(ctx, head);
      if Anc(ctx.current, head) then
        && r.NextBlocks? && r.rangeSize == NextRangeSize(ctx)
        && ScanResult(Number(ctx.current) + 1, At(head, ScanEnd(ctx, head)), r.blocks)
      else ctx.current.Child? && r == NextRevert(ctx.current.parent)
    case WithinThreshold =>
      if Anc(ctx.current, head) then r == NextBlocks([At(head, Number(ctx.current) + 1)], 1)
      else ctx.current.Child? && r == NextRevert(ctx.current.parent)
  }

  ghost predicate FrozenInv(ctx: Context, head: Block, f: Future)
    requires ValidContext(ctx) && Number(head) < BLOCK_NUMBER_MAX
  {
    match f
    case ReadHead => true
    case CheckMainChain(h) => h == head && ctx.current.Child? && Direct(ctx, head).BeyondThreshold?
    case Scan(to, range) => Direct(ctx, head).BeyondThreshold? && f == StartScan(ctx, head) && Anc(ctx.current, head)
    case CompareAncestor(h) => h == head && Direct(ctx, head).WithinThreshold?
    case LoadTriggers(b) => PassResult(ctx, head, NextBlocks([b], 1))
    case LoadParent => ctx.current.Child? && PassResult(ctx, head, NextRevert(ctx.current.parent))
    case Resolved(r) => PassResult(ctx, head, r)
    case Failed => true
    case Panicked => true
  }

  /** The future, run on a frozen chain, resolves only to results that `PassResult` allows. */
  lemma FrozenStep(w: World, ctx: Context, f: Future, f': Future)
    requires ValidContext(ctx) && ValidWorld(w, ctx.reorgThreshold) && w.node == w.head
    requires FrozenInv(ctx, w.head, f) && FutureStep(w, ctx, f, f')
    ensures FrozenInv(ctx, w.head, f')
  {
    OriginAnc(w.head);
    if f.CompareAncestor? && f' != Failed && f' != ReadHead {
      AtAt(w.head, Number(ctx.current) + 1, Number(ctx.current));
    }
  }

  /** The requests of one reconciliation while chain store and node both stand at `w.head`. */
  ghost predicate FutureRun(w: World, ctx: Context, fs: seq<Future>) {
    && ValidContext(ctx) && Number(w.head) < BLOCK_NUMBER_MAX
    && fs != [] && fs[0] == ReadHead
    && forall i :: 0 <= i < |fs| - 1 ==> FutureStep(w, ctx, fs[i], fs[i + 1])
  }

  /** Whatever requests fail on the way, it resolves only to what position and head allow. */
  lemma {:induction false} FrozenRun(w: World, ctx: Context, fs: seq<Future>, i: nat)
    requires ValidWorld(w, ctx.reorgThreshold) && w.node == w.head && FutureRun(w, ctx, fs) && i < |fs|
    ensures FrozenInv(ctx, w.head, fs[i])
    ensures fs[i].Resolved? ==> PassResult(ctx, w.head, fs[i].next)
  {
    if i == 0 {
    } else {
      FrozenRun(w, ctx, fs, i - 1);
      FrozenStep(w, ctx, fs[i - 1], fs[i]);
    }
  }

  /** And everything they allow is what some requests resolve to. */
  lemma PassIsReached(w: World, ctx: Context, r: NextBlocks) returns (fs: seq<Future>)
    requires ValidContext(ctx) && ValidWorld(w, ctx.reorgThreshold) && w.node == w.head
    requires SameGenesis(ctx.current, w.head) && PassResult(ctx, w.head, r)
    ensures FutureRun(w, ctx, fs) && fs[|fs| - 1] == Resolved(r)
  {
    OriginAnc(w.head);
    match Direct(ctx, w.head)
    case Stay =>
      fs := [ReadHead, Resolved(r)];
    case BeyondThreshold =>
      ScanBounds(ctx, w.head);
      if ctx.current.Origin? {
        fs := [ReadHead, StartScan(ctx, w.head), Resolved(r)];
      } else if Anc(ctx.current, w.head) {
        fs := [ReadHead, CheckMainChain(w.head), StartScan(ctx, w.head), Resolved(r)];
      } else {
        OffHeadHasParent(ctx.current, w.head);
        fs := [ReadHead, CheckMainChain(w.head), LoadParent, Resolved(r)];
      }
    case WithinThreshold =>
      var child := At(w.head, Number(ctx.current) + 1);
      AtAt(w.head, Number(ctx.current) + 1, Number(ctx.current));
      if Anc(ctx.current, w.head) {
        fs := [ReadHead, CompareAncestor(w.head), LoadTriggers(child), Resolved(r)];
      } else {
        OffHeadHasParent(ctx.current, w.head);
        fs := [ReadHead, CompareAncestor(w.head), LoadParent, Resolved(r)];
      }
  }

  /** A block of the network that is not an ancestor of the head is not the genesis block. */
  lemma OffHeadHasParent(current: Block, head: Block)
    requires head.Child? && SameGenesis(current, head) && !Anc(current, head)
    ensures current.Child? && current.parent.Child?
  {
    OriginAnc(head);
    if Number(current) == 0 {
      AtAnc(head, 0);
    }
  }

  /** The stream once the results of one reconciliation have been yielded. */
  function AfterPass(s: Stream, r: NextBlocks): Stream {
    match r
    case NextDone => s.(mode := Idle, errCount := 0)
    case NextRevert(to) => s.(mode := BeginReconciliation, ctx := s.ctx.(current := to))
    case NextBlocks(blocks, range) =>
      var s' := OnBlocks(s, blocks, range);
      s'.(mode := BeginReconciliation, ctx := s'.ctx.(current := if blocks == [] then s.ctx.current else blocks[|blocks| - 1]))
  }

  ghost predicate OnePass(s: Stream, r: NextBlocks, s': Stream, head: Block)
    requires Number(head) < BLOCK_NUMBER_MAX
  {
    s.mode == BeginReconciliation && ValidContext(s.ctx) && PassResult(s.ctx, head, r) && s' == AfterPass(s, r)
  }

  /** Consecutive reconciliations on a frozen chain; `ss[i]` is the stream before result `rs[i]`. */
  ghost predicate PassRun(ss: seq<Stream>, rs: seq<NextBlocks>, head: Block) {
    && |ss| == |rs| + 1
    && Number(head) < BLOCK_NUMBER_MAX
    && forall i :: 0 <= i < |rs| ==> OnePass(ss[i], rs[i], ss[i + 1], head)
  }

  lemma PassRunCons(s: Stream, r: NextBlocks, ss: seq<Stream>, rs: seq<NextBlocks>, head: Block)
    requires PassRun(ss, rs, head) && OnePass(s, r, ss[0], head)
    ensures PassRun([s] + ss, [r] + rs, head)
  {
    var ss', rs' := [s] + ss, [r] + rs;
    forall i | 0 <= i < |rs'| ensures OnePass(ss'[i], rs'[i], ss'[i + 1], head) {
      if i > 0 {
        assert ss'[i] == ss[i - 1] && ss'[i + 1] == ss[i] && rs'[i] == rs[i - 1];
      }
    }
  }

  /** The newest block on both chains. */
  function Common(a: Block, head: Block): (c: Block)
    ensures Anc(c, a) && Anc(c, head)
    ensures if Anc(a, head) then c == a else Number(c) < Number(a)
  {
    if Anc(a, head) then a
    else
      assert a.Child? by { OriginAnc(head); }
      var c := Common(a.parent, head);
      assert Anc(c, a) by { AncParent(c, a); }
      c
  }

  /** Blocks that still have to be reverted. */
  function Excess(a: Block, head: Block): (n: nat) {
    Number(a) - Number(Common(a, head))
  }

  lemma CommonHasGenesis(a: Block, head: Block)
    requires a.Child? && head.Child? && SameGenesis(a, head)
    ensures Common(a, head).Child?
    decreases a
  {
    if !Anc(a, head) {
      AtAnc(head, 0);
      assert Number(a) > 0;
      CommonHasGenesis(a.parent, head);
    }
  }

  /** Off the head's chain, the result is a revert to the parent, which has the same common ancestor. */
  lemma PassMovesDown(s: Stream, head: Block, r: NextBlocks)
    requires ValidContext(s.ctx) && Number(head) < BLOCK_NUMBER_MAX
    requires PassResult(s.ctx, head, r) && Number(s.ctx.current) < Number(head)
    requires !Anc(s.ctx.current, head)
    ensures s.ctx.current.Child? && r == NextRevert(s.ctx.current.parent)
    ensures Common(s.ctx.current.parent, head) == Common(s.ctx.current, head)
  {
    OriginAnc(head);
  }

  /** On the head's chain, the result moves forward on it. */
  lemma PassMovesUp(s: Stream, head: Block, r: NextBlocks)
    requires ValidContext(s.ctx) && Number(head) < BLOCK_NUMBER_MAX
    requires PassResult(s.ctx, head, r) && Number(s.ctx.current) < Number(head)
    requires Anc(s.ctx.current, head)
    ensures r.NextBlocks? && r.blocks != [] && Hops(s.ctx.current, r.blocks)
    ensures forall i :: 0 <= i < |r.blocks| ==> Anc(r.blocks[i], head)
    ensures Number(s.ctx.current) < Number(r.blocks[|r.blocks| - 1])
  {
    var current := s.ctx.current;
    if Direct(s.ctx, head).BeyondThreshold? {
      ScanBounds(s.ctx, head);
      var top := At(head, ScanEnd(s.ctx, head));
      AtAnc(head, ScanEnd(s.ctx, head));
      AncLinear(current, top, head);
      ScanHops(current, top, r.blocks);
      forall i | 0 <= i < |r.blocks| ensures Anc(r.blocks[i], head) {
        AncTrans(r.blocks[i], top, head);
      }
    } else {
      AtAnc(head, Number(current) + 1);
      AtAt(head, Number(current) + 1, Number(current));
      NextBlockHops(At(head, Number(current) + 1));
    }
  }

  ghost predicate Moves(current: Block, r: NextBlocks, next: Block, head: Block) {
    if Excess(current, head) > 0 then
      && current.Child? && r == NextRevert(current.parent) && next == current.parent
      && Common(next, head) == Common(current, head)
    else
      r.NextBlocks? && Anc(next, head) && Number(current) < Number(next)
  }

  /** One result moves the position a step down towards the common ancestor, or up on the head's chain. */
  lemma PassMoves(s: Stream, head: Block, r: NextBlocks)
    requires ValidContext(s.ctx) && Number(head) < BLOCK_NUMBER_MAX
    requires PassResult(s.ctx, head, r) && Number(s.ctx.current) < Number(head)
    ensures Moves(s.ctx.current, r, AfterPass(s, r).ctx.current, head)
  {
    if Anc(s.ctx.current, head) {
      PassMovesUp(s, head, r);
    } else {
      PassMovesDown(s, head, r);
    }
  }

  lemma PassKeepsContext(s: Stream, r: NextBlocks)
    requires ValidContext(s.ctx)
    ensures ValidContext(AfterPass(s, r).ctx)
  {
    if r.NextBlocks? {
      QuotientNonNegative(TotalTriggers(r.blocks), r.rangeSize);
    }
  }

  lemma QuotientNonNegative(total: nat, n: RangeSize)
    ensures total as real / n as real >= 0.0
  {
  }

  // ------------------------------------------------------------------ rounds of the poll loop

  /** What the rounds of the loop yield. */
  function Yielded(s: Stream, answers: seq<Answer>): seq<Item>
    decreases |answers|
  {
    if answers == [] then []
    else
      var (s', o) := Step(s, answers[0]);
      (if o.Yield? then [o.item] else []) + Yielded(s', answers[1..])
  }

  /** The events of one result. */
  function PassItems(r: NextBlocks): seq<Item> {
    match r
    case NextDone => []
    case NextRevert(to) => [Revert(to)]
    case NextBlocks(blocks, _) => BlockItems(blocks)
  }

  function BlockItems(blocks: seq<Block>): seq<Item> {
    if blocks == [] then [] else [ProcessBlock(blocks[0])] + BlockItems(blocks[1..])
  }

  lemma {:induction false} StepsAppend(s: Stream, a: seq<Answer>, b: seq<Answer>)
    ensures Steps(s, a + b) == Steps(Steps(s, a), b)
    ensures Yielded(s, a + b) == Yielded(s, a) + Yielded(Steps(s, a), b)
    decreases |a|
  {
    if a == [] {
      assert a + b == b && [] + Yielded(s, b) == Yielded(s, b);
    } else {
      var (s', o) := Step(s, a[0]);
      StepsAppend(s', a[1..], b);
      assert (a + b)[1..] == a[1..] + b;
      var first := if o.Yield? then [o.item] else [];
      assert first + (Yielded(s', a[1..]) + Yielded(Steps(s, a), b)) == first + Yielded(s', a[1..]) + Yielded(Steps(s, a), b);
    }
  }

  lemma OneStep(s: Stream, a: Answer)
    ensures Steps(s, [a]) == Step(s, a).0
    ensures Yielded(s, [a]) == if Step(s, a).1.Yield? then [Step(s, a).1.item] else []
  {
    assert [a][1..] == [];
  }

  /** The two rounds that start a reconciliation and take its result. */
  lemma TwoSteps(s: Stream, a: Answer)
    ensures var (s1, o1) := Step(s, a);
            var (s2, o2) := Step(s1, a);
            && Steps(s, [a, a]) == s2
            && (!o1.Yield? ==> Yielded(s, [a, a]) == if o2.Yield? then [o2.item] else [])
  {
    OneStep(s, a);
    OneStep(Step(s, a).0, a);
    StepsAppend(s, [a], [a]);
    assert [a] + [a] == [a, a];
  }

  // ------------------------------------------------------------------ every run of the loop on a standing head

  /**
   Answers of an environment whose head stands still: requests may fail, take their time and be retried, and
   updates may come or not, but each result is one that position and head allow.
   */
  ghost predicate Standing(head: Block, s: Stream, answers: seq<Answer>)
    requires Number(head) < BLOCK_NUMBER_MAX
    decreases |answers|
  {
    answers == [] ||
    (&& (s.mode.Reconciliation? && answers[0].future.FutureReady? ==>
           ValidContext(s.ctx) && PassResult(s.ctx, head, answers[0].future.next))
     && Standing(head, Step(s, answers[0]).0, answers[1..]))
  }

  /** The requests of one reconciliation can resolve to `r`. */
  ghost predicate ResolvesTo(w: World, ctx: Context, r: NextBlocks) {
    exists fs :: FutureRun(w, ctx, fs) && fs[|fs| - 1] == Resolved(r)
  }

  /** Each result among the answers is what requests to the standing chain store and node resolved to. */
  ghost predicate Requested(w: World, s: Stream, answers: seq<Answer>)
    decreases |answers|
  {
    answers == [] ||
    (&& (s.mode.Reconciliation? && answers[0].future.FutureReady? ==> ResolvesTo(w, s.ctx, answers[0].future.next))
     && Requested(w, Step(s, answers[0]).0, answers[1..]))
  }

  lemma {:induction false} RequestsStand(w: World, s: Stream, answers: seq<Answer>)
    requires ValidWorld(w, s.ctx.reorgThreshold) && w.node == w.head && Requested(w, s, answers)
    ensures Standing(w.head, s, answers)
    decreases |answers|
  {
    if answers == [] {
    } else {
      if s.mode.Reconciliation? && answers[0].future.FutureReady? {
        var fs :| FutureRun(w, s.ctx, fs) && fs[|fs| - 1] == Resolved(answers[0].future.next);
        FrozenRun(w, s.ctx, fs, |fs| - 1);
      }
      RequestsStand(w, Step(s, answers[0]).0, answers[1..]);
    }
  }

  /** What holds between any two rounds: blocks still to be yielded lead up on the head's chain, and an idle stream is not below the head. */
  ghost predicate OnTheWay(s: Stream, head: Block) {
    && ValidContext(s.ctx)
    && (s.mode.Idle? ==> Number(s.ctx.current) >= Number(head))
    && (s.mode.YieldingBlocks? ==> LeadUp(s.ctx.current, s.mode.next, head))
  }

  ghost predicate LeadUp(x: Block, blocks: seq<Block>, head: Block) {
    Anc(x, head) && Hops(x, blocks) && forall i :: 0 <= i < |blocks| ==> Anc(blocks[i], head)
  }

  lemma FirstLeadsUp(x: Block, blocks: seq<Block>, head: Block)
    requires LeadUp(x, blocks, head) && blocks != []
    ensures Leads(x, ProcessBlock(blocks[0]), head) && LeadUp(blocks[0], blocks[1..], head)
  {
    assert forall i :: 0 <= i < |blocks[1..]| ==> blocks[1..][i] == blocks[i + 1];
  }

  function Target(x: Block, item: Item): Block {
    match item
    case ProcessBlock(b) => b
    case Revert(to) => to
    case StreamError => x
  }

  /**
   Below the head, an event reverts to the parent off the head's chain, which keeps the common ancestor, and
   hops up on it. Errors lead nowhere.
   */
  ghost predicate Leads(x: Block, item: Item, head: Block) {
    match item
    case ProcessBlock(b) => Anc(x, head) && Hop(x, b) && Anc(b, head)
    case Revert(to) =>
      && Number(x) < Number(head) && !Anc(x, head)
      && x.Child? && to == x.parent && Common(to, head) == Common(x, head)
    case StreamError => true
  }

  ghost predicate TowardsHead(x: Block, items: seq<Item>, y: Block, head: Block)
    decreases |items|
  {
    if items == [] then x == y else Leads(x, items[0], head) && TowardsHead(Target(x, items[0]), items[1..], y, head)
  }

  lemma RoundWalks(head: Block, s: Stream, a: Answer)
    requires Number(head) < BLOCK_NUMBER_MAX && OnTheWay(s, head)
    requires s.mode.Reconciliation? && a.future.FutureReady? ==> PassResult(s.ctx, head, a.future.next)
    ensures var (s', o) := Step(s, a);
            && OnTheWay(s', head)
            && (if o.Yield? then Leads(s.ctx.current, o.item, head) && s'.ctx.current == Target(s.ctx.current, o.item)
                else s'.ctx.current == s.ctx.current)
  {
    if s.mode.Reconciliation? && a.future.FutureReady? {
      ResultWalks(head, s, a.future.next);
    } else if s.mode.YieldingBlocks? && s.mode.next != [] {
      FirstLeadsUp(s.ctx.current, s.mode.next, head);
    }
  }

  lemma ResultWalks(head: Block, s: Stream, r: NextBlocks)
    requires Number(head) < BLOCK_NUMBER_MAX && ValidContext(s.ctx) && PassResult(s.ctx, head, r)
    ensures r.NextDone? ==> Number(s.ctx.current) >= Number(head)
    ensures r.NextRevert? ==> Leads(s.ctx.current, Revert(r.to), head)
    ensures r.NextBlocks? ==> OnTheWay(OnBlocks(s, r.blocks, r.rangeSize), head)
  {
    if !Direct(s.ctx, head).Stay? {
      PassKeepsContext(s, r);
      if Anc(s.ctx.current, head) {
        PassMovesUp(s, head, r);
      } else {
        PassMovesDown(s, head, r);
      }
    }
  }

  /** Every run of the loop on a standing head, with any errors and delays, walks towards the head. */
  lemma {:induction false} LoopWalks(head: Block, s: Stream, answers: seq<Answer>)
    requires Number(head) < BLOCK_NUMBER_MAX && OnTheWay(s, head) && Standing(head, s, answers)
    ensures OnTheWay(Steps(s, answers), head)
    ensures TowardsHead(s.ctx.current, Yielded(s, answers), Steps(s, answers).ctx.current, head)
    decreases |answers|
  {
    if answers == [] {
    } else {
      RoundWalks(head, s, answers[0]);
      var (s', o) := Step(s, answers[0]);
      LoopWalks(head, s', answers[1..]);
      if o.Yield? {
        assert Yielded(s, answers)[1..] == Yielded(s', answers[1..]);
      } else {
        assert Yielded(s, answers) == Yielded(s', answers[1..]);
      }
    }
  }

  function WithoutErrors(items: seq<Item>): seq<Item> {
    if items == [] then [] else (if items[0].StreamError? then [] else [items[0]]) + WithoutErrors(items[1..])
  }

  /** The event reverts to the ancestor of `x` with number `n`. */
  ghost predicate RevertsTo(item: Item, x: Block, n: int) {
    -1 <= n <= Number(x) && item == Revert(At(x, n))
  }

  ghost predicate Ascends(x: Block, moves: seq<Item>, head: Block)
    decreases |moves|
  {
    moves == [] ||
    (moves[0].ProcessBlock? && Hop(x, moves[0].block) && Anc(moves[0].block, head) && Ascends(moves[0].block, moves[1..], head))
  }

  /**
   The first moves revert one block each, down to the common ancestor; the others go up from there on the
   head's chain, and there are no more moves than blocks on this way.
   */
  ghost predicate DownThenUp(x: Block, moves: seq<Item>, head: Block) {
    var k := Excess(x, head);
    && (forall i :: 0 <= i < |moves| && i < k ==> RevertsTo(moves[i], x, Number(x) - i - 1))
    && (k <= |moves| ==> Ascends(Common(x, head), moves[k..], head))
    && |moves| <= k + Number(head) - Number(Common(x, head))
  }

  lemma DownFirst(x: Block, moves: seq<Item>, head: Block)
    requires moves != [] && moves[0].Revert? && Leads(x, moves[0], head) && DownThenUp(moves[0].to, moves[1..], head)
    ensures DownThenUp(x, moves, head)
  {
    var k, to, rest := Excess(x, head), x.parent, moves[1..];
    assert Excess(to, head) == k - 1;
    forall i | 0 <= i < |moves| && i < k ensures RevertsTo(moves[i], x, Number(x) - i - 1) {
      if i > 0 {
        assert moves[i] == rest[i - 1] && RevertsTo(rest[i - 1], to, Number(to) - (i - 1) - 1);
      }
    }
    if k <= |moves| {
      assert moves[k..] == rest[k - 1..];
    }
  }

  lemma UpFirst(x: Block, moves: seq<Item>, head: Block)
    requires moves != [] && moves[0].ProcessBlock? && Leads(x, moves[0], head)
    requires DownThenUp(moves[0].block, moves[1..], head)
    ensures DownThenUp(x, moves, head)
  {
    assert moves[0..] == moves && moves[1..][0..] == moves[1..];
  }

  lemma {:induction false} WalkIsDownThenUp(x: Block, items: seq<Item>, y: Block, head: Block)
    requires TowardsHead(x, items, y, head)
    ensures DownThenUp(x, WithoutErrors(items), head)
    decreases |items|
  {
    if items == [] {
    } else {
      WalkIsDownThenUp(Target(x, items[0]), items[1..], y, head);
      var moves := WithoutErrors(items);
      if items[0].StreamError? {
        assert moves == WithoutErrors(items[1..]);
      } else {
        assert moves[1..] == WithoutErrors(items[1..]);
        if items[0].Revert? {
          DownFirst(x, moves, head);
        } else {
          UpFirst(x, moves, head);
        }
      }
    }
  }

  /** From a position below the head, or at it, the way never leads past the head or beside it. */
  lemma {:induction false} WalkStaysBelow(x: Block, items: seq<Item>, y: Block, head: Block)
    requires TowardsHead(x, items, y, head) && (Number(x) < Number(head) || x == head)
    ensures Number(y) < Number(head) || y == head
    decreases |items|
  {
    if items == [] {
    } else {
      WalkStaysBelow(Target(x, items[0]), items[1..], y, head);
    }
  }

  /**
   On a standing head, whatever requests fail and however long the loop runs: apart from errors it yields
   first one revert for each block down to the common ancestor, then blocks up on the head's chain. If it
   started below the head or at it, it is idle only at the head.
   */
  lemma Settles(head: Block, s: Stream, answers: seq<Answer>)
    requires Number(head) < BLOCK_NUMBER_MAX && OnTheWay(s, head) && Standing(head, s, answers)
    ensures TowardsHead(s.ctx.current, Yielded(s, answers), Steps(s, answers).ctx.current, head)
    ensures DownThenUp(s.ctx.current, WithoutErrors(Yielded(s, answers)), head)
    ensures Number(s.ctx.current) < Number(head) || s.ctx.current == head ==>
              (Steps(s, answers).mode.Idle? ==> Steps(s, answers).ctx.current == head)
  {
    LoopWalks(head, s, answers);
    WalkIsDownThenUp(s.ctx.current, Yielded(s, answers), Steps(s, answers).ctx.current, head);
    if Number(s.ctx.current) < Number(head) || s.ctx.current == head {
      WalkStaysBelow(s.ctx.current, Yielded(s, answers), Steps(s, answers).ctx.current, head);
    }
  }

  lemma {:induction false} NoRevertOnChain(x: Block, items: seq<Item>, y: Block, head: Block, i: nat)
    requires TowardsHead(x, items, y, head) && Anc(x, head) && i < |items|
    ensures !items[i].Revert?
    decreases |items|
  {
    if i > 0 {
      NoRevertOnChain(Target(x, items[0]), items[1..], y, head, i - 1);
    }
  }

  lemma {:induction false} RevertsStayAbove(x: Block, items: seq<Item>, y: Block, head: Block, i: nat)
    requires TowardsHead(x, items, y, head) && i < |items| && items[i].Revert?
    ensures Number(items[i].to) >= Number(Common(x, head)) && head.Child?
    decreases |items|
  {
    if i > 0 {
      RevertsStayAbove(Target(x, items[0]), items[1..], y, head, i - 1);
    }
  }

  /** No run of the loop reverts below the common ancestor, and so none reverts genesis. */
  lemma NeverPastGenesis(head: Block, s: Stream, answers: seq<Answer>, i: nat)
    requires Number(head) < BLOCK_NUMBER_MAX && OnTheWay(s, head) && Standing(head, s, answers)
    requires SameGenesis(s.ctx.current, head)
    requires i < |Yielded(s, answers)| && Yielded(s, answers)[i].Revert?
    ensures var to := Yielded(s, answers)[i].to;
            to.Child? && Number(to) >= Number(Common(s.ctx.current, head)) >= 0
  {
    var x, items, y := s.ctx.current, Yielded(s, answers), Steps(s, answers).ctx.current;
    LoopWalks(head, s, answers);
    RevertsStayAbove(x, items, y, head, i);
    if x.Origin? {
      OriginAnc(head);
      NoRevertOnChain(x, items, y, head, i);
      assert false;
    }
    CommonHasGenesis(x, head);
  }

  // ------------------------------------------------------------------ the loop gets to the head

  /** There is always a next result, so the walk described by `Settles` never gets stuck. */
  lemma PassExists(s: Stream, head: Block) returns (r: NextBlocks)
    requires ValidContext(s.ctx) && Number(head) < BLOCK_NUMBER_MAX
    ensures PassResult(s.ctx, head, r)
  {
    OriginAnc(head);
    match Direct(s.ctx, head)
    case Stay => r := NextDone;
    case WithinThreshold =>
      r := if Anc(s.ctx.current, head) then NextBlocks([At(head, Number(s.ctx.current) + 1)], 1)
           else NextRevert(s.ctx.current.parent);
    case BeyondThreshold =>
      ScanBounds(s.ctx, head);
      if Anc(s.ctx.current, head) {
        var to := ScanEnd(s.ctx, head);
        AtAnc(head, to);
        AncLinear(s.ctx.current, At(head, to), head);
        var blocks := ScanResultExists(s.ctx.current, At(head, to));
        r := NextBlocks(blocks, NextRangeSize(s.ctx));
      } else {
        r := NextRevert(s.ctx.current.parent);
      }
  }

  /** From any start, a finite walk ends in `Done`; it ends at the head iff the start was below it, or was it. */
  lemma {:induction false} WalkToHead(s: Stream, head: Block) returns (ss: seq<Stream>, rs: seq<NextBlocks>)
    requires s.mode == BeginReconciliation && ValidContext(s.ctx) && head.Child? && Number(head) < BLOCK_NUMBER_MAX
    ensures PassRun(ss, rs, head) && ss[0] == s && rs != [] && rs[|rs| - 1].NextDone?
    ensures ss[|rs| - 1].ctx.current == head <==> Number(s.ctx.current) < Number(head) || s.ctx.current == head
    decreases Excess(s.ctx.current, head), Number(head) - Number(s.ctx.current)
  {
    var r := PassExists(s, head);
    if Number(s.ctx.current) >= Number(head) {
      ss, rs := [s, AfterPass(s, r)], [r];
    } else {
      PassMoves(s, head, r);
      PassKeepsContext(s, r);
      var s' := AfterPass(s, r);
      var tailS, tailR := WalkToHead(s', head);
      PassRunCons(s, r, tailS, tailR, head);
      ss, rs := [s] + tailS, [r] + tailR;
    }
  }

  lemma {:induction false} StandingAppend(head: Block, s: Stream, a: seq<Answer>, b: seq<Answer>)
    requires Number(head) < BLOCK_NUMBER_MAX && Standing(head, s, a) && Standing(head, Steps(s, a), b)
    ensures Standing(head, s, a + b)
    decreases |a|
  {
    if a == [] {
      assert a + b == b;
    } else {
      assert (a + b)[1..] == a[1..] + b;
      StandingAppend(head, Step(s, a[0]).0, a[1..], b);
    }
  }

  lemma OneStands(head: Block, s: Stream, a: Answer)
    requires Number(head) < BLOCK_NUMBER_MAX && (s.mode.Reconciliation? ==> !a.future.FutureReady?)
    ensures Standing(head, s, [a])
  {
    assert [a][1..] == [];
  }

  /** The two rounds that start a reconciliation and take a result that the head allows. */
  lemma TwoStand(head: Block, s: Stream, r: NextBlocks, a: Answer)
    requires Number(head) < BLOCK_NUMBER_MAX && s.mode == BeginReconciliation && a.future == FutureReady(r)
    requires ValidContext(s.ctx) && PassResult(s.ctx, head, r)
    ensures Standing(head, s, [a, a])
  {
    var s1 := Step(s, a).0;
    assert [a][1..] == [] && [a, a][1..] == [a];
    assert Standing(head, s1, [a]);
  }

  /**
   Some answers take the stream through one result and make it yield exactly the result's events; if the
   result is one that `head` allows, they are answers on a head that stands there.
   */
  lemma PassIsPolling(s: Stream, r: NextBlocks, head: Block) returns (answers: seq<Answer>)
    requires s.mode == BeginReconciliation && Number(head) < BLOCK_NUMBER_MAX
    ensures Steps(s, answers) == AfterPass(s, r) && Yielded(s, answers) == PassItems(r)
    ensures ValidContext(s.ctx) && PassResult(s.ctx, head, r) ==> Standing(head, s, answers)
  {
    var a := Answer(FutureReady(r), true, Updated);
    TwoSteps(s, a);
    if ValidContext(s.ctx) && PassResult(s.ctx, head, r) {
      TwoStand(head, s, r, a);
    }
    var s2 := Steps(s, [a, a]);
    if r.NextBlocks? {
      var more := Drain(s2, r.blocks, a, head);
      answers := [a, a] + more;
      StepsAppend(s, [a, a], more);
      assert [] + BlockItems(r.blocks) == BlockItems(r.blocks);
      if ValidContext(s.ctx) && PassResult(s.ctx, head, r) {
        StandingAppend(head, s, [a, a], more);
      }
    } else {
      answers := [a, a];
    }
  }

  /** The events of all results, in order. */
  function WalkItems(rs: seq<NextBlocks>): seq<Item> {
    if rs == [] then [] else PassItems(rs[0]) + WalkItems(rs[1..])
  }

  /** A whole walk is a run of the poll loop on the standing head that yields exactly the events of its results. */
  lemma {:induction false} WalkIsPolling(ss: seq<Stream>, rs: seq<NextBlocks>, head: Block) returns (answers: seq<Answer>)
    requires PassRun(ss, rs, head)
    ensures Steps(ss[0], answers) == ss[|rs|] && Yielded(ss[0], answers) == WalkItems(rs)
    ensures Standing(head, ss[0], answers)
    decreases |rs|
  {
    if rs == [] {
      answers := [];
    } else {
      assert OnePass(ss[0], rs[0], ss[1], head);
      var first := PassIsPolling(ss[0], rs[0], head);
      forall i | 0 <= i < |rs[1..]| ensures OnePass(ss[1..][i], rs[1..][i], ss[1..][i + 1], head) {
        assert OnePass(ss[i + 1], rs[i + 1], ss[i + 2], head);
      }
      var rest := WalkIsPolling(ss[1..], rs[1..], head);
      answers := first + rest;
      StepsAppend(ss[0], first, rest);
      StandingAppend(head, ss[0], first, rest);
    }
  }

  /** From any start some finite run of the loop on a standing head comes to rest, at the head iff it started below it or at it. */
  lemma SettlesAtHeadIff(s: Stream, head: Block) returns (answers: seq<Answer>)
    requires s.mode == BeginReconciliation && ValidContext(s.ctx) && head.Child? && Number(head) < BLOCK_NUMBER_MAX
    ensures Standing(head, s, answers) && Steps(s, answers).mode == Idle
    ensures Steps(s, answers).ctx.current == head <==> Number(s.ctx.current) < Number(head) || s.ctx.current == head
  {
    var ss, rs := WalkToHead(s, head);
    answers := WalkIsPolling(ss, rs, head);
    assert OnePass(ss[|rs| - 1], rs[|rs| - 1], ss[|rs|], head);
  }

  /** Scans are contiguous: once a scan up to `to` has been yielded, the next one starts at `to + 1`. */
  lemma ScansAreContiguous(w: World, s: Stream, to: int, rangeSize: RangeSize, f': Future) returns (answers: seq<Answer>)
    requires s.mode == BeginReconciliation && ValidContext(s.ctx) && Number(w.head) < BLOCK_NUMBER_MAX
    requires FutureStep(w, s.ctx, Scan(to, rangeSize), f') && f' != Failed
    ensures f'.Resolved? && Steps(s, answers) == AfterPass(s, f'.next)
    ensures Steps(s, answers).mode == BeginReconciliation && Number(Steps(s, answers).ctx.current) == to
  {
    answers := PassIsPolling(s, f'.next, w.head);
  }

  lemma {:induction false} Drain(s: Stream, blocks: seq<Block>, a: Answer, head: Block) returns (answers: seq<Answer>)
    requires s.mode == YieldingBlocks(blocks) && Number(head) < BLOCK_NUMBER_MAX
    ensures Steps(s, answers) ==
            s.(mode := BeginReconciliation,
               ctx := s.ctx.(current := if blocks == [] then s.ctx.current else blocks[|blocks| - 1]))
    ensures Yielded(s, answers) == BlockItems(blocks) && Standing(head, s, answers)
    decreases |blocks|
  {
    OneStep(s, a);
    OneStands(head, s, a);
    if blocks == [] {
      answers := [a];
    } else {
      var more := Drain(Step(s, a).0, blocks[1..], a, head);
      answers := [a] + more;
      StepsAppend(s, [a], more);
      StandingAppend(head, s, [a], more);
    }
  }
}
