/**
 The polling block stream: the decision which way to walk, the size of the next scan, and the
 five-state machine behind `poll_next`.
 */
module PollingStream {
  import opened Chain

  // The ratio assumed before anything was scanned; the first scans are short because it is so large.
  const STARTING_PREVIOUS_TRIGGERS_PER_BLOCK := 1_000_000.0
  const BLOCK_NUMBER_MAX := 0x7fff_ffff

  /** The difference between two block numbers; a scan covers at least one block. */
  type RangeSize = n: int | n >= 1 witness 1

  /** `current` is `Origin` when the stream has no start block. */
  datatype Context = Context(
    current: Block,
    reorgThreshold: nat,
    startBlocks: seq<int>,
    previousTriggersPerBlock: real,
    previousBlockRangeSize: RangeSize,
    maxBlockRangeSize: RangeSize,
    targetTriggersPerBlockRange: nat
  )

  // ------------------------------------------------------------------ the next step

  function Min(a: int, b: int): int { if a <= b then a else b }
  function Max(a: int, b: int): int { if a >= b then a else b }

  /** The first start block after `from`, or the largest block number. */
  function NextStartBlock(startBlocks: seq<int>, from: int): (n: int)
    ensures from < n || n == BLOCK_NUMBER_MAX
  {
    if startBlocks == [] then BLOCK_NUMBER_MAX
    else
      var rest := NextStartBlock(startBlocks[1..], from);
      if startBlocks[0] > from then Min(startBlocks[0], rest) else rest
  }

  function RangeSizeUpperLimit(ctx: Context): (n: RangeSize) {
    Min(ctx.maxBlockRangeSize, ctx.previousBlockRangeSize * 10)
  }

  /** The number of blocks to scan next; the ratio is a real and the conversion truncates. */
  function NextRangeSize(ctx: Context): (n: int)
    requires ctx.previousTriggersPerBlock >= 0.0
  {
    var upper := RangeSizeUpperLimit(ctx);
    if ctx.previousTriggersPerBlock == 0.0 then upper
    else
      var wanted := ctx.targetTriggersPerBlockRange as real / ctx.previousTriggersPerBlock;
      var atLeastOne := if wanted >= 1.0 then wanted else 1.0;
      var capped := if atLeastOne <= upper as real then atLeastOne else upper as real;
      capped.Floor
  }

  /** Genesis never counts as a block that may still be reorganised. */
  function EffectiveThreshold(ctx: Context, head: Block): int {
    Min(ctx.reorgThreshold, Number(head))
  }

  function ScanEnd(ctx: Context, head: Block): (to: int)
    requires ctx.previousTriggersPerBlock >= 0.0
  {
    var from := Number(ctx.current) + 1;
    var toLimit := Min(Number(head) - EffectiveThreshold(ctx, head), NextStartBlock(ctx.startBlocks, from) - 1);
    Min(from + NextRangeSize(ctx) - 1, toLimit)
  }

  datatype Direction = Stay | BeyondThreshold | WithinThreshold

  /** Which way `get_next_step` turns once it has read the chain head. */
  function Direct(ctx: Context, head: Block): Direction {
    if head.Origin? then Stay
    else if ctx.current.Child? && Number(ctx.current) >= Number(head) then Stay
    else if ctx.current.Origin? || Number(head) - Number(ctx.current) > EffectiveThreshold(ctx, head)
      then BeyondThreshold
    else WithinThreshold
  }

  /** Every scan is a forward range that stops at the reorg threshold and is at most the maximum wide. */
  lemma ScanBounds(ctx: Context, head: Block)
    requires ctx.previousTriggersPerBlock >= 0.0
    requires Direct(ctx, head).BeyondThreshold? && Number(head) < BLOCK_NUMBER_MAX
    ensures 1 <= NextRangeSize(ctx) <= ctx.maxBlockRangeSize
    ensures NextRangeSize(ctx) <= 10 * ctx.previousBlockRangeSize
    ensures Number(ctx.current) + 1 <= ScanEnd(ctx, head)
    ensures ScanEnd(ctx, head) <= Number(head) - Min(ctx.reorgThreshold, Number(head))
    ensures ScanEnd(ctx, head) - Number(ctx.current) <= NextRangeSize(ctx)
    ensures forall i :: 0 <= i < |ctx.startBlocks| && ctx.startBlocks[i] > Number(ctx.current) + 1
                        ==> ScanEnd(ctx, head) < ctx.startBlocks[i]
  {
    NextStartBlockIsLeast(ctx.startBlocks, Number(ctx.current) + 1);
  }

  lemma {:induction false} NextStartBlockIsLeast(startBlocks: seq<int>, from: int)
    ensures forall i :: 0 <= i < |startBlocks| && startBlocks[i] > from ==> NextStartBlock(startBlocks, from) <= startBlocks[i]
  {
    if startBlocks == [] {
    } else {
      NextStartBlockIsLeast(startBlocks[1..], from);
      assert forall i :: 0 < i < |startBlocks| ==> startBlocks[i] == startBlocks[1..][i - 1];
    }
  }

  // ------------------------------------------------------------------ the state machine

  /** What a reconciliation future resolves to. */
  datatype NextBlocks = NextBlocks(blocks: seq<Block>, rangeSize: RangeSize) | NextRevert(to: Block) | NextDone

  datatype Mode = BeginReconciliation | Reconciliation | YieldingBlocks(next: seq<Block>) | RetryAfterDelay | Idle

  datatype Stream = Stream(mode: Mode, errCount: nat, ctx: Context)

  /** What the stream yields: block stream events and errors. */
  datatype Item = ProcessBlock(block: Block) | Revert(to: Block) | StreamError

  datatype FuturePoll = FuturePending | FutureReady(next: NextBlocks) | FutureFailed
  datatype HeadPoll = NoUpdate | Updated | Closed

  /** What polling the environment returns in one round of the loop. */
  datatype Answer = Answer(future: FuturePoll, delayOver: bool, head: HeadPoll)

  datatype Outcome = More | Wait | Yield(item: Item)

  function TriggerCount(b: Block): nat {
    if b.Child? then b.triggers else 0
  }

  function TotalTriggers(blocks: seq<Block>): nat {
    if blocks == [] then 0 else TotalTriggers(blocks[..|blocks|-1]) + TriggerCount(blocks[|blocks|-1])
  }

  function NewStream(ctx: Context): Stream {
    Stream(BeginReconciliation, 0, ctx)
  }

  /** A context whose range sizes start slowly, as the stream's constructor makes it. */
  function NewContext(start: Block, reorgThreshold: nat, startBlocks: seq<int>, max: RangeSize, target: nat): Context {
    Context(start, reorgThreshold, startBlocks, STARTING_PREVIOUS_TRIGGERS_PER_BLOCK, 1, max, target)
  }

  function ReducedMaximum(max: RangeSize): (n: RangeSize) {
    Max(max * 9 / 10, 10)
  }

  /** The stream after a batch of blocks arrived. */
  function OnBlocks(s: Stream, blocks: seq<Block>, rangeSize: RangeSize): Stream {
    var max := if s.errCount == 1 then ReducedMaximum(s.ctx.maxBlockRangeSize) else s.ctx.maxBlockRangeSize;
    Stream(YieldingBlocks(blocks), 0,
           s.ctx.(maxBlockRangeSize := max,
                  previousTriggersPerBlock := TotalTriggers(blocks) as real / rangeSize as real,
                  previousBlockRangeSize := rangeSize))
  }

  /** One round of the loop in `poll_next`. */
  function Step(s: Stream, a: Answer): (Stream, Outcome) {
    match s.mode
    case BeginReconciliation => (s.(mode := Reconciliation), More)
    case Reconciliation =>
      (match a.future
       case FuturePending => (s, Wait)
       case FutureReady(NextBlocks(blocks, rangeSize)) => (OnBlocks(s, blocks, rangeSize), More)
       case FutureReady(NextDone) => (s.(mode := Idle, errCount := 0), More)
       case FutureReady(NextRevert(to)) =>
         (s.(mode := BeginReconciliation, ctx := s.ctx.(current := to)), Yield(Revert(to)))
       case FutureFailed =>
         (Stream(RetryAfterDelay, s.errCount + 1,
                 s.ctx.(previousTriggersPerBlock := STARTING_PREVIOUS_TRIGGERS_PER_BLOCK)),
          Yield(StreamError)))
    case YieldingBlocks(next) =>
      if next == [] then (s.(mode := BeginReconciliation), More)
      else (s.(mode := YieldingBlocks(next[1..]), ctx := s.ctx.(current := next[0])), Yield(ProcessBlock(next[0])))
    case RetryAfterDelay => if a.delayOver then (s.(mode := BeginReconciliation), More) else (s, Wait)
    case Idle =>
      (match a.head
       case NoUpdate => (s, Wait)
       case Updated => (s.(mode := BeginReconciliation), More)
       case Closed => (s, Yield(StreamError)))
  }

  /** The loop of `poll_next`: rounds until something is yielded or the environment has no answer yet. */
  function Poll(s: Stream, answers: seq<Answer>): (Stream, Outcome, seq<Answer>)
    decreases |answers|
  {
    if answers == [] then (s, Wait, [])
    else
      var (s', o) := Step(s, answers[0]);
      if o.More? then Poll(s', answers[1..]) else (s', o, answers[1..])
  }

  class PollingBlockStream {
    var state: Mode
    var consecutiveErrCount: nat
    var ctx: Context

    ghost function Abstract(): Stream
      reads this
    {
      Stream(state, consecutiveErrCount, ctx)
    }

    constructor (start: Block, reorgThreshold: nat, startBlocks: seq<int>, max: RangeSize, target: nat)
      ensures Abstract() == NewStream(NewContext(start, reorgThreshold, startBlocks, max, target))
    {
      state := BeginReconciliation;
      consecutiveErrCount := 0;
      ctx := NewContext(start, reorgThreshold, startBlocks, max, target);
    }

    method PollNext(answers: seq<Answer>) returns (result: Outcome, rest: seq<Answer>)
      modifies this
      ensures (Abstract(), result, rest) == Poll(old(Abstract()), answers)
    {
      rest := answers;
      result := Wait;
      while rest != []
        invariant Poll(Abstract(), rest) == Poll(old(Abstract()), answers)
        decreases |rest|
      {
        var answer := rest[0];
        rest := rest[1..];
        match state
        case BeginReconciliation =>
          state := Reconciliation;
        case Reconciliation =>
          match answer.future {
            case FuturePending => return Wait, rest;
            case FutureReady(NextBlocks(blocks, rangeSize)) =>
              // One failure and then a success: the smaller range is taken to be the reason.
              if consecutiveErrCount == 1 {
                ctx := ctx.(maxBlockRangeSize := Max(ctx.maxBlockRangeSize * 9 / 10, 10));
              }
              consecutiveErrCount := 0;
              var total := SumTriggers(blocks);
              ctx := ctx.(previousTriggersPerBlock := total as real / rangeSize as real);
              ctx := ctx.(previousBlockRangeSize := rangeSize);
              state := YieldingBlocks(blocks);
            case FutureReady(NextDone) =>
              consecutiveErrCount := 0;
              state := Idle;
            case FutureReady(NextRevert(to)) =>
              ctx := ctx.(current := to);
              state := BeginReconciliation;
              return Yield(Revert(to)), rest;
            case FutureFailed =>
              ctx := ctx.(previousTriggersPerBlock := STARTING_PREVIOUS_TRIGGERS_PER_BLOCK);
              consecutiveErrCount := consecutiveErrCount + 1;
              state := RetryAfterDelay;
              return Yield(StreamError), rest;
          }
        case YieldingBlocks(next) =>
          if next != [] {
            ctx := ctx.(current := next[0]);
            state := YieldingBlocks(next[1..]);
            return Yield(ProcessBlock(next[0])), rest;
          }
          state := BeginReconciliation;
        case RetryAfterDelay =>
          if !answer.delayOver {
            return Wait, rest;
          }
          state := BeginReconciliation;
        case Idle =>
          match answer.head {
            case Updated => state := BeginReconciliation;
            case Closed => return Yield(StreamError), rest;
            case NoUpdate => return Wait, rest;
          }
      }
    }
  }

  method SumTriggers(blocks: seq<Block>) returns (total: nat)
    ensures total == TotalTriggers(blocks)
  {
    total := 0;
    for i := 0 to |blocks|
      invariant total == TotalTriggers(blocks[..i])
    {
      assert blocks[..i + 1][..i] == blocks[..i];
      total := total + TriggerCount(blocks[i]);
    }
    assert blocks[..|blocks|] == blocks;
  }

  // ------------------------------------------------------------------ range sizes over all runs

  /** The stream after any sequence of rounds. */
  function Steps(s: Stream, answers: seq<Answer>): Stream
    decreases |answers|
  {
    if answers == [] then s else Steps(Step(s, answers[0]).0, answers[1..])
  }

  /** The ratio of triggers to blocks is never negative, so every scan size is defined. */
  lemma {:induction false} RatioNonNegative(s: Stream, answers: seq<Answer>)
    requires s.ctx.previousTriggersPerBlock >= 0.0
    ensures Steps(s, answers).ctx.previousTriggersPerBlock >= 0.0
    decreases |answers|
  {
    if answers == [] {
    } else {
      RatioNonNegative(Step(s, answers[0]).0, answers[1..]);
    }
  }

  /** From a maximum of at least 10, no sequence of errors and successes raises it or takes it below 10. */
  lemma {:induction false} MaximumStaysInRange(s: Stream, answers: seq<Answer>)
    requires s.ctx.maxBlockRangeSize >= 10
    ensures 10 <= Steps(s, answers).ctx.maxBlockRangeSize <= s.ctx.maxBlockRangeSize
    decreases |answers|
  {
    if answers == [] {
    } else {
      MaximumStaysInRange(Step(s, answers[0]).0, answers[1..]);
    }
  }

  /** A maximum below 10 is raised by one error followed by one success. */
  lemma SmallMaximumGrows(s: Stream, blocks: seq<Block>) returns (answers: seq<Answer>)
    requires s.mode == BeginReconciliation && s.errCount == 0 && s.ctx.maxBlockRangeSize < 10
    ensures Steps(s, answers).ctx.maxBlockRangeSize == 10
  {
    var failed := Answer(FutureFailed, true, NoUpdate);
    var ready := Answer(FutureReady(NextBlocks(blocks, 1)), true, NoUpdate);
    answers := [failed, failed, failed, ready, ready];
    var s1 := Step(s, failed).0;
    var s2 := Step(s1, failed).0;
    var s3 := Step(s2, failed).0;
    var s4 := Step(s3, ready).0;
    assert s3.mode == BeginReconciliation && s3.errCount == 1;
    assert s4.mode == Reconciliation && s4.errCount == 1;
    var s5 := Step(s4, ready).0;
    assert s5.ctx.maxBlockRangeSize == 10;
    assert Steps(s5, []) == s5;
    assert Steps(s4, answers[4..]) == s5;
    assert Steps(s3, answers[3..]) == s5;
    assert Steps(s2, answers[2..]) == s5;
    assert Steps(s1, answers[1..]) == s5;
  }

  /** A fresh stream's maximum never grows if and only if it starts at 10 or more. */
  lemma MaximumNeverGrowsIff(s: Stream)
    requires s.mode == BeginReconciliation && s.errCount == 0
    ensures (forall answers :: Steps(s, answers).ctx.maxBlockRangeSize <= s.ctx.maxBlockRangeSize)
            <==> s.ctx.maxBlockRangeSize >= 10
  {
    if s.ctx.maxBlockRangeSize >= 10 {
      forall answers ensures Steps(s, answers).ctx.maxBlockRangeSize <= s.ctx.maxBlockRangeSize {
        MaximumStaysInRange(s, answers);
      }
    } else {
      var answers := SmallMaximumGrows(s, []);
    }
  }
}
