/**
 Query consistency: after a query ran, the deployment's state is read again and compared with the
 state before, to detect that a block the query read was reverted in the meantime.
 */
module QueryConsistency {

  const U32 := 0x1_0000_0000

  /** The row of a deployment; only the first three fields are part of the state a query sees. */
  datatype Deployment = Deployment(latestBlock: int, reorgCount: nat, maxReorgDepth: nat, currentReorgDepth: nat)

  /** Indexing moves forward to a higher block or, in one call, back to a lower one. */
  datatype Step = Forward(to: int) | Revert(to: int)

  predicate Enabled(d: Deployment, s: Step) {
    match s
    case Forward(to) => to > d.latestBlock
    case Revert(to) => to < d.latestBlock
  }

  function Max(a: nat, b: nat): nat { if a >= b then a else b }

  /** `forward_block_ptr` and `revert_block_ptr`. */
  function Apply(d: Deployment, s: Step): Deployment {
    match s
    case Forward(to) => d.(latestBlock := to, currentReorgDepth := 0)
    case Revert(to) =>
      Deployment(to, d.reorgCount + 1, Max(d.currentReorgDepth + 1, d.maxReorgDepth), d.currentReorgDepth + 1)
  }

  ghost predicate Run(d: Deployment, steps: seq<Step>)
    decreases |steps|
  {
    steps == [] || (Enabled(d, steps[0]) && Run(Apply(d, steps[0]), steps[1..]))
  }

  function After(d: Deployment, steps: seq<Step>): Deployment
    decreases |steps|
  {
    if steps == [] then d else After(Apply(d, steps[0]), steps[1..])
  }

  /** Every revert call of the run goes back by at most `depth` blocks. */
  ghost predicate RevertsAtMost(d: Deployment, steps: seq<Step>, depth: nat)
    decreases |steps|
  {
    steps == [] ||
    ((steps[0].Revert? ==> d.latestBlock - steps[0].to <= depth) && RevertsAtMost(Apply(d, steps[0]), steps[1..], depth))
  }

  /** Some revert of the run takes back block `b`. */
  ghost predicate Reverts(steps: seq<Step>, b: int) {
    exists i :: 0 <= i < |steps| && steps[i].Revert? && steps[i].to < b
  }

  // ------------------------------------------------------------------ the check

  /** How far below the head reverts may have gone; the product is a `u32` and wraps around in release builds. */
  function Margin(before: Deployment, after: Deployment): nat
    requires after.reorgCount >= before.reorgCount
  {
    (after.maxReorgDepth * (after.reorgCount - before.reorgCount)) % U32
  }

  /** `deployment_changed` returns `Ok`. */
  predicate Unchanged(before: Deployment, after: Deployment, latestRead: nat, allowChange: bool)
    requires after.reorgCount >= before.reorgCount
  {
    || allowChange
    || after.reorgCount == before.reorgCount
    || latestRead + Margin(before, after) <= before.latestBlock
  }

  /** The check can compute its bound without wrap-around. */
  predicate FitsU32(before: Deployment, after: Deployment) {
    after.maxReorgDepth * (after.reorgCount - before.reorgCount) < U32
  }

  lemma {:induction false} CountsGrow(d: Deployment, steps: seq<Step>)
    ensures After(d, steps).reorgCount >= d.reorgCount && After(d, steps).maxReorgDepth >= d.maxReorgDepth
    ensures (exists i :: 0 <= i < |steps| && steps[i].Revert?) ==>
              After(d, steps).reorgCount > d.reorgCount && After(d, steps).maxReorgDepth >= 1
    decreases |steps|
  {
    if steps == [] {
    } else {
      CountsGrow(Apply(d, steps[0]), steps[1..]);
      if i :| 0 <= i < |steps| && steps[i].Revert? {
        assert i > 0 ==> steps[1..][i - 1].Revert?;
      }
    }
  }

  /** Each counted reorg lowers the head by at most the depth of one call. */
  lemma {:induction false} LowestBlock(d: Deployment, steps: seq<Step>, depth: nat, i: nat)
    requires Run(d, steps) && RevertsAtMost(d, steps, depth)
    requires i < |steps| && steps[i].Revert?
    ensures steps[i].to >= d.latestBlock - depth * (After(d, steps).reorgCount - d.reorgCount)
    decreases |steps|
  {
    var next, rest := Apply(d, steps[0]), steps[1..];
    CountsGrow(next, rest);
    var count := After(d, steps).reorgCount - d.reorgCount;
    if i == 0 {
      MulAtLeast(depth, count);
    } else {
      assert rest[i - 1] == steps[i];
      LowestBlock(next, rest, depth, i - 1);
      if steps[0].Revert? {
        MulStep(depth, count);
      }
    }
  }

  lemma MulAtLeast(depth: nat, count: int)
    requires count >= 1
    ensures depth * count >= depth
  {
  }

  lemma MulStep(depth: nat, count: int)
    ensures depth * count == depth * (count - 1) + depth
  {
  }

  /**
   If the check passes, no block that the query read was reverted between the two state reads, for
   every run whose revert calls go back by at most the recorded depth.
   */
  lemma UnchangedIsSound(d: Deployment, steps: seq<Step>, latestRead: nat, b: int)
    requires Run(d, steps) && RevertsAtMost(d, steps, After(d, steps).maxReorgDepth)
    requires After(d, steps).reorgCount >= d.reorgCount && FitsU32(d, After(d, steps))
    requires Unchanged(d, After(d, steps), latestRead, false) && b <= latestRead
    ensures !Reverts(steps, b)
  {
    var after := After(d, steps);
    if Reverts(steps, b) {
      var i :| 0 <= i < |steps| && steps[i].Revert? && steps[i].to < b;
      CountsGrow(d, steps);
      LowestBlock(d, steps, after.maxReorgDepth, i);
    }
  }

  lemma {:induction false} SmallerReverts(d: Deployment, steps: seq<Step>, depth: nat, more: nat)
    requires RevertsAtMost(d, steps, depth) && depth <= more
    ensures RevertsAtMost(d, steps, more)
    decreases |steps|
  {
    if steps == [] {
    } else {
      SmallerReverts(Apply(d, steps[0]), steps[1..], depth, more);
    }
  }

  lemma {:induction false} NoReverts(d: Deployment, steps: seq<Step>, depth: nat)
    requires forall i :: 0 <= i < |steps| ==> steps[i].Forward?
    ensures RevertsAtMost(d, steps, depth)
    decreases |steps|
  {
    if steps == [] {
    } else {
      assert forall i :: 0 <= i < |steps[1..]| ==> steps[1..][i] == steps[i + 1];
      NoReverts(Apply(d, steps[0]), steps[1..], depth);
    }
  }

  /** Indexing that reverts one block at a time, as the polling stream does, always satisfies the condition. */
  lemma SingleBlockRevertsAreSound(d: Deployment, steps: seq<Step>, latestRead: nat, b: int)
    requires Run(d, steps) && RevertsAtMost(d, steps, 1)
    requires After(d, steps).reorgCount >= d.reorgCount && FitsU32(d, After(d, steps))
    requires Unchanged(d, After(d, steps), latestRead, false) && b <= latestRead
    ensures !Reverts(steps, b)
  {
    CountsGrow(d, steps);
    if forall i :: 0 <= i < |steps| ==> steps[i].Forward? {
      NoReverts(d, steps, After(d, steps).maxReorgDepth);
    } else {
      SmallerReverts(d, steps, 1, After(d, steps).maxReorgDepth);
    }
    UnchangedIsSound(d, steps, latestRead, b);
  }

  /** A rewind of several blocks in one call counts as depth one, and a query just below the head passes the check. */
  lemma RewindIsMissed(depth: nat) returns (d: Deployment, steps: seq<Step>, latestRead: nat)
    requires depth >= 2
    ensures Run(d, steps) && RevertsAtMost(d, steps, depth)
    ensures After(d, steps).reorgCount >= d.reorgCount && FitsU32(d, After(d, steps))
    ensures Unchanged(d, After(d, steps), latestRead, false) && Reverts(steps, latestRead)
  {
    d := Deployment(depth, 0, 0, 0);
    steps := [Revert(0)];
    latestRead := depth - 1;
    assert After(Apply(d, steps[0]), steps[1..]) == Apply(d, steps[0]);
    assert Run(Apply(d, steps[0]), steps[1..]) && RevertsAtMost(Apply(d, steps[0]), steps[1..], depth);
    assert steps[0].to < latestRead;
  }

  /** A run whose calls go back by at most `depth`, after which a query that read up to `latestRead` passes the check. */
  ghost predicate Passes(d: Deployment, steps: seq<Step>, depth: nat, latestRead: nat) {
    && Run(d, steps) && RevertsAtMost(d, steps, depth)
    && After(d, steps).reorgCount >= d.reorgCount && FitsU32(d, After(d, steps))
    && Unchanged(d, After(d, steps), latestRead, false)
  }

  /** The check catches every revert of a block read, in all runs whose calls go back by at most `depth`. */
  ghost predicate CatchesReverts(depth: nat) {
    forall d, steps, latestRead: nat :: Passes(d, steps, depth, latestRead) ==> !Reverts(steps, latestRead)
  }

  /** The check is sound exactly for indexing that reverts at most one block per call. */
  lemma CheckIsSoundIff(depth: nat)
    ensures CatchesReverts(depth) <==> depth <= 1
  {
    if depth <= 1 {
      forall d, steps, latestRead: nat | Passes(d, steps, depth, latestRead) ensures !Reverts(steps, latestRead) {
        SmallerReverts(d, steps, depth, 1);
        SingleBlockRevertsAreSound(d, steps, latestRead, latestRead);
      }
    } else {
      var d, steps, latestRead := RewindIsMissed(depth);
      assert Passes(d, steps, depth, latestRead);
    }
  }

  // ------------------------------------------------------------------ wrap-around

  /** How often a block must be added so that `k` reverts come with no more than `m` in a row. */
  function Forwards(m: nat, k: nat): nat
    decreases k
  {
    if m == 0 || k <= m then 0 else 1 + Forwards(m, k - m)
  }

  lemma {:induction false} ForwardsNext(m: nat, k: nat)
    ensures Forwards(m, k) <= Forwards(m, k + 1) <= Forwards(m, k) + 1
    decreases k
  {
    if m == 0 || k <= m {
      assert m > 0 && k == m ==> Forwards(m, k + 1 - m) == 0;
    } else {
      ForwardsNext(m, k - m);
    }
  }

  lemma {:induction false} ForwardsGrow(m: nat, a: nat, b: nat)
    requires a <= b
    ensures Forwards(m, a) <= Forwards(m, b) <= Forwards(m, a) + b - a
    decreases b
  {
    if a == b {
    } else {
      ForwardsGrow(m, a, b - 1);
      ForwardsNext(m, b - 1);
    }
  }

  /** How far `k` reorgs of one block each can lower the head if no more than `m` come in a row. */
  function Deepest(m: nat, k: nat): int {
    k - Forwards(m, k)
  }

  /** A revert comes after `r` reverts, itself included, and `f` forward steps. */
  lemma {:induction false} RevertTarget(d: Deployment, steps: seq<Step>, i: nat, m: nat) returns (r: nat, f: nat)
    requires Run(d, steps) && RevertsAtMost(d, steps, 1) && i < |steps| && steps[i].Revert?
    requires After(d, steps).maxReorgDepth <= m
    ensures 1 <= r <= After(d, steps).reorgCount - d.reorgCount
    ensures steps[i].to >= d.latestBlock - r + f
    ensures f >= Forwards(m, r + if d.currentReorgDepth <= m then d.currentReorgDepth else m)
    decreases |steps|
  {
    var next, rest := Apply(d, steps[0]), steps[1..];
    CountsGrow(next, rest);
    if i == 0 {
      r, f := 1, 0;
    } else {
      assert rest[i - 1] == steps[i];
      r, f := RevertTarget(next, rest, i - 1, m);
      if steps[0].Revert? {
        r := r + 1;
      } else {
        ForwardsGrow(m, r + (if d.currentReorgDepth <= m then d.currentReorgDepth else m), r + m);
        f := f + 1;
      }
    }
  }

  /** In a run of single-block reverts no revert goes below this. */
  lemma LowestSingleRevert(d: Deployment, steps: seq<Step>, i: nat)
    requires Run(d, steps) && RevertsAtMost(d, steps, 1) && i < |steps| && steps[i].Revert?
    ensures After(d, steps).reorgCount > d.reorgCount && After(d, steps).maxReorgDepth >= 1
    ensures steps[i].to >= d.latestBlock - Deepest(After(d, steps).maxReorgDepth, After(d, steps).reorgCount - d.reorgCount)
  {
    CountsGrow(d, steps);
    var m, k := After(d, steps).maxReorgDepth, After(d, steps).reorgCount - d.reorgCount;
    var r, f := RevertTarget(d, steps, i, m);
    ForwardsGrow(m, r, r + if d.currentReorgDepth <= m then d.currentReorgDepth else m);
    ForwardsGrow(m, r, k);
  }

  /** The margin that the check computes reaches as deep as single-block reverts can. */
  predicate MarginSuffices(before: Deployment, after: Deployment)
    requires after.reorgCount >= before.reorgCount
  {
    Margin(before, after) >= Deepest(after.maxReorgDepth, after.reorgCount - before.reorgCount)
  }

  /** With such a margin the check is sound, wrapped around or not. */
  lemma SufficientMarginIsSound(d: Deployment, steps: seq<Step>, latestRead: nat, b: int)
    requires Run(d, steps) && RevertsAtMost(d, steps, 1)
    requires After(d, steps).reorgCount >= d.reorgCount && MarginSuffices(d, After(d, steps))
    requires Unchanged(d, After(d, steps), latestRead, false) && b <= latestRead
    ensures !Reverts(steps, b)
  {
    if Reverts(steps, b) {
      var i :| 0 <= i < |steps| && steps[i].Revert? && steps[i].to < b;
      LowestSingleRevert(d, steps, i);
    }
  }

  /** `k` reverts of one block each, with one block added whenever `m` of them came in a row. */
  function Dive(from: int, depth: nat, m: nat, k: nat): seq<Step>
    requires m >= 1 && depth <= m
    decreases k, if depth < m then 0 else 1
  {
    if k == 0 then []
    else if depth < m then [Revert(from - 1)] + Dive(from - 1, depth + 1, m, k - 1)
    else [Forward(from + 1)] + Dive(from + 1, 0, m, k)
  }

  /** The steps count `k` reorgs, end at `to` with a revert, and leave the recorded depth as it was. */
  ghost predicate DivesTo(d: Deployment, steps: seq<Step>, k: nat, to: int) {
    && Run(d, steps) && RevertsAtMost(d, steps, 1)
    && After(d, steps).maxReorgDepth == d.maxReorgDepth && After(d, steps).reorgCount == d.reorgCount + k
    && After(d, steps).latestBlock == to
    && (k >= 1 ==> steps != [] && steps[|steps| - 1] == Revert(to))
  }

  lemma DivesCons(d: Deployment, step: Step, steps: seq<Step>, k: nat, to: int)
    requires Enabled(d, step) && (step.Revert? ==> d.latestBlock - step.to <= 1)
    requires Apply(d, step).maxReorgDepth == d.maxReorgDepth && DivesTo(Apply(d, step), steps, k, to)
    requires k == 0 ==> steps == [] && step == Revert(to)
    ensures DivesTo(d, [step] + steps, if step.Revert? then k + 1 else k, to)
  {
    var all := [step] + steps;
    assert all[1..] == steps;
    if k >= 1 {
      assert all[|all| - 1] == steps[|steps| - 1];
    }
  }

  lemma {:induction false} DiveRun(d: Deployment, k: nat)
    requires d.maxReorgDepth >= 1 && d.currentReorgDepth <= d.maxReorgDepth && k >= 1
    ensures var m, depth := d.maxReorgDepth, d.currentReorgDepth;
            DivesTo(d, Dive(d.latestBlock, depth, m, k), k, d.latestBlock - k + Forwards(m, depth + k))
    decreases k, if d.currentReorgDepth < d.maxReorgDepth then 0 else 1
  {
    var m, depth, from := d.maxReorgDepth, d.currentReorgDepth, d.latestBlock;
    var to := from - k + Forwards(m, depth + k);
    if depth == m {
      DiveRun(Apply(d, Forward(from + 1)), k);
      DivesCons(d, Forward(from + 1), Dive(from + 1, 0, m, k), k, to);
    } else if k == 1 {
      assert Dive(from - 1, depth + 1, m, 0) == [];
      DivesCons(d, Revert(from - 1), [], 0, to);
    } else {
      DiveRun(Apply(d, Revert(from - 1)), k - 1);
      DivesCons(d, Revert(from - 1), Dive(from - 1, depth + 1, m, k - 1), k - 1, to);
    }
  }

  /** A run of single-block reverts with final depth `m` and `k` counted reorgs, after which the query passes the check. */
  ghost predicate PassesWith(d: Deployment, steps: seq<Step>, m: nat, k: nat, latestRead: nat) {
    && Run(d, steps) && RevertsAtMost(d, steps, 1)
    && After(d, steps).maxReorgDepth == m && After(d, steps).reorgCount == d.reorgCount + k
    && Unchanged(d, After(d, steps), latestRead, false)
  }

  ghost predicate CatchesRevertsWith(m: nat, k: nat) {
    forall d, steps, latestRead: nat :: PassesWith(d, steps, m, k, latestRead) ==> !Reverts(steps, latestRead)
  }

  /** Some run of single-block reverts with final depth `m` and `k` counted reorgs goes that deep. */
  lemma DeepestIsReached(from: nat, m: nat, k: nat) returns (d: Deployment, steps: seq<Step>)
    requires m >= 1 && k >= 1
    ensures d.latestBlock == from && Run(d, steps) && RevertsAtMost(d, steps, 1)
    ensures After(d, steps).maxReorgDepth == m && After(d, steps).reorgCount == d.reorgCount + k
    ensures forall b :: b > from - Deepest(m, k) ==> Reverts(steps, b)
  {
    d := Deployment(from, 0, m, 0);
    steps := Dive(from, 0, m, k);
    DiveRun(d, k);
    assert steps[|steps| - 1].Revert? && steps[|steps| - 1].to == from - Deepest(m, k);
  }

  /** For single-block reverts the check is sound exactly when the product, wrapped around, still covers their depth. */
  lemma ProductIsSoundIff(m: nat, k: nat)
    requires m >= 1 && k >= 1
    ensures CatchesRevertsWith(m, k) <==> (m * k) % U32 >= Deepest(m, k)
  {
    var margin := (m * k) % U32;
    if margin >= Deepest(m, k) {
      forall d, steps, latestRead: nat | PassesWith(d, steps, m, k, latestRead) ensures !Reverts(steps, latestRead) {
        SufficientMarginIsSound(d, steps, latestRead, latestRead);
      }
    } else {
      var d, steps := DeepestIsReached(margin + k, m, k);
      assert PassesWith(d, steps, m, k, k) && Reverts(steps, k);
    }
  }

  /** Wrapping around is harmless for some products and not for others. */
  lemma WrapAroundExamples()
    ensures !CatchesRevertsWith(0x1_0000, 0x1_0000) && 0x1_0000 * 0x1_0000 == U32
    ensures CatchesRevertsWith(100_000, 100_000) && 100_000 * 100_000 > U32
  {
    ProductIsSoundIff(0x1_0000, 0x1_0000);
    ProductIsSoundIff(100_000, 100_000);
  }

  // ------------------------------------------------------------------ a query

  /** The `max_block` loop of `execute`. */
  method LargestBlockRead(blocks: seq<nat>) returns (max: nat)
    ensures forall i :: 0 <= i < |blocks| ==> blocks[i] <= max
    ensures max == 0 || max in blocks
  {
    max := 0;
    for i := 0 to |blocks|
      invariant forall j :: 0 <= j < i ==> blocks[j] <= max
      invariant max == 0 || max in blocks
    {
      if blocks[i] > max {
        max := blocks[i];
      }
    }
  }

  /**
   A query reads `blocks` while the deployment goes through `steps`. If the result is accepted, no block
   it was read from was reverted. The assertion that the count of reorgs does not shrink holds.
   */
  method Execute(blocks: seq<nat>, allowChange: bool, before: Deployment, after: Deployment, ghost steps: seq<Step>)
    returns (ok: bool)
    requires after == After(before, steps)
    ensures after.reorgCount >= before.reorgCount
    ensures ok <==> || allowChange || after.reorgCount == before.reorgCount
                    || (Margin(before, after) <= before.latestBlock
                        && forall i :: 0 <= i < |blocks| ==> blocks[i] + Margin(before, after) <= before.latestBlock)
    ensures ok && !allowChange && Run(before, steps) && RevertsAtMost(before, steps, 1) && MarginSuffices(before, after) ==>
              forall i :: 0 <= i < |blocks| ==> !Reverts(steps, blocks[i])
  {
    CountsGrow(before, steps);
    var maxBlock := LargestBlockRead(blocks);
    ok := true;
    if !allowChange && after.reorgCount > before.reorgCount {
      var nBlocks := Margin(before, after);
      if maxBlock + nBlocks > before.latestBlock {
        ok := false;
      }
    }
    if ok && !allowChange && Run(before, steps) && RevertsAtMost(before, steps, 1) && MarginSuffices(before, after) {
      forall i | 0 <= i < |blocks| ensures !Reverts(steps, blocks[i]) {
        SufficientMarginIsSound(before, steps, maxBlock, blocks[i]);
      }
    }
  }
}
