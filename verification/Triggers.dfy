/** The order of Ethereum triggers within a block, and the stable sort that applies it. */
module Triggers {
  import opened Wrappers

  type Hash = nat

  datatype BlockTriggerType = Every | WithCallTo(address: nat)

  /** A log's transaction index is taken to be present; its log index may be absent. */
  datatype Trigger =
    | LogTrigger(blockNumber: int, blockHash: Hash, transactionIndex: nat, logIndex: Option<nat>, id: nat)
    | CallTrigger(blockNumber: int, blockHash: Hash, transactionIndex: nat, transactionHash: Option<Hash>, id: nat)
    | BlockTrigger(blockNumber: int, blockHash: Hash, kind: BlockTriggerType)

  datatype Ordering = Less | Equal | Greater

  function Compare(a: int, b: int): Ordering {
    if a < b then Less else if a == b then Equal else Greater
  }

  /** An absent log index sorts before every present one. */
  function Rank(logIndex: Option<nat>): int {
    if logIndex.None? then -1 else logIndex.value
  }

  /** `Ord for EthereumTrigger`. */
  function Cmp(a: Trigger, b: Trigger): Ordering {
    match (a, b)
    case (BlockTrigger(_, _, _), BlockTrigger(_, _, _)) => Equal
    case (BlockTrigger(_, _, _), _) => Greater
    case (_, BlockTrigger(_, _, _)) => Less
    case (CallTrigger(_, _, x, _, _), CallTrigger(_, _, y, _, _)) => Compare(x, y)
    case (LogTrigger(_, _, _, i, _), LogTrigger(_, _, _, j, _)) => Compare(Rank(i), Rank(j))
    case (CallTrigger(_, _, x, _, _), LogTrigger(_, _, y, _, _)) => if x == y then Greater else Compare(x, y)
    case (LogTrigger(_, _, x, _, _), CallTrigger(_, _, y, _, _)) => if x == y then Less else Compare(x, y)
  }

  predicate AtMost(a: Trigger, b: Trigger) {
    Cmp(a, b) != Greater
  }

  // ------------------------------------------------------------------ when the comparison is an order

  lemma CmpIsTotal(a: Trigger, b: Trigger)
    ensures Cmp(a, b) == Less <==> Cmp(b, a) == Greater
    ensures Cmp(a, b) == Equal <==> Cmp(b, a) == Equal
    ensures AtMost(a, b) || AtMost(b, a)
  {
  }

  predicate Chained(a: Trigger, b: Trigger, c: Trigger) {
    AtMost(a, b) && AtMost(b, c) ==> AtMost(a, c)
  }

  ghost predicate Transitive(ts: set<Trigger>) {
    forall a, b, c {:trigger Chained(a, b, c)} :: a in ts && b in ts && c in ts ==> Chained(a, b, c)
  }

  /** A call lies between two logs whose log indices contradict their transactions. */
  predicate Contradicts(x: Trigger, y: Trigger, c: Trigger) {
    && x.LogTrigger? && y.LogTrigger? && c.CallTrigger?
    && y.transactionIndex <= c.transactionIndex < x.transactionIndex
    && Rank(x.logIndex) <= Rank(y.logIndex)
  }

  ghost predicate Consistent(ts: set<Trigger>) {
    forall x, y, c {:trigger Contradicts(x, y, c)} :: x in ts && y in ts && c in ts ==> !Contradicts(x, y, c)
  }

  lemma TransitiveStep(ts: set<Trigger>, a: Trigger, b: Trigger, c: Trigger)
    requires Consistent(ts) && a in ts && b in ts && c in ts
    ensures Chained(a, b, c)
  {
    assert !Contradicts(a, b, c) && !Contradicts(c, a, b) && !Contradicts(b, c, a);
  }

  /** The comparison is a total preorder on a set of triggers iff no call lies between contradicting logs. */
  lemma OrderIsPreorderIff(ts: set<Trigger>)
    ensures Transitive(ts) <==> Consistent(ts)
  {
    if Consistent(ts) {
      forall a, b, c | a in ts && b in ts && c in ts ensures Chained(a, b, c) {
        TransitiveStep(ts, a, b, c);
      }
    }
    if Transitive(ts) {
      forall x, y, c | x in ts && y in ts && c in ts ensures !Contradicts(x, y, c) {
        assert Chained(x, y, c);
      }
    }
  }

  /** Log indices grow with the transaction index, as they do within one block. */
  ghost predicate LogsInOrder(ts: set<Trigger>) {
    forall a, b :: a in ts && b in ts && a.LogTrigger? && b.LogTrigger? && a.transactionIndex < b.transactionIndex
                   ==> Rank(a.logIndex) < Rank(b.logIndex)
  }

  /** Lexicographic comparison by: block triggers last, transaction, logs before calls, log index. */
  function CompareKeys(a: Trigger, b: Trigger): Ordering {
    if a.BlockTrigger? || b.BlockTrigger? then
      Compare(if a.BlockTrigger? then 1 else 0, if b.BlockTrigger? then 1 else 0)
    else if a.transactionIndex != b.transactionIndex then Compare(a.transactionIndex, b.transactionIndex)
    else if a.CallTrigger? || b.CallTrigger? then
      Compare(if a.CallTrigger? then 1 else 0, if b.CallTrigger? then 1 else 0)
    else Compare(Rank(a.logIndex), Rank(b.logIndex))
  }

  /** On logs in order the comparison is that of the keys, hence a total preorder. */
  lemma CmpComparesKeys(ts: set<Trigger>, a: Trigger, b: Trigger)
    requires LogsInOrder(ts) && a in ts && b in ts
    ensures Cmp(a, b) == CompareKeys(a, b)
  {
  }

  lemma LogsInOrderAreConsistent(ts: set<Trigger>)
    requires LogsInOrder(ts)
    ensures Consistent(ts) && Transitive(ts)
  {
    OrderIsPreorderIff(ts);
  }

  // ------------------------------------------------------------------ stable sort

  function Elements(ts: seq<Trigger>): set<Trigger> {
    set i | 0 <= i < |ts| :: ts[i]
  }

  ghost predicate Sorted(ts: seq<Trigger>) {
    forall i, j :: 0 <= i < j < |ts| ==> AtMost(ts[i], ts[j])
  }

  /** Inserts `t` behind everything that is not greater. */
  function Insert(ts: seq<Trigger>, t: Trigger): (r: seq<Trigger>)
    ensures |r| == |ts| + 1
  {
    if ts == [] || AtMost(ts[|ts| - 1], t) then ts + [t]
    else Insert(ts[..|ts| - 1], t) + [ts[|ts| - 1]]
  }

  function StableSort(ts: seq<Trigger>): (r: seq<Trigger>)
    ensures |r| == |ts|
  {
    if ts == [] then [] else Insert(StableSort(ts[..|ts| - 1]), ts[|ts| - 1])
  }

  lemma {:induction false} InsertMultiset(ts: seq<Trigger>, t: Trigger)
    ensures multiset(Insert(ts, t)) == multiset(ts) + multiset{t}
  {
    if ts != [] && !AtMost(ts[|ts| - 1], t) {
      InsertMultiset(ts[..|ts| - 1], t);
      assert ts == ts[..|ts| - 1] + [ts[|ts| - 1]];
    }
  }

  lemma {:induction false} SortIsPermutation(ts: seq<Trigger>)
    ensures multiset(StableSort(ts)) == multiset(ts)
  {
    if ts == [] {
    } else {
      SortIsPermutation(ts[..|ts| - 1]);
      InsertMultiset(StableSort(ts[..|ts| - 1]), ts[|ts| - 1]);
      assert ts == ts[..|ts| - 1] + [ts[|ts| - 1]];
    }
  }

  lemma SamePieces(ts: seq<Trigger>, rs: seq<Trigger>)
    requires multiset(ts) == multiset(rs)
    ensures Elements(ts) == Elements(rs)
  {
    forall t ensures t in Elements(ts) <==> t in Elements(rs) {
      assert t in Elements(ts) <==> t in ts;
      assert t in Elements(rs) <==> t in rs;
      assert t in ts <==> t in multiset(ts);
      assert t in rs <==> t in multiset(rs);
    }
  }

  lemma {:induction false} InsertBelow(ts: seq<Trigger>, t: Trigger, bound: Trigger)
    requires AtMost(t, bound) && forall i :: 0 <= i < |ts| ==> AtMost(ts[i], bound)
    ensures forall i :: 0 <= i < |Insert(ts, t)| ==> AtMost(Insert(ts, t)[i], bound)
  {
    if ts != [] && !AtMost(ts[|ts| - 1], t) {
      InsertBelow(ts[..|ts| - 1], t, bound);
    }
  }

  lemma {:induction false} InsertSorted(all: set<Trigger>, ts: seq<Trigger>, t: Trigger)
    requires Transitive(all) && Elements(ts) <= all && t in all && Sorted(ts)
    ensures Sorted(Insert(ts, t))
  {
    if ts == [] {
    } else {
      var front, last := ts[..|ts| - 1], ts[|ts| - 1];
      assert forall i :: 0 <= i < |ts| ==> ts[i] in Elements(ts);
      assert forall i :: 0 <= i < |front| ==> front[i] == ts[i] && AtMost(ts[i], last);
      if AtMost(last, t) {
        forall i | 0 <= i < |ts| ensures AtMost(ts[i], t) {
          assert Chained(ts[i], last, t);
        }
      } else {
        CmpIsTotal(last, t);
        InsertSorted(all, front, t);
        InsertBelow(front, t, last);
      }
    }
  }

  /** On a consistent block the sort really sorts. */
  lemma {:induction false} SortIsSorted(all: set<Trigger>, ts: seq<Trigger>)
    requires Transitive(all) && Elements(ts) <= all
    ensures Sorted(StableSort(ts))
  {
    if ts == [] {
    } else {
      var front := ts[..|ts| - 1];
      assert forall i :: 0 <= i < |ts| ==> ts[i] in Elements(ts);
      assert forall i :: 0 <= i < |front| ==> front[i] == ts[i];
      SortIsSorted(all, front);
      SortIsPermutation(front);
      SamePieces(front, StableSort(front));
      InsertSorted(all, StableSort(front), ts[|ts| - 1]);
    }
  }

  /** The triggers that compare equal to `t`, in order. */
  function EqualTo(ts: seq<Trigger>, t: Trigger): seq<Trigger> {
    if ts == [] then []
    else EqualTo(ts[..|ts| - 1], t) + if Cmp(ts[|ts| - 1], t) == Equal then [ts[|ts| - 1]] else []
  }

  lemma EqualToPush(ts: seq<Trigger>, x: Trigger, t: Trigger)
    ensures EqualTo(ts + [x], t) == EqualTo(ts, t) + if Cmp(x, t) == Equal then [x] else []
  {
    assert (ts + [x])[..|ts + [x]| - 1] == ts;
  }

  /** Inserting keeps the order of equal triggers: the new one comes last among its equals. */
  lemma {:induction false} InsertStable(all: set<Trigger>, ts: seq<Trigger>, x: Trigger, t: Trigger)
    requires Transitive(all) && Elements(ts) <= all && x in all && t in all
    ensures EqualTo(Insert(ts, x), t) == EqualTo(ts, t) + if Cmp(x, t) == Equal then [x] else []
  {
    if ts == [] || AtMost(ts[|ts| - 1], x) {
      EqualToPush(ts, x, t);
    } else {
      var front, last := ts[..|ts| - 1], ts[|ts| - 1];
      assert forall i :: 0 <= i < |ts| ==> ts[i] in Elements(ts);
      assert forall i :: 0 <= i < |front| ==> front[i] == ts[i];
      InsertStable(all, front, x, t);
      EqualToPush(Insert(front, x), last, t);
      CmpIsTotal(x, t);
      CmpIsTotal(last, t);
      assert Chained(last, t, x);
      assert EqualTo(front, t) + [] == EqualTo(front, t);
    }
  }

  /** The sort is stable: equal triggers keep their order. */
  lemma {:induction false} SortIsStable(all: set<Trigger>, ts: seq<Trigger>, t: Trigger)
    requires Transitive(all) && Elements(ts) <= all && t in all
    ensures EqualTo(StableSort(ts), t) == EqualTo(ts, t)
  {
    if ts == [] {
    } else {
      var front := ts[..|ts| - 1];
      assert forall i :: 0 <= i < |ts| ==> ts[i] in Elements(ts);
      assert forall i :: 0 <= i < |front| ==> front[i] == ts[i];
      SortIsStable(all, front, t);
      SortIsPermutation(front);
      SamePieces(front, StableSort(front));
      InsertStable(all, StableSort(front), ts[|ts| - 1], t);
    }
  }

  // ------------------------------------------------------------------ block triggers come last

  function OnlyBlocks(ts: seq<Trigger>): (r: seq<Trigger>)
    ensures forall i :: 0 <= i < |r| ==> r[i].BlockTrigger?
  {
    if ts == [] then [] else OnlyBlocks(ts[..|ts| - 1]) + if ts[|ts| - 1].BlockTrigger? then [ts[|ts| - 1]] else []
  }

  function WithoutBlocks(ts: seq<Trigger>): (r: seq<Trigger>)
    ensures forall i :: 0 <= i < |r| ==> !r[i].BlockTrigger?
  {
    if ts == [] then [] else WithoutBlocks(ts[..|ts| - 1]) + if ts[|ts| - 1].BlockTrigger? then [] else [ts[|ts| - 1]]
  }

  lemma {:induction false} InsertBeforeBlocks(ts: seq<Trigger>, blocks: seq<Trigger>, t: Trigger)
    requires !t.BlockTrigger? && forall i :: 0 <= i < |blocks| ==> blocks[i].BlockTrigger?
    ensures Insert(ts + blocks, t) == Insert(ts, t) + blocks
  {
    if blocks == [] {
      assert ts + blocks == ts && Insert(ts, t) + [] == Insert(ts, t);
    } else {
      var front, last := blocks[..|blocks| - 1], blocks[|blocks| - 1];
      assert (ts + blocks)[..|ts + blocks| - 1] == ts + front;
      assert !AtMost((ts + blocks)[|ts + blocks| - 1], t);
      InsertBeforeBlocks(ts, front, t);
      assert Insert(ts, t) + front + [last] == Insert(ts, t) + blocks;
    }
  }

  lemma SortPush(ts: seq<Trigger>, t: Trigger)
    ensures StableSort(ts + [t]) == Insert(StableSort(ts), t)
  {
    assert (ts + [t])[..|ts + [t]| - 1] == ts;
  }

  /**
   Block triggers end up last, in their original order. On consistent triggers this says what any stable
   sort does; on others, where the source's sort promises no order, it speaks of insertion sort alone.
   */
  lemma {:induction false} BlocksComeLast(ts: seq<Trigger>)
    ensures StableSort(ts) == StableSort(WithoutBlocks(ts)) + OnlyBlocks(ts)
  {
    if ts == [] {
    } else {
      var front, last := ts[..|ts| - 1], ts[|ts| - 1];
      BlocksComeLast(front);
      BlocksComeLastStep(StableSort(WithoutBlocks(front)), OnlyBlocks(front), last);
      if last.BlockTrigger? {
        assert WithoutBlocks(ts) == WithoutBlocks(front);
      } else {
        SortPush(WithoutBlocks(front), last);
        assert OnlyBlocks(ts) == OnlyBlocks(front);
      }
    }
  }

  lemma BlocksComeLastStep(rest: seq<Trigger>, blocks: seq<Trigger>, t: Trigger)
    requires forall i :: 0 <= i < |blocks| ==> blocks[i].BlockTrigger?
    ensures t.BlockTrigger? ==> Insert(rest + blocks, t) == rest + (blocks + [t])
    ensures !t.BlockTrigger? ==> Insert(rest + blocks, t) == Insert(rest, t) + blocks
  {
    if t.BlockTrigger? {
      assert Insert(rest + blocks, t) == rest + blocks + [t];
    } else {
      InsertBeforeBlocks(rest, blocks, t);
    }
  }

  // ------------------------------------------------------------------ nothing else is a stable sort

  lemma {:induction false} FirstEqual(ts: seq<Trigger>, t: Trigger)
    requires ts != [] && Cmp(ts[0], t) == Equal
    ensures EqualTo(ts, t) != [] && EqualTo(ts, t)[0] == ts[0]
    ensures EqualTo(ts, t)[1..] == EqualTo(ts[1..], t)
  {
    if |ts| == 1 {
      assert ts[..0] == [] && ts[1..] == [];
    } else {
      var front := ts[..|ts| - 1];
      FirstEqual(front, t);
      assert ts[1..][..|ts[1..]| - 1] == front[1..];
    }
  }

  lemma {:induction false} FirstUnequal(ts: seq<Trigger>, t: Trigger)
    requires ts != [] && Cmp(ts[0], t) != Equal
    ensures EqualTo(ts, t) == EqualTo(ts[1..], t)
  {
    if |ts| == 1 {
      assert ts[..0] == [] && ts[1..] == [];
    } else {
      var front := ts[..|ts| - 1];
      FirstUnequal(front, t);
      assert ts[1..][..|ts[1..]| - 1] == front[1..];
    }
  }

  lemma {:induction false} EqualToMember(ts: seq<Trigger>, t: Trigger) returns (k: nat)
    requires EqualTo(ts, t) != []
    ensures k < |ts| && Cmp(ts[k], t) == Equal
  {
    if Cmp(ts[|ts| - 1], t) == Equal {
      k := |ts| - 1;
    } else {
      k := EqualToMember(ts[..|ts| - 1], t);
    }
  }

  /** Equal triggers appear in the same order on both sides. */
  ghost predicate SameOrder(all: set<Trigger>, ts: seq<Trigger>, rs: seq<Trigger>) {
    forall t :: t in all ==> EqualTo(ts, t) == EqualTo(rs, t)
  }

  /** The first trigger of a sorted sequence comes no later than any trigger the other sequence has. */
  lemma FirstAtMost(all: set<Trigger>, ts: seq<Trigger>, rs: seq<Trigger>)
    requires Transitive(all) && Elements(ts) <= all && Elements(rs) <= all
    requires Sorted(ts) && SameOrder(all, ts, rs) && rs != []
    ensures ts != [] && AtMost(ts[0], rs[0])
  {
    assert rs[0] in Elements(rs);
    CmpIsTotal(rs[0], rs[0]);
    FirstEqual(rs, rs[0]);
    var k := EqualToMember(ts, rs[0]);
    assert ts[0] in Elements(ts) && ts[k] in Elements(ts);
    CmpIsTotal(ts[0], ts[0]);
    assert Chained(ts[0], ts[k], rs[0]);
  }

  /** Sorted sequences that keep equal triggers in the same order are the same sequence. */
  lemma {:induction false} StableSortIsUnique(all: set<Trigger>, ts: seq<Trigger>, rs: seq<Trigger>)
    requires Transitive(all) && Elements(ts) <= all && Elements(rs) <= all
    requires Sorted(ts) && Sorted(rs) && SameOrder(all, ts, rs)
    ensures ts == rs
  {
    if ts == [] {
      if rs != [] {
        FirstAtMost(all, ts, rs);
      }
    } else {
      FirstAtMost(all, rs, ts);
      FirstAtMost(all, ts, rs);
      var t := rs[0];
      assert ts[0] in Elements(ts) && t in Elements(rs);
      CmpIsTotal(ts[0], t);
      FirstEqual(ts, t);
      FirstEqual(rs, t);
      TailsAgree(all, ts, rs);
      StableSortIsUnique(all, ts[1..], rs[1..]);
      assert ts == [ts[0]] + ts[1..] && rs == [rs[0]] + rs[1..];
    }
  }

  lemma TailsAgree(all: set<Trigger>, ts: seq<Trigger>, rs: seq<Trigger>)
    requires ts != [] && rs != [] && ts[0] == rs[0] && SameOrder(all, ts, rs)
    requires Elements(ts) <= all && Elements(rs) <= all
    ensures SameOrder(all, ts[1..], rs[1..]) && Elements(ts[1..]) <= all && Elements(rs[1..]) <= all
  {
    forall t | t in all ensures EqualTo(ts[1..], t) == EqualTo(rs[1..], t) {
      if Cmp(ts[0], t) == Equal {
        FirstEqual(ts, t);
        FirstEqual(rs, t);
      } else {
        FirstUnequal(ts, t);
        FirstUnequal(rs, t);
      }
    }
    assert forall i :: 0 <= i < |ts[1..]| ==> ts[1..][i] == ts[i + 1] && ts[i + 1] in Elements(ts);
    assert forall i :: 0 <= i < |rs[1..]| ==> rs[1..][i] == rs[i + 1] && rs[i + 1] in Elements(rs);
  }

  /** On a consistent block, the result is the only sorted rearrangement that keeps equal triggers in order. */
  lemma StableSortIff(ts: seq<Trigger>, rs: seq<Trigger>)
    requires Consistent(Elements(ts)) && Elements(rs) <= Elements(ts)
    ensures rs == StableSort(ts) <==> Sorted(rs) && SameOrder(Elements(ts), rs, ts)
  {
    var all := Elements(ts);
    OrderIsPreorderIff(all);
    SortIsSorted(all, ts);
    forall t | t in all ensures EqualTo(StableSort(ts), t) == EqualTo(ts, t) {
      SortIsStable(all, ts, t);
    }
    SortIsPermutation(ts);
    SamePieces(ts, StableSort(ts));
    if Sorted(rs) && SameOrder(all, rs, ts) {
      StableSortIsUnique(all, rs, StableSort(ts));
    }
  }

  // ------------------------------------------------------------------ the constructor of a block with triggers

  /** `BlockWithTriggers::new` sorts the trigger vector in place. */
  method SortTriggers(a: array<Trigger>)
    modifies a
    ensures a[..] == StableSort(old(a[..]))
  {
    ghost var ts := a[..];
    for i := 0 to a.Length
      invariant a[..i] == StableSort(ts[..i])
      invariant forall k :: i <= k < a.Length ==> a[k] == ts[k]
    {
      InsertInPlace(a, i);
      SortPush(ts[..i], ts[i]);
      assert ts[..i + 1] == ts[..i] + [ts[i]];
    }
    assert a[..] == a[..a.Length] && ts[..a.Length] == ts;
  }

  lemma {:induction false} InsertAt(ts: seq<Trigger>, t: Trigger, j: nat)
    requires j <= |ts| && (j == 0 || AtMost(ts[j - 1], t))
    requires forall k :: j <= k < |ts| ==> !AtMost(ts[k], t)
    ensures Insert(ts, t) == ts[..j] + [t] + ts[j..]
  {
    if j == |ts| {
      assert ts[..j] == ts && ts[j..] == [];
    } else {
      var front, last := ts[..|ts| - 1], ts[|ts| - 1];
      InsertAt(front, t, j);
      assert front[..j] == ts[..j] && front[j..] + [last] == ts[j..];
      assert Insert(ts, t) == ts[..j] + [t] + front[j..] + [last];
    }
  }

  /** Moves element `i` down into the sorted part before it. */
  method InsertInPlace(a: array<Trigger>, i: nat)
    requires i < a.Length
    modifies a
    ensures a[..i + 1] == Insert(old(a[..i]), old(a[i]))
    ensures forall k :: i < k < a.Length ==> a[k] == old(a[k])
  {
    ghost var sorted := a[..i];
    var t := a[i];
    var j := i;
    while j > 0 && Cmp(a[j - 1], t) == Greater
      invariant 0 <= j <= i
      invariant forall k :: 0 <= k < j ==> a[k] == sorted[k]
      invariant forall k :: j < k <= i ==> a[k] == sorted[k - 1]
      invariant forall k :: i < k < a.Length ==> a[k] == old(a[k])
      invariant forall k :: j <= k < i ==> !AtMost(sorted[k], t)
    {
      a[j] := a[j - 1];
      j := j - 1;
    }
    a[j] := t;
    InsertAt(sorted, t, j);
    assert a[..i + 1] == sorted[..j] + [t] + sorted[j..];
  }
}
