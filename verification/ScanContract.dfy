/** The Ethereum block scan meets the contract that the polling stream relies on. */
module ScanContract {
  import opened Wrappers
  import opened Triggers
  import C = Chain
  import L = LogScan
  import F = LogFilters
  import R = Reconciliation
  import opened ScanBlocks

  // ------------------------------------------------------------------ blocks and their hashes

  /** No two blocks have the same hash. */
  ghost predicate Injective(id: C.Block -> Hash) {
    forall a, b :: id(a) == id(b) ==> a == b
  }

  /** The chain of light blocks is the chain that ends in `top`. */
  ghost predicate Describes(id: C.Block -> Hash, top: C.Block, from: nat, chain: map<int, LightBlock>) {
    forall n :: from <= n <= C.Number(top) ==> n in chain && HashAt(id, top, chain, n)
  }

  ghost predicate HashAt(id: C.Block -> Hash, top: C.Block, chain: map<int, LightBlock>, n: int)
    requires 0 <= n <= C.Number(top) && n in chain
  {
    chain[n].hash == id(C.At(top, n))
  }

  /** The blocks whose hashes the result carries. */
  ghost predicate Names(id: C.Block -> Hash, r: seq<BlockWithTriggers>, blocks: seq<C.Block>) {
    |blocks| == |r| && forall i :: 0 <= i < |r| ==> id(blocks[i]) == r[i].block.hash
  }

  ghost predicate Places(top: C.Block, r: seq<BlockWithTriggers>, blocks: seq<C.Block>) {
    |blocks| == |r| && forall i :: 0 <= i < |r| ==> PlacedAt(top, blocks[i], r[i].block.number)
  }

  ghost predicate PlacedAt(top: C.Block, b: C.Block, n: int) {
    0 <= n <= C.Number(top) && b == C.At(top, n) && C.Number(b) == n && C.Anc(b, top)
  }

  /** A returned block is the one of the chain that has its number. */
  lemma NamedBlocksArePlaced(id: C.Block -> Hash, top: C.Block, from: nat, chain: map<int, LightBlock>, ns: set<int>,
                             r: seq<BlockWithTriggers>, blocks: seq<C.Block>)
    requires Injective(id) && Describes(id, top, from, chain) && Names(id, r, blocks)
    requires InRange(from, C.Number(top), r) && Complete(chain, ns, r)
    ensures Places(top, r, blocks)
  {
    forall i | 0 <= i < |r| ensures PlacedAt(top, blocks[i], r[i].block.number) {
      var n := r[i].block.number;
      assert HashAt(id, top, chain, n);
      assert id(blocks[i]) == id(C.At(top, n));
      C.AtAnc(top, n);
    }
  }

  /** Such blocks exist. */
  lemma NamedBlocksExist(id: C.Block -> Hash, top: C.Block, from: nat, chain: map<int, LightBlock>, ns: set<int>, r: seq<BlockWithTriggers>)
    returns (blocks: seq<C.Block>)
    requires Describes(id, top, from, chain) && InRange(from, C.Number(top), r) && Complete(chain, ns, r)
    ensures Names(id, r, blocks)
  {
    blocks := seq(|r|, i requires 0 <= i < |r| => C.At(top, r[i].block.number));
    forall i | 0 <= i < |r| ensures id(blocks[i]) == r[i].block.hash {
      assert HashAt(id, top, chain, r[i].block.number);
    }
  }

  // ------------------------------------------------------------------ the contract

  lemma BlocksAscend(top: C.Block, from: nat, r: seq<BlockWithTriggers>, blocks: seq<C.Block>)
    requires Places(top, r, blocks) && r != [] && InRange(from, C.Number(top), r) && Ascending(r)
    requires r[|r| - 1].block.number == C.Number(top)
    ensures R.ScanAscends(from, top, blocks)
  {
    assert forall i :: 0 <= i < |r| ==> PlacedAt(top, blocks[i], r[i].block.number);
  }

  /** The triggers handed over cover every trigger-bearing block of the range. */
  ghost predicate AllFound(top: C.Block, from: nat, ts: seq<Trigger>) {
    forall n :: from <= n <= C.Number(top) && C.Carries(C.At(top, n)) ==> n in Numbers(ts)
  }

  lemma BlocksHave(top: C.Block, r: seq<BlockWithTriggers>, blocks: seq<C.Block>, chain: map<int, LightBlock>, ns: set<int>, n: int)
    requires Places(top, r, blocks) && Complete(chain, ns, r) && n in ns && 0 <= n <= C.Number(top)
    ensures C.At(top, n) in blocks
  {
    var i :| 0 <= i < |r| && r[i].block.number == n;
    assert PlacedAt(top, blocks[i], n);
  }

  lemma BlocksCover(top: C.Block, from: nat, r: seq<BlockWithTriggers>, blocks: seq<C.Block>, chain: map<int, LightBlock>, ts: seq<Trigger>)
    requires Places(top, r, blocks) && Complete(chain, Numbers(ts) + {C.Number(top)}, r) && AllFound(top, from, ts)
    ensures R.ScanCovers(from, top, blocks)
  {
    forall n | from <= n <= C.Number(top) && 0 <= n && C.Carries(C.At(top, n)) ensures C.At(top, n) in blocks {
      BlocksHave(top, r, blocks, chain, Numbers(ts) + {C.Number(top)}, n);
    }
  }

  ghost predicate HasTrigger(ts: seq<Trigger>, n: int) {
    exists t :: t in ts && t.blockNumber == n
  }

  /** A block of the range carries triggers exactly when one was found in it that is no call of a failed transaction. */
  ghost predicate BearsFound(top: C.Block, from: nat, ts: seq<Trigger>, filter: bool, receipts: map<Hash, Option<nat>>) {
    forall n :: from <= n <= C.Number(top) ==> (C.Carries(C.At(top, n)) <==> HasTrigger(Remaining(ts, filter, receipts), n))
  }

  /** A block comes with triggers exactly when it carries some. */
  ghost predicate DeliversTriggers(r: seq<BlockWithTriggers>, blocks: seq<C.Block>) {
    |blocks| == |r| && forall i :: 0 <= i < |r| ==> (r[i].triggers != [] <==> C.Carries(blocks[i]))
  }

  lemma ExpectedHasTriggerIff(ts: seq<Trigger>, n: int, filter: bool, receipts: map<Hash, Option<nat>>)
    ensures Expected(ts, n, filter, receipts) != [] <==> HasTrigger(Remaining(ts, filter, receipts), n)
  {
    var e, all := Expected(ts, n, filter, receipts), Remaining(ts, filter, receipts);
    if e != [] {
      ExpectedCount(ts, n, filter, receipts, e[0]);
      assert e[0] in multiset(e);
      assert e[0] in all && e[0].blockNumber == n;
    }
    if HasTrigger(all, n) {
      var t :| t in all && t.blockNumber == n;
      ExpectedCount(ts, n, filter, receipts, t);
      assert t in multiset(all);
      assert t in multiset(e);
    }
  }

  lemma TriggersAreDelivered(top: C.Block, from: nat, ts: seq<Trigger>, filter: bool, receipts: map<Hash, Option<nat>>,
                             r: seq<BlockWithTriggers>, blocks: seq<C.Block>)
    requires Places(top, r, blocks) && Sane(from, C.Number(top), ts, filter, receipts, r)
    requires BearsFound(top, from, ts, filter, receipts)
    ensures DeliversTriggers(r, blocks)
  {
    forall i | 0 <= i < |r| ensures r[i].triggers != [] <==> C.Carries(blocks[i]) {
      var n := r[i].block.number;
      assert PlacedAt(top, blocks[i], n);
      ExpectedHasTriggerIff(ts, n, filter, receipts);
    }
  }

  /**
   If the triggers handed over cover every trigger-bearing block of the range, the blocks whose hashes a
   successful scan returns lie on the chain, ascend, end with its last block and leave out only blocks
   without triggers. If they are exactly the triggers of these blocks, a block comes with triggers exactly
   when it carries some.
   */
  lemma ScanMeetsContract(id: C.Block -> Hash, top: C.Block, chain: map<int, LightBlock>, from: nat, ts: seq<Trigger>, filter: bool,
                          receipts: map<Hash, Option<nat>>, r: seq<BlockWithTriggers>, blocks: seq<C.Block>)
    requires Injective(id) && Describes(id, top, from, chain) && Names(id, r, blocks)
    requires Sane(from, C.Number(top), ts, filter, receipts, r)
    requires Complete(chain, Numbers(ts) + {C.Number(top)}, r) && AllFound(top, from, ts)
    ensures R.ScanResult(from, top, blocks)
    ensures BearsFound(top, from, ts, filter, receipts) ==> DeliversTriggers(r, blocks)
  {
    NamedBlocksArePlaced(id, top, from, chain, Numbers(ts) + {C.Number(top)}, r, blocks);
    ScanEndsWithLast(chain, from, C.Number(top), Numbers(ts) + {C.Number(top)}, r);
    BlocksAscend(top, from, r, blocks);
    BlocksCover(top, from, r, blocks, chain, ts);
    if BearsFound(top, from, ts, filter, receipts) {
      TriggersAreDelivered(top, from, ts, filter, receipts, r, blocks);
    }
  }

  // ------------------------------------------------------------------ log filters

  /** The hash of a log's block and the index of its transaction. */
  datatype Origin = Origin(blockHash: Hash, transactionIndex: nat)

  function LogTriggerOf(log: F.Log, origin: F.Log -> Origin): Trigger {
    LogTrigger(log.block, origin(log).blockHash, origin(log).transactionIndex, Some(log.index), log.index)
  }

  method LogTriggers(logs: seq<F.Log>, origin: F.Log -> Origin) returns (ts: seq<Trigger>)
    ensures |ts| == |logs| && forall i :: 0 <= i < |ts| ==> ts[i] == LogTriggerOf(logs[i], origin)
  {
    ts := [];
    for i := 0 to |logs|
      invariant |ts| == i && forall k :: 0 <= k < i ==> ts[k] == LogTriggerOf(logs[k], origin)
    {
      ts := ts + [LogTriggerOf(logs[i], origin)];
    }
  }

  /** A block of the chain carries triggers exactly when it has a log that the filter matches. */
  ghost predicate BearsLogs(top: C.Block, from: nat, logs: seq<F.Log>, f: F.LogFilter) {
    forall n :: from <= n <= C.Number(top) ==> (C.Carries(C.At(top, n)) <==> HasLog(logs, f, n))
  }

  ghost predicate HasLog(logs: seq<F.Log>, f: F.LogFilter, n: int) {
    exists log :: log in logs && log.block == n && F.Matches(f, log)
  }

  ghost predicate ExactLogs(logs: seq<F.Log>, f: F.LogFilter, from: int, to: int, found: seq<F.Log>) {
    forall log :: multiset(found)[log] == if L.InRange(log, from, to) then multiset(logs)[log] * L.Multiplicity(f, log) else 0
  }

  /** `ts` are the triggers of the logs `found`. */
  ghost predicate TriggersOf(found: seq<F.Log>, origin: F.Log -> Origin, ts: seq<Trigger>) {
    |ts| == |found| && forall i :: 0 <= i < |ts| ==> ts[i] == LogTriggerOf(found[i], origin)
  }

  /** A block has a matching log exactly when a trigger was found in it. */
  lemma LogMeansTrigger(logs: seq<F.Log>, f: F.LogFilter, from: int, to: int, found: seq<F.Log>, origin: F.Log -> Origin,
                        ts: seq<Trigger>, n: int)
    requires ExactLogs(logs, f, from, to, found) && TriggersOf(found, origin, ts) && from <= n <= to
    ensures HasLog(logs, f, n) <==> HasTrigger(ts, n)
    ensures HasTrigger(ts, n) ==> n in Numbers(ts)
  {
    if HasLog(logs, f, n) {
      var log :| log in logs && log.block == n && F.Matches(f, log);
      L.ScanIsExact(logs, f, from, to, found, log);
      var i :| 0 <= i < |found| && found[i] == log;
      assert ts[i] in ts && ts[i].blockNumber == n;
    }
    if HasTrigger(ts, n) {
      var t :| t in ts && t.blockNumber == n;
      var i :| 0 <= i < |ts| && ts[i] == t;
      L.ScanIsExact(logs, f, from, to, found, found[i]);
      assert found[i] in found && found[i].block == n;
    }
  }

  /** A scan of the range for logs finds exactly the trigger-bearing blocks. */
  lemma LogScanFindsAll(top: C.Block, from: nat, logs: seq<F.Log>, f: F.LogFilter, found: seq<F.Log>, origin: F.Log -> Origin,
                        ts: seq<Trigger>, filter: bool, receipts: map<Hash, Option<nat>>)
    requires BearsLogs(top, from, logs, f) && ExactLogs(logs, f, from, C.Number(top), found) && TriggersOf(found, origin, ts)
    ensures AllFound(top, from, ts) && BearsFound(top, from, ts, filter, receipts)
  {
    SurvivingAll(ts, receipts);
    forall n | from <= n <= C.Number(top)
      ensures C.Carries(C.At(top, n)) <==> HasTrigger(ts, n)
      ensures C.Carries(C.At(top, n)) ==> n in Numbers(ts)
    {
      LogMeansTrigger(logs, f, from, C.Number(top), found, origin, ts, n);
    }
  }

  /** Every log found in the range comes from the chain. */
  ghost predicate HonestOrigins(chain: map<int, LightBlock>, from: int, to: int, logs: seq<F.Log>, origin: F.Log -> Origin) {
    forall log :: log in logs && L.InRange(log, from, to) ==> log.block in chain && origin(log).blockHash == chain[log.block].hash
  }

  lemma FoundTriggersAreHonest(chain: map<int, LightBlock>, from: int, to: int, logs: seq<F.Log>, f: F.LogFilter, found: seq<F.Log>,
                               origin: F.Log -> Origin, ts: seq<Trigger>, toHash: Hash,
                               cache: map<Hash, LightBlock>, node: map<Hash, LightBlock>)
    requires HonestOrigins(chain, from, to, logs, origin) && ExactLogs(logs, f, from, to, found)
    requires TriggersOf(found, origin, ts)
    requires Honest(chain, from, to, [], toHash, cache, node)
    ensures Honest(chain, from, to, ts, toHash, cache, node)
  {
    forall i | 0 <= i < |ts| ensures from <= ts[i].blockNumber <= to && ts[i].blockHash == chain[ts[i].blockNumber].hash {
      assert found[i] in found;
      L.ScanIsExact(logs, f, from, to, found, found[i]);
    }
  }

  /**
   `scan_triggers` for a deployment with only event handlers: find the logs, then load their blocks. On an
   honest node a success meets the contract of the polling stream, and a block comes with triggers exactly
   when it carries some, whatever requests were refused.
   */
  method ScanLogTriggers(logs: seq<F.Log>, f: F.LogFilter, from: nat, to: int, maxContracts: nat, maxEventOnlyRange: int,
                         reply: (nat, nat) -> L.Reply, origin: F.Log -> Origin, toHash: Hash, filter: bool,
                         cache: map<Hash, LightBlock>, node: map<Hash, LightBlock>,
                         store: map<Hash, Option<nat>>, client: map<Hash, Option<nat>>,
                         ghost chain: map<int, LightBlock>, ghost id: C.Block -> Hash, ghost top: C.Block)
    returns (r: Result<seq<BlockWithTriggers>>)
    requires L.Chronological(logs) && from <= to && maxContracts >= 1 && maxEventOnlyRange >= 1
    ensures r.Ok? && Honest(chain, from, to, [], toHash, cache, node) && HonestOrigins(chain, from, to, logs, origin)
            && Injective(id) && Describes(id, top, from, chain) && C.Number(top) == to && BearsLogs(top, from, logs, f) ==>
              && (forall blocks :: Names(id, r.value, blocks) ==> R.ScanResult(from, top, blocks) && DeliversTriggers(r.value, blocks))
              && exists blocks :: Names(id, r.value, blocks)
  {
    var found := L.LogsInBlockRange(logs, f, from, to, maxContracts, maxEventOnlyRange, reply);
    if found.None? {
      return Err;
    }
    var ts := LogTriggers(found.value, origin);
    r := BlocksWithTriggers(from, to, ts, toHash, filter, cache, node, store, client, chain);
    if r.Ok? && Honest(chain, from, to, [], toHash, cache, node) && HonestOrigins(chain, from, to, logs, origin)
       && Injective(id) && Describes(id, top, from, chain) && C.Number(top) == to && BearsLogs(top, from, logs, f)
    {
      FoundTriggersAreHonest(chain, from, to, logs, f, found.value, origin, ts, toHash, cache, node);
      ghost var receipts := Receipts(store, client);
      LogScanFindsAll(top, from, logs, f, found.value, origin, ts, filter, receipts);
      forall blocks | Names(id, r.value, blocks) ensures R.ScanResult(from, top, blocks) && DeliversTriggers(r.value, blocks) {
        ScanMeetsContract(id, top, chain, from, ts, filter, receipts, r.value, blocks);
      }
      ghost var blocks := NamedBlocksExist(id, top, from, chain, Numbers(ts) + {to}, r.value);
    }
  }
}
