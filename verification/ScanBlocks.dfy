/** Turning the triggers found in a block range into blocks with triggers. */
module ScanBlocks {
  import opened Wrappers
  import opened Triggers

  datatype LightBlock = LightBlock(hash: Hash, number: int, transactions: seq<Hash>)

  datatype BlockWithTriggers = BlockWithTriggers(block: LightBlock, triggers: seq<Trigger>)

  // ------------------------------------------------------------------ sorting by block number

  function InsertBy<T>(s: seq<T>, key: T -> int, x: T): seq<T> {
    if s == [] || key(s[|s| - 1]) <= key(x) then s + [x]
    else InsertBy(s[..|s| - 1], key, x) + [s[|s| - 1]]
  }

  function SortBy<T>(s: seq<T>, key: T -> int): seq<T> {
    if s == [] then [] else InsertBy(SortBy(s[..|s| - 1], key), key, s[|s| - 1])
  }

  ghost predicate NonDescending<T>(s: seq<T>, key: T -> int) {
    forall i, j :: 0 <= i < j < |s| ==> key(s[i]) <= key(s[j])
  }

  ghost predicate Below<T>(s: seq<T>, key: T -> int, bound: int) {
    forall i :: 0 <= i < |s| ==> key(s[i]) <= bound
  }

  lemma {:induction false} InsertByBelow<T>(s: seq<T>, key: T -> int, x: T, bound: int)
    requires key(x) <= bound && Below(s, key, bound)
    ensures Below(InsertBy(s, key, x), key, bound)
  {
    if s != [] && key(s[|s| - 1]) > key(x) {
      InsertByBelow(s[..|s| - 1], key, x, bound);
    }
  }

  lemma {:induction false} InsertByOrders<T>(s: seq<T>, key: T -> int, x: T)
    requires NonDescending(s, key)
    ensures NonDescending(InsertBy(s, key, x), key)
  {
    if s != [] && key(s[|s| - 1]) > key(x) {
      var front, last := s[..|s| - 1], s[|s| - 1];
      InsertByOrders(front, key, x);
      InsertByBelow(front, key, x, key(last));
    }
  }

  lemma {:induction false} InsertByAdds<T>(s: seq<T>, key: T -> int, x: T)
    ensures multiset(InsertBy(s, key, x)) == multiset(s) + multiset{x}
  {
    if s != [] && key(s[|s| - 1]) > key(x) {
      var front, last := s[..|s| - 1], s[|s| - 1];
      InsertByAdds(front, key, x);
      assert s == front + [last];
    }
  }

  lemma {:induction false} SortByOrders<T>(s: seq<T>, key: T -> int)
    ensures NonDescending(SortBy(s, key), key)
  {
    if s == [] {
    } else {
      SortByOrders(s[..|s| - 1], key);
      InsertByOrders(SortBy(s[..|s| - 1], key), key, s[|s| - 1]);
    }
  }

  lemma {:induction false} SortByPermutes<T>(s: seq<T>, key: T -> int)
    ensures multiset(SortBy(s, key)) == multiset(s)
  {
    if s == [] {
    } else {
      var front, last := s[..|s| - 1], s[|s| - 1];
      SortByPermutes(front, key);
      InsertByAdds(SortBy(front, key), key, last);
      assert s == front + [last];
    }
  }

  lemma {:induction false} SortByIdle<T>(s: seq<T>, key: T -> int)
    requires NonDescending(s, key)
    ensures SortBy(s, key) == s
  {
    if s == [] {
    } else {
      var front, last := s[..|s| - 1], s[|s| - 1];
      SortByIdle(front, key);
      assert front == [] || key(front[|front| - 1]) <= key(last);
      assert s == front + [last];
    }
  }

  // ------------------------------------------------------------------ load_blocks

  /** A block comes from the block cache, or else from the node. */
  function Lookup(cache: map<Hash, LightBlock>, node: map<Hash, LightBlock>, h: Hash): Option<LightBlock> {
    if h in cache then Some(cache[h]) else if h in node then Some(node[h]) else None
  }

  ghost function Asked(hashes: set<Hash>, cache: map<Hash, LightBlock>, node: map<Hash, LightBlock>, b: LightBlock): set<Hash> {
    set h | h in hashes && Lookup(cache, node, h) == Some(b)
  }

  ghost predicate Collected(hashes: set<Hash>, cache: map<Hash, LightBlock>, node: map<Hash, LightBlock>, blocks: seq<LightBlock>) {
    forall b :: multiset(blocks)[b] == |Asked(hashes, cache, node, b)|
  }

  lemma CollectOne(hashes: set<Hash>, cache: map<Hash, LightBlock>, node: map<Hash, LightBlock>, blocks: seq<LightBlock>, h: Hash)
    requires Collected(hashes, cache, node, blocks) && h !in hashes && Lookup(cache, node, h).Some?
    ensures Collected(hashes + {h}, cache, node, blocks + [Lookup(cache, node, h).value])
  {
    var x := Lookup(cache, node, h).value;
    forall b ensures multiset(blocks + [x])[b] == |Asked(hashes + {h}, cache, node, b)| {
      var before, after := Asked(hashes, cache, node, b), Asked(hashes + {h}, cache, node, b);
      assert after == if b == x then before + {h} else before;
    }
  }

  /** Every requested hash contributes its block once, and the blocks come out sorted by number. */
  method LoadBlocks(hashes: set<Hash>, cache: map<Hash, LightBlock>, node: map<Hash, LightBlock>)
    returns (r: Result<seq<LightBlock>>)
    ensures r.Err? <==> exists h :: h in hashes && Lookup(cache, node, h).None?
    ensures r.Ok? ==> NonDescending(r.value, (b: LightBlock) => b.number)
    ensures r.Ok? ==> Collected(hashes, cache, node, r.value)
  {
    var blocks, missing, todo := [], {}, hashes;
    ghost var done := {};
    while todo != {}
      invariant done + missing + todo == hashes
      invariant done !! missing && done !! todo && missing !! todo
      invariant forall h :: h in missing ==> h !in cache
      invariant forall h :: h in done ==> Lookup(cache, node, h).Some?
      invariant Collected(done, cache, node, blocks)
      decreases todo
    {
      var h :| h in todo;
      todo := todo - {h};
      if h in cache {
        CollectOne(done, cache, node, blocks, h);
        blocks, done := blocks + [cache[h]], done + {h};
      } else {
        missing := missing + {h};
      }
    }
    while missing != {}
      invariant done + missing == hashes && done !! missing
      invariant forall h :: h in missing ==> h !in cache
      invariant forall h :: h in done ==> Lookup(cache, node, h).Some?
      invariant Collected(done, cache, node, blocks)
      decreases missing
    {
      var h :| h in missing;
      if h !in node {
        return Err;
      }
      CollectOne(done, cache, node, blocks, h);
      missing, blocks, done := missing - {h}, blocks + [node[h]], done + {h};
    }
    SortByOrders(blocks, (b: LightBlock) => b.number);
    SortByPermutes(blocks, (b: LightBlock) => b.number);
    r := Ok(SortBy(blocks, (b: LightBlock) => b.number));
  }

  // ------------------------------------------------------------------ grouping triggers by block number

  function At(ts: seq<Trigger>, n: int): seq<Trigger> {
    if ts == [] then []
    else At(ts[..|ts| - 1], n) + if ts[|ts| - 1].blockNumber == n then [ts[|ts| - 1]] else []
  }

  ghost function Numbers(ts: seq<Trigger>): set<int> {
    set i | 0 <= i < |ts| :: ts[i].blockNumber
  }

  ghost predicate Grouped(ts: seq<Trigger>, groups: map<int, seq<Trigger>>) {
    && groups.Keys == Numbers(ts)
    && forall n :: n in groups ==> groups[n] == At(ts, n)
  }

  lemma {:induction false} AtNone(ts: seq<Trigger>, n: int)
    requires n !in Numbers(ts)
    ensures At(ts, n) == []
  {
    if ts == [] {
    } else {
      assert forall i :: 0 <= i < |ts| ==> ts[i].blockNumber in Numbers(ts);
      assert forall i :: 0 <= i < |ts| - 1 ==> ts[..|ts| - 1][i] == ts[i];
      AtNone(ts[..|ts| - 1], n);
    }
  }

  lemma NumbersPush(ts: seq<Trigger>, t: Trigger)
    ensures Numbers(ts + [t]) == Numbers(ts) + {t.blockNumber}
  {
    var all := ts + [t];
    assert all[|ts|] == t;
    assert forall i :: 0 <= i < |ts| ==> all[i] == ts[i];
  }

  lemma AtPush(ts: seq<Trigger>, t: Trigger, n: int)
    ensures At(ts + [t], n) == At(ts, n) + if t.blockNumber == n then [t] else []
  {
    assert (ts + [t])[..|ts + [t]| - 1] == ts;
  }

  lemma GroupOne(ts: seq<Trigger>, groups: map<int, seq<Trigger>>, t: Trigger)
    requires Grouped(ts, groups)
    ensures Grouped(ts + [t], groups[t.blockNumber := (if t.blockNumber in groups then groups[t.blockNumber] else []) + [t]])
  {
    NumbersPush(ts, t);
    AtPush(ts, t, t.blockNumber);
    if t.blockNumber !in groups {
      AtNone(ts, t.blockNumber);
    }
    forall n | n in groups && n != t.blockNumber ensures At(ts + [t], n) == groups[n] {
      AtPush(ts, t, n);
    }
  }

  method GroupByBlock(ts: seq<Trigger>) returns (groups: map<int, seq<Trigger>>)
    ensures Grouped(ts, groups)
  {
    groups := map[];
    for i := 0 to |ts|
      invariant Grouped(ts[..i], groups)
    {
      var n := ts[i].blockNumber;
      GroupOne(ts[..i], groups, ts[i]);
      assert ts[..i + 1] == ts[..i] + [ts[i]];
      groups := groups[n := (if n in groups then groups[n] else []) + [ts[i]]];
    }
    assert ts[..|ts|] == ts;
  }

  // ------------------------------------------------------------------ one block per group

  /** `BlockWithTriggers::new`. */
  method NewBlockWithTriggers(block: LightBlock, ts: seq<Trigger>) returns (b: BlockWithTriggers)
    ensures b == BlockWithTriggers(block, StableSort(ts))
  {
    var a := new Trigger[|ts|](i requires 0 <= i < |ts| => ts[i]);
    assert a[..] == ts;
    SortTriggers(a);
    b := BlockWithTriggers(block, a[..]);
  }

  /** Every block has a group, and no two blocks have the same number. */
  ghost predicate Fits(blocks: seq<LightBlock>, groups: map<int, seq<Trigger>>) {
    && (forall i :: 0 <= i < |blocks| ==> blocks[i].number in groups)
    && (forall i, j :: 0 <= i < j < |blocks| ==> blocks[i].number != blocks[j].number)
  }

  ghost predicate Attached(blocks: seq<LightBlock>, groups: map<int, seq<Trigger>>, r: seq<BlockWithTriggers>) {
    && |r| == |blocks|
    && (forall i :: 0 <= i < |r| ==> blocks[i].number in groups)
    && (forall i :: 0 <= i < |r| ==> r[i] == BlockWithTriggers(blocks[i], StableSort(groups[blocks[i].number])))
  }

  lemma AttachOne(blocks: seq<LightBlock>, groups: map<int, seq<Trigger>>, out: seq<BlockWithTriggers>, b: LightBlock)
    requires Fits(blocks, groups) && Attached(blocks, groups, out)
    requires b.number in groups && forall i :: 0 <= i < |blocks| ==> blocks[i].number != b.number
    ensures Fits(blocks + [b], groups)
    ensures Attached(blocks + [b], groups, out + [BlockWithTriggers(b, StableSort(groups[b.number]))])
  {
  }

  /** Each block takes its group away, so a second block of the same number is an error. */
  method AttachTriggers(blocks: seq<LightBlock>, groups: map<int, seq<Trigger>>) returns (r: Result<seq<BlockWithTriggers>>)
    ensures r.Ok? <==> Fits(blocks, groups)
    ensures r.Ok? ==> Attached(blocks, groups, r.value)
  {
    var rest, out := groups, [];
    for k := 0 to |blocks|
      invariant Fits(blocks[..k], groups) && Attached(blocks[..k], groups, out)
      invariant forall n :: n in rest <==> n in groups && forall i :: 0 <= i < k ==> blocks[i].number != n
      invariant forall n :: n in rest ==> rest[n] == groups[n]
    {
      var n := blocks[k].number;
      if n !in rest {
        return Err;
      }
      var b := NewBlockWithTriggers(blocks[k], rest[n]);
      AttachOne(blocks[..k], groups, out, blocks[k]);
      assert blocks[..k + 1] == blocks[..k] + [blocks[k]];
      out := out + [b];
      rest := rest - {n};
    }
    assert blocks[..|blocks|] == blocks;
    r := Ok(out);
  }

  // ------------------------------------------------------------------ calls of failed transactions

  predicate Succeeded(status: Option<nat>) {
    status.None? || status.value != 0
  }

  function CallHashes(ts: seq<Trigger>): set<Option<Hash>> {
    set i | 0 <= i < |ts| && ts[i].CallTrigger? :: ts[i].transactionHash
  }

  function Occurrences(transactions: seq<Hash>, hashes: set<Option<Hash>>): nat {
    if transactions == [] then 0
    else Occurrences(transactions[..|transactions| - 1], hashes)
         + if Some(transactions[|transactions| - 1]) in hashes then 1 else 0
  }

  /** The status of every call of the block can be told. */
  ghost predicate Inspectable(b: BlockWithTriggers, receipts: map<Hash, Option<nat>>) {
    var hashes := CallHashes(b.triggers);
    && None !in hashes
    && (hashes != {} ==> Occurrences(b.block.transactions, hashes) == |hashes|)
    && forall h :: Some(h) in hashes ==> h in b.block.transactions && h in receipts
  }

  predicate Fails(t: Trigger, receipts: map<Hash, Option<nat>>) {
    && t.CallTrigger? && t.transactionHash.Some?
    && t.transactionHash.value in receipts && !Succeeded(receipts[t.transactionHash.value])
  }

  /** Every trigger but the calls of failed transactions, in order. */
  function Surviving(ts: seq<Trigger>, receipts: map<Hash, Option<nat>>): seq<Trigger> {
    if ts == [] then []
    else Surviving(ts[..|ts| - 1], receipts) + if Fails(ts[|ts| - 1], receipts) then [] else [ts[|ts| - 1]]
  }

  lemma {:induction false} SurvivingAll(ts: seq<Trigger>, receipts: map<Hash, Option<nat>>)
    requires forall i :: 0 <= i < |ts| ==> !Fails(ts[i], receipts)
    ensures Surviving(ts, receipts) == ts
  {
    if ts == [] {
    } else {
      SurvivingAll(ts[..|ts| - 1], receipts);
      assert ts == ts[..|ts| - 1] + [ts[|ts| - 1]];
    }
  }

  /** Receipts come from the store, or else from the client. */
  function Receipts(store: map<Hash, Option<nat>>, client: map<Hash, Option<nat>>): map<Hash, Option<nat>> {
    client + store
  }

  method InspectTransactions(transactions: seq<Hash>, hashes: set<Option<Hash>>, store: map<Hash, Option<nat>>, client: map<Hash, Option<nat>>)
    returns (count: nat, status: Result<map<Hash, bool>>)
    ensures count == Occurrences(transactions, hashes)
    ensures status.Ok? <==> forall h :: h in transactions && Some(h) in hashes ==> h in Receipts(store, client)
    ensures status.Ok? ==> forall h :: h in status.value <==> h in transactions && Some(h) in hashes
    ensures status.Ok? ==> forall h :: h in status.value ==> status.value[h] == Succeeded(Receipts(store, client)[h])
  {
    count := 0;
    var success: map<Hash, bool> := map[];
    var lost := false;
    for i := 0 to |transactions|
      invariant count == Occurrences(transactions[..i], hashes)
      invariant lost <==> exists h :: h in transactions[..i] && Some(h) in hashes && h !in Receipts(store, client)
      invariant !lost ==> forall h :: h in success <==> h in transactions[..i] && Some(h) in hashes
      invariant forall h :: h in success ==> h in Receipts(store, client) && success[h] == Succeeded(Receipts(store, client)[h])
    {
      var h := transactions[i];
      assert transactions[..i + 1] == transactions[..i] + [h];
      assert transactions[..i + 1][..i] == transactions[..i];
      if Some(h) in hashes {
        count := count + 1;
        if h in store {
          success := success[h := Succeeded(store[h])];
        } else if h in client {
          success := success[h := Succeeded(client[h])];
        } else {
          lost := true;
        }
      }
    }
    assert transactions[..|transactions|] == transactions;
    status := if lost then Err else Ok(success);
  }

  method RetainSuccessful(ts: seq<Trigger>, success: map<Hash, bool>, ghost receipts: map<Hash, Option<nat>>) returns (kept: seq<Trigger>)
    requires forall i :: 0 <= i < |ts| && ts[i].CallTrigger? ==> ts[i].transactionHash.Some? && ts[i].transactionHash.value in success
    requires forall h :: h in success ==> h in receipts && success[h] == Succeeded(receipts[h])
    ensures kept == Surviving(ts, receipts)
  {
    kept := [];
    for i := 0 to |ts|
      invariant kept == Surviving(ts[..i], receipts)
    {
      assert ts[..i + 1][..i] == ts[..i];
      if ts[i].CallTrigger? {
        if success[ts[i].transactionHash.value] {
          kept := kept + [ts[i]];
        }
      } else {
        kept := kept + [ts[i]];
      }
    }
    assert ts[..|ts|] == ts;
  }

  /** `filter_call_triggers_from_unsuccessful_transactions`. */
  method FilterCallTriggers(b: BlockWithTriggers, store: map<Hash, Option<nat>>, client: map<Hash, Option<nat>>)
    returns (r: Result<BlockWithTriggers>)
    ensures r.Ok? <==> Inspectable(b, Receipts(store, client))
    ensures r.Ok? ==> r.value == BlockWithTriggers(b.block, Surviving(b.triggers, Receipts(store, client)))
  {
    if b.triggers == [] {
      return Ok(b);
    }
    var hashes := CallHashes(b.triggers);
    assert forall i :: 0 <= i < |b.triggers| && b.triggers[i].CallTrigger? ==> b.triggers[i].transactionHash in hashes;
    if None in hashes {
      return Err;
    }
    if hashes == {} {
      SurvivingAll(b.triggers, Receipts(store, client));
      return Ok(b);
    }
    var count, status := InspectTransactions(b.block.transactions, hashes, store, client);
    if count != |hashes| || status.Err? {
      return Err;
    }
    if exists h :: h in hashes && h.value !in status.value {
      ghost var h :| h in hashes && h.value !in status.value;
      assert Some(h.value) in hashes;
      return Err;
    }
    var kept := RetainSuccessful(b.triggers, status.value, Receipts(store, client));
    r := Ok(b.(triggers := kept));
  }

  method FilterBlocks(blocks: seq<BlockWithTriggers>, store: map<Hash, Option<nat>>, client: map<Hash, Option<nat>>)
    returns (r: Result<seq<BlockWithTriggers>>)
    ensures r.Ok? <==> forall i :: 0 <= i < |blocks| ==> Inspectable(blocks[i], Receipts(store, client))
    ensures r.Ok? ==> Filtered(blocks, Receipts(store, client), r.value)
  {
    var out := [];
    for i := 0 to |blocks|
      invariant Filtered(blocks[..i], Receipts(store, client), out)
      invariant forall k :: 0 <= k < i ==> Inspectable(blocks[k], Receipts(store, client))
    {
      var b := FilterCallTriggers(blocks[i], store, client);
      if b.Err? {
        return Err;
      }
      out := out + [b.value];
    }
    assert blocks[..|blocks|] == blocks;
    r := Ok(out);
  }

  ghost predicate Filtered(blocks: seq<BlockWithTriggers>, receipts: map<Hash, Option<nat>>, r: seq<BlockWithTriggers>) {
    && |r| == |blocks|
    && forall i :: 0 <= i < |r| ==> r[i] == BlockWithTriggers(blocks[i].block, Surviving(blocks[i].triggers, receipts))
  }

  // ------------------------------------------------------------------ an honest node

  /** The triggers, the hash of the last block and all blocks come from one chain. */
  ghost predicate Honest(chain: map<int, LightBlock>, from: int, to: int, ts: seq<Trigger>, toHash: Hash,
                         cache: map<Hash, LightBlock>, node: map<Hash, LightBlock>) {
    && from <= to
    && (forall n :: from <= n <= to ==> n in chain)
    && (forall n :: n in chain ==> chain[n].number == n)
    && (forall m, n :: m in chain && n in chain && chain[m].hash == chain[n].hash ==> m == n)
    && (forall n :: n in chain && chain[n].hash in cache ==> cache[chain[n].hash] == chain[n])
    && (forall n :: n in chain && chain[n].hash in node ==> node[chain[n].hash] == chain[n])
    && (forall i :: 0 <= i < |ts| ==> from <= ts[i].blockNumber <= to && ts[i].blockHash == chain[ts[i].blockNumber].hash)
    && toHash == chain[to].hash
  }

  function Hashes(ts: seq<Trigger>): set<Hash> {
    set i | 0 <= i < |ts| :: ts[i].blockHash
  }

  /** What the caller gets for block `n`: its triggers in order, without the calls of failed transactions. */
  function Expected(ts: seq<Trigger>, n: int, filter: bool, receipts: map<Hash, Option<nat>>): seq<Trigger> {
    var sorted := StableSort(At(ts, n));
    if filter then Surviving(sorted, receipts) else sorted
  }

  ghost predicate Ascending(r: seq<BlockWithTriggers>) {
    forall i, j :: 0 <= i < j < |r| ==> r[i].block.number < r[j].block.number
  }

  ghost predicate InRange(from: int, to: int, r: seq<BlockWithTriggers>) {
    forall i :: 0 <= i < |r| ==> from <= r[i].block.number <= to
  }

  ghost predicate Carries(ts: seq<Trigger>, filter: bool, receipts: map<Hash, Option<nat>>, r: seq<BlockWithTriggers>) {
    forall i :: 0 <= i < |r| ==> r[i].triggers == Expected(ts, r[i].block.number, filter, receipts)
  }

  /** What a successful scan returns, whatever the node does. */
  ghost predicate Sane(from: int, to: int, ts: seq<Trigger>, filter: bool, receipts: map<Hash, Option<nat>>, r: seq<BlockWithTriggers>) {
    r != [] && Ascending(r) && InRange(from, to, r) && Carries(ts, filter, receipts, r)
  }

  /** The blocks of the chain with these numbers, each once. */
  ghost predicate Covers(chain: map<int, LightBlock>, ns: set<int>, blocks: seq<LightBlock>) {
    && (forall i :: 0 <= i < |blocks| ==> blocks[i].number in ns && blocks[i].number in chain && blocks[i] == chain[blocks[i].number])
    && (forall n :: n in ns ==> exists i :: 0 <= i < |blocks| && blocks[i].number == n)
    && (forall i, j :: 0 <= i < j < |blocks| ==> blocks[i].number != blocks[j].number)
  }

  lemma CollectedHas(hashes: set<Hash>, cache: map<Hash, LightBlock>, node: map<Hash, LightBlock>, blocks: seq<LightBlock>, h: Hash)
    requires Collected(hashes, cache, node, blocks) && h in hashes && Lookup(cache, node, h).Some?
    ensures Lookup(cache, node, h).value in blocks
  {
    var b := Lookup(cache, node, h).value;
    assert h in Asked(hashes, cache, node, b);
    assert multiset(blocks)[b] > 0;
  }

  lemma CollectedFrom(hashes: set<Hash>, cache: map<Hash, LightBlock>, node: map<Hash, LightBlock>, blocks: seq<LightBlock>, i: nat)
    returns (h: Hash)
    requires Collected(hashes, cache, node, blocks) && i < |blocks|
    ensures h in hashes && Lookup(cache, node, h) == Some(blocks[i])
  {
    assert blocks[i] in multiset(blocks);
    assert Asked(hashes, cache, node, blocks[i]) != {};
    h :| h in Asked(hashes, cache, node, blocks[i]);
  }

  lemma TwiceCounts<T>(s: seq<T>, i: nat, j: nat)
    requires i < j < |s| && s[i] == s[j]
    ensures multiset(s)[s[i]] >= 2
  {
    assert s == s[..j] + [s[j]] + s[j + 1..];
    assert s[i] in s[..j];
  }

  lemma AskedOnce(hashes: set<Hash>, cache: map<Hash, LightBlock>, node: map<Hash, LightBlock>, b: LightBlock)
    requires forall h :: h in Asked(hashes, cache, node, b) ==> h == b.hash
    ensures |Asked(hashes, cache, node, b)| <= 1
  {
    var asked := Asked(hashes, cache, node, b);
    assert asked <= {b.hash};
    if asked != {} {
      assert asked == {b.hash};
    }
  }

  ghost predicate FromChain(chain: map<int, LightBlock>, ns: set<int>, hashes: set<Hash>,
                            cache: map<Hash, LightBlock>, node: map<Hash, LightBlock>) {
    && (forall n :: n in ns ==> n in chain && chain[n].number == n && chain[n].hash in hashes)
    && (forall h :: h in hashes ==> exists n :: n in ns && h == chain[n].hash && Lookup(cache, node, h) == Some(chain[n]))
  }

  /** With an honest node and all blocks found, loading gives the blocks of the triggers' numbers, each once. */
  lemma LoadedCovers(chain: map<int, LightBlock>, ns: set<int>, hashes: set<Hash>,
                     cache: map<Hash, LightBlock>, node: map<Hash, LightBlock>, blocks: seq<LightBlock>)
    requires FromChain(chain, ns, hashes, cache, node) && Collected(hashes, cache, node, blocks)
    requires forall m, n :: m in ns && n in ns && chain[m].hash == chain[n].hash ==> m == n
    ensures Covers(chain, ns, blocks)
  {
    forall i | 0 <= i < |blocks| ensures blocks[i].number in ns && blocks[i] == chain[blocks[i].number] {
      var h := CollectedFrom(hashes, cache, node, blocks, i);
    }
    forall n | n in ns ensures exists i :: 0 <= i < |blocks| && blocks[i].number == n {
      CollectedHas(hashes, cache, node, blocks, chain[n].hash);
      assert chain[n] in blocks;
    }
    forall i, j | 0 <= i < j < |blocks| ensures blocks[i].number != blocks[j].number {
      if blocks[i].number == blocks[j].number {
        TwiceCounts(blocks, i, j);
        AskedOnce(hashes, cache, node, blocks[i]);
      }
    }
  }

  lemma HonestFromChain(chain: map<int, LightBlock>, from: int, to: int, ts: seq<Trigger>, toHash: Hash,
                        cache: map<Hash, LightBlock>, node: map<Hash, LightBlock>)
    requires Honest(chain, from, to, ts, toHash, cache, node)
    requires forall h :: h in Hashes(ts) + {toHash} ==> Lookup(cache, node, h).Some?
    ensures FromChain(chain, Numbers(ts) + {to}, Hashes(ts) + {toHash}, cache, node)
  {
    var ns, hashes := Numbers(ts) + {to}, Hashes(ts) + {toHash};
    forall n | n in ns ensures n in chain && chain[n].hash in hashes {
      if n != to {
        var i :| 0 <= i < |ts| && ts[i].blockNumber == n;
        assert ts[i].blockHash in Hashes(ts);
      }
    }
    forall h | h in hashes ensures exists n :: n in ns && h == chain[n].hash && Lookup(cache, node, h) == Some(chain[n]) {
      if h == toHash {
        assert to in ns && h == chain[to].hash;
      } else {
        var i :| 0 <= i < |ts| && ts[i].blockHash == h;
        assert ts[i].blockNumber in ns && h == chain[ts[i].blockNumber].hash;
      }
    }
  }

  method GroupWithLast(ts: seq<Trigger>, to: int) returns (groups: map<int, seq<Trigger>>)
    ensures groups.Keys == Numbers(ts) + {to}
    ensures forall n :: n in groups ==> groups[n] == At(ts, n)
  {
    groups := GroupByBlock(ts);
    if to !in groups {
      AtNone(ts, to);
      groups := groups[to := []];
    }
  }

  /** Loading and attaching: the blocks with all their triggers. */
  method LoadAndAttach(to: int, ts: seq<Trigger>, toHash: Hash, cache: map<Hash, LightBlock>, node: map<Hash, LightBlock>)
    returns (r: Result<seq<BlockWithTriggers>>, ghost blocks: seq<LightBlock>)
    ensures (exists h :: h in Hashes(ts) + {toHash} && Lookup(cache, node, h).None?) ==> r.Err?
    ensures (forall h :: h in Hashes(ts) + {toHash} ==> Lookup(cache, node, h).Some?) ==> Collected(Hashes(ts) + {toHash}, cache, node, blocks)
    ensures (forall h :: h in Hashes(ts) + {toHash} ==> Lookup(cache, node, h).Some?) && r.Err? ==> !FitsNumbers(blocks, Numbers(ts) + {to})
    ensures r.Ok? ==> r.value != [] && Unfiltered(ts, blocks, r.value) && FitsNumbers(blocks, Numbers(ts) + {to}) && Ascending(r.value)
  {
    blocks := [];
    var hashes := Hashes(ts) + {toHash};
    var groups := GroupWithLast(ts, to);
    var loaded := LoadBlocks(hashes, cache, node);
    if loaded.Err? {
      return Err, [];
    }
    blocks := loaded.value;
    CollectedHas(hashes, cache, node, blocks, toHash);
    r := AttachTriggers(loaded.value, groups);
    if r.Ok? {
      forall i, j | 0 <= i < j < |r.value| ensures r.value[i].block.number < r.value[j].block.number {
        assert blocks[i].number <= blocks[j].number;
      }
    }
  }

  ghost predicate FitsNumbers(blocks: seq<LightBlock>, ns: set<int>) {
    && (forall i :: 0 <= i < |blocks| ==> blocks[i].number in ns)
    && (forall i, j :: 0 <= i < j < |blocks| ==> blocks[i].number != blocks[j].number)
  }

  ghost predicate Unfiltered(ts: seq<Trigger>, blocks: seq<LightBlock>, r: seq<BlockWithTriggers>) {
    && |r| == |blocks|
    && (forall i :: 0 <= i < |r| ==> r[i] == BlockWithTriggers(blocks[i], StableSort(At(ts, blocks[i].number))))
  }

  ghost predicate Found(ts: seq<Trigger>, toHash: Hash, cache: map<Hash, LightBlock>, node: map<Hash, LightBlock>) {
    forall h :: h in Hashes(ts) + {toHash} ==> Lookup(cache, node, h).Some?
  }

  ghost predicate AllInspectable(chain: map<int, LightBlock>, ns: set<int>, ts: seq<Trigger>, receipts: map<Hash, Option<nat>>) {
    forall n :: n in ns && n in chain ==> Inspectable(BlockWithTriggers(chain[n], StableSort(At(ts, n))), receipts)
  }

  /** The result holds exactly the chain's blocks of the given numbers. */
  ghost predicate Complete(chain: map<int, LightBlock>, ns: set<int>, r: seq<BlockWithTriggers>) {
    && (forall i :: 0 <= i < |r| ==> r[i].block.number in ns && r[i].block.number in chain && r[i].block == chain[r[i].block.number])
    && (forall n :: n in ns ==> exists i :: 0 <= i < |r| && r[i].block.number == n)
  }

  /** Filtering fails exactly when the status of some call cannot be told. */
  method FilterIfNeeded(filter: bool, blocks: seq<BlockWithTriggers>, store: map<Hash, Option<nat>>, client: map<Hash, Option<nat>>)
    returns (r: Result<seq<BlockWithTriggers>>)
    requires Ascending(blocks)
    ensures r.Ok? <==> !filter || forall i :: 0 <= i < |blocks| ==> Inspectable(blocks[i], Receipts(store, client))
    ensures r.Ok? ==> if filter then Filtered(blocks, Receipts(store, client), r.value) else r.value == blocks
  {
    if filter {
      r := FilterBlocks(blocks, store, client);
    } else {
      r := Ok(blocks);
    }
    if r.Ok? {
      SortByIdle(r.value, (b: BlockWithTriggers) => b.block.number);
      r := Ok(SortBy(r.value, (b: BlockWithTriggers) => b.block.number));
    }
  }

  ghost predicate SameBlocks(blocks: seq<LightBlock>, r: seq<BlockWithTriggers>) {
    |r| == |blocks| && forall i :: 0 <= i < |r| ==> r[i].block == blocks[i]
  }

  lemma FilteredCarries(ts: seq<Trigger>, blocks: seq<LightBlock>, attached: seq<BlockWithTriggers>, filter: bool,
                        receipts: map<Hash, Option<nat>>, r: seq<BlockWithTriggers>)
    requires Unfiltered(ts, blocks, attached) && Ascending(attached)
    requires if filter then Filtered(attached, receipts, r) else r == attached
    ensures SameBlocks(blocks, r) && Ascending(r) && Carries(ts, filter, receipts, r)
    ensures forall from, to :: InRange(from, to, attached) ==> InRange(from, to, r)
  {
  }

  lemma CoversIsComplete(chain: map<int, LightBlock>, ns: set<int>, blocks: seq<LightBlock>, r: seq<BlockWithTriggers>)
    requires Covers(chain, ns, blocks) && SameBlocks(blocks, r)
    ensures Complete(chain, ns, r)
  {
    forall n | n in ns ensures exists i :: 0 <= i < |r| && r[i].block.number == n {
      var i :| 0 <= i < |blocks| && blocks[i].number == n;
      assert r[i].block.number == n;
    }
  }

  lemma CoversInspectable(chain: map<int, LightBlock>, ns: set<int>, ts: seq<Trigger>, blocks: seq<LightBlock>,
                          r: seq<BlockWithTriggers>, receipts: map<Hash, Option<nat>>)
    requires Covers(chain, ns, blocks) && Unfiltered(ts, blocks, r)
    ensures (forall i :: 0 <= i < |r| ==> Inspectable(r[i], receipts)) <==> AllInspectable(chain, ns, ts, receipts)
  {
    if forall i :: 0 <= i < |r| ==> Inspectable(r[i], receipts) {
      forall n | n in ns && n in chain ensures Inspectable(BlockWithTriggers(chain[n], StableSort(At(ts, n))), receipts) {
        var i :| 0 <= i < |blocks| && blocks[i].number == n;
        assert Inspectable(r[i], receipts);
      }
    }
  }

  lemma HonestNumbers(chain: map<int, LightBlock>, from: int, to: int, ts: seq<Trigger>, toHash: Hash,
                      cache: map<Hash, LightBlock>, node: map<Hash, LightBlock>, blocks: seq<LightBlock>)
    requires Honest(chain, from, to, ts, toHash, cache, node) && Found(ts, toHash, cache, node)
    requires Collected(Hashes(ts) + {toHash}, cache, node, blocks)
    ensures Covers(chain, Numbers(ts) + {to}, blocks) && FitsNumbers(blocks, Numbers(ts) + {to})
    ensures forall i :: 0 <= i < |blocks| ==> from <= blocks[i].number <= to
  {
    HonestFromChain(chain, from, to, ts, toHash, cache, node);
    LoadedCovers(chain, Numbers(ts) + {to}, Hashes(ts) + {toHash}, cache, node, blocks);
  }

  /** On an honest node, loading succeeds exactly when every block is found, and gives the blocks of the triggers. */
  method LoadChain(from: int, to: int, ts: seq<Trigger>, toHash: Hash, cache: map<Hash, LightBlock>, node: map<Hash, LightBlock>,
                   ghost chain: map<int, LightBlock>)
    returns (r: Result<seq<BlockWithTriggers>>, ghost blocks: seq<LightBlock>)
    ensures r.Ok? ==> r.value != [] && Unfiltered(ts, blocks, r.value) && Ascending(r.value)
    ensures Honest(chain, from, to, ts, toHash, cache, node) ==> (r.Ok? <==> Found(ts, toHash, cache, node))
    ensures Honest(chain, from, to, ts, toHash, cache, node) && r.Ok? ==>
            Covers(chain, Numbers(ts) + {to}, blocks) && InRange(from, to, r.value)
  {
    r, blocks := LoadAndAttach(to, ts, toHash, cache, node);
    if Honest(chain, from, to, ts, toHash, cache, node) && Found(ts, toHash, cache, node) {
      HonestNumbers(chain, from, to, ts, toHash, cache, node, blocks);
    }
  }

  /** `blocks_with_triggers`, from the point where the triggers and the hash of block `to` are known. */
  method BlocksWithTriggers(from: int, to: int, ts: seq<Trigger>, toHash: Hash, filter: bool,
                            cache: map<Hash, LightBlock>, node: map<Hash, LightBlock>,
                            store: map<Hash, Option<nat>>, client: map<Hash, Option<nat>>, ghost chain: map<int, LightBlock>)
    returns (r: Result<seq<BlockWithTriggers>>)
    ensures r.Ok? ==> Sane(from, to, ts, filter, Receipts(store, client), r.value)
    ensures Honest(chain, from, to, ts, toHash, cache, node) ==>
            (r.Ok? <==> Found(ts, toHash, cache, node)
                        && (filter ==> AllInspectable(chain, Numbers(ts) + {to}, ts, Receipts(store, client))))
    ensures Honest(chain, from, to, ts, toHash, cache, node) && r.Ok? ==> Complete(chain, Numbers(ts) + {to}, r.value)
  {
    ghost var honest := Honest(chain, from, to, ts, toHash, cache, node);
    ghost var ns, receipts := Numbers(ts) + {to}, Receipts(store, client);
    var attached, blocks := LoadChain(from, to, ts, toHash, cache, node, chain);
    if attached.Err? {
      return Err;
    }
    var filtered := FilterIfNeeded(filter, attached.value, store, client);
    if honest {
      CoversInspectable(chain, ns, ts, blocks, attached.value, receipts);
    }
    if filtered.Err? {
      return Err;
    }
    var scanned := filtered.value;
    FilteredCarries(ts, blocks, attached.value, filter, receipts, scanned);
    if honest {
      CoversIsComplete(chain, ns, blocks, scanned);
    }
    r := CheckRange(from, to, scanned);
  }

  /** The sanity check on the first and the last block. */
  method CheckRange(from: int, to: int, scanned: seq<BlockWithTriggers>) returns (r: Result<seq<BlockWithTriggers>>)
    requires scanned != [] && Ascending(scanned)
    ensures r == if InRange(from, to, scanned) then Ok(scanned) else Err
  {
    if scanned[0].block.number < from {
      return Err;
    }
    if scanned[|scanned| - 1].block.number > to {
      return Err;
    }
    r := Ok(scanned);
  }

  // ------------------------------------------------------------------ nothing lost, nothing doubled

  function AllTriggers(r: seq<BlockWithTriggers>): seq<Trigger> {
    if r == [] then [] else AllTriggers(r[..|r| - 1]) + r[|r| - 1].triggers
  }

  function Remaining(ts: seq<Trigger>, filter: bool, receipts: map<Hash, Option<nat>>): seq<Trigger> {
    if filter then Surviving(ts, receipts) else ts
  }

  lemma {:induction false} SurvivingCount(ts: seq<Trigger>, receipts: map<Hash, Option<nat>>, t: Trigger)
    ensures multiset(Surviving(ts, receipts))[t] == if Fails(t, receipts) then 0 else multiset(ts)[t]
  {
    if ts == [] {
    } else {
      SurvivingCount(ts[..|ts| - 1], receipts, t);
      assert ts == ts[..|ts| - 1] + [ts[|ts| - 1]];
    }
  }

  lemma {:induction false} AtCount(ts: seq<Trigger>, n: int, t: Trigger)
    ensures multiset(At(ts, n))[t] == if t.blockNumber == n then multiset(ts)[t] else 0
  {
    if ts == [] {
    } else {
      AtCount(ts[..|ts| - 1], n, t);
      assert ts == ts[..|ts| - 1] + [ts[|ts| - 1]];
    }
  }

  lemma ExpectedCount(ts: seq<Trigger>, n: int, filter: bool, receipts: map<Hash, Option<nat>>, t: Trigger)
    ensures multiset(Expected(ts, n, filter, receipts))[t]
         == if t.blockNumber == n then multiset(Remaining(ts, filter, receipts))[t] else 0
  {
    AtCount(ts, n, t);
    SortIsPermutation(At(ts, n));
    SurvivingCount(StableSort(At(ts, n)), receipts, t);
    SurvivingCount(ts, receipts, t);
  }

  ghost predicate Mentions(r: seq<BlockWithTriggers>, n: int) {
    exists i :: 0 <= i < |r| && r[i].block.number == n
  }

  lemma MentionsPush(r: seq<BlockWithTriggers>, n: int)
    requires r != []
    ensures Mentions(r, n) <==> Mentions(r[..|r| - 1], n) || r[|r| - 1].block.number == n
  {
    var front := r[..|r| - 1];
    if Mentions(front, n) {
      var i :| 0 <= i < |front| && front[i].block.number == n;
      assert r[i].block.number == n;
    }
    if Mentions(r, n) && r[|r| - 1].block.number != n {
      var i :| 0 <= i < |r| && r[i].block.number == n;
      assert front[i].block.number == n;
    }
  }

  lemma {:induction false} AllTriggersCount(r: seq<BlockWithTriggers>, ts: seq<Trigger>, filter: bool, receipts: map<Hash, Option<nat>>, t: Trigger)
    requires Ascending(r) && Carries(ts, filter, receipts, r)
    ensures multiset(AllTriggers(r))[t] == if Mentions(r, t.blockNumber) then multiset(Remaining(ts, filter, receipts))[t] else 0
  {
    if r == [] {
    } else {
      var front, last := r[..|r| - 1], r[|r| - 1];
      AllTriggersCount(front, ts, filter, receipts, t);
      ExpectedCount(ts, last.block.number, filter, receipts, t);
      MentionsPush(r, t.blockNumber);
      assert forall i :: 0 <= i < |front| ==> front[i].block.number < last.block.number;
    }
  }

  lemma RemainingIsFromScan(ts: seq<Trigger>, filter: bool, receipts: map<Hash, Option<nat>>, t: Trigger)
    requires multiset(Remaining(ts, filter, receipts))[t] > 0
    ensures t.blockNumber in Numbers(ts)
  {
    SurvivingCount(ts, receipts, t);
    assert t in ts;
  }

  lemma TriggerIsConserved(chain: map<int, LightBlock>, to: int, ts: seq<Trigger>, filter: bool,
                           receipts: map<Hash, Option<nat>>, r: seq<BlockWithTriggers>, t: Trigger)
    requires Ascending(r) && Carries(ts, filter, receipts, r) && Complete(chain, Numbers(ts) + {to}, r)
    ensures multiset(AllTriggers(r))[t] == multiset(Remaining(ts, filter, receipts))[t]
  {
    AllTriggersCount(r, ts, filter, receipts, t);
    if multiset(Remaining(ts, filter, receipts))[t] > 0 {
      RemainingIsFromScan(ts, filter, receipts, t);
      assert t.blockNumber in Numbers(ts) + {to};
    }
  }

  lemma ScanEndsWithLast(chain: map<int, LightBlock>, from: int, to: int, ns: set<int>, r: seq<BlockWithTriggers>)
    requires Ascending(r) && InRange(from, to, r) && Complete(chain, ns, r) && to in ns
    ensures r != [] && r[|r| - 1].block.number == to
  {
    var i :| 0 <= i < |r| && r[i].block.number == to;
    assert r[i].block.number <= r[|r| - 1].block.number;
  }

  /**
   A scan that succeeds on an honest node returns every trigger exactly as often as the scan found it,
   except the calls of failed transactions, and ends with block `to`.
   */
  lemma ScanConservesTriggers(chain: map<int, LightBlock>, from: int, to: int, ts: seq<Trigger>, filter: bool,
                              receipts: map<Hash, Option<nat>>, r: seq<BlockWithTriggers>)
    requires Sane(from, to, ts, filter, receipts, r) && Complete(chain, Numbers(ts) + {to}, r)
    ensures multiset(AllTriggers(r)) == multiset(Remaining(ts, filter, receipts))
    ensures r[|r| - 1].block.number == to
  {
    forall t ensures multiset(AllTriggers(r))[t] == multiset(Remaining(ts, filter, receipts))[t] {
      TriggerIsConserved(chain, to, ts, filter, receipts, r, t);
    }
    ScanEndsWithLast(chain, from, to, Numbers(ts) + {to}, r);
  }

  /** Every trigger sits in the block whose hash it carries. */
  lemma TriggersSitInTheirBlock(chain: map<int, LightBlock>, from: int, to: int, ts: seq<Trigger>, toHash: Hash,
                                cache: map<Hash, LightBlock>, node: map<Hash, LightBlock>, filter: bool,
                                receipts: map<Hash, Option<nat>>, r: seq<BlockWithTriggers>, i: nat, t: Trigger)
    requires Honest(chain, from, to, ts, toHash, cache, node)
    requires Sane(from, to, ts, filter, receipts, r) && Complete(chain, Numbers(ts) + {to}, r)
    requires i < |r| && t in r[i].triggers
    ensures t.blockHash == r[i].block.hash && t.blockNumber == r[i].block.number && t in ts
  {
    ExpectedCount(ts, r[i].block.number, filter, receipts, t);
    assert t in multiset(r[i].triggers);
    SurvivingCount(ts, receipts, t);
    assert t in ts;
  }
}
