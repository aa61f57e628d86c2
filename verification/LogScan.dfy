/** Scanning a block range for logs: one adaptive request loop per compiled filter. */
module LogScan {
  import opened Wrappers
  import opened LogFilters

  // ------------------------------------------------------------------ what the chain holds

  predicate InRange(log: Log, from: int, to: int) {
    from <= log.block <= to
  }

  /** The logs an honest node returns for a filter and a block range, in the order of the chain. */
  function Select(logs: seq<Log>, f: EthGetLogsFilter, from: int, to: int): seq<Log> {
    if logs == [] then []
    else
      var last := logs[|logs| - 1];
      Select(logs[..|logs| - 1], f, from, to) + if InRange(last, from, to) && Accepts(f, last) then [last] else []
  }

  ghost predicate Chronological(logs: seq<Log>) {
    forall i, j :: 0 <= i < j < |logs| ==> logs[i].block <= logs[j].block
  }

  lemma {:induction false} SelectEmpty(logs: seq<Log>, f: EthGetLogsFilter, from: int, to: int)
    requires forall i :: 0 <= i < |logs| ==> !InRange(logs[i], from, to)
    ensures Select(logs, f, from, to) == []
  {
    if logs == [] {
    } else {
      SelectEmpty(logs[..|logs| - 1], f, from, to);
    }
  }

  /** Two adjacent ranges together give the whole range, in order. */
  lemma {:induction false} SelectSplit(logs: seq<Log>, f: EthGetLogsFilter, from: int, mid: int, to: int)
    requires Chronological(logs) && from <= mid + 1 && mid <= to
    ensures Select(logs, f, from, to) == Select(logs, f, from, mid) + Select(logs, f, mid + 1, to)
  {
    if logs == [] {
    } else {
      var front, last := logs[..|logs| - 1], logs[|logs| - 1];
      SelectSplit(front, f, from, mid, to);
      if last.block <= mid {
        SelectEmpty(logs, f, mid + 1, to);
        SelectEmpty(front, f, mid + 1, to);
      }
    }
  }

  // ------------------------------------------------------------------ the request loop

  /** How the node reacts to one request; the too-heavy answers are recognised by their fingerprints. */
  datatype Reply = Served | TooHeavy | OtherError

  /** The number of times a step can be divided by ten before it is zero. */
  function Divisions(step: nat): nat {
    if step == 0 then 0 else 1 + Divisions(step / 10)
  }

  function FirstStep(f: EthGetLogsFilter, from: int, to: int, maxEventOnlyRange: int): int {
    if f.contracts != [] then to - from
    else if to - from <= maxEventOnlyRange - 1 then to - from else maxEventOnlyRange - 1
  }

  /**
   `log_stream`: if it succeeds, it has returned exactly the logs of the range, whatever the node
   refused on the way; and it shrinks its step at most as often as the first step has digits.
   */
  method LogStream(logs: seq<Log>, f: EthGetLogsFilter, from: int, to: int, maxEventOnlyRange: int, reply: nat -> Reply)
    returns (r: Option<seq<Log>>, shrinks: nat, requests: nat)
    requires Chronological(logs) && from <= to && maxEventOnlyRange >= 1
    ensures r.Some? ==> r.value == Select(logs, f, from, to)
    ensures shrinks <= Divisions(FirstStep(f, from, to, maxEventOnlyRange))
    ensures r.None? ==> exists k :: 0 <= k < requests && reply(k) != Served
    ensures r.Some? ==> forall k :: 0 <= k < requests ==> reply(k) != OtherError
    ensures requests <= to - from + 1 + shrinks + 1
  {
    var start, step := from, FirstStep(f, from, to, maxEventOnlyRange);
    var found: seq<Log> := [];
    requests, shrinks := 0, 0;
    SelectNone(logs, f, from);
    while start <= to
      invariant from <= start <= to + 1 && 0 <= step
      invariant found == Select(logs, f, from, start - 1)
      invariant shrinks + Divisions(step) <= Divisions(FirstStep(f, from, to, maxEventOnlyRange))
      invariant forall k :: 0 <= k < requests ==> reply(k) != OtherError
      invariant requests <= start - from + shrinks
      decreases 1 + to - start, step
    {
      var end := if start + step <= to then start + step else to;
      var answer := reply(requests);
      requests := requests + 1;
      match answer
      case Served =>
        SelectSplit(logs, f, from, start - 1, end);
        found := found + Select(logs, f, start, end);
        start := end + 1;
      case TooHeavy =>
        if step > 0 {
          step := step / 10;
          shrinks := shrinks + 1;
        } else {
          return None, shrinks, requests;
        }
      case OtherError =>
        return None, shrinks, requests;
    }
    r := Some(found);
  }

  lemma SelectNone(logs: seq<Log>, f: EthGetLogsFilter, from: int)
    ensures Select(logs, f, from, from - 1) == []
  {
    SelectEmpty(logs, f, from, from - 1);
  }

  // ------------------------------------------------------------------ how often a log is returned

  /** How many of the filters accept a log. */
  function AcceptCount(fs: seq<EthGetLogsFilter>, log: Log): nat {
    if fs == [] then 0
    else AcceptCount(fs[..|fs| - 1], log) + if Accepts(fs[|fs| - 1], log) then 1 else 0
  }

  /** A log counts once for its wildcard event and once for its edge. */
  function Multiplicity(f: LogFilter, log: Log): nat {
    if log.topics == [] then 0
    else (if log.topics[0] in f.wildcard then 1 else 0) + (if Edge(log.address, log.topics[0]) in f.graph then 1 else 0)
  }

  lemma {:induction false} AcceptCountConcat(fs: seq<EthGetLogsFilter>, gs: seq<EthGetLogsFilter>, log: Log)
    ensures AcceptCount(fs + gs, log) == AcceptCount(fs, log) + AcceptCount(gs, log)
  {
    if gs == [] {
      assert fs + gs == fs;
    } else {
      assert (fs + gs)[..|fs + gs| - 1] == fs + gs[..|gs| - 1];
      AcceptCountConcat(fs, gs[..|gs| - 1], log);
    }
  }

  /** Filters that name contracts and events accept exactly the pairs they cover. */
  lemma {:induction false} AcceptIsCover(fs: seq<EthGetLogsFilter>, maxContracts: nat, log: Log)
    requires forall i :: 0 <= i < |fs| ==> WellShaped(fs[i], maxContracts)
    ensures AcceptCount(fs, log) == if log.topics == [] then 0 else CoverCount(fs, log.address, log.topics[0])
  {
    if fs == [] {
    } else {
      AcceptIsCover(fs[..|fs| - 1], maxContracts, log);
    }
  }

  /** At most one wildcard filter accepts a log: the one of its event. */
  lemma {:induction false} WildcardAccepts(fs: seq<EthGetLogsFilter>, log: Log)
    requires forall i :: 0 <= i < |fs| ==> fs[i].contracts == [] && |fs[i].eventSignatures| == 1
    requires forall i, j :: 0 <= i < j < |fs| ==> fs[i].eventSignatures != fs[j].eventSignatures
    ensures AcceptCount(fs, log) == if log.topics != [] && EthGetLogsFilter([], [log.topics[0]]) in fs then 1 else 0
  {
    if fs == [] {
    } else {
      var front, last := fs[..|fs| - 1], fs[|fs| - 1];
      assert forall i :: 0 <= i < |front| ==> front[i] == fs[i];
      WildcardAccepts(front, log);
      assert last == EthGetLogsFilter([], [last.eventSignatures[0]]);
      if log.topics != [] {
        var wanted := EthGetLogsFilter([], [log.topics[0]]);
        assert Accepts(last, log) <==> last == wanted;
        assert wanted in fs <==> wanted in front || wanted == last;
        assert last !in front;
      }
    }
  }

  /** The compiled filters accept a log as often as it counts, so not at all unless the log filter matches it. */
  lemma CompiledFiltersAccept(f: LogFilter, filters: seq<EthGetLogsFilter>, wild: nat, maxContracts: nat, log: Log)
    requires Compiled(f, filters, wild, maxContracts)
    ensures AcceptCount(filters, log) == Multiplicity(f, log)
    ensures AcceptCount(filters, log) > 0 <==> Matches(f, log)
  {
    assert filters == filters[..wild] + filters[wild..];
    AcceptCountConcat(filters[..wild], filters[wild..], log);
    CompiledGraphAccepts(f, filters, wild, maxContracts, log);
    CompiledWildcardsAccept(f, filters, wild, maxContracts, log);
  }

  lemma CompiledGraphAccepts(f: LogFilter, filters: seq<EthGetLogsFilter>, wild: nat, maxContracts: nat, log: Log)
    requires Compiled(f, filters, wild, maxContracts)
    ensures AcceptCount(filters[wild..], log) == if log.topics != [] && Edge(log.address, log.topics[0]) in f.graph then 1 else 0
  {
    var rest := filters[wild..];
    assert forall i :: 0 <= i < |rest| ==> rest[i] == filters[wild + i];
    AcceptIsCover(rest, maxContracts, log);
  }

  lemma CompiledWildcardsAccept(f: LogFilter, filters: seq<EthGetLogsFilter>, wild: nat, maxContracts: nat, log: Log)
    requires Compiled(f, filters, wild, maxContracts)
    ensures AcceptCount(filters[..wild], log) == if log.topics != [] && log.topics[0] in f.wildcard then 1 else 0
  {
    var wilds := filters[..wild];
    assert forall i :: 0 <= i < |wilds| ==> wilds[i] == filters[i];
    WildcardAccepts(wilds, log);
    if log.topics != [] && EthGetLogsFilter([], [log.topics[0]]) in wilds {
      var i :| 0 <= i < |wilds| && wilds[i] == EthGetLogsFilter([], [log.topics[0]]);
      assert filters[i].eventSignatures[0] in f.wildcard;
    }
  }

  // ------------------------------------------------------------------ all filters together

  /** Everything the filters select, one filter after the other. */
  function SelectAll(logs: seq<Log>, fs: seq<EthGetLogsFilter>, from: int, to: int): seq<Log> {
    if fs == [] then []
    else SelectAll(logs, fs[..|fs| - 1], from, to) + Select(logs, fs[|fs| - 1], from, to)
  }

  lemma {:induction false} SelectCount(logs: seq<Log>, f: EthGetLogsFilter, from: int, to: int, log: Log)
    ensures multiset(Select(logs, f, from, to))[log] == if InRange(log, from, to) && Accepts(f, log) then multiset(logs)[log] else 0
  {
    if logs == [] {
    } else {
      SelectCount(logs[..|logs| - 1], f, from, to, log);
      assert logs == logs[..|logs| - 1] + [logs[|logs| - 1]];
    }
  }

  /** `n` for every filter that accepts the log. */
  function Copies(n: nat, fs: seq<EthGetLogsFilter>, log: Log): nat {
    if fs == [] then 0
    else Copies(n, fs[..|fs| - 1], log) + if Accepts(fs[|fs| - 1], log) then n else 0
  }

  lemma {:induction false} CopiesIsProduct(n: nat, fs: seq<EthGetLogsFilter>, log: Log)
    ensures Copies(n, fs, log) == n * AcceptCount(fs, log)
  {
    if fs == [] {
    } else {
      CopiesIsProduct(n, fs[..|fs| - 1], log);
      OneMore(n, AcceptCount(fs[..|fs| - 1], log));
    }
  }

  lemma {:induction false} SelectAllCount(logs: seq<Log>, fs: seq<EthGetLogsFilter>, from: int, to: int, log: Log)
    ensures multiset(SelectAll(logs, fs, from, to))[log] == if InRange(log, from, to) then Copies(multiset(logs)[log], fs, log) else 0
  {
    if fs == [] {
    } else {
      var front, last := fs[..|fs| - 1], fs[|fs| - 1];
      SelectAllCount(logs, front, from, to, log);
      SelectCount(logs, last, from, to, log);
      CountConcat(SelectAll(logs, front, from, to), Select(logs, last, from, to), log);
    }
  }

  lemma CountConcat(a: seq<Log>, b: seq<Log>, log: Log)
    ensures multiset(a + b)[log] == multiset(a)[log] + multiset(b)[log]
  {
  }

  lemma OneMore(n: nat, k: nat)
    ensures n * (k + 1) == n * k + n && n * (k + 0) == n * k
  {
  }

  /**
   `logs_in_block_range`: on success every log of the range is returned as often as it counts, whatever
   the node refused on the way.
   */
  method LogsInBlockRange(logs: seq<Log>, f: LogFilter, from: int, to: int, maxContracts: nat, maxEventOnlyRange: int,
                          reply: (nat, nat) -> Reply)
    returns (r: Option<seq<Log>>)
    requires Chronological(logs) && from <= to && maxContracts >= 1 && maxEventOnlyRange >= 1
    ensures r.Some? ==> forall log ::
      multiset(r.value)[log] == if InRange(log, from, to) then multiset(logs)[log] * Multiplicity(f, log) else 0
  {
    var filters := EthGetLogsFilters(f, maxContracts);
    var found: seq<Log> := [];
    for i := 0 to |filters|
      invariant found == SelectAll(logs, filters[..i], from, to)
    {
      var part, _, _ := LogStream(logs, filters[i], from, to, maxEventOnlyRange, (k: nat) => reply(i, k));
      if part.None? {
        return None;
      }
      found := found + part.value;
      assert filters[..i + 1][..i] == filters[..i];
    }
    assert filters[..|filters|] == filters;
    forall log ensures multiset(found)[log] == if InRange(log, from, to) then multiset(logs)[log] * Multiplicity(f, log) else 0 {
      SelectAllCount(logs, filters, from, to, log);
      CopiesIsProduct(multiset(logs)[log], filters, log);
      CompiledFiltersAccept(f, filters, |f.wildcard|, maxContracts, log);
    }
    r := Some(found);
  }

  /** What the multiplicities mean: the scan returns exactly the matching logs of the range. */
  lemma ScanIsExact(logs: seq<Log>, f: LogFilter, from: int, to: int, found: seq<Log>, log: Log)
    requires forall l :: multiset(found)[l] == if InRange(l, from, to) then multiset(logs)[l] * Multiplicity(f, l) else 0
    ensures log in found <==> log in logs && InRange(log, from, to) && Matches(f, log)
  {
    assert log in found <==> multiset(found)[log] > 0;
    assert log in logs <==> multiset(logs)[log] > 0;
    var n, k := multiset(logs)[log], Multiplicity(f, log);
    assert multiset(found)[log] == if InRange(log, from, to) then n * k else 0;
    assert n * k > 0 <==> n > 0 && k > 0;
  }

  /** A log that is on the chain once is returned twice iff its event is a wildcard and an edge. */
  lemma ReturnedTwiceIff(logs: seq<Log>, f: LogFilter, from: int, to: int, found: seq<Log>, log: Log)
    requires forall l :: multiset(found)[l] == if InRange(l, from, to) then multiset(logs)[l] * Multiplicity(f, l) else 0
    requires multiset(logs)[log] == 1 && InRange(log, from, to)
    ensures multiset(found)[log] == 2
            <==> log.topics != [] && log.topics[0] in f.wildcard && Edge(log.address, log.topics[0]) in f.graph
    ensures multiset(found)[log] <= 2
  {
    assert multiset(found)[log] == 1 * Multiplicity(f, log);
  }
}
