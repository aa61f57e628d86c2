/** Compiling a log filter, a bipartite graph of contracts and events, into `eth_getLogs` requests. */
module LogFilters {

  type Address = nat
  type EventSignature = nat

  datatype Edge = Edge(contract: Address, event: EventSignature)

  /** An edge asks for an event of one contract, a wildcard event matches on all addresses. */
  datatype LogFilter = LogFilter(graph: set<Edge>, wildcard: set<EventSignature>)

  datatype Log = Log(address: Address, topics: seq<EventSignature>, block: int, index: nat)

  /** `EthereumLogFilter::matches`. */
  predicate Matches(f: LogFilter, log: Log) {
    log.topics != [] && (Edge(log.address, log.topics[0]) in f.graph || log.topics[0] in f.wildcard)
  }

  /** Corresponds to one `eth_getLogs` call. */
  datatype EthGetLogsFilter = EthGetLogsFilter(contracts: seq<Address>, eventSignatures: seq<EventSignature>)

  /** What a node returns for a filter: an empty list does not restrict. */
  predicate Accepts(f: EthGetLogsFilter, log: Log) {
    && (f.contracts == [] || log.address in f.contracts)
    && (f.eventSignatures == [] || (log.topics != [] && log.topics[0] in f.eventSignatures))
  }

  // ------------------------------------------------------------------ the graph

  datatype Node = Contract(address: Address) | Event(signature: EventSignature)

  function Neighbors(g: set<Edge>, v: Node): set<Node> {
    match v
    case Contract(a) => set edge | edge in g && edge.contract == a :: Event(edge.event)
    case Event(e) => set edge | edge in g && edge.event == e :: Contract(edge.contract)
  }

  function Nodes(g: set<Edge>): set<Node> {
    (set edge | edge in g :: Contract(edge.contract)) + (set edge | edge in g :: Event(edge.event))
  }

  predicate Touches(v: Node, edge: Edge) {
    v == Contract(edge.contract) || v == Event(edge.event)
  }

  /** `g.remove_node(v)`. */
  function WithoutNode(g: set<Edge>, v: Node): set<Edge> {
    set edge | edge in g && !Touches(v, edge)
  }

  /** `g.nodes().max_by_key(|&n| g.neighbors(n).count())`. */
  method MaxVertex(g: set<Edge>) returns (v: Node)
    requires g != {}
    ensures v in Nodes(g)
    ensures forall u :: u in Nodes(g) ==> |Neighbors(g, u)| <= |Neighbors(g, v)|
  {
    var edge :| edge in g;
    v := Contract(edge.contract);
    assert v in Nodes(g);
    var todo := Nodes(g);
    while todo != {}
      invariant todo <= Nodes(g) && v in Nodes(g)
      invariant forall u :: u in Nodes(g) && u !in todo ==> |Neighbors(g, u)| <= |Neighbors(g, v)|
    {
      var u :| u in todo;
      if |Neighbors(g, u)| >= |Neighbors(g, v)| {
        v := u;
      }
      todo := todo - {u};
    }
  }

  lemma NodeHasNeighbors(g: set<Edge>, v: Node)
    requires v in Nodes(g)
    ensures Neighbors(g, v) != {}
  {
    var edge :| edge in g && Touches(v, edge);
    NeighborsArePairs(g, v, edge.contract, edge.event);
  }

  // ------------------------------------------------------------------ counting covered pairs

  predicate Covers(f: EthGetLogsFilter, c: Address, e: EventSignature) {
    c in f.contracts && e in f.eventSignatures
  }

  /** How many filters cover the pair. */
  function CoverCount(fs: seq<EthGetLogsFilter>, c: Address, e: EventSignature): nat {
    if fs == [] then 0
    else CoverCount(fs[..|fs| - 1], c, e) + if Covers(fs[|fs| - 1], c, e) then 1 else 0
  }

  lemma CoverCountPush(fs: seq<EthGetLogsFilter>, f: EthGetLogsFilter, c: Address, e: EventSignature)
    ensures CoverCount(fs + [f], c, e) == CoverCount(fs, c, e) + if Covers(f, c, e) then 1 else 0
  {
    assert (fs + [f])[..|fs + [f]| - 1] == fs;
  }

  lemma {:induction false} CoverCountConcat(fs: seq<EthGetLogsFilter>, gs: seq<EthGetLogsFilter>, c: Address, e: EventSignature)
    ensures CoverCount(fs + gs, c, e) == CoverCount(fs, c, e) + CoverCount(gs, c, e)
  {
    if gs == [] {
      assert fs + gs == fs;
    } else {
      assert (fs + gs)[..|fs + gs| - 1] == fs + gs[..|gs| - 1];
      CoverCountConcat(fs, gs[..|gs| - 1], c, e);
    }
  }

  /** The shape the source asserts of every filter, and the bound on its contracts. */
  predicate WellShaped(f: EthGetLogsFilter, maxContracts: nat) {
    && f.contracts != [] && f.eventSignatures != []
    && (|f.contracts| == 1 || |f.eventSignatures| == 1)
    && |f.contracts| <= maxContracts
  }

  // ------------------------------------------------------------------ the filters of one vertex

  /** The pair belongs to an edge from `v` to one of the neighbors in `done`. */
  predicate PairDone(v: Node, done: set<Node>, c: Address, e: EventSignature) {
    match v
    case Contract(a) => c == a && Event(e) in done
    case Event(s) => e == s && Contract(c) in done
  }

  ghost predicate CoverExactly(fs: seq<EthGetLogsFilter>, v: Node, done: set<Node>) {
    forall c, e :: CoverCount(fs, c, e) == if PairDone(v, done, c, e) then 1 else 0
  }

  /** What the filters look like while the neighbors of `v` are visited; `filter` is the one being filled. */
  ghost predicate Filling(v: Node, fs: seq<EthGetLogsFilter>, filter: EthGetLogsFilter, done: set<Node>, maxContracts: nat) {
    && CoverExactly(fs + [filter], v, done)
    && (forall i :: 0 <= i < |fs| ==> WellShaped(fs[i], maxContracts))
    && (match v
        case Contract(a) =>
          && filter.contracts == [a] && (done != {} ==> filter.eventSignatures != [])
          && forall e :: e in filter.eventSignatures ==> Event(e) in done
        case Event(s) =>
          && filter.eventSignatures == [s] && |filter.contracts| <= maxContracts
          && (done != {} ==> filter.contracts != [])
          && forall c :: c in filter.contracts ==> Contract(c) in done)
  }

  lemma FillEvent(v: Node, fs: seq<EthGetLogsFilter>, filter: EthGetLogsFilter, done: set<Node>, maxContracts: nat, s: EventSignature)
    requires Filling(v, fs, filter, done, maxContracts) && v.Contract? && Event(s) !in done
    ensures Filling(v, fs, filter.(eventSignatures := filter.eventSignatures + [s]), done + {Event(s)}, maxContracts)
  {
    var filter' := filter.(eventSignatures := filter.eventSignatures + [s]);
    forall c, e ensures CoverCount(fs + [filter'], c, e) == if PairDone(v, done + {Event(s)}, c, e) then 1 else 0 {
      CoverCountPush(fs, filter, c, e);
      CoverCountPush(fs, filter', c, e);
      assert CoverCount(fs + [filter], c, e) == if PairDone(v, done, c, e) then 1 else 0;
    }
  }

  lemma FillContract(v: Node, fs: seq<EthGetLogsFilter>, filter: EthGetLogsFilter, done: set<Node>, maxContracts: nat, a: Address)
    requires Filling(v, fs, filter, done, maxContracts) && v.Event? && Contract(a) !in done && |filter.contracts| < maxContracts
    ensures Filling(v, fs, filter.(contracts := filter.contracts + [a]), done + {Contract(a)}, maxContracts)
  {
    var filter' := filter.(contracts := filter.contracts + [a]);
    forall c, e ensures CoverCount(fs + [filter'], c, e) == if PairDone(v, done + {Contract(a)}, c, e) then 1 else 0 {
      CoverCountPush(fs, filter, c, e);
      CoverCountPush(fs, filter', c, e);
      assert CoverCount(fs + [filter], c, e) == if PairDone(v, done, c, e) then 1 else 0;
    }
  }

  /** Starting a new batch of contracts for the same event. */
  lemma FillBatch(v: Node, fs: seq<EthGetLogsFilter>, filter: EthGetLogsFilter, done: set<Node>, maxContracts: nat, a: Address)
    requires Filling(v, fs, filter, done, maxContracts) && v.Event? && Contract(a) !in done
    requires |filter.contracts| == maxContracts >= 1
    ensures Filling(v, fs + [filter], EthGetLogsFilter([a], [v.signature]), done + {Contract(a)}, maxContracts)
  {
    var filter' := EthGetLogsFilter([a], [v.signature]);
    forall c, e ensures CoverCount(fs + [filter] + [filter'], c, e) == if PairDone(v, done + {Contract(a)}, c, e) then 1 else 0 {
      CoverCountPush(fs + [filter], filter', c, e);
      assert CoverCount(fs + [filter], c, e) == if PairDone(v, done, c, e) then 1 else 0;
    }
  }

  /** Turns all edges of a vertex into filters. */
  method CoverVertex(g: set<Edge>, v: Node, maxContracts: nat) returns (fs: seq<EthGetLogsFilter>)
    requires v in Nodes(g) && maxContracts >= 1
    ensures forall i :: 0 <= i < |fs| ==> WellShaped(fs[i], maxContracts)
    ensures forall c, e :: CoverCount(fs, c, e) == if Edge(c, e) in g && Touches(v, Edge(c, e)) then 1 else 0
  {
    NodeHasNeighbors(g, v);
    fs := [];
    var filter := match v
      case Contract(a) => EthGetLogsFilter([a], [])
      case Event(s) => EthGetLogsFilter([], [s]);
    var todo := Neighbors(g, v);
    ghost var all := todo;
    assert CoverExactly(fs + [filter], v, {}) by {
      forall c, e ensures CoverCount(fs + [filter], c, e) == 0 {
        CoverCountPush(fs, filter, c, e);
      }
    }
    assert all - todo == {};
    while todo != {}
      invariant todo <= all
      invariant Filling(v, fs, filter, all - todo, maxContracts)
    {
      var neighbor :| neighbor in todo;
      assert all - (todo - {neighbor}) == (all - todo) + {neighbor};
      match neighbor {
        case Contract(a) =>
          if |filter.contracts| == maxContracts {
            // Full: this filter is done, and the contract goes into a new one for the same event.
            var event := filter.eventSignatures[0];
            FillBatch(v, fs, filter, all - todo, maxContracts, a);
            assert WellShaped(filter, maxContracts);
            fs := fs + [filter];
            filter := EthGetLogsFilter([], [event]);
            filter := filter.(contracts := filter.contracts + [a]);
          } else {
            FillContract(v, fs, filter, all - todo, maxContracts, a);
            filter := filter.(contracts := filter.contracts + [a]);
          }
        case Event(s) =>
          FillEvent(v, fs, filter, all - todo, maxContracts, s);
          filter := filter.(eventSignatures := filter.eventSignatures + [s]);
      }
      todo := todo - {neighbor};
    }
    assert all - todo == all;
    assert WellShaped(filter, maxContracts);
    fs := fs + [filter];
    forall c, e ensures CoverCount(fs, c, e) == if Edge(c, e) in g && Touches(v, Edge(c, e)) then 1 else 0 {
      assert CoverCount(fs, c, e) == if PairDone(v, all, c, e) then 1 else 0;
      NeighborsArePairs(g, v, c, e);
    }
  }

  lemma NeighborsArePairs(g: set<Edge>, v: Node, c: Address, e: EventSignature)
    ensures PairDone(v, Neighbors(g, v), c, e) <==> Edge(c, e) in g && Touches(v, Edge(c, e))
  {
    match v
    case Contract(a) =>
      if c == a && Event(e) in Neighbors(g, v) {
        var edge :| edge in g && edge.contract == a && Event(edge.event) == Event(e);
        assert edge == Edge(c, e);
      }
    case Event(s) =>
      if e == s && Contract(c) in Neighbors(g, v) {
        var edge :| edge in g && edge.event == s && Contract(edge.contract) == Contract(c);
        assert edge == Edge(c, e);
      }
  }

  // ------------------------------------------------------------------ all filters

  /** One filter per wildcard event. */
  method WildcardFilters(wildcard: set<EventSignature>) returns (fs: seq<EthGetLogsFilter>)
    ensures forall i :: 0 <= i < |fs| ==> fs[i].contracts == [] && |fs[i].eventSignatures| == 1 && fs[i].eventSignatures[0] in wildcard
    ensures forall i, j :: 0 <= i < j < |fs| ==> fs[i].eventSignatures != fs[j].eventSignatures
    ensures forall e :: e in wildcard ==> EthGetLogsFilter([], [e]) in fs
    ensures |fs| == |wildcard|
  {
    fs := [];
    var todo := wildcard;
    while todo != {}
      invariant todo <= wildcard
      invariant forall i :: 0 <= i < |fs| ==>
        fs[i].contracts == [] && |fs[i].eventSignatures| == 1 && fs[i].eventSignatures[0] in wildcard && fs[i].eventSignatures[0] !in todo
      invariant forall i, j :: 0 <= i < j < |fs| ==> fs[i].eventSignatures != fs[j].eventSignatures
      invariant forall e :: e in wildcard && e !in todo ==> EthGetLogsFilter([], [e]) in fs
      invariant |fs| + |todo| == |wildcard|
    {
      var e :| e in todo;
      fs := fs + [EthGetLogsFilter([], [e])];
      todo := todo - {e};
    }
  }

  /** `wild` filters of wildcard events followed by filters that cover the graph, as the compilation returns them. */
  ghost predicate Compiled(f: LogFilter, filters: seq<EthGetLogsFilter>, wild: nat, maxContracts: nat) {
    && wild <= |filters|
    && (forall i :: 0 <= i < wild ==>
          filters[i].contracts == [] && |filters[i].eventSignatures| == 1 && filters[i].eventSignatures[0] in f.wildcard)
    && (forall i, j :: 0 <= i < j < wild ==> filters[i].eventSignatures != filters[j].eventSignatures)
    && (forall e :: e in f.wildcard ==> EthGetLogsFilter([], [e]) in filters[..wild])
    && (forall i :: wild <= i < |filters| ==> WellShaped(filters[i], maxContracts))
    && (forall c, e :: CoverCount(filters[wild..], c, e) == if Edge(c, e) in f.graph then 1 else 0)
  }

  /**
   The filters of a log filter, those of wildcard events first. Every edge is covered by exactly one of
   the others and no other pair is, and each of those names one contract or one event, at least one of
   both and at most the maximum number of contracts.
   */
  method EthGetLogsFilters(f: LogFilter, maxContracts: nat) returns (filters: seq<EthGetLogsFilter>)
    requires maxContracts >= 1
    ensures Compiled(f, filters, |f.wildcard|, maxContracts)
  {
    filters := WildcardFilters(f.wildcard);
    ghost var wild := |filters|;
    ghost var wildcards := filters;
    var g := f.graph;
    assert filters[wild..] == [];
    while g != {}
      invariant g <= f.graph && wild <= |filters| && filters[..wild] == wildcards
      invariant forall i :: wild <= i < |filters| ==> WellShaped(filters[i], maxContracts)
      invariant forall c, e :: CoverCount(filters[wild..], c, e) == if Edge(c, e) in f.graph && Edge(c, e) !in g then 1 else 0
      decreases g
    {
      var v := MaxVertex(g);
      var fs := CoverVertex(g, v, maxContracts);
      ghost var before := filters;
      filters := filters + fs;
      assert filters[wild..] == before[wild..] + fs;
      forall c, e ensures CoverCount(filters[wild..], c, e)
                       == if Edge(c, e) in f.graph && Edge(c, e) !in WithoutNode(g, v) then 1 else 0
      {
        CoverCountConcat(before[wild..], fs, c, e);
      }
      assert WithoutNode(g, v) < g by {
        var edge :| edge in g && Touches(v, edge);
        assert edge !in WithoutNode(g, v);
      }
      g := WithoutNode(g, v);
    }
    assert filters[..wild] == wildcards;
    assert forall i :: 0 <= i < wild ==> filters[i] == wildcards[i];
  }
}
