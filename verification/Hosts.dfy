/** The runtime hosts of a subgraph instance: one per data source, in order of creation. */
module Hosts {
  import opened Wrappers

  /**
   `source` identifies the data source; the creation block plays no part in duplicate detection. Data
   sources of the manifest have no creation block, and an absent one sorts before every block number.
   */
  datatype Host = Host(source: nat, creationBlock: Option<nat>)

  /** Rust's order on optional block numbers. */
  predicate AtMost(a: Option<nat>, b: Option<nat>) {
    a.None? || (b.Some? && a.value <= b.value)
  }

  ghost predicate Sorted(hosts: seq<Host>) {
    forall i, j :: 0 <= i < j < |hosts| ==> AtMost(hosts[i].creationBlock, hosts[j].creationBlock)
  }

  predicate HasSource(hosts: seq<Host>, source: nat) {
    exists i :: 0 <= i < |hosts| && hosts[i].source == source
  }

  /** Every host was created at or before block `n`. */
  ghost predicate CreatedUpTo(hosts: seq<Host>, n: int) {
    forall i :: 0 <= i < |hosts| && hosts[i].creationBlock.Some? ==> hosts[i].creationBlock.value <= n
  }

  /** The hosts created before block `n`, in order. */
  function CreatedBefore(hosts: seq<Host>, n: int): seq<Host> {
    if hosts == [] then []
    else
      var last := hosts[|hosts| - 1];
      CreatedBefore(hosts[..|hosts| - 1], n) + if last.creationBlock.Some? && last.creationBlock.value >= n then [] else [last]
  }

  /** Pops hosts from the end for as long as they were created at or after block `n`. */
  function PopFrom(hosts: seq<Host>, n: int): (r: seq<Host>)
    ensures r <= hosts
  {
    if hosts != [] && hosts[|hosts| - 1].creationBlock.Some? && hosts[|hosts| - 1].creationBlock.value >= n
    then PopFrom(hosts[..|hosts| - 1], n)
    else hosts
  }

  lemma {:induction false} AllCreatedBefore(hosts: seq<Host>, n: int)
    requires CreatedUpTo(hosts, n - 1)
    ensures CreatedBefore(hosts, n) == hosts
  {
    if hosts == [] {
    } else {
      var front, last := hosts[..|hosts| - 1], hosts[|hosts| - 1];
      AllCreatedBefore(front, n);
      assert hosts == front + [last];
    }
  }

  /** On hosts sorted by creation block, popping the suffix removes every host created at or after the block. */
  lemma {:induction false} PopIsFilter(hosts: seq<Host>, n: int)
    requires Sorted(hosts)
    ensures PopFrom(hosts, n) == CreatedBefore(hosts, n)
  {
    if hosts == [] {
    } else {
      var last := hosts[|hosts| - 1];
      if last.creationBlock.Some? && last.creationBlock.value >= n {
        PopIsFilter(hosts[..|hosts| - 1], n);
      } else {
        forall i | 0 <= i < |hosts| && hosts[i].creationBlock.Some? ensures hosts[i].creationBlock.value <= n - 1 {
          assert i < |hosts| - 1 ==> AtMost(hosts[i].creationBlock, last.creationBlock);
        }
        AllCreatedBefore(hosts, n);
      }
    }
  }

  predicate CreatedBetween(h: Host, to: int, from: int) {
    h.creationBlock.Some? && to < h.creationBlock.value < from
  }

  /**
   The runner pops from the old pointer's number. That removes exactly the hosts created after the
   block it reverts to iff none was created strictly between the two, which a step to the parent
   rules out and a longer rewind does not.
   */
  lemma RewindPopsEnoughIff(hosts: seq<Host>, from: nat, to: int)
    requires Sorted(hosts) && CreatedUpTo(hosts, from) && to < from
    ensures PopFrom(hosts, from) == CreatedBefore(hosts, to + 1)
            <==> forall i :: 0 <= i < |hosts| ==> !CreatedBetween(hosts[i], to, from)
  {
    PopIsFilter(hosts, from);
    FilterCountsIff(hosts, from, to);
  }

  lemma {:induction false} FilterCountsIff(hosts: seq<Host>, from: nat, to: int)
    requires to < from
    ensures |CreatedBefore(hosts, to + 1)| <= |CreatedBefore(hosts, from)|
    ensures CreatedBefore(hosts, from) == CreatedBefore(hosts, to + 1)
            <==> forall i :: 0 <= i < |hosts| ==> !CreatedBetween(hosts[i], to, from)
  {
    if hosts == [] {
    } else {
      var front, last := hosts[..|hosts| - 1], hosts[|hosts| - 1];
      FilterCountsIff(front, from, to);
      assert forall i :: 0 <= i < |front| ==> front[i] == hosts[i];
      assert hosts == front + [last];
      var a, b := CreatedBefore(front, from), CreatedBefore(front, to + 1);
      if CreatedBetween(last, to, from) {
        assert CreatedBefore(hosts, from) == a + [last] && CreatedBefore(hosts, to + 1) == b;
      } else {
        assert (forall i :: 0 <= i < |hosts| ==> !CreatedBetween(hosts[i], to, from))
               <==> (forall i :: 0 <= i < |front| ==> !CreatedBetween(front[i], to, from));
        assert a + [] == a && b + [] == b;
        if a + [last] == b + [last] {
          assert a == (a + [last])[..|a|] && b == (b + [last])[..|b|];
        }
      }
    }
  }

  // ------------------------------------------------------------------ creating data sources

  /** A data source that a handler asks for, whether its template can be instantiated and its host built. */
  datatype Info = Info(source: nat, instantiates: bool, builds: bool)

  datatype Added = AddedHost(hosts: seq<Host>) | Duplicate | LimitExceeded | OrderAssertionFailed | BuildFailed

  /** `add_dynamic_data_source`. */
  function Add(hosts: seq<Host>, ds: Host, builds: bool, max: Option<nat>): Added {
    if max.Some? && |hosts| >= max.value then LimitExceeded
    else if hosts != [] && !AtMost(hosts[|hosts| - 1].creationBlock, ds.creationBlock) then OrderAssertionFailed
    else if !builds then BuildFailed
    else if HasSource(hosts, ds.source) then Duplicate
    else AddedHost(hosts + [ds])
  }

  datatype Creation = AllCreated | Failed | Misordered

  /** The hosts after creating the data sources one after the other in block `n`, and how that went. */
  function AddAll(hosts: seq<Host>, infos: seq<Info>, n: nat, max: Option<nat>): (r: (seq<Host>, Creation))
    ensures hosts <= r.0
    decreases |infos|
  {
    if infos == [] then (hosts, AllCreated)
    else if !infos[0].instantiates then (hosts, Failed)
    else
      match Add(hosts, Host(infos[0].source, Some(n)), infos[0].builds, max)
      case AddedHost(more) => AddAll(more, infos[1..], n, max)
      case Duplicate => AddAll(hosts, infos[1..], n, max)
      case LimitExceeded => (hosts, Failed)
      case BuildFailed => (hosts, Failed)
      case OrderAssertionFailed => (hosts, Misordered)
  }

  /** Creating data sources in two batches is creating them in one, and stops where that stops. */
  lemma {:induction false} AddAllConcat(hosts: seq<Host>, x: seq<Info>, y: seq<Info>, n: nat, max: Option<nat>)
    ensures var first := AddAll(hosts, x, n, max);
            AddAll(hosts, x + y, n, max) == if first.1.AllCreated? then AddAll(first.0, y, n, max) else first
    decreases |x|
  {
    if x == [] {
      assert x + y == y;
    } else {
      assert (x + y)[1..] == x[1..] + y;
      if x[0].instantiates {
        match Add(hosts, Host(x[0].source, Some(n)), x[0].builds, max)
        case AddedHost(more) => AddAllConcat(more, x[1..], y, n, max);
        case Duplicate => AddAllConcat(hosts, x[1..], y, n, max);
        case _ =>
      }
    }
  }

  /** Creating data sources in a block after all earlier ones keeps the order and never trips the assertion. */
  lemma {:induction false} AddAllKeepsOrder(hosts: seq<Host>, infos: seq<Info>, n: nat, max: Option<nat>)
    requires Sorted(hosts) && CreatedUpTo(hosts, n)
    ensures var r := AddAll(hosts, infos, n, max).0;
            && Sorted(r) && CreatedUpTo(r, n)
            && forall i :: |hosts| <= i < |r| ==> r[i].creationBlock == Some(n)
    ensures !AddAll(hosts, infos, n, max).1.Misordered?
    decreases |infos|
  {
    if infos != [] && infos[0].instantiates {
      match Add(hosts, Host(infos[0].source, Some(n)), infos[0].builds, max)
      case AddedHost(more) => AddAllKeepsOrder(more, infos[1..], n, max);
      case Duplicate => AddAllKeepsOrder(hosts, infos[1..], n, max);
      case LimitExceeded =>
      case BuildFailed =>
    }
  }

  /** The hosts with distinct data sources. */
  ghost predicate DistinctSources(hosts: seq<Host>) {
    forall i, j :: 0 <= i < j < |hosts| ==> hosts[i].source != hosts[j].source
  }

  lemma {:induction false} AddAllKeepsDistinct(hosts: seq<Host>, infos: seq<Info>, n: nat, max: Option<nat>)
    requires DistinctSources(hosts)
    ensures DistinctSources(AddAll(hosts, infos, n, max).0)
    ensures AddAll(hosts, infos, n, max).1.AllCreated? ==>
              forall i :: 0 <= i < |infos| ==> HasSource(AddAll(hosts, infos, n, max).0, infos[i].source)
    decreases |infos|
  {
    if infos != [] && infos[0].instantiates {
      var ds := Host(infos[0].source, Some(n));
      var r := AddAll(hosts, infos, n, max);
      match Add(hosts, ds, infos[0].builds, max)
      case AddedHost(more) =>
        assert more[|hosts|].source == infos[0].source;
        AddAllKeepsDistinct(more, infos[1..], n, max);
        assert r.0[|hosts|] == more[|hosts|];
        assert forall i :: 0 < i < |infos| ==> infos[i] == infos[1..][i - 1];
      case Duplicate =>
        var k :| 0 <= k < |hosts| && hosts[k].source == infos[0].source;
        AddAllKeepsDistinct(hosts, infos[1..], n, max);
        assert r.0[k] == hosts[k];
        assert forall i :: 0 < i < |infos| ==> infos[i] == infos[1..][i - 1];
      case LimitExceeded =>
      case BuildFailed =>
      case OrderAssertionFailed =>
    }
  }

  // ------------------------------------------------------------------ the instance

  /** A data source of the manifest or the store, and whether it and its host can be built. */
  datatype Stored = Stored(host: Host, builds: bool)

  predicate AllBuild(stored: seq<Stored>) {
    forall i :: 0 <= i < |stored| ==> stored[i].builds
  }

  function HostsOf(stored: seq<Stored>): seq<Host> {
    seq(|stored|, i requires 0 <= i < |stored| => stored[i].host)
  }

  class SubgraphInstance {
    var hosts: seq<Host>
    const maxDataSources: Option<nat>

    constructor (maxDataSources: Option<nat>)
      ensures hosts == [] && this.maxDataSources == maxDataSources
    {
      this.maxDataSources := maxDataSources;
      hosts := [];
    }

    /** One host per data source, in order, unless one cannot be built. */
    static method FromManifest(dataSources: seq<Stored>, maxDataSources: Option<nat>) returns (r: Result<SubgraphInstance>)
      ensures r.Ok? <==> AllBuild(dataSources)
      ensures r.Ok? ==> fresh(r.value) && r.value.hosts == HostsOf(dataSources) && r.value.maxDataSources == maxDataSources
    {
      var instance := new SubgraphInstance(maxDataSources);
      for i := 0 to |dataSources|
        invariant fresh(instance) && instance.maxDataSources == maxDataSources
        invariant instance.hosts == HostsOf(dataSources[..i]) && AllBuild(dataSources[..i])
      {
        if !dataSources[i].builds {
          return Err;
        }
        instance.hosts := instance.hosts + [dataSources[i].host];
      }
      assert dataSources[..|dataSources|] == dataSources;
      r := Ok(instance);
    }

    method AddDynamicDataSource(dataSource: Host, builds: bool) returns (r: Added)
      requires hosts == [] || AtMost(hosts[|hosts| - 1].creationBlock, dataSource.creationBlock)
      modifies this
      ensures r == Add(old(hosts), dataSource, builds, maxDataSources) && !r.OrderAssertionFailed?
      ensures hosts == if r.AddedHost? then old(hosts) + [dataSource] else old(hosts)
      ensures old(Sorted(hosts)) ==> Sorted(hosts)
      ensures old(DistinctSources(hosts)) ==> DistinctSources(hosts)
    {
      if maxDataSources.Some? && |hosts| >= maxDataSources.value {
        return LimitExceeded;
      }
      if !builds {
        return BuildFailed;
      }
      if HasSource(hosts, dataSource.source) {
        r := Duplicate;
      } else {
        hosts := hosts + [dataSource];
        r := AddedHost(hosts);
      }
    }

    method RevertDataSources(revertedBlock: nat)
      modifies this
      ensures hosts == PopFrom(old(hosts), revertedBlock)
      ensures old(Sorted(hosts)) ==> Sorted(hosts) && hosts == CreatedBefore(old(hosts), revertedBlock)
    {
      ghost var before := hosts;
      while hosts != [] && AtMost(Some(revertedBlock), hosts[|hosts| - 1].creationBlock)
        invariant PopFrom(hosts, revertedBlock) == PopFrom(before, revertedBlock) && hosts <= before
      {
        hosts := hosts[..|hosts| - 1];
      }
      if Sorted(before) {
        PopIsFilter(before, revertedBlock);
      }
    }
  }

  /** `load_dynamic_data_sources`: the stored data sources, unless one cannot be built or they are not in order. */
  method LoadDynamicDataSources(stored: seq<Stored>) returns (r: Result<seq<Host>>)
    ensures r == if AllBuild(stored) && Sorted(HostsOf(stored)) then Ok(HostsOf(stored)) else Err
  {
    var dataSources: seq<Host> := [];
    for i := 0 to |stored|
      invariant dataSources == HostsOf(stored[..i]) && Sorted(dataSources) && AllBuild(stored[..i])
    {
      if !stored[i].builds {
        return Err;
      }
      var host := stored[i].host;
      if i > 0 && !AtMost(dataSources[i - 1].creationBlock, host.creationBlock) {
        assert HostsOf(stored)[i - 1] == dataSources[i - 1] && HostsOf(stored)[i] == host;
        return Err;
      }
      dataSources := dataSources + [host];
    }
    assert stored[..|stored|] == stored;
    return Ok(dataSources);
  }
}
