/** Call and block filters: how they are built, extended, matched and compiled for Firehose. */
module CallFilters {
  import opened Wrappers

  type Address = nat
  type Byte = x: int | 0 <= x < 256
  type Selector = s: seq<Byte> | |s| == 4 witness [0, 0, 0, 0]

  /** The start block and the selectors wanted from one contract; no selectors means every call. */
  datatype Entry = Entry(startBlock: int, signatures: set<Selector>)

  datatype CallFilter = CallFilter(contracts: map<Address, Entry>, wildcard: set<Selector>)

  datatype Call = Call(to: Address, input: seq<Byte>)

  /** The input holds a selector and whole 32-byte words. */
  predicate WellFormed(call: Call) {
    |call.input| >= 4 && (|call.input| - 4) % 32 == 0
  }

  function SelectorOf(call: Call): Selector
    requires WellFormed(call)
  {
    call.input[..4]
  }

  /** `EthereumCallFilter::matches`. */
  predicate Matches(f: CallFilter, call: Call) {
    if |call.input| < 4 then false
    else if (|call.input| - 4) % 32 != 0 then false
    else
      var signature: Selector := call.input[..4];
      if call.to in f.contracts then
        if f.contracts[call.to].signatures == {} then true
        else signature in f.contracts[call.to].signatures || signature in f.wildcard
      else signature in f.wildcard
  }

  // ------------------------------------------------------------------ the compiled filters

  datatype CallToFilter = CallToFilter(addresses: seq<Address>, signatures: seq<Selector>)

  /** What the Firehose schema says a compiled filter accepts: an empty list stands for anything. */
  predicate Accepts(c: CallToFilter, to: Address, signature: Selector) {
    && (c.addresses == [] || to in c.addresses)
    && (c.signatures == [] || signature in c.signatures)
  }

  ghost predicate AnyAccepts(cs: seq<CallToFilter>, to: Address, signature: Selector) {
    exists i :: 0 <= i < |cs| && Accepts(cs[i], to, signature)
  }

  lemma AnyAcceptsPush(cs: seq<CallToFilter>, c: CallToFilter, to: Address, signature: Selector)
    ensures AnyAccepts(cs + [c], to, signature) <==> AnyAccepts(cs, to, signature) || Accepts(c, to, signature)
  {
    var all := cs + [c];
    if AnyAccepts(cs, to, signature) {
      var i :| 0 <= i < |cs| && Accepts(cs[i], to, signature);
      assert all[i] == cs[i];
    }
    assert all[|cs|] == c;
  }

  method Enumerate(signatures: set<Selector>) returns (s: seq<Selector>)
    ensures forall x :: x in s <==> x in signatures
  {
    s := [];
    var todo := signatures;
    while todo != {}
      invariant todo <= signatures
      invariant forall x :: x in s <==> x in signatures - todo
      decreases todo
    {
      var x :| x in todo;
      s, todo := s + [x], todo - {x};
    }
  }

  /** The contracts of the filter ask for this call. */
  predicate Wants(f: CallFilter, to: Address, signature: Selector) {
    to in f.contracts && (f.contracts[to].signatures == {} || signature in f.contracts[to].signatures)
  }

  /** A contract's compiled filter accepts exactly what the contract asks for. */
  lemma ContractAccepts(f: CallFilter, address: Address, signatures: seq<Selector>, to: Address, signature: Selector)
    requires address in f.contracts && forall x :: x in signatures <==> x in f.contracts[address].signatures
    ensures Accepts(CallToFilter([address], signatures), to, signature) <==> to == address && Wants(f, to, signature)
  {
    assert signatures == [] <==> f.contracts[address].signatures == {} by {
      if signatures != [] {
        assert signatures[0] in f.contracts[address].signatures;
      }
    }
  }

  ghost predicate CompiledUpTo(f: CallFilter, done: set<Address>, cs: seq<CallToFilter>) {
    forall to, signature :: AnyAccepts(cs, to, signature) <==> to in done && Wants(f, to, signature)
  }

  lemma CompileOne(f: CallFilter, done: set<Address>, cs: seq<CallToFilter>, address: Address, signatures: seq<Selector>)
    requires CompiledUpTo(f, done, cs) && address in f.contracts
    requires forall x :: x in signatures <==> x in f.contracts[address].signatures
    ensures CompiledUpTo(f, done + {address}, cs + [CallToFilter([address], signatures)])
  {
    var c := CallToFilter([address], signatures);
    forall to, signature ensures AnyAccepts(cs + [c], to, signature) <==> to in done + {address} && Wants(f, to, signature) {
      AnyAcceptsPush(cs, c, to, signature);
      ContractAccepts(f, address, signatures, to, signature);
    }
  }

  /** Every compiled filter names an address or a selector, as the schema demands. */
  predicate Valid(c: CallToFilter) {
    c.addresses != [] || c.signatures != []
  }

  /** `Into<Vec<CallToFilter>>`: the compiled list accepts exactly the pairs that `matches` accepts on well-formed calls. */
  method Compile(f: CallFilter) returns (cs: seq<CallToFilter>)
    ensures forall call :: WellFormed(call) ==> (Matches(f, call) <==> AnyAccepts(cs, call.to, SelectorOf(call)))
    ensures forall i :: 0 <= i < |cs| ==> Valid(cs[i])
    ensures cs == [] <==> f.contracts == map[] && f.wildcard == {}
  {
    cs := [];
    var todo := f.contracts.Keys;
    while todo != {}
      invariant todo <= f.contracts.Keys
      invariant CompiledUpTo(f, f.contracts.Keys - todo, cs)
      invariant forall i :: 0 <= i < |cs| ==> Valid(cs[i])
      invariant cs == [] <==> f.contracts.Keys == todo
      decreases todo
    {
      var address :| address in todo;
      var signatures := Enumerate(f.contracts[address].signatures);
      CompileOne(f, f.contracts.Keys - todo, cs, address, signatures);
      assert f.contracts.Keys - todo + {address} == f.contracts.Keys - (todo - {address});
      cs, todo := cs + [CallToFilter([address], signatures)], todo - {address};
    }
    assert f.contracts == map[] <==> f.contracts.Keys == {};
    if f.wildcard != {} {
      var signatures := Enumerate(f.wildcard);
      var w :| w in f.wildcard;
      assert signatures != [];
      var c := CallToFilter([], signatures);
      forall call | WellFormed(call) ensures Matches(f, call) <==> AnyAccepts(cs + [c], call.to, SelectorOf(call)) {
        AnyAcceptsPush(cs, c, call.to, SelectorOf(call));
      }
      cs := cs + [c];
    }
  }

  // ------------------------------------------------------------------ extending a call filter

  function Min(a: int, b: int): int {
    if a <= b then a else b
  }

  function MergeEntry(existing: Entry, proposed: Entry): Entry {
    Entry(Min(proposed.startBlock, existing.startBlock), existing.signatures + proposed.signatures)
  }

  function MergeContracts(a: map<Address, Entry>, b: map<Address, Entry>): map<Address, Entry> {
    map x | x in a.Keys + b.Keys ::
      if x in a && x in b then MergeEntry(a[x], b[x]) else if x in a then a[x] else b[x]
  }

  function Extended(a: CallFilter, b: CallFilter): CallFilter {
    CallFilter(MergeContracts(a.contracts, b.contracts), a.wildcard + b.wildcard)
  }

  class EthereumCallFilter {
    var contracts: map<Address, Entry>
    var wildcard: set<Selector>

    function Value(): CallFilter
      reads this
    {
      CallFilter(contracts, wildcard)
    }

    constructor (f: CallFilter)
      ensures Value() == f
    {
      contracts, wildcard := f.contracts, f.wildcard;
    }

    /** `EthereumCallFilter::extend`. */
    method Extend(other: CallFilter)
      modifies this
      ensures Value() == Extended(old(Value()), other)
    {
      if other.contracts == map[] && other.wildcard == {} {
        assert MergeContracts(contracts, map[]) == contracts;
        return;
      }
      ghost var before := contracts;
      var todo := other.contracts.Keys;
      while todo != {}
        invariant todo <= other.contracts.Keys && wildcard == old(wildcard)
        invariant contracts == MergeContracts(before, other.contracts - todo)
        decreases todo
      {
        var address :| address in todo;
        if address in contracts {
          contracts := contracts[address := MergeEntry(contracts[address], other.contracts[address])];
        } else {
          contracts := contracts[address := other.contracts[address]];
        }
        todo := todo - {address};
      }
      assert other.contracts - {} == other.contracts;
      wildcard := wildcard + other.wildcard;
    }
  }

  /** The merged entry of an address asks for less than one of the two did: "every call" met a list of selectors. */
  ghost predicate Narrows(a: CallFilter, b: CallFilter, address: Address, signature: Selector) {
    && address in a.contracts && address in b.contracts
    && (a.contracts[address].signatures == {}) != (b.contracts[address].signatures == {})
    && signature !in a.contracts[address].signatures + b.contracts[address].signatures + a.wildcard + b.wildcard
  }

  ghost predicate MatchesUnion(a: CallFilter, b: CallFilter) {
    forall call :: Matches(Extended(a, b), call) <==> Matches(a, call) || Matches(b, call)
  }

  lemma MatchesUnionUnlessNarrowed(a: CallFilter, b: CallFilter, call: Call)
    ensures (Matches(Extended(a, b), call) <==> Matches(a, call) || Matches(b, call))
       <==> !(WellFormed(call) && Narrows(a, b, call.to, SelectorOf(call)))
  {
  }

  /** Extending a filter unites what is matched, unless an address wanted whole meets a list of selectors for it. */
  lemma ExtendMatchesUnionIff(a: CallFilter, b: CallFilter)
    ensures MatchesUnion(a, b) <==> forall address: Address, signature: Selector :: !Narrows(a, b, address, signature)
  {
    if MatchesUnion(a, b) {
      forall address: Address, signature: Selector ensures !Narrows(a, b, address, signature) {
        var call := Call(address, signature);
        assert call.input[..4] == signature;
        MatchesUnionUnlessNarrowed(a, b, call);
      }
    } else {
      var call :| !(Matches(Extended(a, b), call) <==> Matches(a, call) || Matches(b, call));
      MatchesUnionUnlessNarrowed(a, b, call);
    }
  }

  // ------------------------------------------------------------------ filters built from data sources and templates

  datatype BlockHandler = Unfiltered | CallFiltered
  datatype Mapping = Mapping(functions: seq<Selector>, blockHandlers: seq<BlockHandler>)
  datatype DataSource = DataSource(address: Option<Address>, startBlock: int, mapping: Mapping)

  /** One call handler of one data source that has an address. */
  datatype Declaration = Declaration(startBlock: int, address: Address, signature: Selector)

  function Single(d: Declaration): map<Address, Entry> {
    map[d.address := Entry(d.startBlock, {d.signature})]
  }

  function ContractsOf(ds: seq<Declaration>): map<Address, Entry> {
    if ds == [] then map[] else MergeContracts(ContractsOf(ds[..|ds| - 1]), Single(ds[|ds| - 1]))
  }

  /** `FromIterator for EthereumCallFilter`. */
  method FromIter(ds: seq<Declaration>) returns (f: CallFilter)
    ensures f == CallFilter(ContractsOf(ds), {})
  {
    var lookup: map<Address, Entry> := map[];
    for i := 0 to |ds|
      invariant lookup == ContractsOf(ds[..i])
    {
      assert ds[..i + 1][..i] == ds[..i];
      lookup := Declare(lookup, ds[i]);
    }
    assert ds[..|ds|] == ds;
    f := CallFilter(lookup, {});
  }

  method Declare(contracts: map<Address, Entry>, d: Declaration) returns (lookup: map<Address, Entry>)
    ensures lookup == MergeContracts(contracts, Single(d))
  {
    lookup := contracts;
    if d.address !in lookup {
      lookup := lookup[d.address := Entry(d.startBlock, {})];
    }
    var entry := lookup[d.address];
    if entry.startBlock > d.startBlock {
      entry := entry.(startBlock := d.startBlock);
    }
    lookup := lookup[d.address := entry.(signatures := entry.signatures + {d.signature})];
    assert lookup[d.address] == MergeContracts(contracts, Single(d))[d.address];
  }

  function DeclarationsOf(source: DataSource): seq<Declaration> {
    if source.address.None? then []
    else seq(|source.mapping.functions|,
             i requires 0 <= i < |source.mapping.functions| =>
               Declaration(source.startBlock, source.address.value, source.mapping.functions[i]))
  }

  function Declarations(sources: seq<DataSource>): seq<Declaration> {
    if sources == [] then [] else Declarations(sources[..|sources| - 1]) + DeclarationsOf(sources[|sources| - 1])
  }

  /** `EthereumCallFilter::from_data_sources`. */
  method FromDataSources(sources: seq<DataSource>) returns (f: CallFilter)
    ensures f == CallFilter(ContractsOf(Declarations(sources)), {})
  {
    var ds := [];
    for i := 0 to |sources|
      invariant ds == Declarations(sources[..i])
    {
      assert sources[..i + 1][..i] == sources[..i];
      ds := ds + DeclarationsOf(sources[i]);
    }
    assert sources[..|sources|] == sources;
    f := FromIter(ds);
  }

  /** `EthereumCallFilter::from_mapping`. */
  function FromMapping(mapping: Mapping): CallFilter {
    CallFilter(map[], set i | 0 <= i < |mapping.functions| :: mapping.functions[i])
  }

  // ------------------------------------------------------------------ any sequence of extensions

  datatype Part = Sources(sources: seq<DataSource>) | Template(mapping: Mapping)

  function FilterOf(part: Part): CallFilter {
    match part
    case Sources(sources) => CallFilter(ContractsOf(Declarations(sources)), {})
    case Template(mapping) => FromMapping(mapping)
  }

  function Build(parts: seq<Part>): CallFilter {
    if parts == [] then CallFilter(map[], {}) else Extended(Build(parts[..|parts| - 1]), FilterOf(parts[|parts| - 1]))
  }

  /** The trigger filter of a deployment, extended part by part. */
  method BuildInPlace(parts: seq<Part>) returns (filter: EthereumCallFilter)
    ensures fresh(filter) && filter.Value() == Build(parts)
  {
    filter := new EthereumCallFilter(CallFilter(map[], {}));
    for i := 0 to |parts|
      invariant fresh(filter) && filter.Value() == Build(parts[..i])
    {
      assert parts[..i + 1][..i] == parts[..i];
      var f: CallFilter;
      match parts[i] {
        case Sources(sources) => f := FromDataSources(sources);
        case Template(mapping) => f := FromMapping(mapping);
      }
      assert f == FilterOf(parts[i]);
      filter.Extend(f);
      assert Build(parts[..i + 1]) == Extended(Build(parts[..i]), f);
    }
    assert parts[..|parts|] == parts;
  }

  function AllDeclarations(parts: seq<Part>): seq<Declaration> {
    if parts == [] then []
    else AllDeclarations(parts[..|parts| - 1]) + if parts[|parts| - 1].Sources? then Declarations(parts[|parts| - 1].sources) else []
  }

  function AllFunctions(parts: seq<Part>): set<Selector> {
    if parts == [] then {}
    else AllFunctions(parts[..|parts| - 1]) + FilterOf(parts[|parts| - 1]).wildcard
  }

  lemma MergeAssociates(a: map<Address, Entry>, b: map<Address, Entry>, c: map<Address, Entry>)
    ensures MergeContracts(MergeContracts(a, b), c) == MergeContracts(a, MergeContracts(b, c))
  {
    var left, right := MergeContracts(MergeContracts(a, b), c), MergeContracts(a, MergeContracts(b, c));
    forall x | x in left ensures left[x] == right[x] {
      if x in a && x in b && x in c {
        assert left[x].signatures == right[x].signatures;
      }
    }
  }

  /** Extending by a batch of data sources is the same as having declared them all at once. */
  lemma {:induction false} MergeIsConcat(x: seq<Declaration>, y: seq<Declaration>)
    ensures MergeContracts(ContractsOf(x), ContractsOf(y)) == ContractsOf(x + y)
  {
    if y == [] {
      assert x + y == x;
    } else {
      var front, last := y[..|y| - 1], y[|y| - 1];
      MergeIsConcat(x, front);
      MergeAssociates(ContractsOf(x), ContractsOf(front), Single(last));
      assert (x + y)[..|x + y| - 1] == x + front;
    }
  }

  /** However data sources and templates arrive, the filter is the one of all declarations at once. */
  lemma {:induction false} BuildIsFlat(parts: seq<Part>)
    ensures Build(parts) == CallFilter(ContractsOf(AllDeclarations(parts)), AllFunctions(parts))
  {
    if parts == [] {
      assert ContractsOf([]) == map[];
    } else {
      var front, last := parts[..|parts| - 1], parts[|parts| - 1];
      BuildIsFlat(front);
      var ds := AllDeclarations(front);
      if last.Sources? {
        MergeIsConcat(ds, Declarations(last.sources));
      } else {
        assert MergeContracts(ContractsOf(ds), map[]) == ContractsOf(ds);
        assert AllDeclarations(parts) == ds;
      }
    }
  }

  ghost predicate Declared(ds: seq<Declaration>, to: Address, signature: Selector) {
    exists i :: 0 <= i < |ds| && ds[i].address == to && ds[i].signature == signature
  }

  /** The entry of an address holds the declared selectors and the smallest declared start block. */
  ghost predicate Sums(ds: seq<Declaration>, a: Address, e: Entry) {
    && e.signatures != {}
    && (forall s :: s in e.signatures <==> Declared(ds, a, s))
    && (exists i :: 0 <= i < |ds| && ds[i].address == a && ds[i].startBlock == e.startBlock)
    && (forall i :: 0 <= i < |ds| && ds[i].address == a ==> e.startBlock <= ds[i].startBlock)
  }

  lemma DeclaredPush(ds: seq<Declaration>, a: Address, s: Selector)
    requires ds != []
    ensures Declared(ds, a, s) <==> Declared(ds[..|ds| - 1], a, s) || (ds[|ds| - 1].address == a && ds[|ds| - 1].signature == s)
  {
    var front := ds[..|ds| - 1];
    if Declared(front, a, s) {
      var i :| 0 <= i < |front| && front[i].address == a && front[i].signature == s;
      assert ds[i].address == a && ds[i].signature == s;
    }
    if Declared(ds, a, s) {
      var i :| 0 <= i < |ds| && ds[i].address == a && ds[i].signature == s;
      assert i < |front| ==> front[i].address == a && front[i].signature == s;
    }
  }

  lemma {:induction false} ContractsSum(ds: seq<Declaration>, a: Address)
    ensures a in ContractsOf(ds) ==> Sums(ds, a, ContractsOf(ds)[a])
    ensures a !in ContractsOf(ds) ==> forall i :: 0 <= i < |ds| ==> ds[i].address != a
  {
    if ds == [] {
    } else {
      var front, last := ds[..|ds| - 1], ds[|ds| - 1];
      ContractsSum(front, a);
      assert forall i :: 0 <= i < |front| ==> front[i] == ds[i];
      if a in ContractsOf(ds) {
        SumsPush(ds, a, ContractsOf(front), ContractsOf(ds)[a]);
      }
    }
  }

  lemma SumsPush(ds: seq<Declaration>, a: Address, contracts: map<Address, Entry>, e: Entry)
    requires ds != []
    requires a in contracts ==> Sums(ds[..|ds| - 1], a, contracts[a])
    requires a !in contracts ==> forall i :: 0 <= i < |ds| - 1 ==> ds[i].address != a
    requires a in MergeContracts(contracts, Single(ds[|ds| - 1])) && e == MergeContracts(contracts, Single(ds[|ds| - 1]))[a]
    ensures Sums(ds, a, e)
  {
    var front, last := ds[..|ds| - 1], ds[|ds| - 1];
    assert forall i :: 0 <= i < |front| ==> front[i] == ds[i];
    forall s ensures s in e.signatures <==> Declared(ds, a, s) {
      DeclaredPush(ds, a, s);
    }
    if a in contracts {
      var i :| 0 <= i < |front| && front[i].address == a && front[i].startBlock == contracts[a].startBlock;
      assert ds[i].address == a;
    }
  }

  /** A filter built from data sources and templates matches exactly the calls that some handler declares. */
  lemma BuiltFilterMatchesDeclared(parts: seq<Part>, call: Call)
    ensures Matches(Build(parts), call) <==>
            WellFormed(call)
            && (Declared(AllDeclarations(parts), call.to, SelectorOf(call)) || SelectorOf(call) in AllFunctions(parts))
  {
    BuildIsFlat(parts);
    if WellFormed(call) {
      ContractsSum(AllDeclarations(parts), call.to);
    }
  }

  /** So extending such a filter never narrows it. */
  lemma BuiltFiltersUnite(x: seq<Part>, y: seq<Part>)
    ensures MatchesUnion(Build(x), Build(y))
  {
    BuildIsFlat(x);
    BuildIsFlat(y);
    forall address: Address, signature: Selector ensures !Narrows(Build(x), Build(y), address, signature) {
      ContractsSum(AllDeclarations(x), address);
      ContractsSum(AllDeclarations(y), address);
    }
    ExtendMatchesUnionIff(Build(x), Build(y));
  }

  // ------------------------------------------------------------------ block filters

  datatype Start = Start(block: int, address: Address)

  datatype BlockFilter = BlockFilter(contractAddresses: set<Start>, triggerEveryBlock: bool)

  ghost predicate OnePerAddress(m: set<Start>) {
    forall x, y :: x in m && y in m && x.address == y.address ==> x == y
  }

  ghost predicate Kept(m: set<Start>, e: Start) {
    exists x :: x in m && x.address == e.address && x.block <= e.block
  }

  /** `m` keeps, of all entries in `s`, the one with the smallest start block for every address. */
  ghost predicate IsLeast(s: set<Start>, m: set<Start>) {
    && m <= s && OnePerAddress(m)
    && forall e {:trigger Kept(m, e)} :: e in s ==> Kept(m, e)
  }

  lemma LeastIsBelow(s: set<Start>, m: set<Start>, n: set<Start>)
    requires IsLeast(s, m) && IsLeast(s, n)
    ensures m <= n
  {
    forall e | e in m ensures e in n {
      assert Kept(n, e);
      var x :| x in n && x.address == e.address && x.block <= e.block;
      assert Kept(m, x);
      var y :| y in m && y.address == x.address && y.block <= x.block;
      assert y == e;
    }
  }

  /** So there is only one such choice, whatever the order of the entries. */
  lemma LeastIsUnique(s: set<Start>, m: set<Start>, n: set<Start>)
    requires IsLeast(s, m) && IsLeast(s, n)
    ensures m == n
  {
    LeastIsBelow(s, m, n);
    LeastIsBelow(s, n, m);
  }

  lemma LeastComposes(s: set<Start>, m: set<Start>, t: set<Start>, n: set<Start>, r: set<Start>)
    requires IsLeast(s, m) && IsLeast(t, n) && IsLeast(m + n, r)
    ensures IsLeast(s + t, r)
  {
    forall e | e in s + t ensures Kept(r, e) {
      if e in s {
        assert Kept(m, e);
        var y :| y in m && y.address == e.address && y.block <= e.block;
        assert Kept(r, y);
      } else {
        assert Kept(n, e);
        var y :| y in n && y.address == e.address && y.block <= e.block;
        assert Kept(r, y);
      }
    }
  }

  lemma AddStartIsLeast(s: set<Start>, m: set<Start>, e: Start)
    requires IsLeast(s, m)
    ensures (forall x :: x in m ==> x.address != e.address) ==> IsLeast(s + {e}, m + {e})
    ensures forall x :: x in m && x.address == e.address ==> IsLeast(s + {e}, if e.block < x.block then m - {x} + {e} else m)
  {
    forall z | z in s ensures Kept(m + {e}, z) {
      assert Kept(m, z);
    }
    forall x | x in m && x.address == e.address ensures IsLeast(s + {e}, if e.block < x.block then m - {x} + {e} else m) {
      ReplaceIsLeast(s, m, e, x);
    }
  }

  lemma ReplaceIsLeast(s: set<Start>, m: set<Start>, e: Start, x: Start)
    requires IsLeast(s, m) && x in m && x.address == e.address
    ensures IsLeast(s + {e}, if e.block < x.block then m - {x} + {e} else m)
  {
    var r := if e.block < x.block then m - {x} + {e} else m;
    forall z | z in s + {e} ensures Kept(r, z) {
      if z in s {
        assert Kept(m, z);
        var y :| y in m && y.address == z.address && y.block <= z.block;
        assert y == x || y in r;
      }
    }
  }

  class EthereumBlockFilter {
    var contractAddresses: set<Start>
    var triggerEveryBlock: bool

    constructor ()
      ensures contractAddresses == {} && !triggerEveryBlock
    {
      contractAddresses, triggerEveryBlock := {}, false;
    }

    /** Adds one entry, keeping the smaller start block when the address is known. */
    method AddStart(e: Start, ghost s: set<Start>)
      requires IsLeast(s, contractAddresses)
      modifies this`contractAddresses
      ensures IsLeast(s + {e}, contractAddresses)
    {
      AddStartIsLeast(s, contractAddresses, e);
      if current :| current in contractAddresses && current.address == e.address {
        if e.block < current.block {
          contractAddresses := contractAddresses - {current} + {e};
        }
      } else {
        contractAddresses := contractAddresses + {e};
      }
    }

    /** `EthereumBlockFilter::extend`. */
    method Extend(other: BlockFilter)
      requires OnePerAddress(contractAddresses)
      modifies this
      ensures IsLeast(old(contractAddresses) + other.contractAddresses, contractAddresses)
      ensures triggerEveryBlock == (old(triggerEveryBlock) || other.triggerEveryBlock)
    {
      if !other.triggerEveryBlock && other.contractAddresses == {} {
        return;
      }
      triggerEveryBlock := triggerEveryBlock || other.triggerEveryBlock;
      ghost var done: set<Start> := {};
      var todo := other.contractAddresses;
      while todo != {}
        invariant done + todo == other.contractAddresses
        invariant IsLeast(old(contractAddresses) + done, contractAddresses)
        invariant triggerEveryBlock == (old(triggerEveryBlock) || other.triggerEveryBlock)
        decreases todo
      {
        var e :| e in todo;
        AddStart(e, old(contractAddresses) + done);
        todo, done := todo - {e}, done + {e};
        assert old(contractAddresses) + done == old(contractAddresses) + (done - {e}) + {e};
      }
    }
  }

  function BlockPart(source: DataSource): BlockFilter {
    if source.address.None? then BlockFilter({}, false)
    else BlockFilter(
      if CallFiltered in source.mapping.blockHandlers then {Start(source.startBlock, source.address.value)} else {},
      Unfiltered in source.mapping.blockHandlers)
  }

  /** Every start block that a data source with an address and a call-filtered block handler declares. */
  function Starts(sources: seq<DataSource>): set<Start> {
    if sources == [] then {} else Starts(sources[..|sources| - 1]) + BlockPart(sources[|sources| - 1]).contractAddresses
  }

  predicate WantsEveryBlock(sources: seq<DataSource>) {
    exists i :: 0 <= i < |sources| && BlockPart(sources[i]).triggerEveryBlock
  }

  /** `EthereumBlockFilter::from_data_sources`: one entry per address, with the smallest declared start block. */
  method BlockFilterFromDataSources(sources: seq<DataSource>) returns (f: BlockFilter)
    ensures IsLeast(Starts(sources), f.contractAddresses)
    ensures f.triggerEveryBlock <==> WantsEveryBlock(sources)
  {
    var filter := new EthereumBlockFilter();
    for i := 0 to |sources|
      invariant fresh(filter)
      invariant IsLeast(Starts(sources[..i]), filter.contractAddresses)
      invariant filter.triggerEveryBlock <==> WantsEveryBlock(sources[..i])
    {
      ghost var before := filter.contractAddresses;
      var part := BlockPart(sources[i]);
      assert sources[..i + 1] == sources[..i] + [sources[i]];
      assert WantsEveryBlock(sources[..i + 1]) <==> WantsEveryBlock(sources[..i]) || part.triggerEveryBlock by {
        WantsPush(sources[..i], sources[i]);
      }
      assert sources[..i + 1][..i] == sources[..i];
      if sources[i].address.Some? {
        filter.Extend(part);
        LeastComposes(Starts(sources[..i]), before, part.contractAddresses, part.contractAddresses, filter.contractAddresses);
      } else {
        assert Starts(sources[..i + 1]) == Starts(sources[..i]);
      }
    }
    assert sources[..|sources|] == sources;
    f := BlockFilter(filter.contractAddresses, filter.triggerEveryBlock);
  }

  lemma WantsPush(sources: seq<DataSource>, source: DataSource)
    ensures WantsEveryBlock(sources + [source]) <==> WantsEveryBlock(sources) || BlockPart(source).triggerEveryBlock
  {
    var all := sources + [source];
    assert all[|sources|] == source;
    assert forall i :: 0 <= i < |sources| ==> all[i] == sources[i];
  }

  /** `From<&EthereumBlockFilter> for EthereumCallFilter`: every call to one of the addresses. */
  method CallFilterFromBlockFilter(f: BlockFilter) returns (c: CallFilter)
    ensures forall call :: Matches(c, call) <==> WellFormed(call) && exists e :: e in f.contractAddresses && e.address == call.to
    ensures forall a :: a in c.contracts ==> Start(c.contracts[a].startBlock, a) in f.contractAddresses
  {
    var contracts: map<Address, Entry> := map[];
    var todo := f.contractAddresses;
    while todo != {}
      invariant todo <= f.contractAddresses
      invariant forall a :: a in contracts ==> contracts[a].signatures == {} && Start(contracts[a].startBlock, a) in f.contractAddresses
      invariant forall e :: e in f.contractAddresses - todo ==> e.address in contracts
      decreases todo
    {
      var e :| e in todo;
      contracts, todo := contracts[e.address := Entry(e.block, {})], todo - {e};
    }
    c := CallFilter(contracts, {});
  }
}
