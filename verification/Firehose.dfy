/** The Firehose block stream: cursors, reconnects and the chain-continuity check. */
module Firehose {
  import opened Wrappers

  type Cursor = string
  datatype Ptr = Ptr(hash: nat, number: int)

  datatype Event = ProcessBlock(block: Ptr, parent: Option<Ptr>) | Revert(to: Ptr)

  /** A response of the server, already mapped to an event. */
  datatype Response = Response(event: Event, cursor: Cursor)

  /**
   What arrives on a connection: a response, or an error (transport or mapping).
   `finalPtr` and `startPtr` are what the mapper would answer if asked for the final block
   of the response and for a block by number; `None` is a failed request.
   */
  datatype Delivery = Good(response: Response, finalPtr: Option<Ptr>, startPtr: Option<Ptr>) | Bad

  /** One pass of the connection loop: refused, or connected with what arrives before the stream ends. */
  datatype Connection = Refused | Connected(deliveries: seq<Delivery>)

  /** A yielded event; only a rewind comes without a cursor. */
  datatype Item = Item(event: Event, cursor: Option<Cursor>)

  datatype Stream = Stream(cursor: Cursor, startBlock: int, current: Option<Ptr>, check: bool)

  // ------------------------------------------------------------------ specification

  /** `must_check_subgraph_continuity`. */
  predicate MustCheck(current: Option<Ptr>, cursor: Cursor, manifestStart: int) {
    current.Some? && cursor == "" && current.value.number >= manifestStart
  }

  function Open(current: Option<Ptr>, cursor: Option<Cursor>, manifestStart: int): Stream {
    var latest := if cursor.Some? then cursor.value else "";
    Stream(latest, if current.Some? then current.value.number + 1 else manifestStart, current,
           MustCheck(current, latest, manifestStart))
  }

  datatype Answer = Proceed(item: Item) | Rewind(to: Ptr) | Failed

  /** The block to go back to: the last final one, but not before the parent of the manifest's start block. */
  function RewindTarget(finalPtr: Option<Ptr>, startPtr: Option<Ptr>, manifestStart: int): Option<Ptr> {
    if finalPtr.None? || finalPtr.value.number >= manifestStart then finalPtr else startPtr
  }

  /** The event continues the block the subgraph is at, as far as the check looks. */
  predicate Continues(current: Option<Ptr>, event: Event) {
    event.ProcessBlock? ==> event.parent.None? || event.parent == current
  }

  function Respond(s: Stream, manifestStart: int, d: Delivery): Answer {
    if d.Bad? then Failed
    else if s.check && !Continues(s.current, d.response.event) then
      var target := RewindTarget(d.finalPtr, d.startPtr, manifestStart);
      if target.Some? then Rewind(target.value) else Failed
    else Proceed(Item(d.response.event, Some(d.response.cursor)))
  }

  function After(s: Stream, a: Answer, d: Delivery): Stream
    requires a.Proceed? ==> d.Good?
  {
    match a
    case Proceed(_) => s.(cursor := d.response.cursor, check := false)
    case Rewind(to) => s.(cursor := "", startBlock := to.number + 1, current := Some(to))
    case Failed => s
  }

  /** What one connection yields, and the state it leaves. */
  function Deliver(s: Stream, manifestStart: int, ds: seq<Delivery>): (Stream, seq<Item>)
    decreases ds
  {
    if ds == [] then (s, [])
    else
      var a := Respond(s, manifestStart, ds[0]);
      var t := After(s, a, ds[0]);
      match a
      case Proceed(item) => (var rest := Deliver(t, manifestStart, ds[1..]); (rest.0, [item] + rest.1))
      case Rewind(to) => (t, [Item(Revert(to), None)])
      case Failed => (t, [])
  }

  function Connect(s: Stream, manifestStart: int, c: Connection): (Stream, seq<Item>) {
    match c
    case Refused => (s, [])
    case Connected(ds) => Deliver(s, manifestStart, ds)
  }

  function StreamAll(s: Stream, manifestStart: int, cs: seq<Connection>): (Stream, seq<Item>) {
    if cs == [] then (s, [])
    else
      var before := StreamAll(s, manifestStart, cs[..|cs| - 1]);
      var last := Connect(before.0, manifestStart, cs[|cs| - 1]);
      (last.0, before.1 + last.1)
  }

  // ------------------------------------------------------------------ the stream itself

  class FirehoseBlockStream {
    var latestCursor: Cursor
    var startBlock: int
    var current: Option<Ptr>
    var check: bool
    const manifestStart: int

    function Value(): Stream
      reads this
    {
      Stream(latestCursor, startBlock, current, check)
    }

    constructor (current: Option<Ptr>, cursor: Option<Cursor>, manifestStart: int)
      ensures Value() == Open(current, cursor, manifestStart)
      ensures this.manifestStart == manifestStart
    {
      this.manifestStart := manifestStart;
      var latest := match cursor case Some(c) => c case None => "";
      latestCursor := latest;
      this.current := current;
      startBlock := match current case Some(ptr) => ptr.number + 1 case None => manifestStart;
      check := match current
               case Some(ptr) => if latest == "" then ptr.number >= manifestStart else false
               case None => false;
    }

    /** `process_firehose_response`: only the flag changes here. */
    method ProcessResponse(d: Delivery) returns (a: Answer)
      modifies this`check
      ensures a == Respond(old(Value()), manifestStart, d)
      ensures check == (old(check) && !a.Proceed?)
    {
      if d.Bad? {
        return Failed;
      }
      if check {
        if d.response.event.ProcessBlock? {
          var previous := d.response.event.parent;
          if previous.Some? && previous != current {
            if d.finalPtr.None? {
              return Failed;
            }
            var revertTo := d.finalPtr.value;
            if revertTo.number < manifestStart {
              if d.startPtr.None? {
                return Failed;
              }
              revertTo := d.startPtr.value;
            }
            return Rewind(revertTo);
          }
        }
        check := false;
      }
      a := Proceed(Item(d.response.event, Some(d.response.cursor)));
    }

    /** One open connection. */
    method ReadConnection(ds: seq<Delivery>) returns (out: seq<Item>)
      modifies this
      ensures (Value(), out) == Deliver(old(Value()), manifestStart, ds)
    {
      out := [];
      var i := 0;
      assert ds[0..] == ds;
      while i < |ds|
        invariant 0 <= i <= |ds|
        invariant Resumes(Deliver(old(Value()), manifestStart, ds), Value(), out, ds[i..])
      {
        assert ds[i..][1..] == ds[i + 1..] && out + [] == out;
        var a := ProcessResponse(ds[i]);
        match a {
          case Proceed(item) =>
            ghost var before := out;
            out := out + [item];
            latestCursor := ds[i].response.cursor;
            assert forall rest :: before + ([item] + rest) == out + rest;
          case Rewind(to) =>
            out := out + [Item(Revert(to), None)];
            latestCursor := "";
            startBlock := to.number + 1;
            current := Some(to);
            return;
          case Failed =>
            return;
        }
        i := i + 1;
      }
      assert ds[i..] == [] && out + [] == out;
    }

    /** The whole connection still has to do what the rest of it does from here. */
    ghost predicate Resumes(whole: (Stream, seq<Item>), s: Stream, out: seq<Item>, rest: seq<Delivery>) {
      var r := Deliver(s, manifestStart, rest);
      whole.0 == r.0 && whole.1 == out + r.1
    }

    /** `stream_blocks`, for any number of passes of its loop. */
    method StreamBlocks(cs: seq<Connection>) returns (out: seq<Item>)
      modifies this
      ensures (Value(), out) == StreamAll(old(Value()), manifestStart, cs)
    {
      out := [];
      for i := 0 to |cs|
        invariant (Value(), out) == StreamAll(old(Value()), manifestStart, cs[..i])
      {
        assert cs[..i + 1][..i] == cs[..i];
        match cs[i] {
          case Connected(ds) =>
            var more := ReadConnection(ds);
            out := out + more;
          case Refused =>
            assert out + [] == out;
        }
      }
      assert cs[..|cs|] == cs;
    }
  }

  // ------------------------------------------------------------------ continuity

  /** While the check is pending there is no cursor, and the stream starts right after the subgraph's block. */
  predicate Pending(s: Stream) {
    s.check ==> s.cursor == "" && s.current.Some? && s.startBlock == s.current.value.number + 1
  }

  lemma {:induction false} DeliverKeepsPending(s: Stream, manifestStart: int, ds: seq<Delivery>)
    requires Pending(s)
    ensures Pending(Deliver(s, manifestStart, ds).0)
    decreases ds
  {
    if ds == [] {
    } else {
      var a := Respond(s, manifestStart, ds[0]);
      if a.Proceed? {
        DeliverKeepsPending(After(s, a, ds[0]), manifestStart, ds[1..]);
      }
    }
  }

  /** In every run, from every starting point. */
  lemma {:induction false} StreamKeepsPending(current: Option<Ptr>, cursor: Option<Cursor>, manifestStart: int, cs: seq<Connection>)
    ensures Pending(StreamAll(Open(current, cursor, manifestStart), manifestStart, cs).0)
  {
    if cs == [] {
    } else {
      StreamKeepsPending(current, cursor, manifestStart, cs[..|cs| - 1]);
      var s := StreamAll(Open(current, cursor, manifestStart), manifestStart, cs[..|cs| - 1]).0;
      if cs[|cs| - 1].Connected? {
        DeliverKeepsPending(s, manifestStart, cs[|cs| - 1].deliveries);
      }
    }
  }

  /** The first event after the start, and after every rewind, continues the block the subgraph is at. */
  ghost predicate Linked(start: Stream, out: seq<Item>) {
    && (out != [] && out[0].cursor.Some? && start.check ==> Continues(start.current, out[0].event))
    && forall i :: 0 < i < |out| && out[i - 1].cursor.None? && out[i].cursor.Some? ==> ContinuesAt(out, i)
  }

  predicate ContinuesAt(out: seq<Item>, i: int)
    requires 0 < i < |out|
  {
    out[i - 1].event.Revert? && Continues(Some(out[i - 1].event.to), out[i].event)
  }

  /** What the state knows of the last item. */
  ghost predicate Remembers(start: Stream, out: seq<Item>, s: Stream) {
    if out == [] then s.check == start.check && s.current == start.current
    else
      var last := out[|out| - 1];
      last.cursor.None? ==> last.event.Revert? && s.check && s.current == Some(last.event.to)
  }

  lemma LinkedPush(start: Stream, out: seq<Item>, s: Stream, item: Item)
    requires Linked(start, out) && Remembers(start, out, s)
    requires item.cursor.Some? && s.check ==> Continues(s.current, item.event)
    ensures Linked(start, out + [item])
  {
    var all := out + [item];
    forall i | 0 < i < |all| && all[i - 1].cursor.None? && all[i].cursor.Some? ensures ContinuesAt(all, i) {
      if i < |out| {
        assert ContinuesAt(out, i);
      }
    }
  }

  lemma {:induction false} DeliverLinks(start: Stream, out: seq<Item>, s: Stream, manifestStart: int, ds: seq<Delivery>)
    requires Linked(start, out) && Remembers(start, out, s)
    ensures var r := Deliver(s, manifestStart, ds); Linked(start, out + r.1) && Remembers(start, out + r.1, r.0)
    decreases ds
  {
    assert out + [] == out;
    if ds != [] {
      var a := Respond(s, manifestStart, ds[0]);
      var t := After(s, a, ds[0]);
      if a.Proceed? {
        LinkedPush(start, out, s, a.item);
        DeliverLinks(start, out + [a.item], t, manifestStart, ds[1..]);
        var rest := Deliver(t, manifestStart, ds[1..]).1;
        assert out + [a.item] + rest == out + ([a.item] + rest);
      } else if a.Rewind? {
        LinkedPush(start, out, s, Item(Revert(a.to), None));
      }
    }
  }

  /** In every run. */
  lemma {:induction false} StreamLinks(start: Stream, manifestStart: int, cs: seq<Connection>)
    ensures var r := StreamAll(start, manifestStart, cs); Linked(start, r.1) && Remembers(start, r.1, r.0)
  {
    if cs == [] {
    } else {
      StreamLinks(start, manifestStart, cs[..|cs| - 1]);
      var before := StreamAll(start, manifestStart, cs[..|cs| - 1]);
      if cs[|cs| - 1].Connected? {
        DeliverLinks(start, before.1, before.0, manifestStart, cs[|cs| - 1].deliveries);
      } else {
        assert before.1 + [] == before.1;
      }
    }
  }

  // ------------------------------------------------------------------ the server

  /** The server's log: responses in cursor order, no two with the same cursor. */
  ghost predicate ValidLog(log: seq<Response>) {
    && (forall i :: 0 <= i < |log| ==> log[i].cursor != "")
    && (forall i, j {:trigger Differ(log, i, j)} :: 0 <= i < j < |log| ==> Differ(log, i, j))
  }

  predicate Differ(log: seq<Response>, i: nat, j: nat)
    requires i < |log| && j < |log|
  {
    log[i].cursor != log[j].cursor
  }

  predicate AtOrAfter(r: Response, n: int) {
    r.event.ProcessBlock? && r.event.block.number >= n
  }

  /** The position of the first block at or after number `n`, from position `k` on. */
  function FirstFrom(log: seq<Response>, n: int, k: nat): (p: nat)
    requires k <= |log|
    ensures k <= p <= |log|
    ensures p < |log| ==> AtOrAfter(log[p], n)
    ensures forall i :: k <= i < p ==> !AtOrAfter(log[i], n)
    decreases |log| - k
  {
    if k == |log| || AtOrAfter(log[k], n) then k else FirstFrom(log, n, k + 1)
  }

  predicate Knows(log: seq<Response>, c: Cursor) {
    exists i :: 0 <= i < |log| && log[i].cursor == c
  }

  /** The position after a cursor. */
  ghost function AfterCursor(log: seq<Response>, c: Cursor): (p: nat)
    requires Knows(log, c)
    ensures 0 < p <= |log| && log[p - 1].cursor == c
  {
    var i: nat :| i < |log| && log[i].cursor == c;
    i + 1
  }

  /** The server knows the cursor of the request, if it has one. */
  predicate Placed(log: seq<Response>, s: Stream) {
    s.cursor == "" || Knows(log, s.cursor)
  }

  /** Where a request is served from: after its cursor, or else from its start block on. */
  ghost function Position(log: seq<Response>, s: Stream): (p: nat)
    requires Placed(log, s)
    ensures p <= |log|
  {
    if s.cursor == "" then FirstFrom(log, s.startBlock, 0) else AfterCursor(log, s.cursor)
  }

  /** A connection carries the log from position `p` on, up to an error or its end. */
  ghost predicate Served(log: seq<Response>, p: nat, ds: seq<Delivery>)
    decreases ds
  {
    ds != [] && ds[0].Good? ==> p < |log| && ds[0].response == log[p] && Served(log, p + 1, ds[1..])
  }

  /** Every connection is served as its request asks for. */
  ghost predicate ServedRun(log: seq<Response>, s: Stream, manifestStart: int, cs: seq<Connection>) {
    cs == [] ||
    (var before, last := StreamAll(s, manifestStart, cs[..|cs| - 1]).0, cs[|cs| - 1];
     && ServedRun(log, s, manifestStart, cs[..|cs| - 1])
     && Placed(log, before)
     && (last.Connected? ==> Served(log, Position(log, before), last.deliveries)))
  }

  // ------------------------------------------------------------------ what reaches the subgraph

  /** The items after the last rewind. */
  function Since(out: seq<Item>): seq<Item> {
    if out == [] || out[|out| - 1].cursor.None? then [] else Since(out[..|out| - 1]) + [out[|out| - 1]]
  }

  /** The target of the last rewind. */
  function LastRewind(out: seq<Item>): Option<Ptr> {
    if out == [] then None
    else
      var last := out[|out| - 1];
      if last.cursor.None? && last.event.Revert? then Some(last.event.to) else LastRewind(out[..|out| - 1])
  }

  /** Where the log has to be read from: the block after the last rewind's target, or the first request. */
  ghost function Begin(log: seq<Response>, start: Stream, out: seq<Item>): (p: nat)
    requires Placed(log, start)
    ensures p <= |log|
  {
    var rewind := LastRewind(out);
    if rewind.Some? then FirstFrom(log, rewind.value.number + 1, 0) else Position(log, start)
  }

  /** The events of the log from position `p` up to position `q`. */
  function Segment(log: seq<Response>, p: nat, q: nat): (items: seq<Item>)
    requires p <= q <= |log|
    ensures |items| == q - p
  {
    if p == q then [] else Segment(log, p, q - 1) + [Item(log[q - 1].event, Some(log[q - 1].cursor))]
  }

  lemma {:induction false} SegmentAt(log: seq<Response>, p: nat, q: nat, k: nat)
    requires p <= q <= |log| && k < q - p
    ensures Segment(log, p, q)[k] == Item(log[p + k].event, Some(log[p + k].cursor))
  {
    if k < q - 1 - p {
      SegmentAt(log, p, q - 1, k);
    }
  }

  /** The items since the last rewind are a segment of the log, and the next request continues it. */
  ghost predicate Tracks(log: seq<Response>, start: Stream, out: seq<Item>, s: Stream)
    requires Placed(log, start)
  {
    && Placed(log, s) && Begin(log, start, out) <= Position(log, s)
    && Since(out) == Segment(log, Begin(log, start, out), Position(log, s))
    && BeginsWithBlocks(start, out)
  }

  predicate IsBlockFrom(event: Event, n: int) {
    event.ProcessBlock? && event.block.number >= n
  }

  /** The first item of a stream without a cursor, and the first one after every rewind, is a block from the requested number on. */
  ghost predicate BeginsWithBlocks(start: Stream, out: seq<Item>) {
    && (out != [] && out[0].cursor.Some? && start.cursor == "" ==> IsBlockFrom(out[0].event, start.startBlock))
    && (forall i :: 0 <= i < |out| && out[i].cursor.None? ==> out[i].event.Revert?)
    && (forall i :: 0 < i < |out| && out[i - 1].cursor.None? && out[i].cursor.Some? ==> BlockAfterRewind(out, i))
  }

  predicate BlockAfterRewind(out: seq<Item>, i: int)
    requires 0 < i < |out|
  {
    out[i - 1].event.Revert? && IsBlockFrom(out[i].event, out[i - 1].event.to.number + 1)
  }

  lemma BeginsPush(start: Stream, out: seq<Item>, item: Item)
    requires BeginsWithBlocks(start, out)
    requires item.cursor.None? ==> item.event.Revert?
    requires item.cursor.Some? && out == [] && start.cursor == "" ==> IsBlockFrom(item.event, start.startBlock)
    requires item.cursor.Some? && out != [] && out[|out| - 1].cursor.None? ==>
               out[|out| - 1].event.Revert? && IsBlockFrom(item.event, out[|out| - 1].event.to.number + 1)
    ensures BeginsWithBlocks(start, out + [item])
  {
    var all := out + [item];
    forall i | 0 < i < |all| && all[i - 1].cursor.None? && all[i].cursor.Some? ensures BlockAfterRewind(all, i) {
      if i < |out| {
        assert BlockAfterRewind(out, i);
      }
    }
  }

  /** Where nothing was yielded since the last rewind, or at all, the next response is such a block. */
  lemma NextIsBlock(log: seq<Response>, start: Stream, out: seq<Item>, s: Stream)
    requires Placed(log, start) && Tracks(log, start, out, s) && Position(log, s) < |log|
    ensures out == [] && start.cursor == "" ==> IsBlockFrom(log[Position(log, s)].event, start.startBlock)
    ensures out != [] && out[|out| - 1].cursor.None? ==>
              out[|out| - 1].event.Revert? && IsBlockFrom(log[Position(log, s)].event, out[|out| - 1].event.to.number + 1)
  {
  }

  lemma PositionAfter(log: seq<Response>, s: Stream, p: nat)
    requires ValidLog(log) && p < |log| && s.cursor == log[p].cursor
    ensures Knows(log, s.cursor) && Position(log, s) == p + 1
  {
    assert Knows(log, s.cursor);
    var q := Position(log, s) - 1;
    assert q < p ==> Differ(log, q, p);
    assert p < q ==> Differ(log, p, q);
  }

  lemma SincePush(out: seq<Item>, item: Item)
    ensures Since(out + [item]) == if item.cursor.None? then [] else Since(out) + [item]
    ensures LastRewind(out + [item]) ==
            if item.cursor.None? && item.event.Revert? then Some(item.event.to) else LastRewind(out)
  {
    assert (out + [item])[..|out + [item]| - 1] == out;
  }

  lemma ProceedTracks(log: seq<Response>, start: Stream, out: seq<Item>, s: Stream, t: Stream)
    requires ValidLog(log) && Placed(log, start) && Tracks(log, start, out, s)
    requires Position(log, s) < |log| && t.cursor == log[Position(log, s)].cursor
    ensures Tracks(log, start, out + [Item(log[Position(log, s)].event, Some(t.cursor))], t)
  {
    var p := Position(log, s);
    PositionAfter(log, t, p);
    NextIsBlock(log, start, out, s);
    BeginsPush(start, out, Item(log[p].event, Some(t.cursor)));
    SincePush(out, Item(log[p].event, Some(t.cursor)));
  }

  lemma RewindTracks(log: seq<Response>, start: Stream, out: seq<Item>, s: Stream, to: Ptr)
    requires Placed(log, start) && Tracks(log, start, out, s)
    ensures Tracks(log, start, out + [Item(Revert(to), None)], s.(cursor := "", startBlock := to.number + 1, current := Some(to)))
  {
    SincePush(out, Item(Revert(to), None));
    BeginsPush(start, out, Item(Revert(to), None));
  }

  function Yields(a: Answer): seq<Item> {
    match a
    case Proceed(item) => [item]
    case Rewind(to) => [Item(Revert(to), None)]
    case Failed => []
  }

  lemma OneDeliveryTracks(log: seq<Response>, start: Stream, out: seq<Item>, s: Stream, manifestStart: int, ds: seq<Delivery>)
    requires ValidLog(log) && Placed(log, start) && Tracks(log, start, out, s)
    requires ds != [] && Served(log, Position(log, s), ds)
    ensures var a := Respond(s, manifestStart, ds[0]);
            var t := After(s, a, ds[0]);
            && Tracks(log, start, out + Yields(a), t)
            && (a.Proceed? ==> Served(log, Position(log, t), ds[1..]))
  {
    var a := Respond(s, manifestStart, ds[0]);
    var t := After(s, a, ds[0]);
    match a
    case Proceed(_) =>
      ProceedTracks(log, start, out, s, t);
      PositionAfter(log, t, Position(log, s));
    case Rewind(to) =>
      RewindTracks(log, start, out, s, to);
    case Failed =>
      assert out + [] == out;
  }

  lemma DeliverFirst(s: Stream, manifestStart: int, ds: seq<Delivery>, out: seq<Item>)
    requires ds != []
    ensures var a := Respond(s, manifestStart, ds[0]);
            var t, whole := After(s, a, ds[0]), Deliver(s, manifestStart, ds);
            if a.Proceed? then
              var rest := Deliver(t, manifestStart, ds[1..]);
              whole.0 == rest.0 && out + whole.1 == out + Yields(a) + rest.1
            else
              whole.0 == t && out + whole.1 == out + Yields(a)
  {
    var a := Respond(s, manifestStart, ds[0]);
    if a.Proceed? {
      var rest := Deliver(After(s, a, ds[0]), manifestStart, ds[1..]).1;
      assert out + [a.item] + rest == out + ([a.item] + rest);
    }
  }

  lemma {:induction false} DeliverTracks(log: seq<Response>, start: Stream, out: seq<Item>, s: Stream, manifestStart: int, ds: seq<Delivery>)
    requires ValidLog(log) && Placed(log, start) && Tracks(log, start, out, s)
    requires Served(log, Position(log, s), ds)
    ensures var r := Deliver(s, manifestStart, ds); Tracks(log, start, out + r.1, r.0)
    decreases ds
  {
    if ds == [] {
      assert out + [] == out;
    } else {
      OneDeliveryTracks(log, start, out, s, manifestStart, ds);
      DeliverFirst(s, manifestStart, ds, out);
      var a := Respond(s, manifestStart, ds[0]);
      if a.Proceed? {
        DeliverTracks(log, start, out + Yields(a), After(s, a, ds[0]), manifestStart, ds[1..]);
      }
    }
  }

  /**
   Over any sequence of refused connections, disconnects, bad responses and rewinds, the items since the
   last rewind are a segment of the server's log without a gap. It begins at the first block after the
   rewind's target, or where the first request asked for, and the next request continues it.
   */
  lemma {:induction false} StreamTracksServer(log: seq<Response>, start: Stream, manifestStart: int, cs: seq<Connection>)
    requires ValidLog(log) && Placed(log, start) && ServedRun(log, start, manifestStart, cs)
    ensures var r := StreamAll(start, manifestStart, cs); Tracks(log, start, r.1, r.0)
  {
    if cs == [] {
      assert Since([]) == [] && LastRewind([]) == None;
    } else {
      var front, last := cs[..|cs| - 1], cs[|cs| - 1];
      StreamTracksServer(log, start, manifestStart, front);
      var before := StreamAll(start, manifestStart, front);
      if last.Connected? {
        DeliverTracks(log, start, before.1, before.0, manifestStart, last.deliveries);
      } else {
        assert before.1 + [] == before.1;
      }
    }
  }

  /**
   In every run that the server serves, the first item after a flagged start and after every rewind is a
   block above the subgraph's block, and it extends that block or has no parent.
   */
  lemma FirstBlockExtends(log: seq<Response>, start: Stream, manifestStart: int, cs: seq<Connection>, i: nat)
    requires ValidLog(log) && Placed(log, start) && ServedRun(log, start, manifestStart, cs) && Pending(start)
    requires var out := StreamAll(start, manifestStart, cs).1;
             i < |out| && out[i].cursor.Some? && if i == 0 then start.check else out[i - 1].cursor.None?
    ensures var out := StreamAll(start, manifestStart, cs).1;
            && (i > 0 ==> out[i - 1].event.Revert?)
            && var at := if i == 0 then start.current.value else out[i - 1].event.to;
               && out[i].event.ProcessBlock? && out[i].event.block.number > at.number
               && (out[i].event.parent.None? || out[i].event.parent == Some(at))
  {
    StreamTracksServer(log, start, manifestStart, cs);
    StreamLinks(start, manifestStart, cs);
    var out := StreamAll(start, manifestStart, cs).1;
    if i > 0 {
      assert BlockAfterRewind(out, i) && ContinuesAt(out, i);
    }
  }

  /** No event is yielded twice between two rewinds. */
  lemma YieldsNoDuplicates(log: seq<Response>, start: Stream, manifestStart: int, cs: seq<Connection>, i: nat, j: nat)
    requires ValidLog(log) && Placed(log, start) && ServedRun(log, start, manifestStart, cs)
    requires i < j < |Since(StreamAll(start, manifestStart, cs).1)|
    ensures var items := Since(StreamAll(start, manifestStart, cs).1);
            items[i].cursor.Some? && items[j].cursor.Some? && items[i].cursor != items[j].cursor
  {
    StreamTracksServer(log, start, manifestStart, cs);
    var r := StreamAll(start, manifestStart, cs);
    var p, q := Begin(log, start, r.1), Position(log, r.0);
    SegmentAt(log, p, q, i);
    SegmentAt(log, p, q, j);
    assert Differ(log, p + i, p + j);
  }

  /**
   A rewind is such a run: the first block does not continue the subgraph's, the stream goes back to the
   final block, reads on from there and reaches the block that caused the rewind again.
   */
  lemma RewoundStreamReadsOn(s: Stream, manifestStart: int, before: Response, first: Response, target: Ptr)
    requires s.check && Pending(s) && before.cursor != "" && first.cursor != "" && before.cursor != first.cursor
    requires AtOrAfter(first, s.startBlock) && !AtOrAfter(before, s.startBlock) && !Continues(s.current, first.event)
    requires AtOrAfter(before, target.number + 1) && Continues(Some(target), before.event) && target.number >= manifestStart
    ensures var cs := [Connected([Good(first, Some(target), None)]),
                       Connected([Good(before, None, None), Good(first, None, None)])];
            && ValidLog([before, first]) && ServedRun([before, first], s, manifestStart, cs)
            && StreamAll(s, manifestStart, cs).1 == [Item(Revert(target), None),
                                                     Item(before.event, Some(before.cursor)),
                                                     Item(first.event, Some(first.cursor))]
  {
    var log := [before, first];
    var d1, d2 := [Good(first, Some(target), None)], [Good(before, None, None), Good(first, None, None)];
    var t := s.(cursor := "", startBlock := target.number + 1, current := Some(target));
    assert FirstFrom(log, s.startBlock, 0) == FirstFrom(log, s.startBlock, 1) == 1;
    assert FirstFrom(log, t.startBlock, 0) == 0;
    assert Deliver(s, manifestStart, d1) == (t, [Item(Revert(target), None)]);
    RunTwo(s, manifestStart, Connected(d1), Connected(d2));
    assert Served(log, 1, d1) by {
      assert Served(log, 2, d1[1..]);
    }
    assert Served(log, 0, d2) by {
      assert d2[1..] == [Good(first, None, None)] && Served(log, 2, d2[1..][1..]);
      assert Served(log, 1, d2[1..]);
    }
    ServedTwo(log, s, manifestStart, Connected(d1), Connected(d2));
    var u := t.(cursor := before.cursor, check := false);
    var v := u.(cursor := first.cursor);
    assert d2[1..] == [Good(first, None, None)] && d2[1..][1..] == [];
    DeliverFirst(u, manifestStart, d2[1..], []);
    DeliverFirst(t, manifestStart, d2, []);
    assert Deliver(v, manifestStart, d2[1..][1..]) == (v, []);
    assert Deliver(u, manifestStart, d2[1..]).1 == [Item(first.event, Some(first.cursor))];
  }

  lemma RunOne(s: Stream, manifestStart: int, c: Connection)
    ensures StreamAll(s, manifestStart, [c]) == Connect(s, manifestStart, c)
    ensures [c][..|[c]| - 1] == []
  {
    assert [c][..|[c]| - 1] == [];
    assert StreamAll(s, manifestStart, []) == (s, []);
    var last := Connect(s, manifestStart, c);
    assert [] + last.1 == last.1;
  }

  lemma RunTwo(s: Stream, manifestStart: int, c: Connection, d: Connection)
    ensures var first := Connect(s, manifestStart, c);
            var second := Connect(first.0, manifestStart, d);
            StreamAll(s, manifestStart, [c, d]) == (second.0, first.1 + second.1)
    ensures [c, d][..|[c, d]| - 1] == [c]
  {
    assert [c, d][..|[c, d]| - 1] == [c];
    RunOne(s, manifestStart, c);
  }

  lemma ServedTwo(log: seq<Response>, s: Stream, manifestStart: int, c: Connection, d: Connection)
    requires c.Connected? && d.Connected? && Placed(log, s) && Served(log, Position(log, s), c.deliveries)
    requires var t := Connect(s, manifestStart, c).0; Placed(log, t) && Served(log, Position(log, t), d.deliveries)
    ensures ServedRun(log, s, manifestStart, [c, d])
  {
    RunOne(s, manifestStart, c);
    RunTwo(s, manifestStart, c, d);
    assert StreamAll(s, manifestStart, []) == (s, []);
    assert ServedRun(log, s, manifestStart, []);
    assert ServedRun(log, s, manifestStart, [c]);
  }
}
