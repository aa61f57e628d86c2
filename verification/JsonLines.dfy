/** Splitting a byte stream that arrives in chunks into numbered lines. */
module JsonLines {

  type Byte = n: int | 0 <= n < 256
  const NEWLINE: Byte := 10

  // ------------------------------------------------------------------ the lines of a whole input

  /** A line with its newline, and its number counted from one. */
  datatype Line = Line(bytes: seq<Byte>, number: nat)

  /** The position of the first newline, or the length if there is none. */
  function FirstNewline(s: seq<Byte>): (i: nat)
    ensures i <= |s| && NoNewlineBefore(s, i)
    ensures i < |s| ==> s[i] == NEWLINE
  {
    NewlineFrom(s, 0)
  }

  function NewlineFrom(s: seq<Byte>, k: nat): (i: nat)
    requires k <= |s| && NoNewlineBefore(s, k)
    ensures k <= i <= |s| && NoNewlineBefore(s, i)
    ensures i < |s| ==> s[i] == NEWLINE
    decreases |s| - k
  {
    if k == |s| || s[k] == NEWLINE then k else NewlineFrom(s, k + 1)
  }

  ghost predicate NoNewlineBefore(s: seq<Byte>, i: nat)
    requires i <= |s|
  {
    forall j :: 0 <= j < i ==> s[j] != NEWLINE
  }

  /** The non-empty lines of an input whose first line has number `n + 1`; a missing last newline is added. */
  function Lines(s: seq<Byte>, n: nat): seq<Line>
    decreases |s|
  {
    var i := FirstNewline(s);
    if s == [] then []
    else if i == |s| then [Line(s + [NEWLINE], n + 1)]
    else (if i > 0 then [Line(s[..i + 1], n + 1)] else []) + Lines(s[i + 1..], n + 1)
  }

  lemma {:induction false} FirstNewlineIs(s: seq<Byte>, i: nat)
    requires i <= |s| && NoNewlineBefore(s, i) && (i < |s| ==> s[i] == NEWLINE)
    ensures FirstNewline(s) == i
  {
    var j := FirstNewline(s);
  }

  /** Terminating the last line changes nothing. */
  lemma LinesTerminated(s: seq<Byte>, n: nat)
    requires s != [] && NEWLINE !in s
    ensures Lines(s + [NEWLINE], n) == Lines(s, n)
  {
    assert (s + [NEWLINE])[..|s|] == s && s[..|s|] == s;
    FirstNewlineIs(s, |s|);
    FirstNewlineIs(s + [NEWLINE], |s|);
    assert (s + [NEWLINE])[..|s| + 1] == s + [NEWLINE];
    assert (s + [NEWLINE])[|s| + 1..] == [];
  }

  /** A line that is complete in the buffer is the first line of whatever follows. */
  lemma LinesOfBuffer(buf: seq<Byte>, rest: seq<Byte>, n: nat)
    requires FirstNewline(buf) < |buf|
    ensures var i := FirstNewline(buf);
            Lines(buf + rest, n) == (if i > 0 then [Line(buf[..i + 1], n + 1)] else []) + Lines(buf[i + 1..] + rest, n + 1)
  {
    var i := FirstNewline(buf);
    assert (buf + rest)[..i] == buf[..i] && (buf + rest)[..i + 1] == buf[..i + 1];
    assert (buf + rest)[i + 1..] == buf[i + 1..] + rest;
    FirstNewlineIs(buf + rest, i);
  }

  function Newlines(s: seq<Byte>): nat {
    if s == [] then 0 else Newlines(s[..|s| - 1]) + if s[|s| - 1] == NEWLINE then 1 else 0
  }

  lemma {:induction false} NewlinesConcat(s: seq<Byte>, t: seq<Byte>)
    ensures Newlines(s + t) == Newlines(s) + Newlines(t)
  {
    if t == [] {
      assert s + t == s;
    } else {
      assert (s + t)[..|s + t| - 1] == s + t[..|t| - 1];
      NewlinesConcat(s, t[..|t| - 1]);
    }
  }

  lemma {:induction false} NoNewlines(s: seq<Byte>)
    requires NoNewlineBefore(s, |s|)
    ensures Newlines(s) == 0
  {
    if s == [] {
    } else {
      NoNewlines(s[..|s| - 1]);
    }
  }

  /** The line stands at position `at` of the terminated input, and its number counts the newlines before it. */
  ghost predicate Located(s: seq<Byte>, n: nat, line: Line, at: nat) {
    && at + |line.bytes| <= |s| + 1 && at <= |s|
    && (s + [NEWLINE])[at..at + |line.bytes|] == line.bytes
    && line.number == n + 1 + Newlines(s[..at])
  }

  /** A line ends with its only newline and is not empty otherwise. */
  ghost predicate WholeLine(bytes: seq<Byte>) {
    |bytes| > 1 && FirstNewline(bytes) == |bytes| - 1
  }

  /** A whole non-empty line of the input, numbered by its place among all lines. */
  ghost predicate LineAt(s: seq<Byte>, n: nat, line: Line, at: nat) {
    Located(s, n, line, at) && WholeLine(line.bytes)
  }

  /** Line `k` of the report stands at position `at`. */
  ghost predicate FoundAt(s: seq<Byte>, n: nat, k: nat, at: nat) {
    k < |Lines(s, n)| && LineAt(s, n, Lines(s, n)[k], at)
  }

  /** Every reported line is a whole line of the input, at its place. */
  lemma {:induction false} LinesAreLocated(s: seq<Byte>, n: nat, k: nat) returns (at: nat)
    requires k < |Lines(s, n)|
    ensures FoundAt(s, n, k, at)
    decreases |s|
  {
    if FirstNewline(s) > 0 && k == 0 {
      FirstLine(s, n);
      at := 0;
    } else {
      var k' := LaterLine(s, n, k);
      var m := LinesAreLocated(s[FirstNewline(s) + 1..], n + 1, k');
      at := FirstNewline(s) + 1 + m;
      FoundLater(s, n, k, k', m);
    }
  }

  lemma FoundLater(s: seq<Byte>, n: nat, k: nat, k': nat, m: nat)
    requires FirstNewline(s) < |s| && FoundAt(s[FirstNewline(s) + 1..], n + 1, k', m)
    requires k < |Lines(s, n)| && Lines(s, n)[k] == Lines(s[FirstNewline(s) + 1..], n + 1)[k']
    ensures FoundAt(s, n, k, FirstNewline(s) + 1 + m)
  {
    LocatedAfter(s, n, Lines(s, n)[k], m);
  }

  /** A later line is a line of what follows the first newline. */
  lemma LaterLine(s: seq<Byte>, n: nat, k: nat) returns (k': nat)
    requires k < |Lines(s, n)| && (FirstNewline(s) == 0 || k > 0)
    ensures FirstNewline(s) < |s|
    ensures var rest := Lines(s[FirstNewline(s) + 1..], n + 1); k' < |rest| && Lines(s, n)[k] == rest[k']
  {
    k' := if FirstNewline(s) > 0 then k - 1 else k;
  }

  /** The first line of an input that does not begin with a newline. */
  lemma FirstLine(s: seq<Byte>, n: nat)
    requires FirstNewline(s) > 0
    ensures FoundAt(s, n, 0, 0) && Lines(s, n)[0] == Line((s + [NEWLINE])[..FirstNewline(s) + 1], n + 1)
  {
    var i := FirstNewline(s);
    var line := (s + [NEWLINE])[..i + 1];
    FirstNewlineIs(line, i);
    assert s[..0] == [];
    if i < |s| {
      assert line == s[..i + 1];
    } else {
      assert line == s + [NEWLINE];
    }
  }

  /** The newlines up to a position in the rest of the input are one fewer than those in the input. */
  lemma NewlinesAfter(s: seq<Byte>, m: nat)
    requires FirstNewline(s) < |s| && FirstNewline(s) + 1 + m <= |s|
    ensures Newlines(s[..FirstNewline(s) + 1 + m]) == 1 + Newlines(s[FirstNewline(s) + 1..][..m])
  {
    var i := FirstNewline(s);
    var rest := s[i + 1..];
    assert s[..i + 1 + m] == s[..i] + ([NEWLINE] + rest[..m]);
    NewlinesConcat(s[..i], [NEWLINE] + rest[..m]);
    NewlinesConcat([NEWLINE], rest[..m]);
    NoNewlines(s[..i]);
    assert Newlines([NEWLINE]) == 1 by {
      assert [NEWLINE][..0] == [];
    }
  }

  lemma SliceAfter(s: seq<Byte>, i: nat, m: nat, e: nat)
    requires i < |s| && m <= e <= |s| - i
    ensures (s + [NEWLINE])[i + 1 + m..i + 1 + e] == (s[i + 1..] + [NEWLINE])[m..e]
  {
    assert s + [NEWLINE] == s[..i + 1] + (s[i + 1..] + [NEWLINE]);
  }

  /** A line located in the rest of the input is located in the input, one line further on. */
  lemma LocatedAfter(s: seq<Byte>, n: nat, line: Line, m: nat)
    requires FirstNewline(s) < |s| && LineAt(s[FirstNewline(s) + 1..], n + 1, line, m)
    ensures LineAt(s, n, line, FirstNewline(s) + 1 + m)
  {
    NewlinesAfter(s, m);
    SliceAfter(s, FirstNewline(s), m, m + |line.bytes|);
  }

  // ------------------------------------------------------------------ every line is reported

  /** `s[at..end]` is a line of the input that is not empty. */
  ghost predicate IsLine(s: seq<Byte>, at: nat, end: nat) {
    && at < end <= |s|
    && (at > 0 ==> s[at - 1] == NEWLINE) && (end < |s| ==> s[end] == NEWLINE)
    && NewlineFree(s, at, end)
  }

  ghost predicate NewlineFree(s: seq<Byte>, at: nat, end: nat)
    requires end <= |s|
  {
    forall j :: at <= j < end ==> s[j] != NEWLINE
  }

  /** The line that is reported for `s[at..end]`. */
  function Report(s: seq<Byte>, n: nat, at: nat, end: nat): Line
    requires at <= end <= |s|
  {
    Line((s + [NEWLINE])[at..end + 1], n + 1 + Newlines(s[..at]))
  }

  ghost predicate ReportedAs(s: seq<Byte>, n: nat, at: nat, end: nat, k: nat) {
    at <= end <= |s| && k < |Lines(s, n)| && Lines(s, n)[k] == Report(s, n, at, end)
  }

  lemma FirstIsReported(s: seq<Byte>, n: nat, end: nat)
    requires IsLine(s, 0, end)
    ensures ReportedAs(s, n, 0, end, 0)
  {
    FirstNewlineIs(s, end);
    FirstLine(s, n);
    assert s[..0] == [];
    assert (s + [NEWLINE])[0..end + 1] == (s + [NEWLINE])[..end + 1];
  }

  lemma ReportAfter(s: seq<Byte>, n: nat, at: nat, end: nat)
    requires FirstNewline(s) < at <= end <= |s|
    ensures var i := FirstNewline(s); Report(s, n, at, end) == Report(s[i + 1..], n + 1, at - i - 1, end - i - 1)
  {
    var i := FirstNewline(s);
    NewlinesAfter(s, at - i - 1);
    SliceAfter(s, i, at - i - 1, end - i);
  }

  lemma LaterIsReported(s: seq<Byte>, n: nat, at: nat, end: nat, k': nat) returns (k: nat)
    requires FirstNewline(s) < at <= end <= |s|
    requires ReportedAs(s[FirstNewline(s) + 1..], n + 1, at - FirstNewline(s) - 1, end - FirstNewline(s) - 1, k')
    ensures ReportedAs(s, n, at, end, k)
  {
    k := if FirstNewline(s) > 0 then k' + 1 else k';
    ReportAfter(s, n, at, end);
  }

  lemma LineOfRest(s: seq<Byte>, at: nat, end: nat) returns (rest: seq<Byte>, gap: nat)
    requires IsLine(s, at, end) && at > 0
    ensures gap == FirstNewline(s) + 1 <= at <= end <= |s| && rest == s[gap..] && |rest| < |s|
    ensures IsLine(rest, at - gap, end - gap)
  {
    var i := FirstNewline(s);
    assert NoNewlineBefore(s, i);
    assert i < at;
    gap, rest := i + 1, s[i + 1..];
    assert forall j :: 0 <= j < |rest| ==> rest[j] == s[gap + j];
  }

  /** Every non-empty line of the input is reported, with its number. */
  lemma {:induction false} EveryLineIsReported(s: seq<Byte>, n: nat, at: nat, end: nat) returns (k: nat)
    requires IsLine(s, at, end)
    ensures ReportedAs(s, n, at, end, k)
    decreases |s|
  {
    if at == 0 {
      FirstIsReported(s, n, end);
      k := 0;
    } else {
      var rest, gap := LineOfRest(s, at, end);
      var k' := EveryLineIsReported(rest, n + 1, at - gap, end - gap);
      k := LaterIsReported(s, n, at, end, k');
    }
  }

  /** Lines are reported in order, each once. */
  lemma {:induction false} LineNumbersGrow(s: seq<Byte>, n: nat)
    ensures forall i :: 0 <= i < |Lines(s, n)| ==> Lines(s, n)[i].number > n
    ensures forall i, j :: 0 <= i < j < |Lines(s, n)| ==> Lines(s, n)[i].number < Lines(s, n)[j].number
    decreases |s|
  {
    var i := FirstNewline(s);
    if i < |s| {
      LineNumbersGrow(s[i + 1..], n + 1);
    }
  }

  // ------------------------------------------------------------------ the stream

  /** What polling the byte stream gives, before it ends for good: nothing yet, an error, or bytes. */
  datatype Poll = NotReady | Broken | Chunk(bytes: seq<Byte>)

  /** A line that is JSON, or the error that reports its number. */
  datatype Outcome = Parsed(line: Line) | ParseError(line: Line)

  datatype Item = Pending | StreamError | Ready(outcome: Outcome) | Finished

  function Parse(line: Line, parses: seq<Byte> -> bool): Outcome {
    if parses(line.bytes) then Parsed(line) else ParseError(line)
  }

  function ParseAll(lines: seq<Line>, parses: seq<Byte> -> bool): seq<Outcome> {
    if lines == [] then [] else [Parse(lines[0], parses)] + ParseAll(lines[1..], parses)
  }

  /** All bytes still to come. */
  function Bytes(polls: seq<Poll>): seq<Byte>
    decreases |polls|
  {
    if polls == [] then [] else (if polls[0].Chunk? then polls[0].bytes else []) + Bytes(polls[1..])
  }

  lemma LinesOfChunk(buf: seq<Byte>, polls: seq<Poll>, n: nat)
    requires polls != []
    ensures Lines(buf + Bytes(polls), n) == Lines((if polls[0].Chunk? then buf + polls[0].bytes else buf) + Bytes(polls[1..]), n)
  {
    var more := if polls[0].Chunk? then polls[0].bytes else [];
    assert buf + [] == buf;
    assert buf + (more + Bytes(polls[1..])) == (buf + more) + Bytes(polls[1..]);
  }

  lemma ParseFirst(line: Line, lines: seq<Line>, parses: seq<Byte> -> bool)
    ensures ParseAll([line] + lines, parses) == [Parse(line, parses)] + ParseAll(lines, parses)
  {
    assert ([line] + lines)[1..] == lines;
  }

  class JsonStream {
    var buf: seq<Byte>
    var count: nat
    const parses: seq<Byte> -> bool

    constructor (parses: seq<Byte> -> bool)
      ensures buf == [] && count == 0 && this.parses == parses
    {
      this.parses := parses;
      buf := [];
      count := 0;
    }

    /** The lines that are still to be reported. */
    ghost function Todo(polls: seq<Poll>): seq<Line>
      reads this
    {
      Lines(buf + Bytes(polls), count)
    }

    /** Splits the first line off the buffer. */
    method SplitLine(ghost polls: seq<Poll>) returns (line: seq<Byte>)
      requires NEWLINE in buf
      modifies this
      ensures count == old(count) + 1 && |buf| < |old(buf)|
      ensures buf != [] ==> buf[|buf| - 1] == old(buf[|buf| - 1])
      ensures old(Todo(polls)) == (if |line| > 1 then [Line(line, count)] else []) + Todo(polls)
    {
      var offset := FirstNewline(buf);
      assert buf[..|buf|] == buf;
      LinesOfBuffer(buf, Bytes(polls), count);
      line := buf[..offset + 1];
      buf := buf[offset + 1..];
      count := count + 1;
    }

    /** Terminates an input that ended without a newline. */
    method Terminate()
      requires buf != [] && NEWLINE !in buf
      modifies this`buf
      ensures buf == old(buf) + [NEWLINE] && Todo([]) == old(Todo([]))
    {
      LinesTerminated(buf, count);
      assert buf + [] == buf && buf + [NEWLINE] + [] == buf + [NEWLINE];
      buf := buf + [NEWLINE];
    }

    method PollNext(polls: seq<Poll>) returns (item: Item, rest: seq<Poll>)
      modifies this
      ensures |rest| <= |polls|
      ensures match item
              case Pending => |rest| < |polls| && Todo(rest) == old(Todo(polls))
              case StreamError => |rest| < |polls| && polls[|polls| - |rest| - 1].Broken? && Todo(rest) == old(Todo(polls))
              case Ready(outcome) => old(Todo(polls)) == [outcome.line] + Todo(rest) && outcome == Parse(outcome.line, parses)
              case Finished => old(Todo(polls)) == [] && rest == [] && buf == []
    {
      rest := polls;
      while true
        invariant |rest| <= |polls| && rest == polls[|polls| - |rest|..] && Todo(rest) == old(Todo(polls))
        decreases |rest|, |buf| + if buf == [] || buf[|buf| - 1] == NEWLINE then 0 else 2
      {
        if NEWLINE in buf {
          var line := SplitLine(rest);
          if |line| > 1 {
            return Ready(Parse(Line(line, count), parses)), rest;
          }
          assert [] + Todo(rest) == Todo(rest);
        } else if rest != [] {
          var poll := rest[0];
          LinesOfChunk(buf, rest, count);
          rest := rest[1..];
          match poll {
            case NotReady => return Pending, rest;
            case Broken => return StreamError, rest;
            case Chunk(b) => buf := buf + b;
          }
        } else if |buf| > 0 {
          Terminate();
        } else {
          assert buf + Bytes(rest) == [];
          return Finished, rest;
        }
      }
    }
  }

  /**
   For every way the bytes arrive, a reader that goes on after errors gets the lines of the whole input, and
   then the stream ends.
   */
  method ReadAll(polls: seq<Poll>, parses: seq<Byte> -> bool) returns (outcomes: seq<Outcome>)
    ensures outcomes == ParseAll(Lines(Bytes(polls), 0), parses)
  {
    var stream := new JsonStream(parses);
    var rest := polls;
    outcomes := [];
    assert [] + Bytes(polls) == Bytes(polls);
    ghost var todo := stream.Todo(rest);
    assert [] + ParseAll(todo, parses) == ParseAll(todo, parses);
    var finished := false;
    while !finished
      invariant outcomes + ParseAll(todo, parses) == ParseAll(Lines(Bytes(polls), 0), parses)
      invariant stream.parses == parses && (if finished then todo == [] else todo == stream.Todo(rest))
      decreases |rest|, |todo|, if finished then 0 else 1
    {
      var item;
      item, rest := stream.PollNext(rest);
      match item
      case Pending =>
      case StreamError =>
      case Ready(outcome) =>
        todo := stream.Todo(rest);
        ParseFirst(outcome.line, todo, parses);
        assert outcomes + ([outcome] + ParseAll(todo, parses)) == outcomes + [outcome] + ParseAll(todo, parses);
        outcomes := outcomes + [outcome];
      case Finished =>
        finished := true;
    }
    assert outcomes + [] == outcomes;
  }
}
