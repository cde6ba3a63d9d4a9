/**
 * Newline framing. `Lines` and `Tail` say once what the lines of a byte stream are;
 * the three splitters of the repository are proved against them.
 */
module Framing {
  import opened Prelude

  const NL: byte := 10
  const CR: byte := 13
  const MAX_LINE_BYTES: nat := 16 * 1024
  const PACKET_BYTES: nat := 64

  type Line = seq<byte>

  datatype FrameError = LineTooLong

  // ----- the lines of a stream ------------------------------------------------

  function FirstNewline(s: seq<byte>): (i: nat)
    requires NL in s
    ensures i < |s| && s[i] == NL && NL !in s[..i]
  {
    if s[0] == NL then 0 else 1 + FirstNewline(s[1..])
  }

  /** The newline-terminated lines of a stream, without their newlines. */
  function Lines(s: seq<byte>): seq<Line> {
    if NL !in s then []
    else var i := FirstNewline(s); [s[..i]] + Lines(s[i + 1..])
  }

  /** What follows the last newline. */
  function Tail(s: seq<byte>): Line {
    if NL !in s then s
    else Tail(s[FirstNewline(s) + 1..])
  }

  /** No line, and no unfinished line, is over the cap. */
  predicate Fits(cap: nat, s: seq<byte>) {
    if NL !in s then |s| <= cap
    else FirstNewline(s) <= cap && Fits(cap, s[FirstNewline(s) + 1..])
  }

  function Flatten(chunks: seq<seq<byte>>): seq<byte> {
    if chunks == [] then [] else chunks[0] + Flatten(chunks[1..])
  }

  /** Wrap a payload as a newline-terminated frame. */
  function Frame(payload: Line): seq<byte> {
    payload + [NL]
  }

  function Frames(payloads: seq<Line>): seq<byte> {
    if payloads == [] then [] else Frame(payloads[0]) + Frames(payloads[1..])
  }

  lemma {:induction false} FirstNewlineIs(s: seq<byte>, i: nat)
    requires i < |s| && s[i] == NL && NL !in s[..i]
    ensures NL in s && FirstNewline(s) == i
  {
    if i > 0 {
      assert s[0] == s[..i][0];
      assert s[1..][..i - 1] == s[..i][1..];
      FirstNewlineIs(s[1..], i - 1);
    }
  }

  lemma {:induction false} LinesCons(line: Line, rest: seq<byte>)
    requires NL !in line
    ensures Lines(line + [NL] + rest) == [line] + Lines(rest)
    ensures Tail(line + [NL] + rest) == Tail(rest)
  {
    var s := line + [NL] + rest;
    assert s[..|line|] == line && s[|line|] == NL && s[|line| + 1..] == rest;
    FirstNewlineIs(s, |line|);
  }

  lemma {:induction false} LinesAppend(a: seq<byte>, b: seq<byte>)
    ensures Lines(a + b) == Lines(a) + Lines(Tail(a) + b)
    ensures Tail(a + b) == Tail(Tail(a) + b)
    ensures NL !in Tail(a)
  {
    if NL in a {
      var i := FirstNewline(a);
      var line, rest := a[..i], a[i + 1..];
      assert a == line + [NL] + rest;
      assert a + b == line + [NL] + (rest + b);
      LinesCons(line, rest + b);
      LinesAppend(rest, b);
      assert Lines(a) == [line] + Lines(rest) && Tail(a) == Tail(rest);
    }
  }

  lemma {:induction false} LinesSnoc(s: seq<byte>, b: byte)
    ensures b == NL ==> Lines(s + [b]) == Lines(s) + [Tail(s)] && Tail(s + [b]) == []
    ensures b != NL ==> Lines(s + [b]) == Lines(s) && Tail(s + [b]) == Tail(s) + [b]
  {
    LinesAppend(s, [b]);
    if b == NL {
      assert Tail(s) + [b] == Tail(s) + [NL] + [];
      LinesCons(Tail(s), []);
    }
  }

  lemma {:induction false} FitsCons(cap: nat, line: Line, rest: seq<byte>)
    requires NL !in line
    ensures Fits(cap, line + [NL] + rest) <==> |line| <= cap && Fits(cap, rest)
  {
    var s := line + [NL] + rest;
    assert s[..|line|] == line && s[|line|] == NL && s[|line| + 1..] == rest;
    FirstNewlineIs(s, |line|);
  }

  lemma {:induction false} FitsAppend(cap: nat, a: seq<byte>, b: seq<byte>)
    ensures Fits(cap, a + b) ==> Fits(cap, a)
    ensures Fits(cap, a) ==> (Fits(cap, a + b) <==> Fits(cap, Tail(a) + b))
  {
    if NL in a {
      var i := FirstNewline(a);
      var line, rest := a[..i], a[i + 1..];
      assert a == line + [NL] + rest;
      assert a + b == line + [NL] + (rest + b);
      FitsCons(cap, line, rest);
      FitsCons(cap, line, rest + b);
      FitsAppend(cap, rest, b);
    } else if NL in a + b {
      assert FirstNewline(a + b) >= |a|;
    }
  }

  lemma {:induction false} FitsSnoc(cap: nat, s: seq<byte>, b: byte)
    requires Fits(cap, s)
    ensures Fits(cap, s + [b]) <==> b == NL || |Tail(s)| < cap
  {
    FitsAppend(cap, s, [b]);
    LinesAppend(s, []);
    if b == NL {
      FitsCons(cap, Tail(s), []);
      FitsTail(cap, s);
      assert Tail(s) + [NL] + [] == Tail(s) + [b];
    }
  }

  lemma {:induction false} FitsTail(cap: nat, s: seq<byte>)
    requires Fits(cap, s)
    ensures |Tail(s)| <= cap && NL !in Tail(s)
  {
    if NL in s {
      FitsTail(cap, s[FirstNewline(s) + 1..]);
    }
  }

  /** The predicate says what its name does. */
  lemma {:induction false} FitsMeans(cap: nat, s: seq<byte>)
    ensures Fits(cap, s) <==> (forall l :: l in Lines(s) ==> |l| <= cap) && |Tail(s)| <= cap
  {
    if NL in s {
      FitsMeans(cap, s[FirstNewline(s) + 1..]);
    }
  }

  lemma {:induction false} LinesOfFrames(payloads: seq<Line>)
    requires forall p :: p in payloads ==> NL !in p
    ensures Lines(Frames(payloads)) == payloads && Tail(Frames(payloads)) == []
  {
    if payloads != [] {
      var first, rest := payloads[0], payloads[1..];
      LinesOfFrames(rest);
      LinesCons(first, Frames(rest));
      assert payloads == [first] + rest;
    }
  }

  // ----- vaults-bridge-protocol: LineSplitter ---------------------------------

  datatype Pushed = Pushed(buf: Line, lines: Result<seq<Line>, FrameError>)

  /** One push: all the lines of buffer plus input if nothing exceeds the cap, else none of them. */
  function PushSpec(buf: Line, bytes: seq<byte>): Pushed {
    var s := buf + bytes;
    if Fits(MAX_LINE_BYTES, s) then Pushed(Tail(s), Ok(Lines(s))) else Pushed([], Err(LineTooLong))
  }

  class LineSplitter {
    var buf: Line

    ghost predicate Valid()
      reads this
    {
      NL !in buf && |buf| <= MAX_LINE_BYTES
    }

    constructor ()
      ensures Valid() && buf == []
    {
      buf := [];
    }

    method Push(bytes: seq<byte>) returns (r: Result<seq<Line>, FrameError>)
      requires Valid()
      modifies this`buf
      ensures Valid()
      ensures Pushed(buf, r) == PushSpec(old(buf), bytes)
    {
      PushBytesMeans(buf, bytes);
      ghost var start := Going(buf, []);
      var lines := [];
      for i := 0 to |bytes|
        invariant Going(buf, lines) == PushBytes(start, bytes[..i])
      {
        var b := bytes[i];
        assert bytes[..i + 1][..i] == bytes[..i];
        if b == NL {
          var line := buf;
          buf := [];
          lines := lines + [line];
        } else {
          if |buf| >= MAX_LINE_BYTES {
            buf := [];
            OverflowStays(start, bytes, i + 1);
            return Err(LineTooLong);
          }
          buf := buf + [b];
        }
      }
      assert bytes[..|bytes|] == bytes;
      r := Ok(lines);
    }
  }

  datatype Pushing = Going(buf: Line, lines: seq<Line>) | Overflowed

  function PushByte(p: Pushing, b: byte): Pushing {
    match p
    case Overflowed => p
    case Going(buf, lines) =>
      if b == NL then Going([], lines + [buf])
      else if |buf| >= MAX_LINE_BYTES then Overflowed
      else Going(buf + [b], lines)
  }

  function PushBytes(p: Pushing, bytes: seq<byte>): Pushing {
    if bytes == [] then p else PushByte(PushBytes(p, bytes[..|bytes| - 1]), bytes[|bytes| - 1])
  }

  lemma {:induction false} OverflowStays(p: Pushing, bytes: seq<byte>, n: nat)
    requires n <= |bytes| && PushBytes(p, bytes[..n]) == Overflowed
    ensures PushBytes(p, bytes) == Overflowed
  {
    if n == |bytes| {
      assert bytes[..n] == bytes;
    } else {
      assert bytes[..|bytes| - 1][..n] == bytes[..n];
      OverflowStays(p, bytes[..|bytes| - 1], n);
    }
  }

  /** The state a fitting stream leaves the splitter in. */
  function Split(s: seq<byte>): Pushing {
    if Fits(MAX_LINE_BYTES, s) then Going(Tail(s), Lines(s)) else Overflowed
  }

  lemma {:induction false} PushByteSplits(s: seq<byte>, b: byte)
    ensures PushByte(Split(s), b) == Split(s + [b])
  {
    LinesSnoc(s, b);
    if Fits(MAX_LINE_BYTES, s) {
      FitsSnoc(MAX_LINE_BYTES, s, b);
    } else {
      FitsAppend(MAX_LINE_BYTES, s, [b]);
    }
  }

  /** Byte by byte, the splitter computes the lines of what it had and what it got. */
  lemma {:induction false} PushBytesMeans(buf: Line, bytes: seq<byte>)
    requires NL !in buf && |buf| <= MAX_LINE_BYTES
    ensures PushBytes(Going(buf, []), bytes) == Split(buf + bytes)
    ensures Split(buf + bytes).Going? ==> NL !in Tail(buf + bytes) && |Tail(buf + bytes)| <= MAX_LINE_BYTES
  {
    if bytes == [] {
      assert buf + bytes == buf;
    } else {
      var n := |bytes| - 1;
      PushBytesMeans(buf, bytes[..n]);
      PushByteSplits(buf + bytes[..n], bytes[n]);
      assert buf + bytes[..n] + [bytes[n]] == buf + bytes;
      if Fits(MAX_LINE_BYTES, buf + bytes) { FitsTail(MAX_LINE_BYTES, buf + bytes); }
    }
  }

  /** A run of pushes: the final buffer, and all lines, or the error of the first push that fails. */
  function PushAll(buf: Line, chunks: seq<seq<byte>>): Pushed
    decreases |chunks|
  {
    if chunks == [] then Pushed(buf, Ok([]))
    else
      var first := PushSpec(buf, chunks[0]);
      if first.lines.Err? then first
      else
        var rest := PushAll(first.buf, chunks[1..]);
        if rest.lines.Err? then rest else Pushed(rest.buf, Ok(first.lines.value + rest.lines.value))
  }

  /**
   * Chunk boundaries do not matter exactly as far as they can: some push fails iff the stream
   * has a line over the cap, and otherwise the lines are those of the unchunked stream.
   */
  lemma {:induction false} PushAllIsPush(buf: Line, chunks: seq<seq<byte>>)
    requires NL !in buf && |buf| <= MAX_LINE_BYTES
    ensures PushAll(buf, chunks) == PushSpec(buf, Flatten(chunks))
    decreases |chunks|
  {
    if chunks == [] {
      assert buf + [] == buf;
    } else {
      var a, rest := buf + chunks[0], Flatten(chunks[1..]);
      assert buf + Flatten(chunks) == a + rest;
      LinesAppend(a, rest);
      FitsAppend(MAX_LINE_BYTES, a, rest);
      if Fits(MAX_LINE_BYTES, a) {
        FitsTail(MAX_LINE_BYTES, a);
        PushAllIsPush(Tail(a), chunks[1..]);
      }
    }
  }

  /** A run of pushes that goes on after errors: what each push returns, and the final buffer. */
  datatype Pushes = Pushes(buf: Line, results: seq<Result<seq<Line>, FrameError>>)

  function PushEach(buf: Line, chunks: seq<seq<byte>>): (p: Pushes)
    ensures |p.results| == |chunks|
    decreases |chunks|
  {
    if chunks == [] then Pushes(buf, [])
    else
      var first := PushSpec(buf, chunks[0]);
      var rest := PushEach(first.buf, chunks[1..]);
      Pushes(rest.buf, [first.lines] + rest.results)
  }

  /** All that a run of pushes delivers. */
  function Yielded(results: seq<Result<seq<Line>, FrameError>>): seq<Line> {
    if results == [] then []
    else (if results[0].Ok? then results[0].value else []) + Yielded(results[1..])
  }

  /** Without an overflow the pushes deliver the stream's lines. */
  lemma {:induction false} PushEachFits(buf: Line, chunks: seq<seq<byte>>)
    requires NL !in buf && |buf| <= MAX_LINE_BYTES && Fits(MAX_LINE_BYTES, buf + Flatten(chunks))
    ensures var p, s := PushEach(buf, chunks), buf + Flatten(chunks);
            p.buf == Tail(s) && Yielded(p.results) == Lines(s) && forall i :: 0 <= i < |chunks| ==> p.results[i].Ok?
    decreases |chunks|
  {
    if chunks == [] {
      assert buf + [] == buf;
    } else {
      var a, rest := buf + chunks[0], Flatten(chunks[1..]);
      assert buf + Flatten(chunks) == a + rest;
      LinesAppend(a, rest);
      FitsAppend(MAX_LINE_BYTES, a, rest);
      FitsTail(MAX_LINE_BYTES, a);
      PushEachFits(Tail(a), chunks[1..]);
      YieldedCons(Lines(a), PushEach(Tail(a), chunks[1..]).results);
    }
  }

  lemma YieldedCons(lines: seq<Line>, results: seq<Result<seq<Line>, FrameError>>)
    ensures Yielded([Ok(lines)] + results) == lines + Yielded(results)
  {
    assert ([Ok(lines)] + results)[1..] == results;
  }

  /** After a push that overflows, the splitter goes on as if new with the next chunk. */
  lemma {:induction false} OverflowRestarts(buf: Line, chunks: seq<seq<byte>>, i: nat)
    requires i < |chunks| && PushEach(buf, chunks).results[i].Err?
    ensures PushEach(buf, chunks).buf == PushEach([], chunks[i + 1..]).buf
    ensures PushEach(buf, chunks).results[i + 1..] == PushEach([], chunks[i + 1..]).results
    decreases |chunks|
  {
    var first := PushSpec(buf, chunks[0]);
    var rest := PushEach(first.buf, chunks[1..]);
    assert PushEach(buf, chunks).results[1..] == rest.results;
    if i > 0 {
      OverflowRestarts(first.buf, chunks[1..], i - 1);
      assert chunks[1..][i..] == chunks[i + 1..];
      assert rest.results[i..] == PushEach(buf, chunks).results[i + 1..];
    }
  }

  /**
   * So it resumes in the middle of the oversize line: what the later pushes deliver are the lines of the
   * rest of the stream, the first of them what is left of that line.
   */
  lemma {:induction false} OverflowResumesMidLine(buf: Line, chunks: seq<seq<byte>>, i: nat)
    requires i < |chunks| && PushEach(buf, chunks).results[i].Err?
    requires Fits(MAX_LINE_BYTES, Flatten(chunks[i + 1..]))
    ensures var p, s := PushEach(buf, chunks), Flatten(chunks[i + 1..]);
            && p.buf == Tail(s) && Yielded(p.results[i + 1..]) == Lines(s)
            && (NL in s ==> Yielded(p.results[i + 1..])[0] == s[..FirstNewline(s)])
  {
    OverflowRestarts(buf, chunks, i);
    assert [] + Flatten(chunks[i + 1..]) == Flatten(chunks[i + 1..]);
    PushEachFits([], chunks[i + 1..]);
  }

  /**
   * Which lines survive an overflow does depend on the chunking: in one push the complete lines
   * before the oversize one are discarded; pushed first, they were already delivered.
   */
  lemma {:induction false} OverflowDiscardsEarlierLines(complete: seq<Line>, oversize: Line)
    requires forall l :: l in complete ==> NL !in l && |l| <= MAX_LINE_BYTES
    requires NL !in oversize && |oversize| > MAX_LINE_BYTES
    ensures PushSpec([], Frames(complete) + oversize) == Pushed([], Err(LineTooLong))
    ensures PushSpec([], Frames(complete)) == Pushed([], Ok(complete))
    ensures PushSpec([], oversize) == Pushed([], Err(LineTooLong))
  {
    var frames := Frames(complete);
    LinesOfFrames(complete);
    FitsMeans(MAX_LINE_BYTES, frames);
    FitsAppend(MAX_LINE_BYTES, frames, oversize);
    assert [] + oversize == oversize;
    assert [] + (Frames(complete) + oversize) == Frames(complete) + oversize;
    assert [] + Frames(complete) == Frames(complete);
  }

  // ----- src/transport/webusb.rs: reader_loop ---------------------------------

  function StripCR(line: Line): Line {
    if line == [] then []
    else StripCR(line[..|line| - 1]) + (if line[|line| - 1] == CR then [] else [line[|line| - 1]])
  }

  /** What the reader holds of an n-byte line: each time it is full, the next byte empties it. */
  function Survivor(line: Line): (kept: Line)
    ensures |kept| <= MAX_LINE_BYTES
    ensures |line| <= MAX_LINE_BYTES ==> kept == line
  {
    line[|line| - |line| % (MAX_LINE_BYTES + 1)..]
  }

  /** The payloads the reader delivers for the given raw lines. */
  function Delivered(lines: seq<Line>): seq<Line> {
    if lines == [] then []
    else
      var kept := Survivor(StripCR(lines[|lines| - 1]));
      Delivered(lines[..|lines| - 1]) + (if kept == [] then [] else [kept])
  }

  datatype ReaderState = ReaderState(line: Line, sent: seq<Line>)

  function ReadByte(r: ReaderState, b: byte): ReaderState {
    if b == NL then
      if r.line == [] then r else ReaderState([], r.sent + [r.line])
    else if b == CR then r
    else if |r.line| >= MAX_LINE_BYTES then r.(line := [])
    else r.(line := r.line + [b])
  }

  function ReadBytes(r: ReaderState, bytes: seq<byte>): ReaderState {
    if bytes == [] then r
    else ReadByte(ReadBytes(r, bytes[..|bytes| - 1]), bytes[|bytes| - 1])
  }

  /** The reader thread: its line buffer and the payloads sent to the dispatcher. */
  class Reader {
    var line: Line
    var sent: seq<Line>

    function State(): ReaderState
      reads this
    {
      ReaderState(line, sent)
    }

    constructor ()
      ensures State() == ReaderState([], [])
    {
      line, sent := [], [];
    }

    /** The bytes of one successful read. */
    method Feed(chunk: seq<byte>)
      modifies this
      ensures State() == ReadBytes(old(State()), chunk)
    {
      for i := 0 to |chunk|
        invariant State() == ReadBytes(old(State()), chunk[..i])
      {
        var b := chunk[i];
        assert chunk[..i + 1][..i] == chunk[..i];
        if b == NL {
          if line != [] {
            sent, line := sent + [line], [];
          }
        } else if b != CR {
          if |line| >= MAX_LINE_BYTES {
            line := [];
          } else {
            line := line + [b];
          }
        }
      }
      assert chunk[..|chunk|] == chunk;
    }

    /** The host went away: the partial line is dropped. */
    method Disconnect()
      modifies this
      ensures State() == old(State()).(line := [])
    {
      line := [];
    }
  }

  /** Only the byte stream matters, not how it was cut into reads. */
  lemma {:induction false} ReadBytesSplits(r: ReaderState, a: seq<byte>, b: seq<byte>)
    ensures ReadBytes(r, a + b) == ReadBytes(ReadBytes(r, a), b)
  {
    if b == [] {
      assert a + b == a;
    } else {
      var n := |b| - 1;
      assert (a + b)[..|a + b| - 1] == a + b[..n];
      ReadBytesSplits(r, a, b[..n]);
    }
  }

  lemma SurvivorSnoc(line: Line, b: byte)
    ensures Survivor(line + [b])
         == if |Survivor(line)| >= MAX_LINE_BYTES then [] else Survivor(line) + [b]
  {
    var n := |line| % (MAX_LINE_BYTES + 1);
    assert |line + [b]| % (MAX_LINE_BYTES + 1) == if n == MAX_LINE_BYTES then 0 else n + 1;
  }

  lemma DeliveredSnoc(lines: seq<Line>, line: Line)
    ensures var kept := Survivor(StripCR(line));
            Delivered(lines + [line]) == Delivered(lines) + (if kept == [] then [] else [kept])
  {
    assert (lines + [line])[..|lines|] == lines;
  }

  /** Every CR is dropped, wherever it stands, and everything else kept in order. */
  lemma {:induction false} StripCRMeans(a: Line, b: Line)
    ensures StripCR(a + b) == StripCR(a) + StripCR(b)
    ensures StripCR([13]) == [] && 13 !in StripCR(a)
    ensures 13 !in a ==> StripCR(a) == a
  {
    StripCRAppend(a, b);
    NoCRLeft(a);
    if 13 !in a { StripCRIdentity(a); }
    StripCRSnoc([], CR);
    assert [] + [CR] == [CR];
  }

  lemma {:induction false} StripCRAppend(a: Line, b: Line)
    ensures StripCR(a + b) == StripCR(a) + StripCR(b)
  {
    if b == [] {
      assert a + b == a;
    } else {
      var n := |b| - 1;
      StripCRAppend(a, b[..n]);
      StripCRMore(a, b[..n], b[n]);
      assert b[..n] + [b[n]] == b;
    }
  }

  lemma {:induction false} StripCRMore(a: Line, b: Line, x: byte)
    requires StripCR(a + b) == StripCR(a) + StripCR(b)
    ensures StripCR(a + (b + [x])) == StripCR(a) + StripCR(b + [x])
  {
    StripCRSnoc(a + b, x);
    StripCRSnoc(b, x);
    Associative(a, b, [x]);
    Associative(StripCR(a), StripCR(b), if x == CR then [] else [x]);
  }

  lemma {:induction false} NoCRLeft(line: Line)
    ensures CR !in StripCR(line)
  {
    if line != [] { NoCRLeft(line[..|line| - 1]); }
  }

  lemma StripCRSnoc(line: Line, b: byte)
    ensures StripCR(line + [b]) == StripCR(line) + (if b == CR then [] else [b])
  {
    assert (line + [b])[..|line|] == line;
  }

  /** The reader state reached, from an empty line, after the stream `s`. */
  function After(sent: seq<Line>, s: seq<byte>): ReaderState {
    ReaderState(Survivor(StripCR(Tail(s))), sent + Delivered(Lines(s)))
  }

  lemma {:induction false} ReadByteAfter(sent: seq<Line>, s: seq<byte>, b: byte)
    ensures ReadByte(After(sent, s), b) == After(sent, s + [b])
  {
    LinesSnoc(s, b);
    if b == NL {
      ReadNewline(sent, Lines(s), Tail(s));
    } else {
      ReadInLine(Tail(s), b, sent + Delivered(Lines(s)));
    }
  }

  lemma {:induction false} ReadNewline(sent: seq<Line>, lines: seq<Line>, tail: Line)
    ensures ReadByte(ReaderState(Survivor(StripCR(tail)), sent + Delivered(lines)), NL)
         == ReaderState(Survivor(StripCR([])), sent + Delivered(lines + [tail]))
  {
    var kept := Survivor(StripCR(tail));
    DeliveredSnoc(lines, tail);
    Associative(sent, Delivered(lines), if kept == [] then [] else [kept]);
    assert sent + Delivered(lines) + [] == sent + Delivered(lines);
  }

  lemma {:induction false} ReadInLine(tail: Line, b: byte, sent: seq<Line>)
    requires b != NL
    ensures ReadByte(ReaderState(Survivor(StripCR(tail)), sent), b)
         == ReaderState(Survivor(StripCR(tail + [b])), sent)
  {
    StripCRSnoc(tail, b);
    if b != CR {
      SurvivorSnoc(StripCR(tail), b);
    } else {
      assert StripCR(tail) + [] == StripCR(tail);
    }
  }

  /** One line from an empty buffer: a line over the cap arrives as the suffix left after the last drop. */
  lemma {:induction false} ReaderOneLine(sent: seq<Line>, line: Line)
    requires NL !in line && CR !in line
    ensures ReadBytes(ReaderState([], sent), Frame(line))
         == ReaderState([], if |line| % (MAX_LINE_BYTES + 1) == 0 then sent else sent + [Survivor(line)])
  {
    OneFramedLine(line);
    ReaderDelivers(sent, Frame(line));
    DeliveredOne(line);
    assert sent + [] == sent;
  }

  lemma OneFramedLine(line: Line)
    requires NL !in line
    ensures Lines(Frame(line)) == [line] && Tail(Frame(line)) == []
  {
    LinesCons(line, []);
    assert line + [NL] + [] == Frame(line);
  }

  lemma {:induction false} DeliveredOne(line: Line)
    requires CR !in line
    ensures Delivered([line]) == if |line| % (MAX_LINE_BYTES + 1) == 0 then [] else [Survivor(line)]
  {
    StripCRIdentity(line);
    assert [line][..0] == [];
    assert Delivered([]) == [];
  }

  /**
   * What the reader delivers on every stream: per line, with CRs dropped, the last
   * (length mod (cap + 1)) bytes, unless that is nothing. A line within the cap arrives whole;
   * a longer one is not rejected but cut to a suffix, and the line after it starts fresh.
   */
  lemma {:induction false} ReaderDelivers(sent: seq<Line>, s: seq<byte>)
    ensures ReadBytes(ReaderState([], sent), s) == After(sent, s)
  {
    if s == [] {
      assert sent + [] == sent;
    } else {
      var n := |s| - 1;
      assert s == s[..n] + [s[n]];
      ReaderDelivers(sent, s[..n]);
      ReadByteAfter(sent, s[..n], s[n]);
    }
  }

  lemma {:induction false} DeliveredAreShort(lines: seq<Line>)
    ensures forall l :: l in Delivered(lines) ==> 0 < |l| <= MAX_LINE_BYTES
  {
    if lines != [] {
      DeliveredAreShort(lines[..|lines| - 1]);
    }
  }

  lemma {:induction false} StripCRIdentity(line: Line)
    requires CR !in line
    ensures StripCR(line) == line
  {
    if line != [] {
      StripCRIdentity(line[..|line| - 1]);
    }
  }

  lemma {:induction false} DeliveredIdentity(lines: seq<Line>)
    requires forall i :: 0 <= i < |lines| ==> CR !in lines[i] && 0 < |lines[i]| <= MAX_LINE_BYTES
    ensures Delivered(lines) == lines
  {
    if lines != [] {
      var n := |lines| - 1;
      var init, last := lines[..n], lines[n];
      DeliveredIdentity(init);
      DeliveredWhole(init, last);
      assert lines == init + [last];
    }
  }

  lemma {:induction false} DeliveredWhole(init: seq<Line>, last: Line)
    requires Delivered(init) == init && CR !in last && 0 < |last| <= MAX_LINE_BYTES
    ensures Delivered(init + [last]) == init + [last]
  {
    StripCRIdentity(last);
    DeliveredSnoc(init, last);
  }

  // ----- extension/webusb-transport.js: _readLoop -----------------------------

  /** `String.prototype.trim` white space among the code units below 256. */
  predicate IsJsSpace(unit: byte) {
    9 <= unit <= 13 || unit == 32 || unit == 160
  }

  predicate Blank(line: Line) {
    forall i :: 0 <= i < |line| ==> IsJsSpace(line[i])
  }

  function NonBlank(lines: seq<Line>): seq<Line> {
    if lines == [] then []
    else (if Blank(lines[0]) then [] else [lines[0]]) + NonBlank(lines[1..])
  }

  /** The loop's buffer and the lines handed to JSON.parse, until an overflow tears it down. */
  datatype JsState =
    | Open(buf: Line, parsed: seq<Line>)
    | TornDown(parsed: seq<Line>)

  function JsFeed(st: JsState, text: seq<byte>): JsState {
    match st
    case TornDown(_) => st
    case Open(buf, parsed) =>
      var s := buf + text;
      if |s| > MAX_LINE_BYTES then TornDown(parsed) else Drained(parsed, s)
  }

  /** All complete lines taken out of `s`, the blank ones dropped. */
  function Drained(parsed: seq<Line>, s: seq<byte>): JsState {
    Open(Tail(s), parsed + NonBlank(Lines(s)))
  }

  lemma {:induction false} DrainLine(parsed: seq<Line>, s: seq<byte>)
    requires NL in s
    ensures var i := FirstNewline(s);
            Drained(parsed, s) == Drained(if Blank(s[..i]) then parsed else parsed + [s[..i]], s[i + 1..])
  {
    var i := FirstNewline(s);
    KeepFirst(parsed, s[..i], Lines(s[i + 1..]));
  }

  lemma KeepFirst(parsed: seq<Line>, line: Line, later: seq<Line>)
    ensures parsed + NonBlank([line] + later) == (if Blank(line) then parsed else parsed + [line]) + NonBlank(later)
  {
    NonBlankFirst(line, later);
    Associative(parsed, if Blank(line) then [] else [line], NonBlank(later));
    assert parsed + [] == parsed;
  }

  lemma NonBlankFirst(line: Line, later: seq<Line>)
    ensures NonBlank([line] + later) == (if Blank(line) then [] else [line]) + NonBlank(later)
  {
    assert ([line] + later)[1..] == later;
  }

  lemma Associative<T>(a: seq<T>, b: seq<T>, c: seq<T>)
    ensures a + (b + c) == a + b + c
  {
  }

  lemma DrainEnd(parsed: seq<Line>, s: seq<byte>)
    requires NL !in s
    ensures Drained(parsed, s) == Open(s, parsed)
  {
  }

  lemma {:induction false} DrainFrame(parsed: seq<Line>, payload: Line)
    requires NL !in payload && !Blank(payload)
    ensures Drained(parsed, Frame(payload)) == Open([], parsed + [payload])
  {
    var s := Frame(payload);
    FirstNewlineIs(s, |payload|);
    assert s[..|payload|] == payload && s[|payload| + 1..] == [];
    DrainLine(parsed, s);
    DrainEnd(parsed + [payload], []);
  }

  lemma {:induction false} DrainAppend(parsed: seq<Line>, a: seq<byte>, b: seq<byte>)
    ensures Drained(parsed, a + b) == Drained(Drained(parsed, a).parsed, Tail(a) + b)
  {
    LinesAppend(a, b);
    var before, after := Lines(a), Lines(Tail(a) + b);
    NonBlankAppend(before, after);
    Associative(parsed, NonBlank(before), NonBlank(after));
  }

  function JsFeedAll(st: JsState, chunks: seq<seq<byte>>): JsState
    decreases |chunks|
  {
    if chunks == [] then st else JsFeedAll(JsFeed(st, chunks[0]), chunks[1..])
  }

  class JsReadLoop {
    var lineBuffer: Line
    var parsed: seq<Line>
    var torn: bool

    function State(): JsState
      reads this
    {
      if torn then TornDown(parsed) else Open(lineBuffer, parsed)
    }

    constructor ()
      ensures State() == Open([], [])
    {
      lineBuffer, parsed, torn := [], [], false;
    }

    /** One `transferIn` result, already decoded to code units. */
    method OnText(text: seq<byte>)
      modifies this
      ensures State() == JsFeed(old(State()), text)
    {
      if torn {
        return;
      }
      lineBuffer := lineBuffer + text;
      if |lineBuffer| > MAX_LINE_BYTES {
        lineBuffer, torn := [], true;
        return;
      }
      ghost var target := Drained(parsed, lineBuffer);
      while NL in lineBuffer
        invariant !torn && Drained(parsed, lineBuffer) == target
        decreases |lineBuffer|
      {
        DrainLine(parsed, lineBuffer);
        var idx := FirstNewline(lineBuffer);
        var line := lineBuffer[..idx];
        lineBuffer := lineBuffer[idx + 1..];
        if !Blank(line) {
          parsed := parsed + [line];
        }
      }
      DrainEnd(parsed, lineBuffer);
    }
  }

  lemma {:induction false} NonBlankAppend(a: seq<Line>, b: seq<Line>)
    ensures NonBlank(a + b) == NonBlank(a) + NonBlank(b)
  {
    if a == [] {
      assert a + b == b;
    } else {
      NonBlankAppend(a[1..], b);
      NonBlankFirst(a[0], a[1..] + b);
      assert a + b == [a[0]] + (a[1..] + b);
      Associative(if Blank(a[0]) then [] else [a[0]], NonBlank(a[1..]), NonBlank(b));
    }
  }

  lemma {:induction false} NonBlankIdentity(lines: seq<Line>)
    requires forall l :: l in lines ==> !Blank(l)
    ensures NonBlank(lines) == lines
  {
    if lines != [] {
      assert lines[0] in lines;
      NonBlankIdentity(lines[1..]);
    }
  }

  /** With lines at least one packet short of the cap, packet boundaries do not matter. */
  lemma {:induction false} JsFeedAllIsOneFeed(buf: Line, parsed: seq<Line>, chunks: seq<seq<byte>>)
    requires NL !in buf && |buf| <= MAX_LINE_BYTES - PACKET_BYTES
    requires forall i :: 0 <= i < |chunks| ==> |chunks[i]| <= PACKET_BYTES
    requires Fits(MAX_LINE_BYTES - PACKET_BYTES, buf + Flatten(chunks))
    ensures JsFeedAll(Open(buf, parsed), chunks) == Drained(parsed, buf + Flatten(chunks))
    decreases |chunks|
  {
    if chunks == [] {
      assert buf + [] == buf;
      DrainEnd(parsed, buf);
    } else {
      var cap := MAX_LINE_BYTES - PACKET_BYTES;
      var a, rest := buf + chunks[0], Flatten(chunks[1..]);
      assert buf + Flatten(chunks) == a + rest;
      DrainAppend(parsed, a, rest);
      FitsAppend(cap, a, rest);
      FitsTail(cap, a);
      JsFeedAllIsOneFeed(Tail(a), Drained(parsed, a).parsed, chunks[1..]);
    }
  }

  /**
   * A single reply in flight, in any chunking: the loop delivers it iff the frame, newline
   * included, is within the cap. A payload of exactly the cap, which both Rust splitters accept,
   * tears the transport down.
   */
  lemma {:induction false} JsSingleFrame(buf: Line, parsed: seq<Line>, payload: Line, chunks: seq<seq<byte>>)
    requires NL !in payload && !Blank(payload)
    requires buf + Flatten(chunks) == Frame(payload) && |buf| <= |payload| && |buf| <= MAX_LINE_BYTES
    requires forall i :: 0 <= i < |chunks| ==> chunks[i] != []
    ensures JsFeedAll(Open(buf, parsed), chunks)
         == if |Frame(payload)| <= MAX_LINE_BYTES then Open([], parsed + [payload]) else TornDown(parsed)
    decreases |chunks|
  {
    assert buf + [] == buf;
    var a, rest := buf + chunks[0], Flatten(chunks[1..]);
    assert a + rest == Frame(payload);
    if |a| > MAX_LINE_BYTES {
      TornDownStays(parsed, chunks[1..]);
    } else if |a| <= |payload| {
      assert a == Frame(payload)[..|a|] == payload[..|a|];
      DrainEnd(parsed, a);
      JsSingleFrame(a, parsed, payload, chunks[1..]);
    } else {
      assert rest == [];
      assert a == Frame(payload);
      DrainFrame(parsed, payload);
      NoChunks(chunks[1..]);
    }
  }

  lemma NoChunks(chunks: seq<seq<byte>>)
    requires forall i :: 0 <= i < |chunks| ==> chunks[i] != []
    ensures Flatten(chunks) == [] ==> chunks == []
  {
  }

  lemma {:induction false} TornDownStays(parsed: seq<Line>, chunks: seq<seq<byte>>)
    ensures JsFeedAll(TornDown(parsed), chunks) == TornDown(parsed)
  {
    if chunks != [] {
      TornDownStays(parsed, chunks[1..]);
    }
  }

  // ----- the three splitters together -----------------------------------------

  /**
   * On a stream with no CR, no blank line and no line within a packet of the cap, every chunking
   * into packets gives all three splitters the same lines and the same unfinished tail.
   */
  lemma {:induction false} SplittersAgree(chunks: seq<seq<byte>>)
    requires forall i :: 0 <= i < |chunks| ==> |chunks[i]| <= PACKET_BYTES
    requires var s := Flatten(chunks);
             && (forall l :: l in Lines(s) ==> !Blank(l) && CR !in l)
             && CR !in Tail(s)
             && Fits(MAX_LINE_BYTES - PACKET_BYTES, s)
    ensures var s := Flatten(chunks);
            && PushAll([], chunks) == Pushed(Tail(s), Ok(Lines(s)))
            && ReadBytes(ReaderState([], []), s) == ReaderState(Tail(s), Lines(s))
            && JsFeedAll(Open([], []), chunks) == Open(Tail(s), Lines(s))
  {
    var s := Flatten(chunks);
    assert [] + s == s;
    FitsMeans(MAX_LINE_BYTES - PACKET_BYTES, s);
    FitsMeans(MAX_LINE_BYTES, s);
    PushAllIsPush([], chunks);
    ReaderDelivers([], s);
    PlainLines(s);
    DeliveredIdentity(Lines(s));
    StripCRIdentity(Tail(s));
    assert [] + Lines(s) == Lines(s);
    JsFeedAllIsOneFeed([], [], chunks);
    NonBlankIdentity(Lines(s));
  }

  lemma PlainLines(s: seq<byte>)
    requires forall l :: l in Lines(s) ==> !Blank(l) && CR !in l
    requires Fits(MAX_LINE_BYTES, s)
    ensures forall i :: 0 <= i < |Lines(s)| ==> 0 < |Lines(s)[i]| <= MAX_LINE_BYTES && CR !in Lines(s)[i]
  {
    FitsMeans(MAX_LINE_BYTES, s);
    forall i | 0 <= i < |Lines(s)| ensures 0 < |Lines(s)[i]| <= MAX_LINE_BYTES && CR !in Lines(s)[i] {
      assert Lines(s)[i] in Lines(s);
    }
  }

  // ----- 64-byte chunking: _writeLine and serve_blocking ----------------------

  lemma {:induction false} FlattenSnoc(chunks: seq<seq<byte>>, last: seq<byte>)
    ensures Flatten(chunks + [last]) == Flatten(chunks) + last
  {
    if chunks == [] {
      assert [last][1..] == [];
    } else {
      assert (chunks + [last])[1..] == chunks[1..] + [last];
      FlattenSnoc(chunks[1..], last);
    }
  }

  /** Full packets, except that the last may be shorter; together they are exactly the bytes. */
  ghost predicate IsPacketing(bytes: seq<byte>, packets: seq<seq<byte>>) {
    && Flatten(packets) == bytes
    && (forall i :: 0 <= i < |packets| ==> 0 < |packets[i]| <= PACKET_BYTES)
    && (forall i :: 0 <= i < |packets| - 1 ==> |packets[i]| == PACKET_BYTES)
  }

  method WritePackets(bytes: seq<byte>) returns (packets: seq<seq<byte>>)
    ensures IsPacketing(bytes, packets)
  {
    packets := [];
    var off := 0;
    while off < |bytes|
      invariant 0 <= off <= |bytes|
      invariant off < |bytes| ==> off == PACKET_BYTES * |packets|
      invariant Flatten(packets) == bytes[..off]
      invariant forall i :: 0 <= i < |packets| ==> 0 < |packets[i]| <= PACKET_BYTES
      invariant forall i :: 0 <= i < |packets| - 1 ==> |packets[i]| == PACKET_BYTES
      invariant off < |bytes| ==> forall i :: 0 <= i < |packets| ==> |packets[i]| == PACKET_BYTES
    {
      var end := if off + PACKET_BYTES <= |bytes| then off + PACKET_BYTES else |bytes|;
      FlattenSnoc(packets, bytes[off..end]);
      assert bytes[..end] == bytes[..off] + bytes[off..end];
      packets := packets + [bytes[off..end]];
      off := end;
    }
    assert bytes[..off] == bytes;
  }

  /** The chunking is the only one of its kind. */
  lemma {:induction false} PacketingUnique(bytes: seq<byte>, p: seq<seq<byte>>, q: seq<seq<byte>>)
    requires IsPacketing(bytes, p) && IsPacketing(bytes, q)
    ensures p == q
    decreases |p|
  {
    if p == [] {
      NoPackets(q);
    } else if q == [] {
      NoPackets(p);
    } else {
      PacketHead(bytes, p);
      PacketHead(bytes, q);
      PacketingUnique(bytes[|p[0]|..], p[1..], q[1..]);
    }
  }

  lemma NoPackets(p: seq<seq<byte>>)
    requires IsPacketing([], p)
    ensures p == []
  {
    NoChunks(p);
  }

  lemma PacketHead(bytes: seq<byte>, p: seq<seq<byte>>)
    requires IsPacketing(bytes, p) && p != []
    ensures |p[0]| == (if |bytes| < PACKET_BYTES then |bytes| else PACKET_BYTES)
    ensures p[0] == bytes[..|p[0]|] && IsPacketing(bytes[|p[0]|..], p[1..])
  {
    assert bytes == p[0] + Flatten(p[1..]);
    forall i | 0 <= i < |p[1..]| ensures p[1..][i] == p[i + 1] {
    }
    if |p| == 1 {
      assert Flatten(p[1..]) == [];
    }
  }

  /** What the host writes line by line, the device's reader delivers line by line. */
  lemma {:induction false} HostToDevice(payloads: seq<Line>, packets: seq<seq<byte>>)
    requires forall p :: p in payloads ==> NL !in p && CR !in p && 0 < |p| <= MAX_LINE_BYTES
    requires Flatten(packets) == Frames(payloads)
    ensures ReadBytes(ReaderState([], []), Flatten(packets)) == ReaderState([], payloads)
  {
    LinesOfFrames(payloads);
    ReaderDelivers([], Frames(payloads));
    DeliveredIdentity(payloads);
    assert [] + payloads == payloads;
  }
}
