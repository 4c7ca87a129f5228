/** Cutting a chunked byte stream into lines, as the agent process
    (src/main/agents/cli-agent-process.ts) and the VM guest channel
    (src/main/sandbox/vm-guest-bridge.ts) do. */
module LineFraming {
  import opened ByteStrings

  /** The limit on a line, which lines are skipped as blank, and which ones the reader of the lines
      fails on, given those it was handed before. */
  datatype Reader = Reader(maxLineBytes: nat, isBlank: Line -> bool, fatal: (seq<Line>, Line) -> bool)

  // ---------- the lines of a stream ----------

  /** The complete lines of a stream. */
  function Lines(s: seq<Byte>): seq<Line> {
    if s == [] then []
    else if s[|s| - 1] == NEWLINE then Lines(s[..|s| - 1]) + [Tail(s[..|s| - 1])]
    else Lines(s[..|s| - 1])
  }

  /** What follows the last line end. */
  function Tail(s: seq<Byte>): (r: Line)
    ensures |r| <= |s| && s[|s| - |r|..] == r && NEWLINE !in r
  {
    if s == [] || s[|s| - 1] == NEWLINE then [] else Tail(s[..|s| - 1]) + [s[|s| - 1]]
  }

  /** What has been handed on, and whether the reader still listens. */
  datatype Fed = Fed(delivered: seq<Line>, open: bool)

  function Hand(r: Reader, f: Fed, line: Line): Fed {
    if !f.open then f
    else if |line| > r.maxLineBytes then f.(open := false)
    else if r.isBlank(line) then f
    else Fed(f.delivered + [line], !r.fatal(f.delivered, line))
  }

  function Feed(r: Reader, lines: seq<Line>): Fed {
    if lines == [] then Fed([], true) else Hand(r, Feed(r, lines[..|lines| - 1]), lines[|lines| - 1])
  }

  /** What a stream delivers, however it is cut: its complete lines that are not blank, up to the first
      that is over the limit or that the reader fails on. */
  function Delivered(r: Reader, s: seq<Byte>): seq<Line> { Feed(r, Lines(s)).delivered }

  /** Nothing more can be delivered: the reader has failed, or the unfinished line is too long already. */
  predicate Stuck(r: Reader, s: seq<Byte>) { !Feed(r, Lines(s)).open || |Tail(s)| > r.maxLineBytes }

  // ---------- what the lines are, and which are handed on ----------

  /** Lines written out, each with its line end. */
  function Unlines(lines: seq<Line>): seq<Byte> {
    if lines == [] then [] else Unlines(lines[..|lines| - 1]) + lines[|lines| - 1] + [NEWLINE]
  }

  lemma OneMoreLine(lines: seq<Line>, line: Line)
    ensures Unlines(lines + [line]) == Unlines(lines) + line + [NEWLINE]
  {
    assert (lines + [line])[..|lines|] == lines;
  }

  lemma NothingToSplit()
    ensures Unlines(Lines([])) + Tail([]) == [] && Lines([]) == []
  {
  }

  lemma ThreeParts(a: seq<Byte>, b: seq<Byte>, c: seq<Byte>)
    ensures a + (b + c) == (a + b) + c && a + b + c + [] == a + b + c
  {
  }

  /** The lines and the tail are the stream, and no line end is inside any of them. */
  lemma {:induction false} LinesRebuild(s: seq<Byte>)
    ensures Unlines(Lines(s)) + Tail(s) == s
    ensures forall line :: line in Lines(s) ==> NEWLINE !in line
  {
    hide *;
    if s == [] {
      NothingToSplit();
    } else {
      var before, last := s[..|s| - 1], s[|s| - 1];
      assert s == before + [last];
      LinesRebuild(before);
      OneByteMore(before, last);
      if last == NEWLINE { OneMoreLine(Lines(before), Tail(before)); }
      ThreeParts(Unlines(Lines(before)), Tail(before), [last]);
    }
  }

  function NotBlank(r: Reader, lines: seq<Line>): seq<Line> {
    if lines == [] then []
    else
      var last := lines[|lines| - 1];
      NotBlank(r, lines[..|lines| - 1]) + (if r.isBlank(last) then [] else [last])
  }

  /** What a reader fails on: the first line over the limit, or the first line that it is handed and is fatal to it. */
  ghost predicate FailsAt(r: Reader, lines: seq<Line>, n: int)
    requires 0 <= n < |lines|
  {
    || |lines[n]| > r.maxLineBytes
    || (!r.isBlank(lines[n]) && r.fatal(NotBlank(r, lines[..n]), lines[n]))
  }

  ghost predicate FailsFirstAt(r: Reader, lines: seq<Line>, n: int)
    requires 0 <= n < |lines|
  {
    FailsAt(r, lines, n) && forall k :: 0 <= k < n ==> !FailsAt(r, lines, k)
  }

  ghost predicate NeverFails(r: Reader, lines: seq<Line>) { forall k :: 0 <= k < |lines| ==> !FailsAt(r, lines, k) }

  lemma FailsSame(r: Reader, init: seq<Line>, last: Line)
    ensures forall n :: 0 <= n < |init| ==>
      FailsAt(r, init + [last], n) == FailsAt(r, init, n) && (init + [last])[..n] == init[..n]
    ensures (init + [last])[..|init|] == init
    ensures NeverFails(r, init + [last]) <==> NeverFails(r, init) && !FailsAt(r, init + [last], |init|)
  {
    forall n | 0 <= n < |init|
      ensures FailsAt(r, init + [last], n) == FailsAt(r, init, n) && (init + [last])[..n] == init[..n]
    {
      assert (init + [last])[..n] == init[..n];
    }
    assert (init + [last])[..|init|] == init;
    hide FailsAt;
    if NeverFails(r, init + [last]) {
      assert forall k :: 0 <= k < |init| ==> !FailsAt(r, init + [last], k);
    }
  }

  /** The reader is handed every line that is not blank, in order, up to the first that it fails on; that one too,
      unless it is over the limit. */
  lemma {:induction false} HandedOn(r: Reader, lines: seq<Line>)
    ensures Feed(r, lines).open <==> NeverFails(r, lines)
    ensures Feed(r, lines).open ==> Feed(r, lines).delivered == NotBlank(r, lines)
    ensures forall n :: 0 <= n < |lines| && FailsFirstAt(r, lines, n) ==>
      Feed(r, lines).delivered == NotBlank(r, lines[..n]) + if |lines[n]| > r.maxLineBytes then [] else [lines[n]]
  {
    if lines != [] {
      var init, last := lines[..|lines| - 1], lines[|lines| - 1];
      assert lines == init + [last];
      HandedOn(r, init);
      FailsSame(r, init, last);
      hide FailsAt;
      forall n | 0 <= n < |lines| && FailsFirstAt(r, lines, n)
        ensures Feed(r, lines).delivered == NotBlank(r, lines[..n]) + if |lines[n]| > r.maxLineBytes
          then [] else [lines[n]]
      {
        LastFails(r, init, last, n);
      }
      LastOpen(r, init, last);
    }
  }

  lemma LastOpen(r: Reader, init: seq<Line>, last: Line)
    requires Feed(r, init).open <==> NeverFails(r, init)
    requires Feed(r, init).open ==> Feed(r, init).delivered == NotBlank(r, init)
    ensures Feed(r, init + [last]).open <==> NeverFails(r, init) && !FailsAt(r, init + [last], |init|)
    ensures Feed(r, init + [last]).open ==> Feed(r, init + [last]).delivered == NotBlank(r, init + [last])
  {
    hide NeverFails;
    assert (init + [last])[..|init|] == init;
  }

  lemma LastFails(r: Reader, init: seq<Line>, last: Line, n: nat)
    requires n < |init + [last]| && FailsFirstAt(r, init + [last], n)
    requires Feed(r, init).open <==> NeverFails(r, init)
    requires Feed(r, init).open ==> Feed(r, init).delivered == NotBlank(r, init)
    requires n < |init| && FailsFirstAt(r, init, n) ==>
      Feed(r, init).delivered == NotBlank(r, init[..n]) + if |init[n]| > r.maxLineBytes then [] else [init[n]]
    ensures var lines := init + [last];
      Feed(r, lines).delivered == NotBlank(r, lines[..n]) + if |lines[n]| > r.maxLineBytes then [] else [lines[n]]
  {
    FailsSame(r, init, last);
    if n < |init| {
      assert FailsFirstAt(r, init, n);
    } else {
      assert NeverFails(r, init);
    }
    hide NeverFails, FailsFirstAt;
  }

  // ---------- extending a stream ----------

  lemma {:induction false} LinesExtend(s: seq<Byte>, x: seq<Byte>)
    ensures Lines(s) <= Lines(s + x)
  {
    if x == [] {
      assert s + x == s;
    } else {
      assert (s + x)[..|s + x| - 1] == s + x[..|x| - 1];
      LinesExtend(s, x[..|x| - 1]);
    }
  }

  lemma OneByteMore(s: seq<Byte>, b: Byte)
    ensures Lines(s + [b]) == if b == NEWLINE then Lines(s) + [Tail(s)] else Lines(s)
    ensures Tail(s + [b]) == if b == NEWLINE then [] else Tail(s) + [b]
  {
  }

  lemma Regroup(s: seq<Byte>, x: seq<Byte>)
    requires x != []
    ensures s + x == (s + x[..|x| - 1]) + [x[|x| - 1]]
  {
  }

  lemma {:induction false} WithoutNewline(s: seq<Byte>, x: seq<Byte>)
    requires NEWLINE !in x
    ensures Lines(s + x) == Lines(s) && Tail(s + x) == Tail(s) + x
  {
    hide Lines, Tail;
    if x == [] {
      assert s + x == s;
    } else {
      var before, last := x[..|x| - 1], x[|x| - 1];
      assert last in x;
      WithoutNewline(s, before);
      OneByteMore(s + before, last);
      Regroup(s, x);
      Regroup(Tail(s), x);
    }
  }

  lemma LineEnds(s: seq<Byte>, line: Line)
    requires NEWLINE !in line && Tail(s) == []
    ensures Lines(s + line + [NEWLINE]) == Lines(s) + [line] && Tail(s + line + [NEWLINE]) == []
  {
    WithoutNewline(s, line);
    OneByteMore(s + line, NEWLINE);
    hide Lines, Tail;
  }

  lemma Associative(a: seq<Byte>, b: seq<Byte>, c: seq<Byte>)
    ensures a + (b + c) == (a + b) + c
  {
  }

  /** A stream up to its last line end. */
  lemma {:induction false} UpToLastLine(s: seq<Byte>) returns (done: seq<Byte>)
    ensures done + Tail(s) == s && Lines(done) == Lines(s) && Tail(done) == []
  {
    if s == [] {
      done := [];
    } else {
      var before, last := s[..|s| - 1], s[|s| - 1];
      assert s == before + [last];
      OneByteMore(before, last);
      hide Lines, Tail;
      if last == NEWLINE {
        done := s;
        assert s + [] == s;
      } else {
        done := UpToLastLine(before);
        Associative(done, Tail(before), [last]);
      }
    }
  }

  lemma {:induction false} ClosedStays(r: Reader, lines: seq<Line>, more: seq<Line>)
    requires !Feed(r, lines).open && lines <= more
    ensures Feed(r, more) == Feed(r, lines)
  {
    if more == lines {
    } else {
      ClosedStays(r, lines, more[..|more| - 1]);
    }
  }

  /** A stream that is stuck stays stuck and delivers nothing more. */
  lemma {:induction false} StuckStays(r: Reader, s: seq<Byte>, x: seq<Byte>)
    requires Stuck(r, s)
    ensures Stuck(r, s + x) && Delivered(r, s + x) == Delivered(r, s)
  {
    if x == [] {
      assert s + x == s;
    } else {
      var before := s + x[..|x| - 1];
      StuckStays(r, s, x[..|x| - 1]);
      assert (s + x)[..|s + x| - 1] == before;
      hide Hand;
      if x[|x| - 1] == NEWLINE {
        NothingHanded(r, Feed(r, Lines(before)), Tail(before));
      }
    }
  }

  lemma NothingHanded(r: Reader, f: Fed, line: Line)
    requires !f.open || |line| > r.maxLineBytes
    ensures !Hand(r, f, line).open && Hand(r, f, line).delivered == f.delivered
  {
  }

  /** What is delivered is never taken back. */
  lemma {:induction false} DeliveredGrows(r: Reader, s: seq<Byte>, x: seq<Byte>)
    ensures Delivered(r, s) <= Delivered(r, s + x)
    ensures Stuck(r, s) ==> Stuck(r, s + x)
  {
    if Stuck(r, s) {
      StuckStays(r, s, x);
    } else if x == [] {
      assert s + x == s;
    } else {
      DeliveredGrows(r, s, x[..|x| - 1]);
      assert (s + x)[..|s + x| - 1] == s + x[..|x| - 1];
    }
  }

  // ---------- streams cut into chunks ----------

  function Concat(chunks: seq<seq<Byte>>): seq<Byte> {
    if chunks == [] then [] else Concat(chunks[..|chunks| - 1]) + chunks[|chunks| - 1]
  }

  /** The chunk has no line end and leaves an unfinished line that is over the limit. */
  predicate Overruns(r: Reader, chunks: seq<seq<Byte>>, k: int)
    requires 0 <= k < |chunks|
  {
    NEWLINE !in chunks[k] && |Tail(Concat(chunks[..k + 1]))| > r.maxLineBytes
  }

  /** When an agent process has failed on its output: a complete line of the stream makes it, or a chunk that
      overruns the limit. */
  ghost predicate Failed(r: Reader, chunks: seq<seq<Byte>>) {
    || !Feed(r, Lines(Concat(chunks))).open
    || exists k :: 0 <= k < |chunks| && Overruns(r, chunks, k)
  }

  lemma OneChunkMore(r: Reader, chunks: seq<seq<Byte>>, chunk: seq<Byte>)
    ensures Concat(chunks + [chunk]) == Concat(chunks) + chunk
    ensures forall k :: 0 <= k < |chunks| ==> Overruns(r, chunks + [chunk], k) == Overruns(r, chunks, k)
    ensures Overruns(r, chunks + [chunk], |chunks|)
      <==> NEWLINE !in chunk && |Tail(Concat(chunks) + chunk)| > r.maxLineBytes
  {
    hide Tail;
    assert (chunks + [chunk])[..|chunks|] == chunks;
    assert (chunks + [chunk])[..|chunks| + 1] == chunks + [chunk];
    forall k | 0 <= k < |chunks| ensures Overruns(r, chunks + [chunk], k) == Overruns(r, chunks, k) {
      assert (chunks + [chunk])[..k + 1] == chunks[..k + 1];
    }
  }

  lemma FailedMore(r: Reader, chunks: seq<seq<Byte>>, chunk: seq<Byte>)
    ensures Failed(r, chunks) ==> Failed(r, chunks + [chunk])
    ensures !Failed(r, chunks) ==>
      (Failed(r, chunks + [chunk])
       <==> !Feed(r, Lines(Concat(chunks) + chunk)).open
            || (NEWLINE !in chunk && |Tail(Concat(chunks) + chunk)| > r.maxLineBytes))
  {
    OneChunkMore(r, chunks, chunk);
    LinesExtend(Concat(chunks), chunk);
    if !Feed(r, Lines(Concat(chunks))).open { ClosedStays(r, Lines(Concat(chunks)), Lines(Concat(chunks) + chunk)); }
    hide Concat, Overruns, Feed, Lines, Tail;
  }

  lemma NothingYet(r: Reader)
    ensures Lines([]) == [] && Tail([]) == [] && Feed(r, []) == Fed([], true)
  {
  }

  lemma OneLineMore(r: Reader, lines: seq<Line>, line: Line)
    ensures Feed(r, lines + [line]) == Hand(r, Feed(r, lines), line)
  {
    hide Hand;
    assert (lines + [line])[..|lines|] == lines;
  }

  lemma EmptyLineIsSkipped(r: Reader)
    requires r.isBlank([])
    ensures Tail([NEWLINE]) == [] && Feed(r, Lines([NEWLINE])).open
  {
    hide Lines, Tail, Feed;
    NothingYet(r);
    OneByteMore([], NEWLINE);
    OneLineMore(r, [], []);
    assert [] + [NEWLINE] == [NEWLINE];
  }

  lemma EmptyLineFirst(r: Reader, long: seq<Byte>)
    requires r.isBlank([]) && NEWLINE !in long
    ensures Feed(r, Lines([NEWLINE] + long)).open && Tail([NEWLINE] + long) == long
  {
    hide Lines, Tail, Feed;
    EmptyLineIsSkipped(r);
    WithoutNewline([NEWLINE], long);
    assert [] + long == long;
  }

  /** What one chunk, and another after it, make of a process. */
  lemma OneChunk(r: Reader, x: seq<Byte>)
    ensures Concat([x]) == x
    ensures Overruns(r, [x], 0) <==> NEWLINE !in x && |Tail(x)| > r.maxLineBytes
  {
    hide Tail;
    assert [x][..0] == [] && [x][..1] == [x];
    assert [] + x == x;
  }

  lemma TwoChunks(r: Reader, x: seq<Byte>, y: seq<Byte>)
    ensures Concat([x, y]) == x + y
    ensures Overruns(r, [x, y], 1) <==> NEWLINE !in y && |Tail(x + y)| > r.maxLineBytes
  {
    OneChunk(r, x);
    OneChunkMore(r, [x], y);
    hide Concat, Overruns, Tail;
    assert [x] + [y] == [x, y];
  }

  /** One stream cut in two ways: the same lines, and only one cutting makes the process fail. */
  lemma FailureDependsOnCutting(r: Reader, long: seq<Byte>)
    requires r.isBlank([]) && NEWLINE !in long && |long| > r.maxLineBytes
    ensures Concat([[NEWLINE] + long]) == Concat([[NEWLINE], long])
    ensures !Failed(r, [[NEWLINE] + long]) && Failed(r, [[NEWLINE], long])
  {
    hide Feed, Lines, Tail, Concat, Overruns;
    EmptyLineFirst(r, long);
    OneChunk(r, [NEWLINE] + long);
    TwoChunks(r, [NEWLINE], long);
    assert ([NEWLINE] + long)[0] == NEWLINE;
  }

  /** A failed process is stuck, however its output was cut. */
  lemma {:induction false} FailedIsStuck(r: Reader, chunks: seq<seq<Byte>>)
    requires Failed(r, chunks)
    ensures Stuck(r, Concat(chunks))
  {
    if chunks != [] {
      var before, last := chunks[..|chunks| - 1], chunks[|chunks| - 1];
      assert chunks == before + [last];
      OneChunkMore(r, before, last);
      FailedMore(r, before, last);
      if Failed(r, before) {
        FailedIsStuck(r, before);
        StuckStays(r, Concat(before), last);
      }
    }
  }

  /** A stream without any line end: its last chunk shows that it is over the limit. */
  lemma OneLongLineFails(r: Reader, chunks: seq<seq<Byte>>)
    requires NEWLINE !in Concat(chunks) && |Tail(Concat(chunks))| > r.maxLineBytes
    ensures Failed(r, chunks)
  {
    var k := |chunks| - 1;
    assert chunks[..k + 1] == chunks;
    hide Tail;
    assert Overruns(r, chunks, k);
  }

  /** One chunk hides an unfinished line that is too long, a chunk of its own shows it. */
  lemma LongTailCutTwice(r: Reader, s: seq<Byte>) returns (done: seq<Byte>)
    requires Feed(r, Lines(s)).open && |Tail(s)| > r.maxLineBytes && NEWLINE in s
    ensures Concat([s]) == s && Concat([done, Tail(s)]) == s
    ensures !Failed(r, [s]) && Failed(r, [done, Tail(s)])
  {
    hide Feed, Lines, Concat, Overruns;
    done := UpToLastLine(s);
    OneChunk(r, s);
    TwoChunks(r, done, Tail(s));
    hide Tail;
    assert Overruns(r, [done, Tail(s)], 1);
  }

  /** The process fails on every cutting of the stream, or on none. */
  ghost predicate CuttingIsAllOne(r: Reader, s: seq<Byte>) {
    forall a, b :: Concat(a) == s && Concat(b) == s ==> (Failed(r, a) <==> Failed(r, b))
  }

  /** When the failure is that of the stream: unless the stream ends in an unfinished line over the limit, behind
      lines that nothing failed on. */
  lemma FailureIsOfTheStream(r: Reader, s: seq<Byte>)
    ensures CuttingIsAllOne(r, s)
      <==> !Feed(r, Lines(s)).open || |Tail(s)| <= r.maxLineBytes || NEWLINE !in s
  {
    hide Feed, Lines, Tail, Concat, Overruns;
    if Feed(r, Lines(s)).open && |Tail(s)| > r.maxLineBytes && NEWLINE in s {
      var done := LongTailCutTwice(r, s);
    } else {
      forall a, b | Concat(a) == s && Concat(b) == s ensures Failed(r, a) <==> Failed(r, b) {
        SameFailure(r, a, b);
      }
    }
  }

  lemma SameFailure(r: Reader, a: seq<seq<Byte>>, b: seq<seq<Byte>>)
    requires Concat(a) == Concat(b)
    requires !Feed(r, Lines(Concat(a))).open || |Tail(Concat(a))| <= r.maxLineBytes || NEWLINE !in Concat(a)
    ensures Failed(r, a) <==> Failed(r, b)
  {
    hide Feed, Lines, Tail, Concat, Overruns;
    if Feed(r, Lines(Concat(a))).open {
      if |Tail(Concat(a))| > r.maxLineBytes {
        OneLongLineFails(r, a);
        OneLongLineFails(r, b);
      } else {
        if Failed(r, a) { FailedIsStuck(r, a); }
        if Failed(r, b) { FailedIsStuck(r, b); }
      }
    }
  }

  // ---------- the two consumers ----------

  /** The position of the first newline, or -1. */
  function IndexOfNewline(s: seq<Byte>): (i: int)
    ensures -1 <= i < |s|
    ensures i >= 0 ==> s[i] == NEWLINE && NEWLINE !in s[..i]
    ensures i < 0 ==> NEWLINE !in s
  {
    if s == [] then -1
    else if s[0] == NEWLINE then 0
    else
      var rest := IndexOfNewline(s[1..]);
      assert rest >= 0 ==> s[..rest + 1] == [s[0]] + s[1..][..rest];
      if rest < 0 then -1 else rest + 1
  }

  /** A consumer's buffer after `done`, a stream cut after a line end, is what it has yet to cut. */
  ghost predicate Pending(stream: seq<Byte>, done: seq<Byte>, buffer: seq<Byte>) {
    done + buffer == stream && Tail(done) == []
  }

  lemma CutLine(r: Reader, stream: seq<Byte>, done: seq<Byte>, buffer: seq<Byte>, i: nat)
    requires Pending(stream, done, buffer) && i < |buffer| && buffer[i] == NEWLINE && NEWLINE !in buffer[..i]
    ensures Pending(stream, done + buffer[..i + 1], buffer[i + 1..])
    ensures Feed(r, Lines(done + buffer[..i + 1])) == Hand(r, Feed(r, Lines(done)), buffer[..i])
  {
    hide Lines, Tail, Hand;
    assert buffer == buffer[..i + 1] + buffer[i + 1..];
    assert done + buffer[..i + 1] == done + buffer[..i] + [NEWLINE];
    LineEnds(done, buffer[..i]);
  }

  /** Once the reader has failed on what was cut, the rest of the stream does not matter. */
  lemma FailedEarly(r: Reader, stream: seq<Byte>, done: seq<Byte>, buffer: seq<Byte>)
    requires Pending(stream, done, buffer) && !Feed(r, Lines(done)).open
    ensures Stuck(r, stream) && Delivered(r, stream) == Feed(r, Lines(done)).delivered
    ensures !Feed(r, Lines(stream)).open
  {
    LinesExtend(done, buffer);
    ClosedStays(r, Lines(done), Lines(stream));
  }

  lemma AllCut(r: Reader, stream: seq<Byte>, done: seq<Byte>, buffer: seq<Byte>)
    requires Pending(stream, done, buffer) && NEWLINE !in buffer
    ensures Lines(stream) == Lines(done) && Tail(stream) == buffer
  {
    WithoutNewline(done, buffer);
  }

  lemma StartOfCut(stream: seq<Byte>, chunk: seq<Byte>) returns (done: seq<Byte>)
    ensures Pending(stream + chunk, done, Tail(stream) + chunk) && Lines(done) == Lines(stream)
  {
    hide Lines, Tail;
    done := UpToLastLine(stream);
    Associative(done, Tail(stream), chunk);
  }

  /** The VM guest channel: it looks at the unfinished line after every chunk. */
  class GuestChannel {
    const reader: Reader
    var buffer: seq<Byte>
    var closed: bool
    var delivered: seq<Line>
    ghost var stream: seq<Byte>

    constructor (reader: Reader)
      ensures Valid() && stream == [] && !closed && this.reader == reader
    {
      this.reader, buffer, closed, delivered, stream := reader, [], false, [], [];
    }

    ghost predicate Valid()
      reads this
    {
      && delivered == Delivered(reader, stream)
      && (closed <==> Stuck(reader, stream))
      && (!closed ==> buffer == Tail(stream))
    }

    /** Whatever the chunks, the lines handed on are those of the stream, and the channel is closed
        exactly when the stream is stuck. */
    method Consume(chunk: seq<Byte>)
      requires Valid()
      modifies this
      ensures Valid() && stream == old(stream) + chunk
    {
      hide Lines, Tail, Feed, Hand, IndexOfNewline;
      ghost var whole := stream + chunk;
      if closed {
        StuckStays(reader, stream, chunk);
        stream := whole;
        return;
      }
      ghost var done := StartOfCut(stream, chunk);
      stream := whole;
      buffer := buffer + chunk;
      while true
        invariant !closed && stream == whole && Pending(whole, done, buffer)
        invariant Feed(reader, Lines(done)) == Fed(delivered, true)
        decreases |buffer|
      {
        var newline := IndexOfNewline(buffer);
        if newline < 0 {
          AllCut(reader, whole, done, buffer);
          if |buffer| > reader.maxLineBytes { closed := true; }
          return;
        }
        CutLine(reader, whole, done, buffer, newline);
        var rawLine := buffer[..newline];
        done := done + buffer[..newline + 1];
        buffer := buffer[newline + 1..];
        HandCases(reader, delivered, rawLine);
        if |rawLine| > reader.maxLineBytes {
          closed := true;
          FailedEarly(reader, whole, done, buffer);
          return;
        }
        if reader.isBlank(rawLine) { continue; }
        closed := reader.fatal(delivered, rawLine);
        delivered := delivered + [rawLine];
        if closed {
          FailedEarly(reader, whole, done, buffer);
          return;
        }
      }
    }
  }

  lemma HandCases(r: Reader, delivered: seq<Line>, line: Line)
    ensures Hand(r, Fed(delivered, true), line) ==
      if |line| > r.maxLineBytes then Fed(delivered, false)
      else if r.isBlank(line) then Fed(delivered, true)
      else Fed(delivered + [line], !r.fatal(delivered, line))
  {
  }

  /** The agent process: it looks at an unfinished line only in a buffer without any line end, and
      goes on cutting, without handing on, after the reader has failed. */
  class AgentOutput {
    const reader: Reader
    var lineBuffer: seq<Byte>
    var failed: bool
    var delivered: seq<Line>
    ghost var chunks: seq<seq<Byte>>
    ghost var stream: seq<Byte>

    constructor (reader: Reader)
      ensures Valid() && chunks == [] && this.reader == reader
    {
      this.reader, lineBuffer, failed, delivered, chunks, stream := reader, [], false, [], [], [];
    }

    ghost predicate Valid()
      reads this
    {
      && stream == Concat(chunks) && delivered == Delivered(reader, stream)
      && (failed <==> Failed(reader, chunks)) && (failed ==> Stuck(reader, stream))
      && (!failed ==> lineBuffer == Tail(stream) && Feed(reader, Lines(stream)).open)
    }

    /** The lines handed on are those of the stream, whatever the chunks. Whether the process has failed
        is not: an unfinished line that is too long is noticed only by a chunk without a line end. */
    method ConsumeOutput(chunk: seq<Byte>)
      requires Valid()
      modifies this
      ensures Valid() && chunks == old(chunks) + [chunk] && stream == old(stream) + chunk
    {
      OneChunkMore(reader, chunks, chunk);
      FailedMore(reader, chunks, chunk);
      CutChunk(chunk);
      chunks := chunks + [chunk];
    }

    /** What it does with the chunk. */
    method CutChunk(chunk: seq<Byte>)
      requires Valid()
      modifies `lineBuffer, `failed, `delivered, `stream
      ensures stream == old(stream) + chunk && delivered == Delivered(reader, stream)
      ensures failed ==> Stuck(reader, stream)
      ensures !failed ==> lineBuffer == Tail(stream) && Feed(reader, Lines(stream)).open
      ensures old(failed) ==> failed
      ensures !old(failed) ==>
        (failed <==> !Feed(reader, Lines(stream)).open || (NEWLINE !in chunk && |Tail(stream)| > reader.maxLineBytes))
    {
      hide Lines, Tail, Feed, Hand, Failed, Concat, IndexOfNewline;
      ghost var whole := stream + chunk;
      if failed {
        StuckStays(reader, stream, chunk);
        stream := whole;
        return;
      }
      ghost var done := StartOfCut(stream, chunk);
      stream := whole;
      lineBuffer := lineBuffer + chunk;
      var newline := IndexOfNewline(lineBuffer);
      if newline < 0 { AllCut(reader, whole, done, lineBuffer); }
      if |lineBuffer| > reader.maxLineBytes && newline < 0 {
        failed := true;
        return;
      }
      while newline >= 0
        invariant stream == whole && Pending(whole, done, lineBuffer) && newline == IndexOfNewline(lineBuffer)
        invariant Feed(reader, Lines(done)) == Fed(delivered, !failed)
        invariant newline >= 0 ==> NEWLINE in old(lineBuffer) + chunk
        invariant failed ==> NEWLINE in old(lineBuffer) + chunk
        invariant NEWLINE !in old(lineBuffer) + chunk ==> |lineBuffer| <= reader.maxLineBytes
        decreases |lineBuffer|
      {
        CutLine(reader, whole, done, lineBuffer, newline);
        var line := lineBuffer[..newline];
        done := done + lineBuffer[..newline + 1];
        lineBuffer := lineBuffer[newline + 1..];
        HandCases(reader, delivered, line);
        if |line| > reader.maxLineBytes {
          if failed { NothingHanded(reader, Fed(delivered, false), line); }
          failed := true;
          FailedEarly(reader, whole, done, lineBuffer);
          return;
        }
        ClosedHand(reader, delivered, line);
        ConsumeLine(line);
        newline := IndexOfNewline(lineBuffer);
      }
      AllCut(reader, whole, done, lineBuffer);
    }

    method ConsumeLine(line: Line)
      modifies `failed, `delivered
      ensures old(failed) || reader.isBlank(line) ==> failed == old(failed) && delivered == old(delivered)
      ensures !(old(failed) || reader.isBlank(line)) ==>
        failed == reader.fatal(old(delivered), line) && delivered == old(delivered) + [line]
    {
      if failed { return; }
      if reader.isBlank(line) { return; }
      failed := reader.fatal(delivered, line);
      delivered := delivered + [line];
    }
  }

  lemma ClosedHand(r: Reader, delivered: seq<Line>, line: Line)
    ensures Hand(r, Fed(delivered, false), line) == Fed(delivered, false)
  {
  }
}
