/** A log file cut short in the middle of its last write, loaded and appended to again
    (src/main/persistence/activity-log-store.ts). */
module TornWrites {
  import opened ByteStrings
  import opened Options

  const RETURN: Byte := 13

  /** How a record is written on one line, and read back; its number; and whether it is accepted when it is read,
      which nothing checks when it is written. */
  datatype Codec<!R> = Codec(encode: R -> Line, decode: Line -> Option<R>, isSpace: Byte -> bool, number: R -> int,
    accepts: R -> bool)

  /** A record is read back from its line when it is accepted; no proper prefix of the line is a record, nor is the
      line with another one joined to it. */
  ghost predicate Faithful<R(!new)>(c: Codec<R>) {
    && (forall r :: c.decode(c.encode(r)) == if c.accepts(r) then Some(r) else None)
    && (forall r :: OneLine(c, c.encode(r)))
    && (forall r, j {:trigger c.decode(c.encode(r)[..j])} :: 0 <= j < |c.encode(r)| ==>
      c.decode(c.encode(r)[..j]) == None)
    && (forall r, s {:trigger c.encode(r) + c.encode(s)} :: c.decode(c.encode(r) + c.encode(s)) == None)
  }

  predicate OneLine<R>(c: Codec<R>, line: Line) {
    line != [] && NEWLINE !in line && RETURN !in line && !c.isSpace(line[0])
  }

  predicate Blank<R>(c: Codec<R>, line: Line) { forall i :: 0 <= i < |line| ==> c.isSpace(line[i]) }

  /** The pieces between line ends, each a newline with or without a return before it. */
  function Split(text: seq<Byte>): (r: seq<Line>)
    ensures r != []
  {
    if text == [] then [[]]
    else if text[0] == NEWLINE then [[]] + Split(text[1..])
    else if text[0] == RETURN && |text| > 1 && text[1] == NEWLINE then [[]] + Split(text[2..])
    else
      var rest := Split(text[1..]);
      [[text[0]] + rest[0]] + rest[1..]
  }

  function Filled<R>(c: Codec<R>, lines: seq<Line>): (r: seq<Line>)
    ensures forall i :: 0 <= i < |r| ==> !Blank(c, r[i])
  {
    if lines == [] then []
    else Filled(c, lines[..|lines| - 1]) + (if Blank(c, lines[|lines| - 1]) then [] else [lines[|lines| - 1]])
  }

  /** The lines of a file that hold something. */
  function Entries<R>(c: Codec<R>, text: seq<Byte>): seq<Line> { Filled(c, Split(text)) }

  function Joined(lines: seq<Line>): seq<Byte> {
    if lines == [] then [] else Joined(lines[..|lines| - 1]) + lines[|lines| - 1] + [NEWLINE]
  }

  function Encoded<R>(c: Codec<R>, records: seq<R>): (r: seq<Line>)
    ensures |r| == |records| && forall i :: 0 <= i < |r| ==> r[i] == c.encode(records[i])
  {
    seq(|records|, i requires 0 <= i < |records| => c.encode(records[i]))
  }

  /** The text records are appended as. */
  function Written<R>(c: Codec<R>, records: seq<R>): seq<Byte> { Joined(Encoded(c, records)) }

  /** Every record but the last is accepted. */
  predicate Intact<R>(c: Codec<R>, records: seq<R>) {
    forall i :: 0 <= i < |records| - 1 ==> c.accepts(records[i])
  }

  /** The records but for a last one that is refused. */
  function Accepted<R>(c: Codec<R>, records: seq<R>): seq<R> {
    if records != [] && !c.accepts(records[|records| - 1]) then records[..|records| - 1] else records
  }

  predicate Numbered<R>(c: Codec<R>, records: seq<R>) {
    && (forall i :: 1 <= i < |records| ==> c.number(records[i - 1]) < c.number(records[i]))
    && (records != [] ==> c.number(records[0]) >= 0)
  }

  predicate Decoded<R(==)>(c: Codec<R>, lines: seq<Line>, records: seq<R>) {
    |lines| == |records| && forall i :: 0 <= i < |lines| ==> c.decode(lines[i]) == Some(records[i])
  }

  /** What loading a text gives: its records, and the text the file is left with. */
  ghost predicate Loads<R(!new)>(c: Codec<R>, text: seq<Byte>, records: seq<R>, after: seq<Byte>) {
    var entries := Entries(c, text);
    var n := |entries|;
    && Numbered(c, records)
    && if n > 0 && c.decode(entries[n - 1]).None?
       then Decoded(c, entries[..n - 1], records) && after == Joined(entries[..n - 1])
       else Decoded(c, entries, records) && after == text
  }

  // ---------- lines and entries ----------

  predicate Plain(line: Line) { NEWLINE !in line && RETURN !in line }

  lemma {:induction false} SplitPlain(line: Line)
    requires Plain(line)
    ensures Split(line) == [line]
  {
    if line != [] {
      SplitPlain(line[1..]);
      assert [line[0]] + line[1..] == line;
    }
  }

  lemma {:induction false} SplitLine(line: Line, text: seq<Byte>)
    requires Plain(line)
    ensures Split(line + [NEWLINE] + text) == [line] + Split(text)
  {
    var whole := line + [NEWLINE] + text;
    if line == [] {
      assert whole[1..] == text;
    } else {
      SplitLine(line[1..], text);
      assert whole[1..] == line[1..] + [NEWLINE] + text;
      assert [line[0]] + line[1..] == line;
    }
  }

  /** A return before a newline belongs to the line end. */
  lemma {:induction false} SplitReturn(line: Line, text: seq<Byte>)
    requires Plain(line)
    ensures Split(line + [RETURN, NEWLINE] + text) == [line] + Split(text)
  {
    var whole := line + [RETURN, NEWLINE] + text;
    if line == [] {
      assert whole[2..] == text;
    } else {
      SplitReturn(line[1..], text);
      assert whole[1..] == line[1..] + [RETURN, NEWLINE] + text;
      assert [line[0]] + line[1..] == line;
    }
  }

  /** The entries of a text are its lines, whatever their ends, that are not blank. */
  lemma EntriesLine<R>(c: Codec<R>, line: Line, text: seq<Byte>)
    requires Plain(line)
    ensures Entries(c, line + [NEWLINE] + text) == (if Blank(c, line) then [] else [line]) + Entries(c, text)
    ensures Entries(c, line + [RETURN, NEWLINE] + text) == (if Blank(c, line) then [] else [line]) + Entries(c, text)
  {
    SplitLine(line, text);
    SplitReturn(line, text);
    FilledFirst(c, line, Split(text));
  }

  lemma NoneFilled<R>(c: Codec<R>)
    ensures Filled(c, []) == []
  {
  }

  lemma {:induction false} FilledFirst<R>(c: Codec<R>, line: Line, lines: seq<Line>)
    ensures Filled(c, [line] + lines) == (if Blank(c, line) then [] else [line]) + Filled(c, lines)
  {
    hide *;
    var first := if Blank(c, line) then [] else [line];
    if lines == [] {
      NoneFilled(c);
      FilledOneMore(c, [], line);
      assert [] + [line] == [line] + [];
      assert [] + first == first + [];
    } else {
      var init, last := lines[..|lines| - 1], lines[|lines| - 1];
      FilledFirst(c, line, init);
      FilledOneMore(c, init, last);
      FilledOneMore(c, [line] + init, last);
      assert init + [last] == lines && ([line] + init) + [last] == [line] + lines;
      var more := if Blank(c, last) then [] else [last];
      assert (first + Filled(c, init)) + more == first + (Filled(c, init) + more);
    }
  }

  lemma OneLineMore(lines: seq<Line>, line: Line)
    ensures Joined(lines + [line]) == Joined(lines) + line + [NEWLINE]
  {
    assert (lines + [line])[..|lines|] == lines;
  }

  lemma Regroup(head: seq<Byte>, a: Line, b: Line, tail: seq<Byte>)
    ensures head + (a + b) + [NEWLINE] + tail == head + a + (b + [NEWLINE] + tail)
    ensures head + a + [NEWLINE] + tail == head + (a + [NEWLINE] + tail)
    ensures [] + b + [NEWLINE] == b + [NEWLINE]
  {
  }

  lemma {:induction false} SplitJoined(lines: seq<Line>, text: seq<Byte>)
    requires forall i :: 0 <= i < |lines| ==> Plain(lines[i])
    ensures Split(Joined(lines) + text) == lines + Split(text)
  {
    hide Split, Plain;
    if lines == [] {
      assert Joined(lines) + text == text;
    } else {
      hide Joined;
      var init, last := lines[..|lines| - 1], lines[|lines| - 1];
      assert lines == init + [last];
      OneLineMore(init, last);
      Regroup(Joined(init), last, [], text);
      SplitJoined(init, last + [NEWLINE] + text);
      SplitLine(last, text);
      assert init + ([last] + Split(text)) == lines + Split(text);
    }
  }

  lemma {:induction false} FilledAll<R>(c: Codec<R>, lines: seq<Line>)
    requires forall i :: 0 <= i < |lines| ==> !Blank(c, lines[i])
    ensures Filled(c, lines) == lines
  {
    if lines != [] { FilledAll(c, lines[..|lines| - 1]); }
  }

  /** The entries of whole lines followed by a piece without a line end. */
  lemma EntriesOf<R>(c: Codec<R>, lines: seq<Line>, piece: Line)
    requires forall i :: 0 <= i < |lines| ==> OneLine(c, lines[i])
    requires piece == [] || OneLine(c, piece)
    ensures Entries(c, Joined(lines) + piece) == if piece == [] then lines else lines + [piece]
  {
    forall i | 0 <= i < |lines| ensures Plain(lines[i]) && !Blank(c, lines[i]) { OneLineIsPlain(c, lines[i]); }
    if piece != [] { OneLineIsPlain(c, piece); }
    hide OneLine, Plain, Blank, Split, Joined, Filled;
    EmptyIsPlain(c);
    SplitJoined(lines, piece);
    SplitPlain(piece);
    FilledAll(c, lines);
    FilledOneMore(c, lines, piece);
  }

  lemma OneLineIsPlain<R>(c: Codec<R>, line: Line)
    requires OneLine(c, line)
    ensures Plain(line) && !Blank(c, line)
  {
  }

  lemma EmptyIsPlain<R>(c: Codec<R>)
    ensures Plain([]) && Blank(c, [])
  {
  }

  lemma FilledOneMore<R>(c: Codec<R>, lines: seq<Line>, line: Line)
    ensures Filled(c, lines + [line]) == Filled(c, lines) + if Blank(c, line) then [] else [line]
  {
    assert (lines + [line])[..|lines|] == lines;
  }

  // ---------- where a cut falls ----------

  lemma WrittenOneMore<R>(c: Codec<R>, records: seq<R>, k: nat)
    requires k < |records|
    ensures Written(c, records[..k + 1]) == Written(c, records[..k]) + c.encode(records[k]) + [NEWLINE]
  {
    assert Encoded(c, records[..k + 1])[..k] == Encoded(c, records[..k]);
  }

  /** The number of records whose whole text lies in the first `n` bytes. */
  function Survivors<R>(c: Codec<R>, records: seq<R>, n: nat): (r: nat)
    ensures r <= |records|
  {
    if records == [] then 0
    else if |Written(c, records)| - 1 <= n then |records|
    else Survivors(c, records[..|records| - 1], n)
  }

  /** The records that a load finds in the first `n` bytes. */
  function Survived<R>(c: Codec<R>, records: seq<R>, n: nat): seq<R> {
    Accepted(c, records[..Survivors(c, records, n)])
  }

  /** The cut falls right after the text of a record that is accepted, before its newline. */
  ghost predicate BeforeNewline<R>(c: Codec<R>, records: seq<R>, n: nat) {
    exists m :: 0 < m <= |records| && n == |Written(c, records[..m])| - 1 && c.accepts(records[m - 1])
  }

  lemma {:induction false} LongerIsLonger<R>(c: Codec<R>, records: seq<R>, k: nat, m: nat)
    requires k <= m <= |records|
    ensures |Written(c, records[..k])| + (m - k) <= |Written(c, records[..m])|
    ensures k < m ==> |Written(c, records[..k])| + |c.encode(records[k])| + 1 <= |Written(c, records[..m])|
    decreases m - k
  {
    hide Written;
    if k < m {
      WrittenOneMore(c, records, k);
      LongerIsLonger(c, records, k + 1, m);
    }
  }

  lemma {:induction false} SurvivorsAre<R>(c: Codec<R>, records: seq<R>, n: nat, k: nat)
    requires k <= |records| && (k == 0 || |Written(c, records[..k])| - 1 <= n)
    requires k < |records| ==> n < |Written(c, records[..k + 1])| - 1
    ensures Survivors(c, records, n) == k
  {
    hide Written;
    if k < |records| {
      var before := records[..|records| - 1];
      LongerIsLonger(c, records, k + 1, |records|);
      assert records[..|records|] == records;
      assert before[..k] == records[..k];
      if k < |before| { assert before[..k + 1] == records[..k + 1]; }
      SurvivorsAre(c, before, n, k);
    } else {
      assert records[..k] == records;
    }
  }

  /** A cut leaves whole lines and a piece of the next record's text, perhaps empty, perhaps all. */
  lemma {:induction false} CutPoint<R>(c: Codec<R>, records: seq<R>, n: nat) returns (k: nat, piece: Line)
    requires n <= |Written(c, records)|
    ensures k <= |records| && Written(c, records)[..n] == Written(c, records[..k]) + piece
    ensures piece != [] ==> k < |records| && piece <= c.encode(records[k])
  {
    hide Written;
    if n == |Written(c, records)| {
      k, piece := |records|, [];
      assert records[..k] == records;
    } else {
      EmptyIsNothing(c, records);
      var last := |records| - 1;
      var before := records[..last];
      WrittenOneMore(c, records, last);
      assert records[..last + 1] == records;
      var start := |Written(c, before)|;
      if n <= start {
        k, piece := CutPoint(c, before, n);
        assert before[..k] == records[..k];
        assert Written(c, records)[..n] == Written(c, before)[..n];
      } else {
        k, piece := last, c.encode(records[last])[..n - start];
      }
    }
  }

  lemma EmptyIsNothing<R>(c: Codec<R>, records: seq<R>)
    ensures records == [] <==> Written(c, records) == []
  {
  }

  /** The piece is all of a record's text exactly when the cut falls before its newline. */
  lemma Tear<R(!new)>(c: Codec<R>, records: seq<R>, n: nat) returns (k: nat, piece: Line)
    requires Faithful(c) && n <= |Written(c, records)|
    ensures k <= |records| && Written(c, records)[..n] == Written(c, records[..k]) + piece
    ensures piece != [] ==> k < |records| && piece <= c.encode(records[k])
    ensures BeforeNewline(c, records, n)
      <==> k < |records| && piece == c.encode(records[k]) && c.accepts(records[k])
    ensures Survivors(c, records, n) == if k < |records| && piece == c.encode(records[k]) then k + 1 else k
  {
    hide Written, Survivors;
    k, piece := CutPoint(c, records, n);
    assert n == |Written(c, records[..k])| + |piece|;
    if k < |records| {
      assert OneLine(c, c.encode(records[k]));
      WrittenOneMore(c, records, k);
    }
    if k < |records| && piece == c.encode(records[k]) {
      assert n == |Written(c, records[..k + 1])| - 1;
      forall m | 0 < m <= |records| && m != k + 1 ensures n != |Written(c, records[..m])| - 1 {
        if m <= k { LongerIsLonger(c, records, m, k); } else { LongerIsLonger(c, records, k + 1, m); }
      }
      if k + 1 < |records| { LongerIsLonger(c, records, k + 1, k + 2); }
      SurvivorsAre(c, records, n, k + 1);
    } else {
      forall m | 0 < m <= |records| ensures n != |Written(c, records[..m])| - 1 {
        if m <= k { LongerIsLonger(c, records, m, k); } else { LongerIsLonger(c, records, k + 1, m); }
      }
      SurvivorsAre(c, records, n, k);
    }
  }

  // ---------- loading what a cut left ----------

  lemma AcceptedAll<R>(c: Codec<R>, records: seq<R>)
    requires Intact(c, records)
    ensures forall i :: 0 <= i < |Accepted(c, records)| ==> c.accepts(Accepted(c, records)[i])
    ensures Accepted(c, records) <= records && |Accepted(c, records)| >= |records| - 1
  {
  }

  lemma EntriesWritten<R(!new)>(c: Codec<R>, records: seq<R>)
    requires Faithful(c)
    ensures Entries(c, Written(c, records)) == Encoded(c, records)
  {
    forall i | 0 <= i < |records| ensures OneLine(c, Encoded(c, records)[i]) {
      assert OneLine(c, c.encode(records[i]));
    }
    hide Faithful, Entries, Encoded, Joined, OneLine;
    EntriesOf(c, Encoded(c, records), []);
    assert Joined(Encoded(c, records)) + [] == Joined(Encoded(c, records));
  }

  lemma AcceptedDecode<R(!new)>(c: Codec<R>, records: seq<R>)
    requires Faithful(c) && Intact(c, records)
    ensures var n := |Accepted(c, records)|;
      && n <= |records| && Encoded(c, records)[..n] == Encoded(c, Accepted(c, records))
      && Decoded(c, Encoded(c, records)[..n], Accepted(c, records))
      && (records != [] ==> (c.decode(Encoded(c, records)[|records| - 1]).None? <==> n == |records| - 1))
      && (n == |records| || n == |records| - 1)
  {
    AcceptedAll(c, records);
    var n := |Accepted(c, records)|;
    assert Encoded(c, records)[..n] == Encoded(c, Accepted(c, records));
    forall i | 0 <= i < n ensures c.decode(Encoded(c, records)[i]) == Some(records[i]) {
      assert c.accepts(Accepted(c, records)[i]);
    }
  }

  lemma AcceptedNumbers<R>(c: Codec<R>, records: seq<R>)
    requires Numbered(c, records)
    ensures Numbered(c, Accepted(c, records))
  {
  }

  /** Whole lines load as they are, but for a last record that is refused. */
  lemma WholeLoads<R(!new)>(c: Codec<R>, records: seq<R>)
    requires Faithful(c) && Numbered(c, records) && Intact(c, records)
    ensures Loads(c, Written(c, records), Accepted(c, records), Written(c, Accepted(c, records)))
  {
    EntriesWritten(c, records);
    AcceptedDecode(c, records);
    AcceptedNumbers(c, records);
    hide Faithful, Entries, Encoded, Joined, Decoded, Numbered, Intact, Accepted;
    var lines := Encoded(c, records);
    assert lines[..|records|] == lines;
  }

  /** A torn last line is dropped, and so is one that is refused; a last line without its newline still loads, and
      stays so. */
  lemma PieceLoads<R(!new)>(c: Codec<R>, records: seq<R>, r: R, piece: Line)
    requires Faithful(c) && Numbered(c, records) && piece != [] && piece <= c.encode(r)
    requires forall i :: 0 <= i < |records| ==> c.accepts(records[i])
    ensures piece != c.encode(r) || !c.accepts(r) ==>
      Loads(c, Written(c, records) + piece, records, Written(c, records))
    ensures piece == c.encode(r) && c.accepts(r) && Numbered(c, records + [r]) ==>
      Loads(c, Written(c, records) + piece, records + [r], Written(c, records) + piece)
  {
    assert OneLine(c, c.encode(r));
    assert c.encode(r)[..|piece|] == piece;
    assert OneLine(c, piece);
    EntriesOf(c, Encoded(c, records), piece);
    assert (Encoded(c, records) + [piece])[..|records|] == Encoded(c, records);
    assert forall i :: 0 <= i < |records| ==> c.decode(c.encode(records[i])) == Some(records[i]);
    if piece == c.encode(r) {
      assert c.decode(piece) == if c.accepts(r) then Some(r) else None;
    } else {
      assert c.decode(c.encode(r)[..|piece|]) == None;
    }
    hide Faithful, Entries, Joined;
  }

  /** Cutting the file at any byte, then loading it, yields exactly the records whose whole text survived, but for a
      last one that is refused, and leaves their lines in the file; only a cut before a newline leaves it missing. */
  lemma TornLoad<R(!new)>(c: Codec<R>, records: seq<R>, n: nat) returns (after: seq<Byte>)
    requires Faithful(c) && Numbered(c, records) && Intact(c, records) && n <= |Written(c, records)|
    ensures Loads(c, Written(c, records)[..n], Survived(c, records, n), after)
    ensures !BeforeNewline(c, records, n) ==> after == Written(c, Survived(c, records, n))
    ensures BeforeNewline(c, records, n) ==>
      after == Written(c, records)[..n] && after + [NEWLINE] == Written(c, Survived(c, records, n))
  {
    hide Written, Survivors, Faithful, Loads, BeforeNewline;
    var k, piece := Tear(c, records, n);
    if piece == [] {
      WholeLoads(c, records[..k]);
      assert Written(c, records)[..n] == Written(c, records[..k]);
      after := Written(c, Accepted(c, records[..k]));
      NonEmptyText(c, records, k);
    } else {
      PieceLoads(c, records[..k], records[k], piece);
      if piece == c.encode(records[k]) {
        assert records[..k] + [records[k]] == records[..k + 1];
        assert records[..k + 1][..k] == records[..k];
        WrittenOneMore(c, records, k);
        after := if c.accepts(records[k]) then Written(c, records)[..n] else Written(c, records[..k]);
      } else {
        after := Written(c, records[..k]);
      }
    }
  }

  lemma NonEmptyText<R(!new)>(c: Codec<R>, records: seq<R>, k: nat)
    requires Faithful(c)
    ensures k < |records| ==> c.encode(records[k]) != []
  {
  }

  // ---------- appending after a tear ----------

  lemma {:induction false} WrittenConcat<R>(c: Codec<R>, a: seq<R>, b: seq<R>)
    ensures Written(c, a + b) == Written(c, a) + Written(c, b)
  {
    hide Written;
    if b == [] {
      EmptyIsNothing(c, b);
      assert a + b == a;
    } else {
      var n := |b| - 1;
      WrittenConcat(c, a, b[..n]);
      WrittenOneMore(c, b, n);
      WrittenOneMore(c, a + b, |a| + n);
      assert (a + b)[..|a| + n] == a + b[..n];
      assert (a + b)[..|a| + n + 1] == a + b && b[..n + 1] == b;
    }
  }

  /** Whole lines, a line holding the texts of two records, and whole lines again. */
  function RunTogether<R>(c: Codec<R>, records: seq<R>, r: R, more: seq<R>): seq<Line>
    requires more != []
  {
    Encoded(c, records) + [c.encode(r) + c.encode(more[0])] + Encoded(c, more[1..])
  }

  lemma FirstWritten<R>(c: Codec<R>, more: seq<R>)
    requires more != []
    ensures Written(c, more) == c.encode(more[0]) + [NEWLINE] + Written(c, more[1..])
  {
    hide Written;
    var first := [more[0]];
    assert more == first + more[1..];
    WrittenConcat(c, first, more[1..]);
    WrittenOneMore(c, first, 0);
    assert first[..1] == first && first[..0] == [];
    EmptyIsNothing(c, first[..0]);
    assert [] + c.encode(more[0]) == c.encode(more[0]);
  }

  lemma RunTogetherText<R>(c: Codec<R>, records: seq<R>, r: R, more: seq<R>)
    requires more != []
    ensures Joined(RunTogether(c, records, r, more)) == Written(c, records) + c.encode(r) + Written(c, more)
  {
    var line := c.encode(r) + c.encode(more[0]);
    var rest := more[1..];
    FirstWritten(c, more);
    JoinedConcat(Encoded(c, records) + [line], Encoded(c, rest));
    OneLineMore(Encoded(c, records), line);
    hide Joined, Encoded;
    Regroup(Joined(Encoded(c, records)), c.encode(r), c.encode(more[0]), Joined(Encoded(c, rest)));
  }

  /** Two records on one line leave one entry fewer than there are records. */
  lemma JoinedEntries<R(!new)>(c: Codec<R>, records: seq<R>, r: R, more: seq<R>)
    requires Faithful(c) && more != []
    ensures Entries(c, Written(c, records) + c.encode(r) + Written(c, more)) == RunTogether(c, records, r, more)
    ensures c.decode(RunTogether(c, records, r, more)[|records|]) == None
  {
    assert OneLine(c, c.encode(r)) && OneLine(c, c.encode(more[0]));
    RunTogetherText(c, records, r, more);
    assert c.decode(c.encode(r) + c.encode(more[0])) == None;
    hide Faithful, Entries, Written;
    EntriesOf(c, RunTogether(c, records, r, more), []);
    assert Joined(RunTogether(c, records, r, more)) + [] == Joined(RunTogether(c, records, r, more));
  }

  lemma LineAppended(a: seq<Byte>, b: seq<Byte>, line: Line)
    ensures a + (b + line + [NEWLINE]) == (a + b) + line + [NEWLINE]
  {
  }

  lemma {:induction false} JoinedConcat(a: seq<Line>, b: seq<Line>)
    ensures Joined(a + b) == Joined(a) + Joined(b)
  {
    if b == [] {
      assert a + b == a;
    } else {
      var init, last := b[..|b| - 1], b[|b| - 1];
      JoinedConcat(a, init);
      OneLineMore(a + init, last);
      OneLineMore(init, last);
      hide Joined;
      assert b == init + [last] && a + b == (a + init) + [last];
      LineAppended(Joined(a), Joined(init), last);
    }
  }

  /** An entry before the last that does not parse. */
  lemma RefusedInside<R(!new)>(c: Codec<R>, text: seq<Byte>, i: nat)
    requires i < |Entries(c, text)| - 1 && c.decode(Entries(c, text)[i]).None?
    ensures forall records, after :: !Loads(c, text, records, after)
  {
    hide Entries, Numbered, Joined;
    var entries := Entries(c, text);
    assert entries[..|entries| - 1][i] == entries[i];
  }

  lemma RefusedRecord<R(!new)>(c: Codec<R>, records: seq<R>, i: nat)
    requires Faithful(c) && i < |records| - 1 && !c.accepts(records[i])
    ensures forall loaded, kept :: !Loads(c, Written(c, records), loaded, kept)
  {
    EntriesWritten(c, records);
    assert c.decode(c.encode(records[i])) == None;
    hide Faithful, Entries, Written, Joined, Loads;
    RefusedInside(c, Written(c, records), i);
  }

  /** What a load of a file keeps that holds records, two texts on one line, and perhaps more. */
  lemma RunTogetherLoads<R(!new)>(c: Codec<R>, records: seq<R>, r: R, more: seq<R>, loaded: seq<R>, kept: seq<Byte>)
    requires Faithful(c) && more != [] && (forall i :: 0 <= i < |records| ==> c.accepts(records[i]))
    requires Loads(c, Written(c, records) + c.encode(r) + Written(c, more), loaded, kept)
    ensures |more| == 1 && loaded == records
  {
    JoinedEntries(c, records, r, more);
    var text := Written(c, records) + c.encode(r) + Written(c, more);
    var entries := RunTogether(c, records, r, more);
    if |more| > 1 { RefusedInside(c, text, |records|); }
    assert entries[..|records|] == Encoded(c, records);
    assert forall i :: 0 <= i < |records| ==> c.decode(c.encode(records[i])) == Some(records[i]);
    hide Faithful, Entries, Written, Joined;
  }

  /** Records appended after the torn file was loaded replay with the survivors, if and only if the cut did not fall
      right before a newline; otherwise the last survivor is lost too, or no load is possible. */
  lemma AppendAfterTear<R(!new)>(c: Codec<R>, records: seq<R>, n: nat, after: seq<Byte>, more: seq<R>)
    requires Faithful(c) && Numbered(c, records) && Intact(c, records) && n <= |Written(c, records)|
    requires more != [] && Intact(c, more)
    requires Loads(c, Written(c, records)[..n], Survived(c, records, n), after)
    requires Numbered(c, Survived(c, records, n) + more)
    ensures (exists kept :: Loads(c, after + Written(c, more), Accepted(c, Survived(c, records, n) + more), kept))
      <==> !BeforeNewline(c, records, n)
    ensures BeforeNewline(c, records, n) ==> Survived(c, records, n) != []
    ensures BeforeNewline(c, records, n) ==>
      forall loaded, kept :: Loads(c, after + Written(c, more), loaded, kept) ==>
        |more| == 1 && loaded == Survived(c, records, n)[..|Survived(c, records, n)| - 1]
  {
    hide Written, Survivors, Faithful, Loads, BeforeNewline, Numbered;
    var known := TornLoad(c, records, n);
    var survivors := Survived(c, records, n);
    LoadsOneWay(c, Written(c, records)[..n], survivors, after, survivors, known);
    AcceptedAll(c, records[..Survivors(c, records, n)]);
    if !BeforeNewline(c, records, n) {
      WrittenConcat(c, survivors, more);
      WholeLoads(c, survivors + more);
    } else {
      LastIsAccepted(c, records, n);
      var m := Survivors(c, records, n);
      WrittenOneMore(c, records, m - 1);
      assert after == (after + [NEWLINE])[..|after|];
      assert after == Written(c, records[..m - 1]) + c.encode(records[m - 1]);
      assert survivors[..m - 1] == records[..m - 1];
      forall loaded, kept | Loads(c, after + Written(c, more), loaded, kept)
        ensures |more| == 1 && loaded == survivors[..m - 1]
      {
        RunTogetherLoads(c, records[..m - 1], records[m - 1], more, loaded, kept);
      }
    }
  }

  lemma LastIsAccepted<R(!new)>(c: Codec<R>, records: seq<R>, n: nat)
    requires Faithful(c) && n <= |Written(c, records)| && BeforeNewline(c, records, n)
    ensures var m := Survivors(c, records, n); m > 0 && c.accepts(records[m - 1])
  {
    hide Faithful, Written, Survivors, BeforeNewline;
    var k, piece := Tear(c, records, n);
  }

  /** A text loads in one way at most. */
  lemma LoadsOneWay<R(!new)>(c: Codec<R>, text: seq<Byte>, records: seq<R>, a: seq<Byte>, others: seq<R>, b: seq<Byte>)
    requires Loads(c, text, records, a) && Loads(c, text, others, b)
    ensures records == others && a == b
  {
  }

  // ---------- the file ----------

  datatype Outcome<R> = Loaded(records: seq<R>) | Refused

  lemma NothingLoaded<R>(c: Codec<R>, entries: seq<Line>)
    ensures Decoded(c, entries[..0], []) && Numbered(c, [])
  {
  }

  lemma OneMoreLoaded<R>(c: Codec<R>, entries: seq<Line>, i: nat, records: seq<R>, r: R)
    requires i < |entries| && c.decode(entries[i]) == Some(r)
    requires Decoded(c, entries[..i], records) && Numbered(c, records)
    ensures |records| == i && Decoded(c, entries[..i + 1], records + [r])
    ensures Numbered(c, records + [r]) <==> c.number(r) > if i == 0 then -1 else c.number(records[i - 1])
  {
    var more := records + [r];
    assert forall k :: 0 <= k < i ==> more[k] == records[k];
    assert more[i] == r;
    if i > 0 && Numbered(c, more) { assert c.number(more[i - 1]) < c.number(more[i]); }
  }

  lemma LastDecodes<R>(c: Codec<R>, entries: seq<Line>, records: seq<R>)
    requires Decoded(c, entries, records)
    ensures entries != [] ==> c.decode(entries[|entries| - 1]).Some?
  {
  }

  lemma SameNumbers<R>(c: Codec<R>, lines: seq<Line>, i: nat, known: seq<R>, records: seq<R>)
    requires i < |lines| && Decoded(c, lines[..i + 1], known) && Decoded(c, lines, records) && Numbered(c, records)
    ensures Numbered(c, known)
  {
    forall k | 0 <= k <= i ensures known[k] == records[k] {
      assert lines[..i + 1][k] == lines[k];
    }
  }

  /** A number that is not above the one before it. */
  lemma RefusedNumber<R(!new)>(c: Codec<R>, text: seq<Byte>, i: nat, known: seq<R>)
    requires i < |Entries(c, text)| && Decoded(c, Entries(c, text)[..i + 1], known) && !Numbered(c, known)
    ensures forall records, after :: !Loads(c, text, records, after)
  {
    var entries := Entries(c, text);
    LastDecodes(c, entries[..i + 1], known);
    hide Entries, Joined, Decoded, Numbered;
    var n := |entries|;
    var lines := if c.decode(entries[n - 1]).None? then entries[..n - 1] else entries;
    assert i < |lines| && lines[..i + 1] == entries[..i + 1];
    forall records, after ensures !Loads(c, text, records, after) {
      if Decoded(c, lines, records) && Numbered(c, records) { SameNumbers(c, lines, i, known, records); }
    }
  }

  class LogFile<R(==,!new)> {
    const c: Codec<R>
    var text: seq<Byte>

    constructor (c: Codec<R>, text: seq<Byte>)
      ensures this.c == c && this.text == text
    {
      this.c, this.text := c, text;
    }

    /** A last entry that does not parse is dropped from the file; any other refuses the load. */
    method Load() returns (r: Outcome<R>)
      modifies this
      ensures r.Loaded? ==> Loads(c, old(text), r.records, text)
      ensures r.Refused? ==> text == old(text) && forall records, after :: !Loads(c, text, records, after)
    {
      hide Entries, Numbered, Decoded, Joined;
      var entries := Entries(c, text);
      var records: seq<R> := [];
      var last := -1;
      NothingLoaded(c, entries);
      for i := 0 to |entries|
        invariant text == old(text) && Decoded(c, entries[..i], records) && Numbered(c, records) && |records| == i
        invariant last == if i == 0 then -1 else c.number(records[i - 1])
      {
        var record := c.decode(entries[i]);
        if record.None? {
          if i < |entries| - 1 {
            RefusedInside(c, text, i);
            return Refused;
          }
          text := Joined(entries[..i]);
          return Loaded(records);
        }
        OneMoreLoaded(c, entries, i, records, record.value);
        if c.number(record.value) <= last {
          RefusedNumber(c, text, i, records + [record.value]);
          return Refused;
        }
        records := records + [record.value];
        last := c.number(record.value);
      }
      assert entries[..|entries|] == entries;
      LastDecodes(c, entries, records);
      return Loaded(records);
    }

    method Append(records: seq<R>)
      modifies this
      ensures text == old(text) + Written(c, records)
    {
      text := text + Written(c, records);
    }
  }
}
