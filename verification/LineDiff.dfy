/** The line-by-line change reported for a file write (src/main/agents/desktop-host-execution-broker.ts). */
module LineDiff {
  const MAX_FILE_DIFF_LINES: nat := 512

  datatype DiffLine<L> =
    | Context(text: L, oldLine: int, newLine: int)
    | Deletion(text: L, oldLine: int)
    | Addition(text: L, newLine: int)

  datatype FileChange<L> = FileChange(lines: seq<DiffLine<L>>, additions: int, deletions: int, truncated: bool)

  // ---------- what is matched ----------

  /** The end of the run of equal lines that starts at `i`. */
  function PrefixFrom<L(==)>(a: seq<L>, b: seq<L>, i: nat): (p: nat)
    requires i <= |a| && i <= |b|
    ensures i <= p <= |a| && p <= |b|
    ensures forall k :: i <= k < p ==> a[k] == b[k]
    ensures p < |a| && p < |b| ==> a[p] != b[p]
    decreases |a| - i
  {
    if i < |a| && i < |b| && a[i] == b[i] then PrefixFrom(a, b, i + 1) else i
  }

  function Prefix<L(==)>(a: seq<L>, b: seq<L>): (p: nat)
    ensures p <= |a| && p <= |b|
  {
    PrefixFrom(a, b, 0)
  }

  /** Line `k` from the end is the same in both. */
  predicate SameFromEnd<L(==)>(a: seq<L>, b: seq<L>, k: int) {
    0 <= k < |a| && k < |b| && a[|a| - 1 - k] == b[|b| - 1 - k]
  }

  /** The number of equal lines at the end, from `s` on, that the first `p` lines leave. */
  function SuffixFrom<L(==)>(a: seq<L>, b: seq<L>, p: nat, s: nat): (r: nat)
    requires p + s <= |a| && p + s <= |b|
    ensures s <= r && p + r <= |a| && p + r <= |b|
    ensures forall k :: s <= k < r ==> SameFromEnd(a, b, k)
    ensures p + r < |a| && p + r < |b| ==> !SameFromEnd(a, b, r)
    decreases |a| - s
  {
    if s < |a| - p && s < |b| - p && SameFromEnd(a, b, s) then SuffixFrom(a, b, p, s + 1) else s
  }

  function Suffix<L(==)>(a: seq<L>, b: seq<L>): (s: nat)
    ensures Prefix(a, b) + s <= |a| && Prefix(a, b) + s <= |b|
  {
    SuffixFrom(a, b, Prefix(a, b), 0)
  }

  // ---------- the whole script ----------

  function Contexts<L>(a: seq<L>, lo: nat, hi: nat, shift: int): seq<DiffLine<L>>
    requires lo <= hi <= |a|
  {
    seq(hi - lo, i requires 0 <= i < hi - lo => Context(a[lo + i], lo + i + 1, lo + i + 1 + shift))
  }

  function Deletions<L>(a: seq<L>, lo: nat, hi: nat): seq<DiffLine<L>>
    requires lo <= hi <= |a|
  {
    seq(hi - lo, i requires 0 <= i < hi - lo => Deletion(a[lo + i], lo + i + 1))
  }

  function Additions<L>(b: seq<L>, lo: nat, hi: nat): seq<DiffLine<L>>
    requires lo <= hi <= |b|
  {
    seq(hi - lo, i requires 0 <= i < hi - lo => Addition(b[lo + i], lo + i + 1))
  }

  function Script<L(==)>(a: seq<L>, b: seq<L>): (r: seq<DiffLine<L>>)
    ensures |r| == |a| + |b| - Prefix(a, b) - Suffix(a, b)
  {
    var p, s := Prefix(a, b), Suffix(a, b);
    Contexts(a, 0, p, 0) + Deletions(a, p, |a| - s) + Additions(b, p, |b| - s) + Contexts(a, |a| - s, |a|, |b| - |a|)
  }

  /** How much of the script is reported: the matched prefix always, and otherwise up to the limit. */
  function Shown<L(==)>(a: seq<L>, b: seq<L>): (n: nat)
    ensures n <= |Script(a, b)|
  {
    var n := |Script(a, b)|;
    if Prefix(a, b) >= MAX_FILE_DIFF_LINES then Prefix(a, b)
    else if n < MAX_FILE_DIFF_LINES then n
    else MAX_FILE_DIFF_LINES
  }

  /** The report is flagged as truncated. */
  predicate Flagged<L(==)>(a: seq<L>, b: seq<L>) { |Script(a, b)| >= MAX_FILE_DIFF_LINES }

  lemma ScriptAt<L>(a: seq<L>, b: seq<L>, i: nat)
    requires i < |Script(a, b)|
    ensures var p, s, x := Prefix(a, b), Suffix(a, b), Script(a, b)[i];
      && (i < p ==> x == Context(a[i], i + 1, i + 1))
      && (p <= i < |a| - s ==> x == Deletion(a[i], i + 1))
      && (|a| - s <= i && i < |a| - s + |b| - s - p ==>
        var k := i - (|a| - s) + p;
        0 <= k < |b| && x == Addition(b[k], k + 1))
      && (i >= |a| - s + |b| - s - p && i >= p ==>
        var k := i - (|b| - s - p);
        0 <= k < |a| && x == Context(a[k], k + 1, |b| - |a| + k + 1))
  {
  }

  lemma ContextAt<L>(a: seq<L>, b: seq<L>, i: nat)
    requires i < Prefix(a, b)
    ensures i < |Script(a, b)| && Script(a, b)[i] == Context(a[i], i + 1, i + 1)
  {
    hide Script;
    ScriptAt(a, b, i);
  }

  lemma DeletionAt<L>(a: seq<L>, b: seq<L>, i: nat)
    requires Prefix(a, b) <= i < |a| - Suffix(a, b)
    ensures i < |Script(a, b)| && Script(a, b)[i] == Deletion(a[i], i + 1)
  {
    hide Script;
    ScriptAt(a, b, i);
  }

  lemma AdditionAt<L>(a: seq<L>, b: seq<L>, k: nat)
    requires Prefix(a, b) <= k < |b| - Suffix(a, b)
    ensures var i := |a| - Suffix(a, b) + k - Prefix(a, b);
      i < |Script(a, b)| && Script(a, b)[i] == Addition(b[k], k + 1)
  {
    hide Script;
    ScriptAt(a, b, |a| - Suffix(a, b) + k - Prefix(a, b));
  }

  lemma TailAt<L>(a: seq<L>, b: seq<L>, k: nat)
    requires |a| - Suffix(a, b) <= k < |a|
    ensures var i := k + |b| - Suffix(a, b) - Prefix(a, b);
      i < |Script(a, b)| && Script(a, b)[i] == Context(a[k], k + 1, |b| - |a| + k + 1)
  {
    hide Script;
    ScriptAt(a, b, k + |b| - Suffix(a, b) - Prefix(a, b));
  }

  lemma Truncation<L>(a: seq<L>, b: seq<L>, created: bool)
    ensures Shown(a, b) >= MAX_FILE_DIFF_LINES || (created && |b| > MAX_FILE_DIFF_LINES)
      <==> Flagged(a, b)
  {
    hide Script, Prefix, Suffix;
  }

  lemma StartOfEnds<L>(a: seq<L>, b: seq<L>)
    ensures PrefixFrom(a, b, 0) == Prefix(a, b) && SuffixFrom(a, b, Prefix(a, b), 0) == Suffix(a, b)
  {
  }

  lemma PrefixStep<L>(a: seq<L>, b: seq<L>, i: nat)
    requires i <= |a| && i <= |b|
    ensures PrefixFrom(a, b, i) == if i < |a| && i < |b| && a[i] == b[i] then PrefixFrom(a, b, i + 1) else i
  {
  }

  lemma SuffixStep<L>(a: seq<L>, b: seq<L>, p: nat, s: nat)
    requires p + s <= |a| && p + s <= |b|
    ensures SuffixFrom(a, b, p, s) ==
      if s < |a| - p && s < |b| - p && a[|a| - 1 - s] == b[|b| - 1 - s] then SuffixFrom(a, b, p, s + 1) else s
  {
  }

  method CreateBoundedFileChange<L(==)>(oldLines: seq<L>, newLines: seq<L>, created: bool) returns (r: FileChange<L>)
    ensures r.lines == Script(oldLines, newLines)[..Shown(oldLines, newLines)]
    ensures r.additions == |newLines| - Prefix(oldLines, newLines) - Suffix(oldLines, newLines)
    ensures r.deletions == |oldLines| - Prefix(oldLines, newLines) - Suffix(oldLines, newLines)
    ensures r.truncated <==> Flagged(oldLines, newLines)
  {
    Truncation(oldLines, newLines, created);
    hide Script, Shown, Prefix, Suffix, PrefixFrom, SuffixFrom;
    StartOfEnds(oldLines, newLines);
    var prefix: nat := 0;
    while prefix < |oldLines| && prefix < |newLines| && oldLines[prefix] == newLines[prefix]
      invariant prefix <= |oldLines| && prefix <= |newLines|
      invariant PrefixFrom(oldLines, newLines, prefix) == Prefix(oldLines, newLines)
    {
      PrefixStep(oldLines, newLines, prefix);
      prefix := prefix + 1;
    }
    PrefixStep(oldLines, newLines, prefix);
    var suffix: nat := 0;
    while suffix < |oldLines| - prefix && suffix < |newLines| - prefix
        && oldLines[|oldLines| - 1 - suffix] == newLines[|newLines| - 1 - suffix]
      invariant prefix + suffix <= |oldLines| && prefix + suffix <= |newLines|
      invariant SuffixFrom(oldLines, newLines, prefix, suffix) == Suffix(oldLines, newLines)
    {
      SuffixStep(oldLines, newLines, prefix, suffix);
      suffix := suffix + 1;
    }
    SuffixStep(oldLines, newLines, prefix, suffix);
    var lines := Report(oldLines, newLines, prefix, suffix);
    r := FileChange(lines,
      if |newLines| - prefix - suffix > 0 then |newLines| - prefix - suffix else 0,
      if |oldLines| - prefix - suffix > 0 then |oldLines| - prefix - suffix else 0,
      |lines| >= MAX_FILE_DIFF_LINES || (created && |newLines| > MAX_FILE_DIFF_LINES));
  }

  /** The four loops that fill the report, each stopping at the limit but the first. */
  method Report<L(==)>(oldLines: seq<L>, newLines: seq<L>, prefix: nat, suffix: nat) returns (lines: seq<DiffLine<L>>)
    requires prefix == Prefix(oldLines, newLines) && suffix == Suffix(oldLines, newLines)
    ensures lines == Script(oldLines, newLines)[..Shown(oldLines, newLines)]
  {
    hide Script, Prefix, Suffix, Begins;
    ghost var script := Script(oldLines, newLines);
    lines := [];
    NothingBegins(script);
    for index := 0 to prefix
      invariant |lines| == index && Begins(lines, script)
    {
      ContextAt(oldLines, newLines, index);
      BeginsMore(lines, script, Context(oldLines[index], index + 1, index + 1));
      lines := lines + [Context(oldLines[index], index + 1, index + 1)];
    }
    var index := prefix;
    while index < |oldLines| - suffix && |lines| < MAX_FILE_DIFF_LINES
      invariant prefix <= index <= |oldLines| - suffix && |lines| == index && Begins(lines, script)
      invariant index > prefix ==> index <= MAX_FILE_DIFF_LINES
    {
      DeletionAt(oldLines, newLines, index);
      BeginsMore(lines, script, Deletion(oldLines[index], index + 1));
      lines := lines + [Deletion(oldLines[index], index + 1)];
      index := index + 1;
    }
    index := prefix;
    while index < |newLines| - suffix && |lines| < MAX_FILE_DIFF_LINES
      invariant prefix <= index <= |newLines| - suffix && |lines| <= |script| && Begins(lines, script)
      invariant |lines| == |oldLines| - suffix + index - prefix || (index == prefix && |lines| >= MAX_FILE_DIFF_LINES)
      invariant |lines| >= prefix && (|lines| > prefix ==> |lines| <= MAX_FILE_DIFF_LINES)
    {
      AdditionAt(oldLines, newLines, index);
      BeginsMore(lines, script, Addition(newLines[index], index + 1));
      lines := lines + [Addition(newLines[index], index + 1)];
      index := index + 1;
    }
    ghost var full := |lines| >= MAX_FILE_DIFF_LINES;
    index := if prefix > |oldLines| - suffix then prefix else |oldLines| - suffix;
    while index < |oldLines| && |lines| < MAX_FILE_DIFF_LINES
      invariant |oldLines| - suffix <= index <= |oldLines| && |lines| <= |script| && Begins(lines, script)
      invariant |lines| == index + |newLines| - suffix - prefix || (full && |lines| >= MAX_FILE_DIFF_LINES)
      invariant |lines| >= prefix && (|lines| > prefix ==> |lines| <= MAX_FILE_DIFF_LINES)
    {
      TailAt(oldLines, newLines, index);
      BeginsMore(lines, script, Context(oldLines[index], index + 1, |newLines| - |oldLines| + index + 1));
      lines := lines + [Context(oldLines[index], index + 1, |newLines| - |oldLines| + index + 1)];
      index := index + 1;
    }
    BeginsIs(lines, script);
  }

  predicate Begins<L(==)>(lines: seq<DiffLine<L>>, script: seq<DiffLine<L>>) { lines <= script }

  lemma NothingBegins<L>(script: seq<DiffLine<L>>)
    ensures Begins([], script)
  {
  }

  lemma BeginsMore<L>(lines: seq<DiffLine<L>>, script: seq<DiffLine<L>>, line: DiffLine<L>)
    requires Begins(lines, script) && |lines| < |script| && script[|lines|] == line
    ensures Begins(lines + [line], script)
  {
  }

  lemma BeginsIs<L>(lines: seq<DiffLine<L>>, script: seq<DiffLine<L>>)
    requires Begins(lines, script)
    ensures |lines| <= |script| && lines == script[..|lines|]
  {
  }

  // ---------- what the report means ----------

  /** The lines of the file as it was: everything but the additions. */
  function OldSide<L>(lines: seq<DiffLine<L>>): (r: seq<DiffLine<L>>)
    ensures forall i :: 0 <= i < |r| ==> !r[i].Addition?
  {
    if lines == [] then []
    else OldSide(lines[..|lines| - 1]) + (if lines[|lines| - 1].Addition? then [] else [lines[|lines| - 1]])
  }

  /** The lines of the file as it is: everything but the deletions. */
  function NewSide<L>(lines: seq<DiffLine<L>>): (r: seq<DiffLine<L>>)
    ensures forall i :: 0 <= i < |r| ==> !r[i].Deletion?
  {
    if lines == [] then []
    else NewSide(lines[..|lines| - 1]) + (if lines[|lines| - 1].Deletion? then [] else [lines[|lines| - 1]])
  }

  lemma SidesOneMore<L>(x: seq<DiffLine<L>>, line: DiffLine<L>)
    ensures OldSide(x + [line]) == OldSide(x) + if line.Addition? then [] else [line]
    ensures NewSide(x + [line]) == NewSide(x) + if line.Deletion? then [] else [line]
  {
    assert (x + [line])[..|x|] == x;
  }

  lemma NoSides<L>()
    ensures OldSide<L>([]) == [] && NewSide<L>([]) == []
  {
  }

  lemma Regroup<X>(a: seq<X>, b: seq<X>, c: seq<X>)
    ensures a + (b + c) == (a + b) + c
  {
  }

  lemma {:induction false} SidesConcat<L>(x: seq<DiffLine<L>>, y: seq<DiffLine<L>>)
    ensures OldSide(x + y) == OldSide(x) + OldSide(y)
    ensures NewSide(x + y) == NewSide(x) + NewSide(y)
  {
    hide *;
    if y == [] {
      NoSides<L>();
      assert x + y == x;
      assert OldSide(x) + [] == OldSide(x) && NewSide(x) + [] == NewSide(x);
    } else {
      var init, last := y[..|y| - 1], y[|y| - 1];
      assert y == init + [last];
      Regroup(x, init, [last]);
      SidesConcat(x, init);
      SidesOneMore(init, last);
      SidesOneMore(x + init, last);
      Regroup(OldSide(x), OldSide(init), if last.Addition? then [] else [last]);
      Regroup(NewSide(x), NewSide(init), if last.Deletion? then [] else [last]);
    }
  }

  lemma {:induction false} SidesOf<L>(x: seq<DiffLine<L>>)
    ensures (forall i :: 0 <= i < |x| ==> !x[i].Addition?) ==> OldSide(x) == x
    ensures (forall i :: 0 <= i < |x| ==> !x[i].Deletion?) ==> NewSide(x) == x
    ensures (forall i :: 0 <= i < |x| ==> x[i].Addition?) ==> OldSide(x) == []
    ensures (forall i :: 0 <= i < |x| ==> x[i].Deletion?) ==> NewSide(x) == []
  {
    hide *;
    if x == [] {
      NoSides<L>();
    } else {
      var init, last := x[..|x| - 1], x[|x| - 1];
      assert x == init + [last];
      SidesOf(init);
      SidesOneMore(init, last);
    }
  }

  /** The two files' sides of a script, part by part. */
  lemma FourSides<L>(head: seq<DiffLine<L>>, gone: seq<DiffLine<L>>, come: seq<DiffLine<L>>, tail: seq<DiffLine<L>>)
    ensures OldSide(head + gone + come + tail) == OldSide(head) + OldSide(gone) + OldSide(come) + OldSide(tail)
    ensures NewSide(head + gone + come + tail) == NewSide(head) + NewSide(gone) + NewSide(come) + NewSide(tail)
  {
    hide OldSide, NewSide;
    SidesConcat(head + gone + come, tail);
    SidesConcat(head + gone, come);
    SidesConcat(head, gone);
  }

  lemma PartSides<L>(a: seq<L>, b: seq<L>, lo: nat, hi: nat, shift: int)
    ensures lo <= hi <= |a| ==> OldSide(Contexts(a, lo, hi, shift)) == Contexts(a, lo, hi, shift)
    ensures lo <= hi <= |a| ==> NewSide(Contexts(a, lo, hi, shift)) == Contexts(a, lo, hi, shift)
    ensures lo <= hi <= |a| ==> OldSide(Deletions(a, lo, hi)) == Deletions(a, lo, hi)
    ensures lo <= hi <= |a| ==> NewSide(Deletions(a, lo, hi)) == []
    ensures lo <= hi <= |b| ==> OldSide(Additions(b, lo, hi)) == []
    ensures lo <= hi <= |b| ==> NewSide(Additions(b, lo, hi)) == Additions(b, lo, hi)
  {
    hide OldSide, NewSide;
    if lo <= hi <= |a| {
      SidesOf(Contexts(a, lo, hi, shift));
      SidesOf(Deletions(a, lo, hi));
    }
    if lo <= hi <= |b| { SidesOf(Additions(b, lo, hi)); }
  }

  lemma ScriptSides<L>(a: seq<L>, b: seq<L>)
    ensures var p, s := Prefix(a, b), Suffix(a, b);
      OldSide(Script(a, b)) == Contexts(a, 0, p, 0) + Deletions(a, p, |a| - s) + Contexts(a, |a| - s, |a|, |b| - |a|)
    ensures var p, s := Prefix(a, b), Suffix(a, b);
      NewSide(Script(a, b)) == Contexts(a, 0, p, 0) + Additions(b, p, |b| - s) + Contexts(a, |a| - s, |a|, |b| - |a|)
  {
    hide OldSide, NewSide, Prefix, Suffix, Contexts, Deletions, Additions;
    var p, s := Prefix(a, b), Suffix(a, b);
    var head, gone, come, tail :=
      Contexts(a, 0, p, 0), Deletions(a, p, |a| - s), Additions(b, p, |b| - s), Contexts(a, |a| - s, |a|, |b| - |a|);
    PartSides(a, b, 0, p, 0);
    PartSides(a, b, p, |a| - s, 0);
    PartSides(a, b, p, |b| - s, 0);
    PartSides(a, b, |a| - s, |a|, |b| - |a|);
    FourSides(head, gone, come, tail);
    assert head + gone + [] + tail == head + gone + tail;
    assert head + [] + come + tail == head + come + tail;
  }

  /** A report that is not truncated holds the old file and the new one, each line with its number. */
  lemma ReportRebuildsBoth<L>(a: seq<L>, b: seq<L>)
    requires !Flagged(a, b)
    ensures Script(a, b)[..Shown(a, b)] == Script(a, b)
    ensures var old' := OldSide(Script(a, b));
      |old'| == |a| && forall i :: 0 <= i < |a| ==> old'[i].text == a[i] && old'[i].oldLine == i + 1
    ensures var new' := NewSide(Script(a, b));
      |new'| == |b| && forall i :: 0 <= i < |b| ==> new'[i].text == b[i] && new'[i].newLine == i + 1
  {
    ScriptSides(a, b);
    SuffixLines(a, b);
    hide Script, OldSide, NewSide, Prefix, Suffix;
  }

  lemma SuffixLines<L>(a: seq<L>, b: seq<L>)
    ensures forall i :: |b| - Suffix(a, b) <= i < |b| ==> a[i + |a| - |b|] == b[i]
    ensures forall i :: 0 <= i < Prefix(a, b) ==> a[i] == b[i]
  {
    forall i | |b| - Suffix(a, b) <= i < |b| ensures a[i + |a| - |b|] == b[i] {
      assert SameFromEnd(a, b, |b| - 1 - i);
    }
  }

  /** The counts differ by what the file grew, and both are zero exactly when nothing changed. */
  lemma CountsMeanChange<L>(a: seq<L>, b: seq<L>)
    ensures var additions, deletions := |b| - Prefix(a, b) - Suffix(a, b), |a| - Prefix(a, b) - Suffix(a, b);
      && additions >= 0 && deletions >= 0
      && additions - deletions == |b| - |a|
      && (additions == 0 && deletions == 0 <==> a == b)
  {
    SuffixLines(a, b);
    if a == b {
      assert Prefix(a, b) == |a|;
    }
  }

  /** The report is the whole script exactly when that fits, or is all matched prefix. */
  lemma WholeIffFits<L>(a: seq<L>, b: seq<L>)
    ensures Shown(a, b) == |Script(a, b)| <==> |Script(a, b)| <= MAX_FILE_DIFF_LINES || a == b
  {
  }

  /** The report is bounded: a script that fits is reported, another one up to 512 lines, or up to the end of the
      matched prefix where that is longer. */
  lemma ReportIsBounded<L>(a: seq<L>, b: seq<L>)
    ensures |Script(a, b)| <= MAX_FILE_DIFF_LINES ==> Shown(a, b) == |Script(a, b)|
    ensures |Script(a, b)| > MAX_FILE_DIFF_LINES ==>
      Shown(a, b) == if Prefix(a, b) > MAX_FILE_DIFF_LINES then Prefix(a, b) else MAX_FILE_DIFF_LINES
  {
    hide Script, Prefix, Suffix;
    PrefixFits(a, b);
  }

  lemma PrefixFits<L>(a: seq<L>, b: seq<L>)
    ensures Prefix(a, b) <= |Script(a, b)|
  {
  }

  /** When the flag is right: it is wrong on a script of exactly the limit and on an unchanged file that reaches
      it, which are whole. */
  lemma FlagIsRightIff<L>(a: seq<L>, b: seq<L>)
    ensures (Flagged(a, b) <==> Shown(a, b) < |Script(a, b)|)
      <==> |Script(a, b)| != MAX_FILE_DIFF_LINES && !(a == b && |a| >= MAX_FILE_DIFF_LINES)
  {
    hide Script, Shown, Prefix, Suffix;
    WholeIffFits(a, b);
    CountsMeanChange(a, b);
  }

  /** An unchanged file of 512 lines or more: every line is reported as it is, and the flag is set. */
  lemma UnchangedIsFlagged<L>(a: seq<L>)
    requires |a| >= MAX_FILE_DIFF_LINES
    ensures Script(a, a)[..Shown(a, a)] == Contexts(a, 0, |a|, 0) && Flagged(a, a)
  {
    CountsMeanChange(a, a);
    WholeIffFits(a, a);
  }
}
