/** A segment whose text is read back shorter than it was shown. */
module ActivityLogTexts {
  import opened Periodicity
  import opened StreamText
  import opened ActivityLog
  import opened ActivityLogRuns

  const X: CodeUnit := 120
  const DOT: CodeUnit := 46

  /** `x` then a mark: the fragments "x", ".x" and "." of one segment. */
  function Fragments(): seq<Operation> {
    var metadata := map[SegmentId := Name(0)];
    [Stream(0, [Delta([X], metadata, 0, 0)]), Stream(0, [Delta([DOT, X], metadata, 1, 0)]),
     Stream(0, [Delta([DOT], metadata, 2, 0)])]
  }

  function Shown(text: Text): Activity {
    Activity(Streaming(0), 0, true, text, map[SegmentId := Name(0)], 0)
  }

  /** The classes in which the dot is a mark and neither character is a space. */
  ghost predicate DotIsMark(cls: Classes) {
    cls.isMark(DOT) && !cls.isMark(X) && !cls.isSpace(X) && !cls.isSpace(DOT)
  }

  lemma {:induction false} RepeatStartsAlike(u: Text, k: nat)
    requires k >= 2 && 2 <= |Repeat(u, k)| <= 3
    ensures Repeat(u, k)[0] == Repeat(u, k)[1]
  {
    RepeatLength(u, k);
    RepeatLength(u, k - 2);
    assert Repeat(u, k) == u + (u + Repeat(u, k - 2));
    assert |u| == 1;
  }

  lemma NotRepeated(cls: Classes, t: Text)
    requires 2 <= |t| <= 3 && t[0] != t[1]
    ensures Collapse(cls, t) == t
  {
    var k := CollapseCases(cls, t);
    if k >= 2 { RepeatStartsAlike(Collapse(cls, t), k); }
  }

  lemma RepeatedPair(cls: Classes)
    requires DotIsMark(cls)
    ensures Collapse(cls, [X, DOT, X, DOT]) == [X, DOT]
  {
    var u := [X, DOT];
    assert Repeat(u, 0) == [] && Repeat(u, 1) == u + Repeat(u, 0) && Repeat(u, 2) == u + Repeat(u, 1);
    assert TrimEnd(cls, u) == u;
    forall w: Text, k: nat | k >= 2 ensures Repeat(w, k) != u {
      if Repeat(w, k) == u { RepeatStartsAlike(w, k); }
    }
    CollapseIs(cls, [X, DOT, X, DOT], u, 2);
  }

  lemma FirstFragment(cls: Classes)
    requires DotIsMark(cls)
    ensures ListAfter(cls, Fragments()[..1]) == [Shown([X])]
  {
    NormalizeIsCollapse(cls, [X]);
    CollapseShort(cls, [X]);
    hide Normalize, Collapse, Continued;
    var ops := Fragments()[..1];
    var d := ops[0].deltas[0];
    assert ops[..0] == [];
    assert ListAfter(cls, ops) == ListStep(cls, [], ops[0]);
    OneDelta(cls, [], 0, d);
  }

  lemma OneDelta(cls: Classes, list: seq<Activity>, task: nat, d: Delta)
    ensures StreamedAll(cls, list, task, [d]) == Streamed(cls, list, task, d)
  {
  }

  lemma NextFragment(cls: Classes, n: nat, shown: Text, text: Text)
    requires 1 <= n <= 2 && ListAfter(cls, Fragments()[..n]) == [Shown(shown)]
    requires Merge(cls, shown, Fragments()[n].deltas[0].text) == text
    ensures ListAfter(cls, Fragments()[..n + 1]) == [Shown(text)]
  {
    hide Merge;
    var op := Fragments()[n];
    var d := op.deltas[0];
    assert Fragments()[..n + 1][..n] == Fragments()[..n];
    assert ListAfter(cls, Fragments()[..n + 1]) == ListStep(cls, [Shown(shown)], op);
    OneDelta(cls, [Shown(shown)], 0, d);
    hide ListAfter, StreamedAll;
    assert d.metadata + map[] == d.metadata;
    assert Shown(shown).metadata + d.metadata == Shown(shown).metadata;
    assert FindFor([Shown(shown)], 0, d) == 0;
  }

  lemma Merges(cls: Classes)
    requires DotIsMark(cls)
    ensures Merge(cls, [X], [DOT, X]) == [X, DOT, X]
    ensures Merge(cls, [X, DOT, X], [DOT]) == [X, DOT, X, DOT]
  {
    NotRepeated(cls, [DOT, X]);
    CollapseShort(cls, [DOT]);
    hide Collapse;
  }

  /** The list after one, two and three fragments. */
  lemma Accumulates(cls: Classes)
    requires DotIsMark(cls)
    ensures ListAfter(cls, Fragments()[..1]) == [Shown([X])]
    ensures ListAfter(cls, Fragments()[..2]) == [Shown([X, DOT, X])]
    ensures ListAfter(cls, Fragments()) == [Shown([X, DOT, X, DOT])]
  {
    Merges(cls);
    hide ListAfter, Merge, Collapse;
    FirstFragment(cls);
    NextFragment(cls, 1, [X], [X, DOT, X]);
    NextFragment(cls, 2, [X, DOT, X], [X, DOT, X, DOT]);
    assert Fragments()[..3] == Fragments();
  }

  lemma StreamsAreKept(cls: Classes)
    ensures AllKept(cls, Fragments()) && AllSettled(cls, Fragments())
  {
    hide ListAfter;
  }

  /** The fragments accumulate to "x.x."; once written, they are read back as "x.". */
  lemma ReadBackShorter(cls: Classes)
    requires DotIsMark(cls)
    ensures ListAfter(cls, Fragments()) == [Shown([X, DOT, X, DOT])]
    ensures Sound(cls, LogAfter(cls, Fragments())) && Read(cls, LogAfter(cls, Fragments())) == [Shown([X, DOT])]
  {
    hide ListAfter, Merge, Collapse, Normalized, Sequenced, Replay, NormalizeAll, LogAfter, AllKept, AllSettled;
    Accumulates(cls);
    StreamsAreKept(cls);
    RunReadsTexts(cls, Fragments());
    LastText(cls);
  }

  lemma LastText(cls: Classes)
    requires DotIsMark(cls)
    ensures NormalizeAll(cls, [Shown([X, DOT, X, DOT])]) == [Shown([X, DOT])]
  {
    NormalizeIsCollapse(cls, [X, DOT, X, DOT]);
    RepeatedPair(cls);
    hide Normalize, Collapse;
  }
}
