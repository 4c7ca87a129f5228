/** Merging of assistant stream fragments (src/shared/assistant-stream-text.ts). */
module StreamText {
  import opened Periodicity

  /** A UTF-16 code unit, as a JavaScript string indexes them. */
  newtype CodeUnit = c: int | 0 <= c < 0x1_0000

  type Text = seq<CodeUnit>

  /** The two character classes the source takes from its host: white space removed by
      `trimEnd`, and the Unicode categories P and S. Everything below holds for any classes. */
  datatype Classes = Classes(isSpace: CodeUnit -> bool, isMark: CodeUnit -> bool)

  function TrimEnd(cls: Classes, t: Text): Text {
    if t != [] && cls.isSpace(t[|t| - 1]) then TrimEnd(cls, t[..|t| - 1]) else t
  }

  predicate IsReplayBoundary(cls: Classes, t: Text) {
    var trimmed := TrimEnd(cls, t);
    trimmed != [] && cls.isMark(trimmed[|trimmed| - 1])
  }

  /** A mark with nothing but white space behind it. */
  ghost predicate MarkAtEnd(cls: Classes, t: Text, i: int) {
    && 0 <= i < |t| && cls.isMark(t[i]) && !cls.isSpace(t[i])
    && forall j :: i < j < |t| ==> cls.isSpace(t[j])
  }

  lemma {:induction false} BoundaryIsMark(cls: Classes, t: Text)
    ensures IsReplayBoundary(cls, t) <==> exists i :: MarkAtEnd(cls, t, i)
  {
    if t != [] {
      var n := |t| - 1;
      if cls.isSpace(t[n]) {
        BoundaryIsMark(cls, t[..n]);
        forall i ensures MarkAtEnd(cls, t, i) <==> MarkAtEnd(cls, t[..n], i) {
          assert forall j :: 0 <= j < n ==> t[..n][j] == t[j];
        }
      } else {
        assert TrimEnd(cls, t) == t;
        assert cls.isMark(t[n]) ==> MarkAtEnd(cls, t, n);
      }
    }
  }

  predicate EndsWith(t: Text, tail: Text) {
    |tail| <= |t| && t[|t| - |tail|..] == tail
  }

  // ---------- collapsing ----------

  /** `t` is the primitive fragment `u`, which ends on a replay boundary, `k` >= 2 times. */
  ghost predicate IsReplayOf(cls: Classes, t: Text, u: Text, k: nat) {
    k >= 2 && Primitive(u) && IsReplayBoundary(cls, u) && t == Repeat(u, k)
  }

  /** What collapsing means, without any table: the repeated fragment if there is one. */
  ghost function Collapse(cls: Classes, t: Text): Text {
    if exists u, k :: IsReplayOf(cls, t, u, k) then
      var u, k :| IsReplayOf(cls, t, u, k);
      u
    else
      t
  }

  lemma CollapseIs(cls: Classes, t: Text, u: Text, k: nat)
    requires IsReplayOf(cls, t, u, k)
    ensures Collapse(cls, t) == u
  {
    forall w, j | IsReplayOf(cls, t, w, j) ensures w == u {
      PrimitiveRootUnique(w, j, u, k);
    }
  }

  /** The possible results: the text itself, or a shorter fragment it repeats. */
  lemma CollapseCases(cls: Classes, t: Text) returns (k: nat)
    ensures k >= 1 && t == Repeat(Collapse(cls, t), k)
    ensures k == 1 ==> Collapse(cls, t) == t
    ensures k >= 2 ==> IsReplayOf(cls, t, Collapse(cls, t), k)
    ensures t != [] ==> Collapse(cls, t) != []
  {
    if u, j :| IsReplayOf(cls, t, u, j) {
      CollapseIs(cls, t, u, j);
      k := j;
    } else {
      k := 1;
      assert Repeat(t, 1) == t + [] == t;
    }
  }

  /** Collapsing twice is collapsing once. */
  lemma CollapseIdempotent(cls: Classes, t: Text)
    ensures Collapse(cls, Collapse(cls, t)) == Collapse(cls, t)
  {
  }

  /** Decided by the least period: it must divide the length, be shorter than the text,
      and cut off a fragment ending on a boundary. */
  lemma CollapseByLeastPeriod(cls: Classes, t: Text, p: nat)
    requires IsLeastPeriod(t, p)
    ensures Collapse(cls, t) ==
            if p < |t| && |t| % p == 0 && IsReplayBoundary(cls, t[..p]) then t[..p] else t
  {
    PrimitiveRoot(t, p);
    if p < |t| && |t| % p == 0 {
      var n := |t| / p;
      assert |t| == n * p;
      assert n >= 2;
      if IsReplayBoundary(cls, t[..p]) {
        assert IsReplayOf(cls, t, t[..p], n);
        CollapseIs(cls, t, t[..p], n);
      } else {
        forall u: Text, k: nat ensures !IsReplayOf(cls, t, u, k) {
          if IsReplayOf(cls, t, u, k) { RootLength(t, p, u, k); }
        }
      }
    } else {
      assert Primitive(t) by {
        if |t| % p == 0 { assert p == |t|; }
      }
    }
  }

  lemma {:induction false} TrimJoined(cls: Classes, a: Text, b: Text)
    ensures TrimEnd(cls, a + b) == if TrimEnd(cls, b) == [] then TrimEnd(cls, a) else a + TrimEnd(cls, b)
  {
    if b == [] {
      assert a + b == a;
    } else {
      var init := b[..|b| - 1];
      assert (a + b)[..|a + b| - 1] == a + init;
      TrimJoined(cls, a, init);
    }
  }

  /** Repeating a fragment ends on a boundary exactly when the fragment does. */
  lemma {:induction false} BoundaryRepeats(cls: Classes, u: Text, k: nat)
    requires k > 0
    ensures IsReplayBoundary(cls, Repeat(u, k)) <==> IsReplayBoundary(cls, u)
  {
    assert Repeat(u, k) == u + Repeat(u, k - 1);
    if k == 1 {
      assert u + [] == u;
    } else {
      BoundaryRepeats(cls, u, k - 1);
      var rest := Repeat(u, k - 1);
      TrimJoined(cls, u, rest);
      if TrimEnd(cls, rest) != [] {
        var t := TrimEnd(cls, rest);
        assert (u + t)[|u + t| - 1] == t[|t| - 1];
      }
    }
  }

  lemma RootOf(u: Text) returns (root: Text, m: nat)
    requires u != []
    ensures m > 0 && u == Repeat(root, m) && Primitive(root)
  {
    var p := LeastPeriod(u);
    PeriodBounds(u, p);
    PrimitiveRoot(u, p);
    hide HasPeriod, Primitive, IsLeastPeriod;
    if |u| % p == 0 {
      root, m := u[..p], |u| / p;
      assert |u| == m * p;
    } else {
      root, m := u, 1;
      assert Repeat(u, 1) == u + Repeat(u, 0) && u + [] == u;
    }
  }

  lemma PositiveProduct(m: nat, k: nat)
    requires m > 0 && k > 0
    ensures m * k > 0
  {
  }

  /** A fragment that ends on a boundary, repeated, collapses to what it collapses to itself: nothing is shown twice. */
  lemma RepetitionCollapses(cls: Classes, u: Text, k: nat)
    requires u != [] && k > 0 && exists i :: MarkAtEnd(cls, u, i)
    ensures Collapse(cls, Repeat(u, k)) == Collapse(cls, u)
  {
    hide *;
    BoundaryIsMark(cls, u);
    var root, m := RootOf(u);
    BoundaryRepeats(cls, root, m);
    RepeatRepeat(root, m, k);
    PositiveProduct(m, k);
    CollapsesToRoot(cls, root, m);
    CollapsesToRoot(cls, root, m * k);
  }

  lemma CollapsesToRoot(cls: Classes, root: Text, n: nat)
    requires Primitive(root) && IsReplayBoundary(cls, root) && n > 0
    ensures Collapse(cls, Repeat(root, n)) == root
  {
    hide Primitive, IsReplayBoundary;
    if n == 1 {
      assert Repeat(root, 1) == root + Repeat(root, 0) && root + [] == root;
      forall w: Text, j: nat ensures !IsReplayOf(cls, root, w, j) {
        if IsReplayOf(cls, root, w, j) { NotRepeated(root, w, j); }
      }
    } else {
      CollapseIs(cls, Repeat(root, n), root, n);
    }
  }

  lemma CollapseShort(cls: Classes, t: Text)
    requires |t| < 2
    ensures Collapse(cls, t) == t
  {
  }

  // ---------- the prefix table ----------

  /** Borders shorter than a border are borders of that border. */
  lemma ShorterBorders(v: Text, b: nat, c: nat)
    requires IsBorder(v, b) && c < b
    ensures IsBorder(v, c) <==> IsBorder(v[..b], c)
  {
  }

  /** A non-empty border of one more letter is a border of the word before it, extended. */
  lemma BorderStep(v: Text, i: nat, c: nat)
    requires 0 < i < |v| && c < i
    ensures IsBorder(v[..i + 1], c + 1) <==> IsBorder(v[..i], c) && v[c] == v[i]
  {
    var w := v[..i + 1];
    assert w[..c + 1] == v[..c] + [v[c]];
    assert w[|w| - (c + 1)..] == v[i - c..i] + [v[i]];
    assert v[..i][..c] == v[..c] && v[..i][i - c..] == v[i - c..i];
    if IsBorder(w, c + 1) {
      assert (v[..c] + [v[c]])[..c] == (v[i - c..i] + [v[i]])[..c];
      assert (v[..c] + [v[c]])[c] == (v[i - c..i] + [v[i]])[c];
    }
  }

  /** Nothing but the prefixes of length at most `border` is left to extend at position `i`. */
  ghost predicate NoLongerExtension(v: Text, i: nat, border: nat)
    requires i < |v|
  {
    forall c :: border < c < i && IsBorder(v[..i], c) ==> v[c] != v[i]
  }

  lemma FallBack(v: Text, i: nat, border: nat, next: nat)
    requires 0 < border < i < |v|
    requires IsBorder(v[..i], border) && NoLongerExtension(v, i, border) && v[border] != v[i]
    requires IsLongestBorder(v[..border], next)
    ensures next < border && IsBorder(v[..i], next) && NoLongerExtension(v, i, next)
  {
    assert v[..i][..border] == v[..border];
    ShorterBorders(v[..i], border, next);
    forall c | next < c < i && IsBorder(v[..i], c) ensures v[c] != v[i] {
      if c < border { ShorterBorders(v[..i], border, c); }
    }
  }

  lemma LongestAtStep(v: Text, i: nat, border: nat)
    requires 0 < i < |v| && border < i
    requires IsBorder(v[..i], border) && NoLongerExtension(v, i, border)
    requires border == 0 || v[border] == v[i]
    ensures IsLongestBorder(v[..i + 1], if v[i] == v[border] then border + 1 else 0)
  {
    var w := v[..i + 1];
    assert IsBorder(w, 0);
    if v[i] == v[border] { BorderStep(v, i, border); }
    forall c | (if v[i] == v[border] then border + 1 else 0) < c < |w| ensures !IsBorder(w, c) {
      BorderStep(v, i, c - 1);
    }
  }

  ghost predicate LongestBorders(v: Text, table: seq<nat>, n: nat)
    requires n <= |v| == |table|
  {
    forall j {:trigger table[j]} :: 0 <= j < n ==> IsLongestBorder(v[..j + 1], table[j])
  }

  lemma TableStarts(v: Text, table: seq<nat>)
    requires 0 < |v| == |table| && table[0] == 0
    ensures LongestBorders(v, table, 1)
  {
  }

  /** An entry of the table, and what it says of the position after it. */
  lemma TableEntry(v: Text, table: seq<nat>, n: nat, j: nat)
    requires n <= |v| == |table| && LongestBorders(v, table, n) && j < n
    ensures IsLongestBorder(v[..j + 1], table[j]) && table[j] <= j && IsBorder(v[..j + 1], table[j])
    ensures j + 1 < |v| ==> NoLongerExtension(v, j + 1, table[j])
  {
    assert IsLongestBorder(v[..j + 1], table[j]);
  }

  lemma TableMore(v: Text, table: seq<nat>, n: nat, b: nat)
    requires n < |v| == |table| && LongestBorders(v, table, n) && IsLongestBorder(v[..n + 1], b)
    ensures LongestBorders(v, table[n := b], n + 1)
  {
    hide IsLongestBorder;
  }

  /** The source's in-place prefix table; proved to find exactly the repeated fragment. */
  method CollapseRepeatedSequence(cls: Classes, value: Text) returns (r: Text)
    ensures r == Collapse(cls, value)
  {
    hide Collapse, IsLongestBorder, LongestBorders, IsBorder, NoLongerExtension, IsLeastPeriod;
    if |value| < 2 {
      CollapseShort(cls, value);
      return value;
    }
    var prefixTable := new nat[|value|](_ => 0);
    TableStarts(value, prefixTable[..]);
    for index := 1 to |value|
      invariant LongestBorders(value, prefixTable[..], index)
    {
      var border: nat := prefixTable[index - 1];
      TableEntry(value, prefixTable[..], index, index - 1);
      while border > 0 && value[index] != value[border]
        invariant border < index && LongestBorders(value, prefixTable[..], index)
        invariant IsBorder(value[..index], border) && NoLongerExtension(value, index, border)
      {
        ghost var was := border;
        TableEntry(value, prefixTable[..], index, border - 1);
        border := prefixTable[border - 1];
        FallBack(value, index, was, border);
      }
      LongestAtStep(value, index, border);
      if value[index] == value[border] { border := border + 1; }
      TableMore(value, prefixTable[..], index, border);
      prefixTable[index] := border;
    }
    var longestBorder := prefixTable[|value| - 1];
    TableEntry(value, prefixTable[..], |value|, |value| - 1);
    assert value[..|value|] == value;
    var period := |value| - longestBorder;
    LongestBorderIsLeastPeriod(value, longestBorder);
    CollapseByLeastPeriod(cls, value, period);
    var unit := value[..period];
    r := if longestBorder > 0 && |value| % period == 0 && IsReplayBoundary(cls, unit) then unit else value;
  }

  // ---------- merging ----------

  /** The part of an incoming fragment that is not the text already shown. */
  function Fresh(previous: Text, incoming: Text): Text {
    if previous <= incoming then incoming[|previous|..] else incoming
  }

  ghost function Merge(cls: Classes, previous: Text, incoming: Text): Text {
    var normalized := Collapse(cls, Fresh(previous, incoming));
    if incoming == [] || normalized == [] then previous
    else if EndsWith(previous, normalized) && IsReplayBoundary(cls, normalized) then previous
    else previous + normalized
  }

  ghost function Normalize(cls: Classes, t: Text): Text { Merge(cls, [], t) }

  method MergeAssistantText(cls: Classes, previous: Text, incoming: Text) returns (r: Text)
    ensures r == Merge(cls, previous, incoming)
  {
    if |incoming| == 0 { return previous; }
    var candidate := if previous <= incoming then incoming[|previous|..] else incoming;
    var normalized := CollapseRepeatedSequence(cls, candidate);
    if |normalized| == 0 { return previous; }
    if EndsWith(previous, normalized) && IsReplayBoundary(cls, normalized) { return previous; }
    return previous + normalized;
  }

  method NormalizeAssistantText(cls: Classes, t: Text) returns (r: Text)
    ensures r == Normalize(cls, t)
  {
    r := MergeAssistantText(cls, [], t);
  }

  lemma NormalizeIsCollapse(cls: Classes, t: Text)
    ensures Normalize(cls, t) == Collapse(cls, t)
  {
  }

  /** Normalising an already normalised text changes nothing. */
  lemma NormalizeIdempotent(cls: Classes, t: Text)
    ensures Normalize(cls, Normalize(cls, t)) == Normalize(cls, t)
  {
  }

  /** Shown text is never taken back, and what is added is the collapsed fresh part or nothing. */
  lemma MergeExtends(cls: Classes, previous: Text, incoming: Text)
    ensures previous <= Merge(cls, previous, incoming)
    ensures var added := Merge(cls, previous, incoming)[|previous|..];
            added == [] || added == Collapse(cls, Fresh(previous, incoming))
    ensures previous <= incoming && Merge(cls, previous, incoming) != previous
            ==> Merge(cls, previous, incoming) <= incoming
  {
  }

  /** Nothing delivered is lost: the collapsed fresh part is at the end of the merged text, and the text stays as it
      was exactly when nothing is fresh or that part, ending on a boundary, was at its end already. */
  lemma MergeLosesNothing(cls: Classes, previous: Text, incoming: Text)
    ensures EndsWith(Merge(cls, previous, incoming), Collapse(cls, Fresh(previous, incoming)))
    ensures Merge(cls, previous, incoming) == previous <==>
      var added := Collapse(cls, Fresh(previous, incoming));
      incoming == [] || incoming == previous || (EndsWith(previous, added) && IsReplayBoundary(cls, added))
  {
    var c := Fresh(previous, incoming);
    var n := Collapse(cls, c);
    var k := CollapseCases(cls, c);
    assert c == [] ==> n == [] by { if c == [] { CollapseShort(cls, c); } }
    assert c == [] <==> incoming == [] || incoming == previous;
    hide Collapse, IsReplayBoundary;
    var m := Merge(cls, previous, incoming);
    assert (previous + n)[|previous|..] == n;
    if n != [] { assert |previous + n| != |previous|; }
  }

  /** A fragment delivered twice changes the text once, if and only if it is empty, cumulative
      (it starts with the text shown before it), or collapses to a fragment ending on a boundary. */
  lemma RedeliveryIsIgnored(cls: Classes, p: Text, d: Text)
    ensures Merge(cls, Merge(cls, p, d), d) == Merge(cls, p, d)
            <==> d == [] || p <= d || IsReplayBoundary(cls, Collapse(cls, d))
  {
    var m := Merge(cls, p, d);
    var c := Fresh(p, d);
    var n := Collapse(cls, c);
    var k := CollapseCases(cls, c);
    if d == [] {
    } else if p <= d {
      RedeliveredCumulative(cls, p, d);
    } else {
      assert c == d && n != [];
      if m != p {
        assert m == p + n;
        assert !(m <= d);
        assert m[|m| - |n|..] == n;
        assert EndsWith(m, n);
        if !IsReplayBoundary(cls, n) { assert |m + n| != |m|; }
      }
    }
  }

  lemma RedeliveredCumulative(cls: Classes, p: Text, d: Text)
    requires d != [] && p <= d
    ensures Merge(cls, Merge(cls, p, d), d) == Merge(cls, p, d)
  {
    var m := Merge(cls, p, d);
    var c := Fresh(p, d);
    var n := Collapse(cls, c);
    var k := CollapseCases(cls, c);
    assert d == p + c;
    if m != p {
      assert Repeat(n, k) == n + Repeat(n, k - 1);
      assert d == m + Repeat(n, k - 1);
      var c' := Fresh(m, d);
      assert c' == Repeat(n, k - 1);
      if k == 1 {
        CollapseShort(cls, []);
      } else {
        if k == 2 {
          assert Repeat(n, 1) == n + [] == n;
          CollapseIdempotent(cls, c);
        } else {
          assert IsReplayOf(cls, c', n, k - 1);
          CollapseIs(cls, c', n, k - 1);
        }
        assert m[|m| - |n|..] == n;
      }
    }
  }
}
