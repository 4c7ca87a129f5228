/** Diffing two scans into mutations (src/main/checkpoints/checkpoint-service.ts, buildMutations). */
module CheckpointDiff {
  import opened Options
  import opened CheckpointTypes
  import opened CheckpointObjectStore

  /** A scan: the entries, and the order in which the directory walk met their paths. */
  datatype Scan = Scan(order: seq<Path>, entries: Workspace)

  ghost predicate NoDuplicates<T>(s: seq<T>) {
    forall i, j :: 0 <= i < j < |s| ==> s[i] != s[j]
  }

  ghost predicate ValidScan(s: Scan) {
    NoDuplicates(s.order) && forall p :: p in s.order <==> p in s.entries
  }

  // ---------- what a diff is ----------

  /** `m` describes one difference between `before` and `after`. */
  ghost predicate Describes(before: Workspace, after: Workspace, m: Mutation) {
    match m.kind
    case Created =>
      m.fromPath.None? && m.path !in before && m.path in after
      && m.before.None? && m.after == EntryAt(after, m.path)
    case Deleted =>
      m.fromPath.None? && m.path in before && m.path !in after
      && m.before == EntryAt(before, m.path) && m.after.None?
    case Modified =>
      m.fromPath.None? && m.path in before && m.path in after && before[m.path] != after[m.path]
      && m.before == EntryAt(before, m.path) && m.after == EntryAt(after, m.path)
    case Renamed =>
      && m.fromPath.Some? && m.path !in before && m.path in after
      && m.fromPath.value in before && m.fromPath.value !in after
      && before[m.fromPath.value] == after[m.path]
      && m.before == EntryAt(before, m.fromPath.value) && m.after == EntryAt(after, m.path)
  }

  ghost predicate Disjoint(ms: seq<Mutation>) {
    forall i, j :: 0 <= i < j < |ms| ==> TouchedBy(ms[i]) !! TouchedBy(ms[j])
  }

  /** An exact diff: the mutations describe differences, no path occurs in two of them, and
      the paths that occur are exactly those whose entries differ. */
  ghost predicate ExactDiff(before: Workspace, after: Workspace, ms: seq<Mutation>) {
    && (forall i :: 0 <= i < |ms| ==> Describes(before, after, ms[i]))
    && Disjoint(ms)
    && (forall p :: p in Touched(ms) <==> At(before, p) != At(after, p))
  }

  /** No deletion and creation of the same entry are left unpaired. */
  ghost predicate RenamesMaximal(ms: seq<Mutation>) {
    forall i, j :: 0 <= i < |ms| && 0 <= j < |ms| && ms[i].kind.Deleted? && ms[j].kind.Created?
      ==> ms[i].before != ms[j].after
  }

  ghost predicate Numbered(ms: seq<Mutation>, start: nat) {
    forall i :: 0 <= i < |ms| ==> ms[i].sequence == start + i
  }

  // ---------- applying and reverting ----------

  function Apply(ws: Workspace, m: Mutation): Workspace {
    var ws' := if m.fromPath.Some? then With(ws, m.fromPath.value, None) else ws;
    With(ws', m.path, Content(m.after))
  }

  /** What undoing one mutation writes. */
  function Revert(ws: Workspace, m: Mutation): Workspace {
    if m.fromPath.Some? then With(With(ws, m.path, None), m.fromPath.value, Content(m.before))
    else With(ws, m.path, Content(m.before))
  }

  function ApplyAll(ws: Workspace, ms: seq<Mutation>): Workspace
    decreases |ms|
  {
    if ms == [] then ws else ApplyAll(Apply(ws, ms[0]), ms[1..])
  }

  /** Undoing the mutations from the last to the first. */
  function RevertAll(ws: Workspace, ms: seq<Mutation>): Workspace {
    if ms == [] then ws else Revert(RevertAll(ws, ms[1..]), ms[0])
  }

  /** The last value reverting writes to a path is the before-side of the first mutation touching it. */
  lemma {:induction false} RevertAllAt(ws: Workspace, ms: seq<Mutation>, p: Path)
    ensures p !in Touched(ms) ==> At(RevertAll(ws, ms), p) == At(ws, p)
    ensures forall i :: 0 <= i < |ms| && p in TouchedBy(ms[i]) && p !in Touched(ms[..i])
              ==> At(RevertAll(ws, ms), p) == Content(BeforeAt(ms[i], p))
  {
    if ms != [] {
      RevertAllAt(ws, ms[1..], p);
      forall i | 0 <= i < |ms| && p in TouchedBy(ms[i]) && p !in Touched(ms[..i])
        ensures At(RevertAll(ws, ms), p) == Content(BeforeAt(ms[i], p))
      {
        if i > 0 {
          assert ms[..i][0] == ms[0] && ms[..i][1..] == ms[1..][..i - 1];
          assert p in TouchedBy(ms[1..][i - 1]);
        }
      }
    }
  }

  /** The last mutation that touches a path, other than as both its source and its target. */
  predicate LastTouch(ms: seq<Mutation>, p: Path, i: int)
    requires 0 <= i < |ms|
  {
    p in TouchedBy(ms[i]) && p !in Touched(ms[i + 1..]) && ms[i].fromPath != Some(ms[i].path)
  }

  lemma {:induction false} ApplyAllAt(ws: Workspace, ms: seq<Mutation>, p: Path)
    ensures p !in Touched(ms) ==> At(ApplyAll(ws, ms), p) == At(ws, p)
    ensures forall i :: 0 <= i < |ms| && LastTouch(ms, p, i) ==>
      At(ApplyAll(ws, ms), p) == Content(AfterAt(ms[i], p))
    decreases |ms|
  {
    if ms != [] {
      ApplyAllAt(Apply(ws, ms[0]), ms[1..], p);
      forall i | 0 <= i < |ms| && LastTouch(ms, p, i) ensures At(ApplyAll(ws, ms), p) == Content(AfterAt(ms[i], p)) {
        if i > 0 { assert ms[1..][i - 1 + 1..] == ms[i + 1..] && LastTouch(ms[1..], p, i - 1); }
      }
    }
  }

  /** In an exact diff the mutation touching a path is the only one. */
  lemma OnlyToucher(before: Workspace, after: Workspace, ms: seq<Mutation>, p: Path) returns (i: nat)
    requires ExactDiff(before, after, ms) && p in Touched(ms)
    ensures i < |ms| && p in TouchedBy(ms[i]) && p !in Touched(ms[..i]) && p !in Touched(ms[i + 1..])
    ensures BeforeAt(ms[i], p) == EntryAt(before, p) && AfterAt(ms[i], p) == EntryAt(after, p)
    ensures ms[i].fromPath != Some(ms[i].path)
  {
    TouchedIff(ms, p);
    i :| 0 <= i < |ms| && p in TouchedBy(ms[i]);
    TouchedIff(ms[..i], p);
    TouchedIff(ms[i + 1..], p);
  }

  /** Applying an exact diff forward gives the later workspace; reverting it gives the earlier one. */
  lemma ExactDiffIsInvertible(before: Workspace, after: Workspace, ms: seq<Mutation>)
    requires ExactDiff(before, after, ms)
    ensures ApplyAll(before, ms) == after && RevertAll(after, ms) == before
  {
    forall p ensures At(ApplyAll(before, ms), p) == At(after, p) && At(RevertAll(after, ms), p) == At(before, p) {
      ApplyAllAt(before, ms, p);
      RevertAllAt(after, ms, p);
      if p in Touched(ms) { var i := OnlyToucher(before, after, ms, p); }
    }
    SameEverywhere(ApplyAll(before, ms), after);
    SameEverywhere(RevertAll(after, ms), before);
  }

  lemma SameEverywhere(a: Workspace, b: Workspace)
    requires forall p :: At(a, p) == At(b, p)
    ensures a == b
  {
    forall p ensures p in a <==> p in b { assert At(a, p) == At(b, p); }
    forall p | p in a ensures a[p] == b[p] { assert At(a, p) == At(b, p); }
  }

  // ---------- building the diff ----------

  /** The paths of `order` that `other` does not have. */
  function Missing(order: seq<Path>, other: Workspace): (r: seq<Path>)
    ensures forall p :: p in r <==> p in order && p !in other
  {
    if order == [] then [] else
    (if order[0] in other then [] else [order[0]]) + Missing(order[1..], other)
  }

  lemma {:induction false} MissingNoDuplicates(order: seq<Path>, other: Workspace)
    requires NoDuplicates(order)
    ensures NoDuplicates(Missing(order, other))
  {
    if order != [] {
      MissingNoDuplicates(order[1..], other);
      assert order[0] !in order[1..];
    }
  }

  /** The first unpaired path with the same entry. */
  function FindTarget(added: seq<Path>, paired: set<Path>, after: Workspace, e: WorkspaceEntry): (r: Option<Path>)
    requires forall p :: p in added ==> p in after
    ensures r.Some? ==> r.value in added && r.value !in paired && after[r.value] == e
    ensures r.None? ==> forall p :: p in added && p !in paired ==> after[p] != e
  {
    if added == [] then None
    else if added[0] !in paired && SameWorkspaceEntry(e, after[added[0]]) then Some(added[0])
    else FindTarget(added[1..], paired, after, e)
  }

  /** The diff so far: which differences have been described. */
  ghost predicate PartialDiff(before: Workspace, after: Workspace, ms: seq<Mutation>, start: nat) {
    && Numbered(ms, start)
    && (forall i :: 0 <= i < |ms| ==> Describes(before, after, ms[i]))
    && Disjoint(ms)
  }

  lemma Push(before: Workspace, after: Workspace, ms: seq<Mutation>, start: nat, m: Mutation)
    requires PartialDiff(before, after, ms, start)
    requires m.sequence == start + |ms| && Describes(before, after, m)
    requires TouchedBy(m) !! Touched(ms)
    ensures PartialDiff(before, after, ms + [m], start)
    ensures Touched(ms + [m]) == Touched(ms) + TouchedBy(m)
    ensures Hashes(ms + [m]) == Hashes(ms) + EntryHash(m.before) + EntryHash(m.after)
  {
    PushSets(ms, m);
    PushDisjoint(ms, m);
    hide Touched, TouchedBy, Hashes, Describes, Disjoint;
  }

  lemma PushSets(ms: seq<Mutation>, m: Mutation)
    ensures Touched(ms + [m]) == Touched(ms) + TouchedBy(m)
    ensures Hashes(ms + [m]) == Hashes(ms) + EntryHash(m.before) + EntryHash(m.after)
  {
    TouchedConcat(ms, [m]);
    HashesConcat(ms, [m]);
    assert Touched([m]) == TouchedBy(m) + Touched([m][1..]);
    assert Hashes([m]) == EntryHash(m.before) + EntryHash(m.after) + Hashes([m][1..]);
  }

  lemma PushDisjoint(ms: seq<Mutation>, m: Mutation)
    requires Disjoint(ms) && TouchedBy(m) !! Touched(ms)
    ensures Disjoint(ms + [m])
  {
    hide TouchedBy, Touched;
    forall i | 0 <= i < |ms| ensures TouchedBy(ms[i]) !! TouchedBy(m) {
      forall p | p in TouchedBy(ms[i]) ensures p !in TouchedBy(m) { TouchedIff(ms, p); }
    }
  }

  /** The first loop's progress: the diff so far is the renames of the sources met, and no
      unpaired source has an unpaired target left. */
  ghost predicate Pairing(b: Workspace, a: Workspace, sources: seq<Path>, added: seq<Path>,
      ms: seq<Mutation>, paired: set<Path>, pairedSources: set<Path>)
    requires forall p :: p in sources ==> p in b
    requires forall p :: p in added ==> p in a
  {
    && Touched(ms) == paired + pairedSources
    && (forall p :: p in paired ==> p in added)
    && (forall p :: p in pairedSources ==> p in sources)
    && (forall k :: 0 <= k < |ms| ==> ms[k].kind.Renamed?)
    && (forall p, q :: p in sources && p !in pairedSources && q in added && q !in paired ==> b[p] != a[q])
  }

  lemma PairingStep(b: Workspace, a: Workspace, sources: seq<Path>, source: Path, added: seq<Path>,
      ms: seq<Mutation>, paired: set<Path>, pairedSources: set<Path>, start: nat)
    requires source in b && source !in a && source !in sources
    requires (forall p :: p in sources ==> p in b) && forall p :: p in added ==> p in a && p !in b
    requires PartialDiff(b, a, ms, start) && Pairing(b, a, sources, added, ms, paired, pairedSources)
    ensures var target := FindTarget(added, paired, a, b[source]);
            if target.None? then Pairing(b, a, sources + [source], added, ms, paired, pairedSources)
            else
              var before, after := EntryAt(b, source), EntryAt(a, target.value);
              var m := Mutation(start + |ms|, Renamed, target.value, Some(source), before, after);
              && PartialDiff(b, a, ms + [m], start)
              && Hashes(ms + [m]) == Hashes(ms) + EntryHash(m.before) + EntryHash(m.after)
              && Pairing(b, a, sources + [source], added, ms + [m], paired + {target.value}, pairedSources + {source})
  {
    var target := FindTarget(added, paired, a, b[source]);
    if target.Some? {
      var before, after := EntryAt(b, source), EntryAt(a, target.value);
      var m := Mutation(start + |ms|, Renamed, target.value, Some(source), before, after);
      assert TouchedBy(m) == {target.value, source};
      assert source !in added;
      Push(b, a, ms, start, m);
    }
  }

  /** The first loop: each removed path takes the first unpaired added path with its entry. */
  method PairRenames(b: Workspace, a: Workspace, removed: seq<Path>, added: seq<Path>, store: ObjectStore,
      sequenceStart: nat)
    returns (mutations: seq<Mutation>, paired: set<Path>, pairedSources: set<Path>)
    requires NoDuplicates(removed)
    requires forall p :: p in removed ==> p in b && p !in a
    requires forall p :: p in added ==> p in a && p !in b
    modifies store
    ensures PartialDiff(b, a, mutations, sequenceStart)
    ensures Pairing(b, a, removed, added, mutations, paired, pairedSources)
    ensures store.objects == PutAll(old(store.objects), Hashes(mutations))
  {
    mutations, paired, pairedSources := [], {}, {};
    PutNothing(store.objects);
    for i := 0 to |removed|
      invariant PartialDiff(b, a, mutations, sequenceStart)
      invariant Pairing(b, a, removed[..i], added, mutations, paired, pairedSources)
      invariant store.objects == PutAll(old(store.objects), Hashes(mutations))
    {
      var fromPath := removed[i];
      assert removed[..i + 1] == removed[..i] + [fromPath];
      PairingStep(b, a, removed[..i], fromPath, added, mutations, paired, pairedSources, sequenceStart);
      var target := FindTarget(added, paired, a, b[fromPath]);
      if target.Some? {
        paired := paired + {target.value};
        pairedSources := pairedSources + {fromPath};
        var beforeSide := store.EntryFromWorkspace(b[fromPath]);
        var afterSide := store.EntryFromWorkspace(a[target.value]);
        PutAllThrice(old(store.objects), Hashes(mutations), EntryHash(Some(beforeSide)), EntryHash(Some(afterSide)));
        mutations := mutations + [Mutation(sequenceStart + |mutations|, Renamed, target.value, Some(fromPath),
                                           Some(beforeSide), Some(afterSide))];
      }
    }
    assert removed[..|removed|] == removed;
  }

  /** The second loop's progress: every difference of the paths `done` is described. */
  ghost predicate Described(b: Workspace, a: Workspace, ms: seq<Mutation>, renamed: set<Path>, done: seq<Path>) {
    && renamed <= Touched(ms)
    && (forall p :: p in Touched(ms) ==> p in renamed || p in done)
    && (forall p :: p in done && At(b, p) != At(a, p) ==> p in Touched(ms))
    && (forall k :: 0 <= k < |ms| && !ms[k].kind.Renamed? ==> ms[k].path !in renamed)
  }

  /** The mutation the second loop pushes for a path that is not half of a rename. */
  function PathMutation(b: Workspace, a: Workspace, path: Path, sequence: nat): Mutation {
    var kind := if path !in b then Created else if path !in a then Deleted else Modified;
    Mutation(sequence, kind, path, None, EntryAt(b, path), EntryAt(a, path))
  }

  lemma DescribedSkip(b: Workspace, a: Workspace, ms: seq<Mutation>, renamed: set<Path>, done: seq<Path>, path: Path)
    requires Described(b, a, ms, renamed, done) && (At(b, path) == At(a, path) || path in renamed)
    ensures Described(b, a, ms, renamed, done + [path])
  {
  }

  lemma DescribedPush(b: Workspace, a: Workspace, ms: seq<Mutation>, renamed: set<Path>, done: seq<Path>, path: Path,
      m: Mutation)
    requires Described(b, a, ms, renamed, done) && path !in renamed
    requires Touched(ms + [m]) == Touched(ms) + {path} && m.path == path
    ensures Described(b, a, ms + [m], renamed, done + [path])
  {
    hide At, Touched;
  }

  lemma DescribedStep(b: Workspace, a: Workspace, ms: seq<Mutation>, renamed: set<Path>, done: seq<Path>, path: Path,
      start: nat)
    requires PartialDiff(b, a, ms, start) && Described(b, a, ms, renamed, done)
    requires path !in done
    ensures At(b, path) == At(a, path) || path in renamed ==> Described(b, a, ms, renamed, done + [path])
    ensures At(b, path) != At(a, path) && path !in renamed ==>
              var m := PathMutation(b, a, path, start + |ms|);
              && PartialDiff(b, a, ms + [m], start)
              && Described(b, a, ms + [m], renamed, done + [path])
              && Hashes(ms + [m]) == Hashes(ms) + EntryHash(m.before) + EntryHash(m.after)
  {
    hide PartialDiff, Hashes;
    if At(b, path) != At(a, path) && path !in renamed {
      var m := PathMutation(b, a, path, start + |ms|);
      assert TouchedBy(m) == {path} && Describes(b, a, m);
      assert path !in Touched(ms);
      hide Described, At, Touched;
      Push(b, a, ms, start, m);
      DescribedPush(b, a, ms, renamed, done, path, m);
    } else {
      hide Described;
      DescribedSkip(b, a, ms, renamed, done, path);
    }
  }

  lemma DescribedAll(b: Workspace, a: Workspace, ms: seq<Mutation>, union: seq<Path>, renamed: set<Path>)
    requires forall i :: 0 <= i < |ms| ==> Describes(b, a, ms[i])
    requires Described(b, a, ms, renamed, union)
    requires forall p :: p in b || p in a ==> p in union
    ensures forall p :: p in Touched(ms) <==> At(b, p) != At(a, p)
  {
    forall p | p in Touched(ms) ensures At(b, p) != At(a, p) {
      TouchedIff(ms, p);
      var k :| 0 <= k < |ms| && p in TouchedBy(ms[k]);
    }
  }

  lemma UnionNoDuplicates(order: seq<Path>, added: seq<Path>)
    requires NoDuplicates(order) && NoDuplicates(added) && forall p :: p in added ==> p !in order
    ensures NoDuplicates(order + added)
  {
    var u := order + added;
    forall i, j | 0 <= j < i < |u| ensures u[i] != u[j] {
      if i >= |order| { assert u[i] == added[i - |order|] && added[i - |order|] in added; }
    }
  }

  /** The mutations that turn one scan into the other. */
  method BuildMutations(before: Scan, after: Scan, store: ObjectStore, sequenceStart: nat)
    returns (mutations: seq<Mutation>)
    requires ValidScan(before) && ValidScan(after)
    modifies store
    ensures ExactDiff(before.entries, after.entries, mutations)
    ensures RenamesMaximal(mutations) && Numbered(mutations, sequenceStart)
    ensures store.objects == PutAll(old(store.objects), Hashes(mutations))
  {
    var b, a := before.entries, after.entries;
    var removed := Missing(before.order, a);
    var added := Missing(after.order, b);
    MissingNoDuplicates(before.order, a);
    MissingNoDuplicates(after.order, b);
    var paired, pairedSources;
    mutations, paired, pairedSources := PairRenames(b, a, removed, added, store, sequenceStart);
    var union := before.order + added;
    UnionNoDuplicates(before.order, added);
    mutations := DescribeRest(b, a, union, paired + pairedSources, store, sequenceStart, mutations, old(store.objects));
    DescribedAll(b, a, mutations, union, paired + pairedSources);
    LeftoversDiffer(b, a, removed, added, mutations, paired, pairedSources);
  }

  lemma LeftoversDiffer(b: Workspace, a: Workspace, removed: seq<Path>, added: seq<Path>, ms: seq<Mutation>,
      paired: set<Path>, pairedSources: set<Path>)
    requires forall p :: p in removed <==> p in b && p !in a
    requires forall p :: p in added <==> p in a && p !in b
    requires forall p, q :: p in removed && p !in pairedSources && q in added && q !in paired ==> b[p] != a[q]
    requires forall i :: 0 <= i < |ms| ==> Describes(b, a, ms[i])
    requires forall k :: 0 <= k < |ms| && !ms[k].kind.Renamed? ==> ms[k].path !in paired + pairedSources
    ensures RenamesMaximal(ms)
  {
    forall i, j | 0 <= i < |ms| && 0 <= j < |ms| && ms[i].kind.Deleted? && ms[j].kind.Created?
      ensures ms[i].before != ms[j].after
    {
      assert Describes(b, a, ms[i]) && Describes(b, a, ms[j]);
      assert b[ms[i].path] != a[ms[j].path];
    }
  }

  /** The second loop's body: the mutation of one path, with its objects stored. */
  method DescribePath(b: Workspace, a: Workspace, path: Path, renamed: set<Path>, store: ObjectStore, sequence: nat)
    returns (m: Option<Mutation>)
    requires path in renamed ==> path !in b || path !in a
    modifies store
    ensures m
      == if At(b, path) != At(a, path) && path !in renamed then Some(PathMutation(b, a, path, sequence)) else None
    ensures store.objects ==
      PutAll(old(store.objects), if m.Some? then EntryHash(m.value.before) + EntryHash(m.value.after) else {})
  {
    m := None;
    PutNothing(store.objects);
    if path in b && path in a {
      if !SameWorkspaceEntry(b[path], a[path]) {
        var beforeSide := store.EntryFromWorkspace(b[path]);
        var afterSide := store.EntryFromWorkspace(a[path]);
        PutAllTwice(old(store.objects), EntryHash(Some(beforeSide)), EntryHash(Some(afterSide)));
        m := Some(Mutation(sequence, Modified, path, None, Some(beforeSide), Some(afterSide)));
      }
    } else if path in b && path !in renamed {
      var beforeSide := store.EntryFromWorkspace(b[path]);
      m := Some(Mutation(sequence, Deleted, path, None, Some(beforeSide), None));
    } else if path in a && path !in renamed {
      var afterSide := store.EntryFromWorkspace(a[path]);
      m := Some(Mutation(sequence, Created, path, None, None, Some(afterSide)));
    }
  }

  lemma NotMetBefore<T>(s: seq<T>, i: nat)
    requires NoDuplicates(s) && i < |s|
    ensures s[i] !in s[..i] && s[..i + 1] == s[..i] + [s[i]]
  {
  }

  /** The second loop, over every path of either scan. */
  method DescribeRest(b: Workspace, a: Workspace, union: seq<Path>, renamed: set<Path>, store: ObjectStore,
      sequenceStart: nat, renames: seq<Mutation>,
      ghost start: Objects) returns (mutations: seq<Mutation>)
    requires NoDuplicates(union)
    requires forall p :: p in renamed ==> p !in b || p !in a
    requires PartialDiff(b, a, renames, sequenceStart) && Described(b, a, renames, renamed, [])
    requires store.objects == PutAll(start, Hashes(renames))
    modifies store
    ensures PartialDiff(b, a, mutations, sequenceStart)
    ensures Described(b, a, mutations, renamed, union)
    ensures store.objects == PutAll(start, Hashes(mutations))
  {
    hide Described, PartialDiff, PutAll, Hashes;
    mutations := renames;
    for i := 0 to |union|
      invariant PartialDiff(b, a, mutations, sequenceStart)
      invariant Described(b, a, mutations, renamed, union[..i])
      invariant store.objects == PutAll(start, Hashes(mutations))
    {
      var path := union[i];
      NotMetBefore(union, i);
      DescribedStep(b, a, mutations, renamed, union[..i], path, sequenceStart);
      PutNothing(store.objects);
      var m := DescribePath(b, a, path, renamed, store, sequenceStart + |mutations|);
      if m.Some? {
        PutAllTwice(start, Hashes(mutations), EntryHash(m.value.before) + EntryHash(m.value.after));
        assert Hashes(mutations) + EntryHash(m.value.before) + EntryHash(m.value.after)
          == Hashes(mutations) + (EntryHash(m.value.before) + EntryHash(m.value.after));
        mutations := mutations + [m.value];
      }
    }
    assert union[..|union|] == union;
  }
}
