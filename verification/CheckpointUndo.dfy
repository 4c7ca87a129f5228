/** Undoing a checkpoint (src/main/checkpoints/checkpoint-service.ts, undo and the functions it calls). */
module CheckpointUndo {
  import opened Options
  import opened CheckpointTypes
  import opened CheckpointDiff

  // ---------- input and output failures ----------

  /** What can go wrong in one workspace write: it throws and leaves `residue` at the path, or it
      is a removal whose error the source swallows, so that the path keeps its entry. */
  datatype WriteFault = Throws(residue: Option<WorkspaceEntry>) | Swallowed

  /** A write of an undo: the mutation's index, and whether it is the write of `fromPath`. */
  datatype Site = Site(index: nat, source: bool)

  /** The failing reads and writes of one undo. A read can throw (`refused` when the paths are first
      read, `failedReads` by mutation index when they are verified), or its error can be swallowed, so
      that the path reads as absent (`unread` when first read, `unreadAt` when verified). */
  datatype Faults = Faults(refused: set<Path>, unread: set<Path>, failedReads: set<nat>, unreadAt: set<Site>,
                           failedWrites: map<Site, WriteFault>)

  const NO_FAULTS := Faults({}, {}, {}, {}, map[])

  /** The workspace as the first reads show it. */
  function Seen(ws: Workspace, f: Faults): Workspace { ws - f.unread }

  /** A workspace, and whether the steps so far all succeeded. */
  datatype Attempt = Attempt(files: Workspace, ok: bool)

  function WriteEntry(ws: Workspace, o: Objects, f: Faults, site: Site, p: Path, e: Option<CheckpointEntry>): Attempt {
    var fault := if site in f.failedWrites then Some(f.failedWrites[site]) else None;
    if fault.Some? && fault.value.Throws? then Attempt(With(ws, p, fault.value.residue), false)
    else if e.None? then Attempt(if fault.Some? then ws else ws - {p}, true)
    else if e.value.objectHash !in o then Attempt(ws, false)
    else Attempt(ws[p := WorkspaceEntry(e.value.kind, o[e.value.objectHash])], true)
  }

  predicate Verified(ws: Workspace, f: Faults, index: nat, m: Mutation) {
    && index !in f.failedReads
    && Matches(if Site(index, false) in f.unreadAt then None else At(ws, m.path), m.after)
    && (m.fromPath.Some? ==> Site(index, true) in f.unreadAt || m.fromPath.value !in ws)
  }

  function RestoreOne(ws: Workspace, o: Objects, f: Faults, index: nat, m: Mutation): Attempt {
    if m.fromPath.Some? then
      var first := WriteEntry(ws, o, f, Site(index, false), m.path, None);
      if first.ok then WriteEntry(first.files, o, f, Site(index, true), m.fromPath.value, m.before) else first
    else
      WriteEntry(ws, o, f, Site(index, false), m.path, m.before)
  }

  /** Verifying and restoring the first `n` mutations, from the last of them to the first. */
  function RestoreDown(ws: Workspace, o: Objects, f: Faults, ms: seq<Mutation>, n: nat): Attempt
    requires n <= |ms|
    decreases n
  {
    if n == 0 then Attempt(ws, true)
    else if !Verified(ws, f, n - 1, ms[n - 1]) then Attempt(ws, false)
    else
      var step := RestoreOne(ws, o, f, n - 1, ms[n - 1]);
      if step.ok then RestoreDown(step.files, o, f, ms, n - 1) else step
  }

  // ---------- the paths of a record ----------

  function UniqueFrom<T(==,!new)>(s: seq<T>, met: seq<T>): (r: seq<T>)
    requires NoDuplicates(met)
    ensures NoDuplicates(r) && forall x :: x in r <==> x in met || x in s
  {
    if s == [] then met
    else UniqueFrom(s[1..], if s[0] in met then met else met + [s[0]])
  }

  function PathList(m: Mutation): seq<Path> {
    [m.path] + (if m.fromPath.Some? then [m.fromPath.value] else [])
  }

  function AllPaths(ms: seq<Mutation>): (r: seq<Path>)
    ensures forall p :: p in r <==> p in Touched(ms)
  {
    if ms == [] then [] else PathList(ms[0]) + AllPaths(ms[1..])
  }

  function UniqueMutationPaths(ms: seq<Mutation>): (r: seq<Path>)
    ensures NoDuplicates(r) && forall p :: p in r <==> p in Touched(ms)
  {
    UniqueFrom(AllPaths(ms), [])
  }

  /** What undo expects at a path: the after-side of the last mutation touching it. */
  function ExpectedAt(ms: seq<Mutation>, p: Path): Option<CheckpointEntry> {
    if ms == [] then None
    else if p in TouchedBy(ms[|ms| - 1]) then AfterAt(ms[|ms| - 1], p)
    else ExpectedAt(ms[..|ms| - 1], p)
  }

  function ConflictsAmong(ws: Workspace, ms: seq<Mutation>, paths: seq<Path>): seq<Path> {
    if paths == [] then []
    else
      var init := ConflictsAmong(ws, ms, paths[..|paths| - 1]);
      var p := paths[|paths| - 1];
      if Matches(At(ws, p), ExpectedAt(ms, p)) then init else init + [p]
  }

  lemma {:induction false} ConflictsIff(ws: Workspace, ms: seq<Mutation>, paths: seq<Path>)
    ensures ConflictsAmong(ws, ms, paths) == [] <==> forall p :: p in paths ==> Matches(At(ws, p), ExpectedAt(ms, p))
  {
    if paths != [] {
      ConflictsIff(ws, ms, paths[..|paths| - 1]);
      assert paths == paths[..|paths| - 1] + [paths[|paths| - 1]];
    }
  }

  lemma {:induction false} ConflictMembers(ws: Workspace, ms: seq<Mutation>, paths: seq<Path>, p: Path)
    ensures p in ConflictsAmong(ws, ms, paths) <==> p in paths && !Matches(At(ws, p), ExpectedAt(ms, p))
  {
    if paths != [] {
      ConflictMembers(ws, ms, paths[..|paths| - 1], p);
      assert paths == paths[..|paths| - 1] + [paths[|paths| - 1]];
    }
  }

  // ---------- undo as a whole ----------

  datatype Outcome = Undone | Conflict(conflicts: seq<Path>) | Failed

  /** The entries of the current workspace that the recovery record stores. */
  function CurrentHashes(ws: Workspace, ps: set<Path>): set<Hash> {
    set p | p in ps && p in ws :: EntryOf(ws[p]).objectHash
  }

  /** What rewriting the tracked paths with the entries first read gives: a path read as absent is removed. */
  function PutBack(ws: Workspace, f: Faults, ms: seq<Mutation>): Workspace { ws - (f.unread * Touched(ms)) }

  /** The workspace and the outcome of undoing the mutations of a ready record, when no first read throws. */
  function UndoResult(ws: Workspace, o: Objects, f: Faults, ms: seq<Mutation>): (Workspace, Outcome) {
    var seen := Seen(ws, f);
    var conflicts := ConflictsAmong(seen, ms, UniqueMutationPaths(ms));
    if conflicts != [] then (ws, Conflict(conflicts))
    else
      var attempt := RestoreDown(ws, PutAll(o, CurrentHashes(seen, Touched(ms))), f, ms, |ms|);
      if attempt.ok then (attempt.files, Undone) else (PutBack(ws, f, ms), Failed)
  }

  lemma UndoResultCases(ws: Workspace, o: Objects, f: Faults, ms: seq<Mutation>)
    ensures var conflicts := ConflictsAmong(Seen(ws, f), ms, UniqueMutationPaths(ms));
            var attempt := RestoreDown(ws, PutAll(o, CurrentHashes(Seen(ws, f), Touched(ms))), f, ms, |ms|);
            UndoResult(ws, o, f, ms) ==
              if conflicts != [] then (ws, Conflict(conflicts))
              else if attempt.ok then (attempt.files, Undone) else (PutBack(ws, f, ms), Failed)
  {
    hide ConflictsAmong, UniqueMutationPaths, RestoreDown, PutAll, CurrentHashes, Touched, PutBack;
  }

  /** An undo reports a conflict exactly when some tracked path, as it was read, does not hold what the last mutation of
      it left, and lists those paths. */
  lemma ConflictReported(ws: Workspace, o: Objects, f: Faults, ms: seq<Mutation>)
    ensures var outcome := UndoResult(ws, o, f, ms).1;
      && (outcome.Conflict? <==> exists p :: p in Touched(ms) && !Matches(At(Seen(ws, f), p), ExpectedAt(ms, p)))
      && (outcome.Conflict? ==> forall p ::
            p in outcome.conflicts <==> p in Touched(ms) && !Matches(At(Seen(ws, f), p), ExpectedAt(ms, p)))
  {
    UndoResultCases(ws, o, f, ms);
    hide UndoResult, RestoreDown, ConflictsAmong, Touched, Matches, ExpectedAt;
    var seen, paths := Seen(ws, f), UniqueMutationPaths(ms);
    ConflictsIff(seen, ms, paths);
    forall p ensures p in ConflictsAmong(seen, ms, paths)
      <==> p in Touched(ms) && !Matches(At(seen, p), ExpectedAt(ms, p))
    {
      ConflictMembers(seen, ms, paths, p);
    }
  }

  /** No tracked path that exists was read as absent before the undo. */
  ghost predicate AllRead(ws: Workspace, f: Faults, ms: seq<Mutation>) {
    forall p :: p in Touched(ms) && p in ws ==> p !in f.unread
  }

  /** A failed undo leaves the workspace as it was exactly when every tracked path that exists was read. */
  lemma FailureKeepsFiles(ws: Workspace, o: Objects, f: Faults, ms: seq<Mutation>)
    requires UndoResult(ws, o, f, ms).1 == Failed
    ensures UndoResult(ws, o, f, ms).0 == ws <==> AllRead(ws, f, ms)
  {
    hide RestoreDown, ConflictsAmong, Touched;
    var after := UndoResult(ws, o, f, ms).0;
    if p :| p in Touched(ms) && p in ws && p in f.unread { assert p !in after; }
  }

  /** A tracked path held what the record left there before a success, exactly unless it exists and was read as
      absent: such a file is overwritten. */
  lemma UndoneOverwritesUnread(ws: Workspace, o: Objects, f: Faults, ms: seq<Mutation>, p: Path)
    requires UndoResult(ws, o, f, ms).1 == Undone && p in Touched(ms)
    ensures Matches(At(ws, p), ExpectedAt(ms, p)) <==> !(p in f.unread && p in ws)
  {
    hide RestoreDown, ConflictsAmong, Touched, ExpectedAt;
    ConflictsIff(Seen(ws, f), ms, UniqueMutationPaths(ms));
    assert p in UniqueMutationPaths(ms);
    assert Matches(At(Seen(ws, f), p), ExpectedAt(ms, p));
  }

  /** Every tracked path holds what the record left there. */
  ghost predicate AsLeft(ws: Workspace, ms: seq<Mutation>) {
    forall p :: p in Touched(ms) ==> Matches(At(ws, p), ExpectedAt(ms, p))
  }

  /** A success overwrites nothing but what the record left exactly when every tracked path that exists was read. */
  lemma UndoneWasAsLeft(ws: Workspace, o: Objects, f: Faults, ms: seq<Mutation>)
    requires UndoResult(ws, o, f, ms).1 == Undone
    ensures AsLeft(ws, ms) <==> AllRead(ws, f, ms)
  {
    hide UndoResult, Touched, Matches, ExpectedAt;
    forall p | p in Touched(ms) ensures Matches(At(ws, p), ExpectedAt(ms, p)) <==> !(p in f.unread && p in ws) {
      UndoneOverwritesUnread(ws, o, f, ms, p);
    }
  }

  // ---------- what a successful undo restores ----------

  lemma RestoreOneReverts(ws: Workspace, o: Objects, index: nat, m: Mutation)
    requires Sound(o) && RestoreOne(ws, o, NO_FAULTS, index, m).ok
    ensures RestoreOne(ws, o, NO_FAULTS, index, m).files == Revert(ws, m)
  {
  }

  lemma RevertAllSplit(ws: Workspace, ms: seq<Mutation>, n: nat)
    requires 0 < n <= |ms|
    ensures RevertAll(ws, ms[n - 1..]) == Revert(RevertAll(ws, ms[n..]), ms[n - 1])
  {
    assert ms[n - 1..][1..] == ms[n..];
  }

  /** A recorded mutation: it does not rename a path to itself, a rename has both sides, and one that
      created a path has what it created. */
  ghost predicate ProperMutation(m: Mutation) {
    && m.fromPath != Some(m.path)
    && (m.fromPath.Some? ==> m.before.Some?)
    && (m.before.None? || m.fromPath.Some? ==> m.after.Some?)
  }

  ghost predicate Proper(ms: seq<Mutation>) { forall i :: 0 <= i < |ms| ==> ProperMutation(ms[i]) }

  /** Restoring mutation `i` removes `p`, and the error of that removal is swallowed. */
  predicate Unremoved(f: Faults, m: Mutation, i: nat, p: Path) {
    BeforeAt(m, p).None? && Site(i, m.fromPath == Some(p)) in f.failedWrites
  }

  lemma RestoreOneAt(ws: Workspace, o: Objects, f: Faults, i: nat, m: Mutation, p: Path)
    requires Sound(o) && ProperMutation(m) && Verified(ws, f, i, m) && RestoreOne(ws, o, f, i, m).ok
    ensures var after := At(RestoreOne(ws, o, f, i, m).files, p);
            if p !in TouchedBy(m) then after == At(ws, p)
            else if Unremoved(f, m, i, p) then after.Some?
            else after == Content(BeforeAt(m, p))
  {
  }

  /** The first mutation that touches a path, which is the last one restored. */
  ghost predicate FirstToucher(ms: seq<Mutation>, i: nat, p: Path)
    requires i < |ms|
  {
    p in TouchedBy(ms[i]) && p !in Touched(ms[..i])
  }

  lemma {:induction false} RestoreDownAt(ws: Workspace, o: Objects, f: Faults, ms: seq<Mutation>, n: nat, p: Path)
    requires n <= |ms| && Sound(o) && Proper(ms) && RestoreDown(ws, o, f, ms, n).ok
    ensures var after := At(RestoreDown(ws, o, f, ms, n).files, p);
            && (p !in Touched(ms[..n]) ==> after == At(ws, p))
            && forall i :: 0 <= i < n && FirstToucher(ms, i, p) ==>
                 if Unremoved(f, ms[i], i, p) then after.Some? else after == Content(BeforeAt(ms[i], p))
    decreases n
  {
    hide RestoreOne, Verified, Unremoved, ProperMutation, Content, BeforeAt, At;
    if n > 0 {
      var m := ms[n - 1];
      var step := RestoreOne(ws, o, f, n - 1, m);
      RestoreOneAt(ws, o, f, n - 1, m, p);
      RestoreDownAt(step.files, o, f, ms, n - 1, p);
      TouchedIff(ms[..n], p);
      TouchedIff(ms[..n - 1], p);
      assert forall k :: 0 <= k < n - 1 ==> ms[..n][k] == ms[..n - 1][k];
      assert ms[..n][n - 1] == m;
    }
  }

  /** No removal that undo leaves to the last for its path is swallowed. */
  ghost predicate NothingLeftBehind(f: Faults, ms: seq<Mutation>) {
    forall i, p :: 0 <= i < |ms| && FirstToucher(ms, i, p) ==> !Unremoved(f, ms[i], i, p)
  }

  lemma {:induction false} FirstToucherOf(ms: seq<Mutation>, p: Path) returns (i: nat)
    requires p in Touched(ms)
    ensures i < |ms| && FirstToucher(ms, i, p)
  {
    var n := |ms| - 1;
    TouchedIff(ms, p);
    TouchedIff(ms[..n], p);
    if p in Touched(ms[..n]) {
      i := FirstToucherOf(ms[..n], p);
      assert ms[..n][..i] == ms[..i];
    } else {
      i := n;
    }
  }

  lemma RevertedAtFirst(ws: Workspace, ms: seq<Mutation>, i: nat, p: Path)
    requires i < |ms| && FirstToucher(ms, i, p)
    ensures At(RevertAll(ws, ms), p) == Content(BeforeAt(ms[i], p))
    ensures BeforeAt(ms[i], p).None? ==> At(RevertAll(ws, ms), p).None?
  {
    RevertAllAt(ws, ms, p);
  }

  /** Undone means: the workspace with every mutation reverted, whatever failed and whatever was
      stored, exactly when the last removal of each path was not a swallowed one. */
  lemma UndoneIsReverted(ws: Workspace, o: Objects, f: Faults, ms: seq<Mutation>)
    requires Sound(o) && Proper(ms) && UndoResult(ws, o, f, ms).1 == Undone
    ensures UndoResult(ws, o, f, ms).0 == RevertAll(ws, ms) <==> NothingLeftBehind(f, ms)
  {
    var o' := PutAll(o, CurrentHashes(Seen(ws, f), Touched(ms)));
    var after := RestoreDown(ws, o', f, ms, |ms|).files;
    assert UndoResult(ws, o, f, ms).0 == after && RestoreDown(ws, o', f, ms, |ms|).ok;
    assert ms[..|ms|] == ms;
    hide UndoResult, RestoreDown, RevertAll, Unremoved, FirstToucher, Content, BeforeAt, Touched;
    if NothingLeftBehind(f, ms) {
      forall p ensures At(after, p) == At(RevertAll(ws, ms), p) {
        RestoreDownAt(ws, o', f, ms, |ms|, p);
        if p in Touched(ms) {
          var i := FirstToucherOf(ms, p);
          RevertedAtFirst(ws, ms, i, p);
        } else {
          RevertAllAt(ws, ms, p);
        }
      }
      SameEverywhere(after, RevertAll(ws, ms));
    } else {
      var i, p :| 0 <= i < |ms| && FirstToucher(ms, i, p) && Unremoved(f, ms[i], i, p);
      RestoreDownAt(ws, o', f, ms, |ms|, p);
      RevertedAtFirst(ws, ms, i, p);
    }
  }

  // ---------- when undo succeeds ----------

  /** The nearest mutation after `i` that touches `p`, or the number of mutations. */
  function NextToucher(ms: seq<Mutation>, i: nat, p: Path): (j: nat)
    requires i < |ms|
    ensures i < j <= |ms|
    decreases |ms| - i
  {
    if i + 1 == |ms| || p in TouchedBy(ms[i + 1]) then i + 1 else NextToucher(ms, i + 1, p)
  }

  /** What a path holds when mutation `i` is about to be restored. */
  function FoundAt(ws: Workspace, ms: seq<Mutation>, i: nat, p: Path): Option<WorkspaceEntry>
    requires i < |ms|
  {
    var j := NextToucher(ms, i, p);
    if j == |ms| then At(ws, p) else Content(BeforeAt(ms[j], p))
  }

  /** Each mutation's after-side is what the next mutation of the path started from, and the last
      one's is what the workspace holds. */
  ghost predicate Chained(ws: Workspace, ms: seq<Mutation>) {
    forall i, p :: 0 <= i < |ms| && p in TouchedBy(ms[i]) ==> Matches(FoundAt(ws, ms, i, p), AfterAt(ms[i], p))
  }

  lemma {:induction false} FoundAtReverted(ws: Workspace, ms: seq<Mutation>, i: nat, p: Path)
    requires i < |ms|
    ensures FoundAt(ws, ms, i, p) == At(RevertAll(ws, ms[i + 1..]), p)
    decreases |ms| - i
  {
    if i + 1 < |ms| {
      RevertAllSplit(ws, ms, i + 2);
      FoundAtReverted(ws, ms, i + 1, p);
    } else {
      assert ms[i + 1..] == [];
    }
  }

  /** No mutation renames a path to itself; diffs never do. */
  ghost predicate ProperRenames(ms: seq<Mutation>) {
    forall i :: 0 <= i < |ms| ==> ms[i].fromPath != Some(ms[i].path)
  }

  lemma VerifiedIff(ws: Workspace, index: nat, m: Mutation)
    requires m.fromPath != Some(m.path)
    ensures Verified(ws, NO_FAULTS, index, m) <==> forall p :: p in TouchedBy(m) ==> Matches(At(ws, p), AfterAt(m, p))
  {
  }

  ghost predicate BeforeStored(o: Objects, ms: seq<Mutation>) {
    forall i :: 0 <= i < |ms| ==> EntryHash(ms[i].before) <= o.Keys
  }

  lemma RestoreOneSucceeds(ws: Workspace, o: Objects, index: nat, m: Mutation)
    requires EntryHash(m.before) <= o.Keys
    ensures RestoreOne(ws, o, NO_FAULTS, index, m).ok
  {
  }

  lemma {:induction false} RestoreDownIff(ws: Workspace, o: Objects, ms: seq<Mutation>, n: nat)
    requires n <= |ms| && Sound(o) && BeforeStored(o, ms) && ProperRenames(ms)
    ensures RestoreDown(RevertAll(ws, ms[n..]), o, NO_FAULTS, ms, n).ok
            <==> forall i, p :: 0 <= i < n && p in TouchedBy(ms[i]) ==>
              Matches(FoundAt(ws, ms, i, p), AfterAt(ms[i], p))
  {
    hide Verified, RestoreOne, RevertAll, Matches, FoundAt, AfterAt, TouchedBy, At, Sound, EntryHash, Revert;
    if n > 0 {
      var here := RevertAll(ws, ms[n..]);
      var m := ms[n - 1];
      VerifiedIff(here, n - 1, m);
      forall p ensures FoundAt(ws, ms, n - 1, p) == At(here, p) { FoundAtReverted(ws, ms, n - 1, p); }
      RestoreOneSucceeds(here, o, n - 1, m);
      RestoreOneReverts(here, o, n - 1, m);
      RevertAllSplit(ws, ms, n);
      RestoreDownIff(ws, o, ms, n - 1);
    }
  }

  lemma {:induction false} ExpectedIsLastAfter(ms: seq<Mutation>, p: Path)
    requires p in Touched(ms)
    ensures exists i ::
      && 0 <= i < |ms| && p in TouchedBy(ms[i]) && NextToucher(ms, i, p) == |ms|
      && ExpectedAt(ms, p) == AfterAt(ms[i], p)
  {
    var last := |ms| - 1;
    if p in TouchedBy(ms[last]) {
      assert NextToucher(ms, last, p) == |ms|;
    } else {
      assert ms == ms[..last] + [ms[last]];
      TouchedConcat(ms[..last], [ms[last]]);
      assert Touched([ms[last]]) == TouchedBy(ms[last]) + Touched([ms[last]][1..]);
      ExpectedIsLastAfter(ms[..last], p);
      var i :| 0 <= i < last && p in TouchedBy(ms[..last][i]) && NextToucher(ms[..last], i, p) == last
        && ExpectedAt(ms[..last], p) == AfterAt(ms[..last][i], p);
      NextToucherGrows(ms, i, p);
    }
  }

  lemma {:induction false} NextToucherGrows(ms: seq<Mutation>, i: nat, p: Path)
    requires |ms| > 0 && i < |ms| - 1 && p !in TouchedBy(ms[|ms| - 1])
    requires NextToucher(ms[..|ms| - 1], i, p) == |ms| - 1
    ensures NextToucher(ms, i, p) == |ms|
    decreases |ms| - i
  {
    if i + 1 < |ms| - 1 {
      assert ms[..|ms| - 1][i + 1] == ms[i + 1];
      NextToucherGrows(ms, i + 1, p);
    }
  }

  /** Without input or output failures, undo reports undone exactly when the mutations chain up
      to the workspace's current content. */
  lemma UndoneIff(ws: Workspace, o: Objects, ms: seq<Mutation>)
    requires Sound(o) && BeforeStored(o, ms) && ProperRenames(ms)
    ensures UndoResult(ws, o, NO_FAULTS, ms).1 == Undone <==> Chained(ws, ms)
  {
    assert Seen(ws, NO_FAULTS) == ws;
    var o' := PutAll(o, CurrentHashes(ws, Touched(ms)));
    assert ms[|ms|..] == [];
    RestoreDownIff(ws, o', ms, |ms|);
    ConflictsIff(ws, ms, UniqueMutationPaths(ms));
    if Chained(ws, ms) {
      forall p | p in Touched(ms) ensures Matches(At(ws, p), ExpectedAt(ms, p)) {
        ExpectedIsLastAfter(ms, p);
        var i :| 0 <= i < |ms| && p in TouchedBy(ms[i]) && NextToucher(ms, i, p) == |ms|
          && ExpectedAt(ms, p) == AfterAt(ms[i], p);
        assert Matches(FoundAt(ws, ms, i, p), AfterAt(ms[i], p));
      }
    }
  }

  lemma OneConflict(ws: Workspace, ms: seq<Mutation>, p: Path)
    requires |ms| == 1 && ms[0].path == p && ms[0].fromPath.None?
    ensures UniqueMutationPaths(ms) == [p] && Touched(ms) == {p}
    ensures ConflictsAmong(ws, ms, [p]) == if Matches(At(ws, p), AfterAt(ms[0], p)) then [] else [p]
  {
    assert ms[1..] == [] && [p][..0] == [] && [p][1..] == [];
    assert AllPaths(ms) == [p];
    assert UniqueFrom([p], []) == UniqueFrom([p][1..], [] + [p]);
  }

  /** The deletion of one file. */
  function DeletionOf(p: Path, old': WorkspaceEntry): seq<Mutation> {
    [Mutation(0, Deleted, p, None, Some(EntryOf(old')), None)]
  }

  /** The file at `p` cannot be read, and the given writes fail. */
  function Unreadable(p: Path, failedWrites: map<Site, WriteFault>): Faults {
    Faults({}, {p}, {}, {Site(0, false)}, failedWrites)
  }

  lemma UnreadIsNoConflict(p: Path, old': WorkspaceEntry, new': WorkspaceEntry, failedWrites: map<Site, WriteFault>,
      o: Objects)
    ensures var ms, f := DeletionOf(p, old'), Unreadable(p, failedWrites);
            var attempt := RestoreDown(map[p := new'], o, f, ms, 1);
            UndoResult(map[p := new'], o, f, ms) == if attempt.ok then (attempt.files, Undone) else (map[], Failed)
  {
    hide RestoreDown, ConflictsAmong, UniqueMutationPaths, Touched;
    var ms, f, ws := DeletionOf(p, old'), Unreadable(p, failedWrites), map[p := new'];
    OneConflict(map[], ms, p);
    assert Seen(ws, f) == map[];
    assert PutAll(o, CurrentHashes(map[], {p})) == o;
  }

  /** A deleted file that was recreated and cannot be read is taken for absent: no conflict is seen, and
      the new file is lost whether the restore succeeds or fails; had it been read, nothing would change. */
  lemma SwallowedReadLosesFile(p: Path, old': WorkspaceEntry, new': WorkspaceEntry)
    ensures var ms, ws, o := DeletionOf(p, old'), map[p := new'], map[EntryOf(old').objectHash := old'.bytes];
            && UndoResult(ws, o, Unreadable(p, map[]), ms) == (map[p := old'], Undone)
            && UndoResult(ws, o, Unreadable(p, map[Site(0, false) := Throws(Some(new'))]), ms) == (map[], Failed)
            && UndoResult(ws, o, NO_FAULTS, ms) == (ws, Conflict([p]))
  {
    var ms, ws, o := DeletionOf(p, old'), map[p := new'], map[EntryOf(old').objectHash := old'.bytes];
    var failing := map[Site(0, false) := Throws(Some(new'))];
    UnreadIsNoConflict(p, old', new', map[], o);
    UnreadIsNoConflict(p, old', new', failing, o);
    OneConflict(ws, ms, p);
    assert Seen(ws, NO_FAULTS) == ws;
    hide ConflictsAmong, UniqueMutationPaths, Touched, PutAll;
    assert RestoreDown(ws, o, Unreadable(p, map[]), ms, 1) ==
      RestoreDown(map[p := old'], o, Unreadable(p, map[]), ms, 0);
    assert RestoreDown(ws, o, Unreadable(p, failing), ms, 1) == Attempt(ws, false);
  }

  lemma SwallowedRestore(p: Path, e: WorkspaceEntry, o: Objects, f: Faults)
    requires f == Faults({}, {}, {}, {}, map[Site(0, false) := Swallowed])
    ensures RestoreDown(map[p := e], o, f, [Mutation(0, Created, p, None, None, Some(EntryOf(e)))], 1)
      == Attempt(map[p := e], true)
  {
    var m := Mutation(0, Created, p, None, None, Some(EntryOf(e)));
    var ws := map[p := e];
    assert RestoreOne(ws, o, f, 0, m) == Attempt(ws, true);
    assert RestoreDown(ws, o, f, [m], 0) == Attempt(ws, true);
  }

  lemma CreatedIsReverted(p: Path, e: WorkspaceEntry)
    ensures var m := Mutation(0, Created, p, None, None, Some(EntryOf(e)));
            Matches(At(map[p := e], p), AfterAt(m, p)) && RevertAll(map[p := e], [m]) == map[]
  {
    var m := Mutation(0, Created, p, None, None, Some(EntryOf(e)));
    assert RevertAll(map[p := e], [m][1..]) == map[p := e];
  }

  lemma AllSeen(ws: Workspace, f: Faults)
    requires f.unread == {}
    ensures Seen(ws, f) == ws
  {
  }

  /** A swallowed removal error makes undo report success with the path still there. */
  lemma SwallowedRemovalIsReportedUndone()
    ensures var p := Path("created.txt");
            var e := WorkspaceEntry(File, []);
            var ms := [Mutation(0, Created, p, None, None, Some(EntryOf(e)))];
            var result := UndoResult(map[p := e], map[], Faults({}, {}, {}, {}, map[Site(0, false) := Swallowed]), ms);
            result.1 == Undone && p in result.0 && RevertAll(map[p := e], ms) == map[]
  {
    var p := Path("created.txt");
    var e := WorkspaceEntry(File, []);
    var m := Mutation(0, Created, p, None, None, Some(EntryOf(e)));
    var ms := [m];
    var ws := map[p := e];
    var f := Faults({}, {}, {}, {}, map[Site(0, false) := Swallowed]);
    hide *;
    OneConflict(ws, ms, p);
    CreatedIsReverted(p, e);
    AllSeen(ws, f);
    SwallowedRestore(p, e, PutAll(map[], CurrentHashes(ws, Touched(ms))), f);
    UndoResultCases(ws, map[], f, ms);
  }

  // ---------- a turn of several host requests ----------

  /** One bracketed host request: the scans around it and the mutations recorded for it. */
  datatype Bracket = Bracket(before: Workspace, after: Workspace, mutations: seq<Mutation>)

  function Recorded(rs: seq<Bracket>): seq<Mutation> {
    if rs == [] then [] else rs[0].mutations + Recorded(rs[1..])
  }

  ghost predicate ValidTurn(rs: seq<Bracket>) {
    forall i :: 0 <= i < |rs| ==> ExactDiff(rs[i].before, rs[i].after, rs[i].mutations)
  }

  /** What a path held before the first request of the turn that changed it. */
  function OriginalAt(rs: seq<Bracket>, p: Path): Option<WorkspaceEntry> {
    if rs == [] then None
    else if At(rs[0].before, p) != At(rs[0].after, p) then At(rs[0].before, p)
    else OriginalAt(rs[1..], p)
  }

  lemma {:induction false} RevertTurnAt(ws: Workspace, rs: seq<Bracket>, p: Path)
    requires ValidTurn(rs)
    ensures p in Touched(Recorded(rs)) <==> exists i :: 0 <= i < |rs| && At(rs[i].before, p) != At(rs[i].after, p)
    ensures At(RevertAll(ws, Recorded(rs)), p) == if p in Touched(Recorded(rs)) then OriginalAt(rs, p) else At(ws, p)
  {
    if rs != [] {
      var first, rest := rs[0], rs[1..];
      assert forall i :: 0 < i < |rs| ==> rs[i] == rest[i - 1];
      RevertTurnAt(ws, rest, p);
      TouchedConcat(first.mutations, Recorded(rest));
      RevertAllConcat(ws, first.mutations, Recorded(rest));
      RevertAllAt(RevertAll(ws, Recorded(rest)), first.mutations, p);
      assert ExactDiff(first.before, first.after, first.mutations);
      if p in Touched(first.mutations) {
        var i := OnlyToucher(first.before, first.after, first.mutations, p);
      } else {
        assert At(first.before, p) == At(first.after, p);
        if i :| 0 <= i < |rs| && At(rs[i].before, p) != At(rs[i].after, p) { assert rest[i - 1] == rs[i]; }
      }
    }
  }

  lemma {:induction false} RevertAllConcat(ws: Workspace, a: seq<Mutation>, b: seq<Mutation>)
    ensures RevertAll(ws, a + b) == RevertAll(RevertAll(ws, b), a)
  {
    if a == [] {
      assert a + b == b;
    } else {
      assert (a + b)[1..] == a[1..] + b;
      RevertAllConcat(ws, a[1..], b);
    }
  }

  lemma {:induction false} TurnIsProper(rs: seq<Bracket>)
    requires ValidTurn(rs)
    ensures Proper(Recorded(rs)) && ProperRenames(Recorded(rs))
  {
    if rs != [] {
      assert forall k :: 0 < k < |rs| ==> rs[k] == rs[1..][k - 1];
      TurnIsProper(rs[1..]);
      assert ExactDiff(rs[0].before, rs[0].after, rs[0].mutations);
      assert forall i :: 0 <= i < |rs[0].mutations| ==> Describes(rs[0].before, rs[0].after, rs[0].mutations[i]);
    }
  }

  /** What a turn's undo promises: each tracked path holds what it held before the first mutation
      touching it, and every other path is unchanged. */
  ghost predicate TurnRestored(ws: Workspace, rs: seq<Bracket>, after: Workspace) {
    forall p :: At(after, p) == if p in Touched(Recorded(rs)) then OriginalAt(rs, p) else At(ws, p)
  }

  lemma RestoredIsReverted(ws: Workspace, rs: seq<Bracket>, after: Workspace)
    requires ValidTurn(rs)
    ensures TurnRestored(ws, rs, after) <==> after == RevertAll(ws, Recorded(rs))
  {
    hide ValidTurn, RevertAll, OriginalAt, Touched, Recorded;
    forall p { RevertTurnAt(ws, rs, p); }
    if TurnRestored(ws, rs, after) { SameEverywhere(after, RevertAll(ws, Recorded(rs))); }
  }

  /** If undo of a whole turn reports undone, the turn is restored, exactly when the last removal of
      each path was not swallowed. */
  lemma UndoneRestoresTurn(ws: Workspace, o: Objects, f: Faults, rs: seq<Bracket>)
    requires ValidTurn(rs) && Sound(o)
    requires UndoResult(ws, o, f, Recorded(rs)).1 == Undone
    ensures TurnRestored(ws, rs, UndoResult(ws, o, f, Recorded(rs)).0) <==> NothingLeftBehind(f, Recorded(rs))
  {
    hide UndoResult, RevertAll, TurnRestored, NothingLeftBehind, Recorded;
    TurnIsProper(rs);
    UndoneIsReverted(ws, o, f, Recorded(rs));
    RestoredIsReverted(ws, rs, UndoResult(ws, o, f, Recorded(rs)).0);
  }

  /** The workspace that follows request `i`: the next request's first scan, or the current one. */
  function FollowedBy(ws: Workspace, rs: seq<Bracket>, i: nat): Workspace
    requires i < |rs|
  {
    if i + 1 < |rs| then rs[i + 1].before else ws
  }

  /** Tracked paths did not change between the requests, nor since the last one. */
  ghost predicate Untampered(ws: Workspace, rs: seq<Bracket>, tracked: set<Path>) {
    forall i, p :: 0 <= i < |rs| && p in tracked ==> At(rs[i].after, p) == At(FollowedBy(ws, rs, i), p)
  }

  lemma TurnTail(ws: Workspace, rs: seq<Bracket>, tracked: set<Path>)
    requires ValidTurn(rs) && Untampered(ws, rs, tracked) && rs != []
    ensures ValidTurn(rs[1..]) && Untampered(ws, rs[1..], tracked)
    ensures ExactDiff(rs[0].before, rs[0].after, rs[0].mutations)
    ensures forall p :: p in tracked ==> At(rs[0].after, p) == At(FollowedBy(ws, rs, 0), p)
  {
    forall i, p | 0 <= i < |rs[1..]| && p in tracked
      ensures At(rs[1..][i].after, p) == At(FollowedBy(ws, rs[1..], i), p)
    {
      assert At(rs[i + 1].after, p) == At(FollowedBy(ws, rs, i + 1), p);
    }
  }

  /** Undoing an untampered turn brings each tracked path back to the first scan. */
  lemma {:induction false} UntamperedReverts(ws: Workspace, rs: seq<Bracket>, tracked: set<Path>, p: Path)
    requires ValidTurn(rs) && Untampered(ws, rs, tracked) && p in tracked && rs != []
    ensures At(RevertAll(ws, Recorded(rs)), p) == At(rs[0].before, p)
    decreases rs, 1
  {
    var ms, rest := rs[0].mutations, rs[1..];
    TurnTail(ws, rs, tracked);
    LaterRequestsRevert(ws, rs, tracked, p);
    RevertAllConcat(ws, ms, Recorded(rest));
    RevertAllAt(RevertAll(ws, Recorded(rest)), ms, p);
    if p in Touched(ms) { var i := OnlyToucher(rs[0].before, rs[0].after, ms, p); }
  }

  lemma {:induction false} LaterRequestsRevert(ws: Workspace, rs: seq<Bracket>, tracked: set<Path>, p: Path)
    requires ValidTurn(rs) && Untampered(ws, rs, tracked) && p in tracked && rs != []
    ensures At(RevertAll(ws, Recorded(rs[1..])), p) == At(rs[0].after, p)
    decreases rs, 0
  {
    TurnTail(ws, rs, tracked);
    if |rs| > 1 { UntamperedReverts(ws, rs[1..], tracked, p); }
  }

  lemma Positions<T>(a: seq<T>, b: seq<T>, i: nat)
    requires i < |a + b|
    ensures i < |a| ==> (a + b)[i] == a[i] && (a + b)[i + 1..] == a[i + 1..] + b
    ensures i >= |a| ==> (a + b)[i] == b[i - |a|] && (a + b)[i + 1..] == b[i - |a| + 1..]
  {
  }

  /** In an untampered turn each mutation finds the entry it left behind. */
  lemma {:induction false} UntamperedChains(ws: Workspace, rs: seq<Bracket>, tracked: set<Path>, i: nat, p: Path)
    requires ValidTurn(rs) && Untampered(ws, rs, tracked) && p in tracked
    requires i < |Recorded(rs)| && p in TouchedBy(Recorded(rs)[i])
    ensures Matches(At(RevertAll(ws, Recorded(rs)[i + 1..]), p), AfterAt(Recorded(rs)[i], p))
  {
    var ms, tail := rs[0].mutations, Recorded(rs[1..]);
    TurnTail(ws, rs, tracked);
    assert Recorded(rs) == ms + tail;
    Positions(ms, tail, i);
    hide ExactDiff, RevertAll, At, AfterAt, Matches, Recorded, TouchedBy, Untampered, ValidTurn;
    if i < |ms| {
      LaterRequestsRevert(ws, rs, tracked, p);
      ChainsInRequest(ws, rs[0], tail, i, p);
    } else {
      UntamperedChains(ws, rs[1..], tracked, i - |ms|, p);
    }
  }

  lemma ChainsInRequest(ws: Workspace, r: Bracket, tail: seq<Mutation>, i: nat, p: Path)
    requires ExactDiff(r.before, r.after, r.mutations) && i < |r.mutations| && p in TouchedBy(r.mutations[i])
    requires At(RevertAll(ws, tail), p) == At(r.after, p)
    ensures Matches(At(RevertAll(ws, r.mutations[i + 1..] + tail), p), AfterAt(r.mutations[i], p))
  {
    var ms := r.mutations;
    RevertAllConcat(ws, ms[i + 1..], tail);
    RevertAllAt(RevertAll(ws, tail), ms[i + 1..], p);
    TouchedIff(ms, p);
    var k := OnlyToucher(r.before, r.after, ms, p);
    SameToucher(ms, i, k, p);
  }

  lemma SameToucher(ms: seq<Mutation>, i: nat, k: nat, p: Path)
    requires i < |ms| && k < |ms| && p in TouchedBy(ms[i]) && p in TouchedBy(ms[k])
    requires p !in Touched(ms[..k]) && p !in Touched(ms[k + 1..])
    ensures i == k
  {
    TouchedIff(ms[..k], p);
    TouchedIff(ms[k + 1..], p);
    assert forall j :: 0 <= j < k ==> ms[..k][j] == ms[j];
    assert forall j :: k < j < |ms| ==> ms[k + 1..][j - k - 1] == ms[j];
  }

  /** An untampered turn whose objects are stored is always undone when nothing fails. */
  lemma UntamperedTurnIsUndone(ws: Workspace, o: Objects, rs: seq<Bracket>)
    requires ValidTurn(rs) && Sound(o) && Hashes(Recorded(rs)) <= o.Keys
    requires Untampered(ws, rs, Touched(Recorded(rs)))
    ensures UndoResult(ws, o, NO_FAULTS, Recorded(rs)).1 == Undone
  {
    var ms := Recorded(rs);
    forall i | 0 <= i < |ms| ensures EntryHash(ms[i].before) <= o.Keys { HashesContain(ms, i); }
    TurnIsProper(rs);
    forall i, p | 0 <= i < |ms| && p in TouchedBy(ms[i]) ensures Matches(FoundAt(ws, ms, i, p), AfterAt(ms[i], p)) {
      TouchedIff(ms, p);
      FoundAtReverted(ws, ms, i, p);
      UntamperedChains(ws, rs, Touched(ms), i, p);
    }
    UndoneIff(ws, o, ms);
  }
}
