/** The checkpoint service's methods, proved to take the steps of CheckpointRuns
    (src/main/checkpoints/checkpoint-service.ts). */
module CheckpointService {
  import opened Options
  import opened CheckpointTypes
  import opened CheckpointDiff
  import opened CheckpointUndo
  import opened CheckpointStore
  import opened CheckpointRuns

  lemma WriteFrame(ws: Workspace, o: Objects, f: Faults, site: Site, q: Path, e: Option<CheckpointEntry>, p: Path)
    requires p != q
    ensures At(WriteEntry(ws, o, f, site, q, e).files, p) == At(ws, p)
  {
  }

  lemma RestoreOneFrame(ws: Workspace, o: Objects, f: Faults, index: nat, m: Mutation, p: Path)
    requires p !in TouchedBy(m)
    ensures At(RestoreOne(ws, o, f, index, m).files, p) == At(ws, p)
  {
    hide WriteEntry, At;
    WriteFrame(ws, o, f, Site(index, false), m.path, None, p);
    WriteFrame(ws, o, f, Site(index, false), m.path, m.before, p);
    if m.fromPath.Some? {
      var first := WriteEntry(ws, o, f, Site(index, false), m.path, None);
      WriteFrame(first.files, o, f, Site(index, true), m.fromPath.value, m.before, p);
    }
  }

  /** A restore touches tracked paths only, however it ends. */
  lemma {:induction false} RestoreDownFrame(ws: Workspace, o: Objects, f: Faults, ms: seq<Mutation>, n: nat, p: Path)
    requires n <= |ms| && p !in Touched(ms)
    ensures At(RestoreDown(ws, o, f, ms, n).files, p) == At(ws, p)
    decreases n
  {
    hide Verified, RestoreOne, At, Touched, TouchedBy;
    if n > 0 {
      TouchedIff(ms, p);
      var step := RestoreOne(ws, o, f, n - 1, ms[n - 1]);
      RestoreOneFrame(ws, o, f, n - 1, ms[n - 1], p);
      RestoreDownFrame(step.files, o, f, ms, n - 1, p);
    }
  }

  lemma RecoveryStart(ws: Workspace, o: Objects)
    ensures RecoveryMutations(ws, []) == [] && PutAll(o, Hashes([])) == o
  {
  }

  lemma RecoveryStep(ws: Workspace, paths: seq<Path>, i: nat, o: Objects)
    requires i < |paths|
    ensures var p := paths[i];
            var m := Mutation(i, if p in ws then Created else Deleted, p, None, None, EntryAt(ws, p));
            var init := RecoveryMutations(ws, paths[..i]);
            && RecoveryMutations(ws, paths[..i + 1]) == init + [m]
            && PutAll(o, Hashes(init + [m]))
               == if p in ws then PutAll(PutAll(o, Hashes(init)), EntryHash(m.after)) else PutAll(o, Hashes(init))
  {
    var p := paths[i];
    var m := Mutation(i, if p in ws then Created else Deleted, p, None, None, EntryAt(ws, p));
    var init := RecoveryMutations(ws, paths[..i]);
    assert paths[..i + 1][..i] == paths[..i];
    HashesConcat(init, [m]);
    assert Hashes([m]) == EntryHash(m.before) + EntryHash(m.after) + Hashes([m][1..]);
    PutAllTwice(o, Hashes(init), EntryHash(m.after));
    assert Hashes(init + [m]) == Hashes(init) + EntryHash(m.after);
  }

  lemma NothingExpected()
    ensures Touched([]) == {}
  {
  }

  lemma AfterSides(m: Mutation)
    ensures TouchedBy(m) == if m.fromPath.Some? then {m.path, m.fromPath.value} else {m.path}
    ensures forall p :: p in TouchedBy(m) ==> AfterAt(m, p) == if m.fromPath == Some(p) then None else m.after
  {
  }

  lemma ExpectedMore(ms: seq<Mutation>, i: nat)
    requires i < |ms|
    ensures Touched(ms[..i + 1]) == Touched(ms[..i]) + TouchedBy(ms[i])
    ensures forall p ::
      ExpectedAt(ms[..i + 1], p) == if p in TouchedBy(ms[i]) then AfterAt(ms[i], p) else ExpectedAt(ms[..i], p)
  {
    assert ms[..i + 1] == ms[..i] + [ms[i]] && ms[..i + 1][..i] == ms[..i];
    PushSets(ms[..i], ms[i]);
    hide TouchedBy, AfterAt, Touched;
  }

  lemma RecoveryStored(s: State, e: Event, source: Record)
    requires e.UndoRequested?
    ensures Hashes(RecoveryRecord(s, e, source).mutations)
      == CurrentHashes(Seen(s.files, e.faults), Touched(source.mutations))
  {
    hide Hashes, CurrentHashes, Seen, RecoveryMutations;
    RecoveryHashes(Seen(s.files, e.faults), UniqueMutationPaths(source.mutations));
    assert (set p | p in UniqueMutationPaths(source.mutations)) == Touched(source.mutations);
  }

  lemma PathsTouched(ms: seq<Mutation>)
    ensures forall p :: p in UniqueMutationPaths(ms) <==> p in Touched(ms)
  {
  }

  /** The paths an undo reads, and what it reads there. */
  lemma ReadPaths(ws: Workspace, f: Faults, ms: seq<Mutation>)
    ensures Refuses(ms, f) <==> exists p :: p in UniqueMutationPaths(ms) && p in f.refused
    ensures forall p :: p in UniqueMutationPaths(ms) <==> p in Touched(ms)
    ensures forall p :: At(Seen(ws, f), p) == if p in f.unread then None else At(ws, p)
  {
  }

  class Service {
    /** The workspace on disk. */
    var files: Workspace
    var active: map<Name, Record>
    const store: Store

    function State(): State
      reads this, store, store.objects
    {
      CheckpointRuns.State.State(files, active, store.journal, store.objects.objects)
    }

    constructor (workspace: Workspace)
      ensures State() == Initial(workspace).state
      ensures fresh(store) && fresh(store.objects)
    {
      files, active := workspace, map[];
      store := new Store();
    }

    /** `turn.started`. */
    method ObserveStarted(e: Event)
      requires e.TurnStarted?
      modifies this`active
      ensures State() == Step(old(State()), e)
    {
      var record := Record(e.id, Turn, e.task, Some(e.session), e.turn, e.at, Active, [], None);
      active := active[e.session := record];
    }

    /** `turn.completed`, `turn.failed` or `turn.cancelled`. */
    method ObserveEnded(e: Event)
      requires e.TurnEnded?
      modifies this`active, store, store.objects
      ensures State() == Step(old(State()), e)
    {
      hide GcJournal, GcObjects, Records, Lines;
      if e.session !in active || active[e.session].turnId != e.turn { return; }
      var current := active[e.session];
      if |current.mutations| > 0 {
        current := current.(state := Ready);
        store.Append(current);
        store.Compact();
      }
      active := active - {e.session};
      store.Gc(e.now, e.stuck);
    }

    /** A mutating host request whose two scans succeed. `before` is what the first scan read;
        `after` is the workspace the operation leaves. */
    method WithHostRequest(session: Name, before: Scan, after: Scan) returns (e: Event)
      requires ValidScan(before) && ValidScan(after) && before.entries == files
      modifies this, store, store.objects
      ensures e.HostRequested? && e.session == session && e.after == after.entries
      ensures session in old(active) ==>
                ExactDiff(before.entries, e.after, e.mutations)
                && RenamesMaximal(e.mutations) && Numbered(e.mutations, |old(active)[session].mutations|)
      ensures State() == Step(old(State()), e)
    {
      hide ExactDiff, RenamesMaximal, Hashes;
      files := after.entries;
      if session !in active { return HostRequested(session, after.entries, []); }
      var turn := active[session];
      var mutations := BuildMutations(before, after, store.objects, |turn.mutations|);
      e := HostRequested(session, after.entries, mutations);
      if |mutations| > 0 {
        turn := turn.(mutations := turn.mutations + mutations);
        active := active[session := turn];
        store.Append(turn);
      } else {
        NoHashes(mutations);
        PutNothing(old(store.objects.objects));
      }
    }

    /** Reads the tracked paths before anything is changed: a read that throws ends the undo, and one whose
        error is swallowed reads as absent. */
    method ReadCurrent(f: Faults, paths: seq<Path>) returns (r: Option<map<Path, Option<WorkspaceEntry>>>)
      ensures r.None? <==> exists p :: p in paths && p in f.refused
      ensures r.Some? ==> r.value.Keys == (set p | p in paths)
      ensures r.Some? ==> forall p :: p in paths ==> r.value[p] == if p in f.unread then None else At(files, p)
    {
      var current: map<Path, Option<WorkspaceEntry>> := map[];
      for i := 0 to |paths|
        invariant forall p :: p in current <==> p in paths[..i]
        invariant forall p :: p in current ==>
          p !in f.refused && current[p] == if p in f.unread then None else At(files, p)
      {
        var path := paths[i];
        if path in f.refused { return None; }
        assert paths[..i + 1] == paths[..i] + [path];
        current := current[path := if path in f.unread then None else At(files, path)];
      }
      assert paths[..|paths|] == paths;
      return Some(current);
    }

    /** Compares what was read with what the record left there. */
    method FindConflicts(ms: seq<Mutation>, paths: seq<Path>, current: map<Path, Option<WorkspaceEntry>>,
        ghost seen: Workspace)
        returns (conflicts: seq<Path>)
      requires paths == UniqueMutationPaths(ms)
      requires forall p :: p in paths ==> p in current && current[p] == At(seen, p)
      ensures conflicts == ConflictsAmong(seen, ms, paths)
    {
      hide ExpectedAt, Matches, At, UniqueMutationPaths, Touched;
      PathsTouched(ms);
      var expected := Expectations(ms);
      conflicts := [];
      for i := 0 to |paths|
        invariant conflicts == ConflictsAmong(seen, ms, paths[..i])
      {
        assert paths[..i + 1][..i] == paths[..i];
        assert paths[i] in paths && paths[i] in expected;
        if !Matches(current[paths[i]], expected[paths[i]]) { conflicts := conflicts + [paths[i]]; }
      }
      assert paths[..|paths|] == paths;
    }

    static method Expectations(ms: seq<Mutation>) returns (expected: map<Path, Option<CheckpointEntry>>)
      ensures expected.Keys == Touched(ms) && forall p :: p in expected ==> expected[p] == ExpectedAt(ms, p)
    {
      hide Touched, TouchedBy, ExpectedAt, AfterAt;
      expected := map[];
      NothingExpected();
      for i := 0 to |ms|
        invariant expected.Keys == Touched(ms[..i])
        invariant forall p :: p in expected ==> expected[p] == ExpectedAt(ms[..i], p)
      {
        var m := ms[i];
        ExpectedMore(ms, i);
        AfterSides(m);
        expected := expected[m.path := m.after];
        if m.fromPath.Some? { expected := expected[m.fromPath.value := None]; }
      }
      assert ms[..|ms|] == ms;
    }

    method CreateRecovery(e: Event, source: Record, current: map<Path, Option<WorkspaceEntry>>)
      returns (recovery: Record)
      requires e.UndoRequested?
      requires forall p :: p in Touched(source.mutations) ==> p in current && current[p] == At(Seen(files, e.faults), p)
      modifies store, store.objects
      ensures recovery == RecoveryRecord(State(), e, source)
      ensures store.journal == old(store.journal) + [Whole(recovery)]
      ensures store.objects.objects == PutAll(old(store.objects.objects), Hashes(recovery.mutations))
    {
      hide RecoveryMutations, Hashes, PutAll, UniqueMutationPaths, At;
      var mutations := StoreCurrent(UniqueMutationPaths(source.mutations), current, Seen(files, e.faults));
      recovery := Record(e.recoveryId, Recovery, source.taskId, None, source.turnId, e.at, InRecovery, mutations,
        Some(source.id));
      store.Append(recovery);
    }

    method StoreCurrent(paths: seq<Path>, current: map<Path, Option<WorkspaceEntry>>, ghost seen: Workspace)
        returns (mutations: seq<Mutation>)
      requires forall p :: p in paths ==> p in current && current[p] == At(seen, p)
      modifies store.objects
      ensures mutations == RecoveryMutations(seen, paths)
      ensures store.objects.objects == PutAll(old(store.objects.objects), Hashes(mutations))
    {
      hide RecoveryMutations, Hashes, PutAll;
      mutations := [];
      RecoveryStart(seen, store.objects.objects);
      for i := 0 to |paths|
        invariant mutations == RecoveryMutations(seen, paths[..i])
        invariant store.objects.objects == PutAll(old(store.objects.objects), Hashes(mutations))
      {
        RecoveryStep(seen, paths, i, old(store.objects.objects));
        assert paths[i] in paths;
        var m := Mutation(i, Deleted, paths[i], None, None, None);
        if current[paths[i]].Some? {
          var entry := store.objects.EntryFromWorkspace(current[paths[i]].value);
          m := m.(kind := Created, after := Some(entry));
        }
        mutations := mutations + [m];
      }
      assert paths[..|paths|] == paths;
    }

    /** Writes or removes one path; false stands for a thrown error. */
    method WriteWorkspaceEntry(f: Faults, site: Site, path: Path, entry: Option<CheckpointEntry>) returns (ok: bool)
      modifies this`files
      ensures Attempt(files, ok) == WriteEntry(old(files), store.objects.objects, f, site, path, entry)
    {
      if site in f.failedWrites && f.failedWrites[site].Throws? {
        files := With(files, path, f.failedWrites[site].residue);
        return false;
      }
      if entry.None? {
        if site !in f.failedWrites { files := files - {path}; }
        return true;
      }
      var bytes := store.objects.Read(entry.value.objectHash);
      if bytes.None? { return false; }
      files := files[path := WorkspaceEntry(entry.value.kind, bytes.value)];
      return true;
    }

    method RestoreMutation(f: Faults, index: nat, m: Mutation) returns (ok: bool)
      modifies this`files
      ensures Attempt(files, ok) == RestoreOne(old(files), store.objects.objects, f, index, m)
    {
      if m.fromPath.Some? {
        ok := WriteWorkspaceEntry(f, Site(index, false), m.path, None);
        if ok { ok := WriteWorkspaceEntry(f, Site(index, true), m.fromPath.value, m.before); }
      } else {
        ok := WriteWorkspaceEntry(f, Site(index, false), m.path, m.before);
      }
    }

    /** Verifies and restores every mutation, the last one first. */
    method RestoreMutations(f: Faults, ms: seq<Mutation>) returns (ok: bool)
      modifies this`files
      ensures Attempt(files, ok) == RestoreDown(old(files), store.objects.objects, f, ms, |ms|)
    {
      hide RestoreOne, Verified;
      var n := |ms|;
      while n > 0
        invariant 0 <= n <= |ms|
        invariant RestoreDown(files, store.objects.objects, f, ms, n) ==
          RestoreDown(old(files), store.objects.objects, f, ms, |ms|)
        modifies this`files
      {
        n := n - 1;
        var verified := VerifyCurrentBeforeRestore(f, n, ms[n]);
        if !verified { return false; }
        var restored := RestoreMutation(f, n, ms[n]);
        if !restored { return false; }
      }
      return true;
    }

    method VerifyCurrentBeforeRestore(f: Faults, index: nat, m: Mutation) returns (ok: bool)
      ensures ok == Verified(files, f, index, m)
    {
      if index in f.failedReads { return false; }
      var actual := if Site(index, false) in f.unreadAt then None else At(files, m.path);
      if !Matches(actual, m.after) { return false; }
      if m.fromPath.None? { return true; }
      var source := if Site(index, true) in f.unreadAt then None else At(files, m.fromPath.value);
      return source.None?;
    }

    /** Rewrites every tracked path with the entry read before the undo. */
    method RestoreRecovery(ghost original: Workspace, current: map<Path, Option<WorkspaceEntry>>, paths: seq<Path>)
      requires forall p :: p in paths ==> p in current && current[p] == At(original, p)
      requires forall p :: p !in paths ==> At(files, p) == At(original, p)
      modifies this`files
      ensures files == original
    {
      for i := 0 to |paths|
        invariant forall p :: p !in paths[i..] ==> At(files, p) == At(original, p)
      {
        assert paths[i..] == [paths[i]] + paths[i + 1..];
        var entry := current[paths[i]];
        files := if entry.None? then files - {paths[i]} else files[paths[i] := entry.value];
      }
      SameEverywhere(files, original);
    }

    /** Restores the mutations, or on any failure puts back what was read before. */
    method TryRestore(f: Faults, ms: seq<Mutation>, current: map<Path, Option<WorkspaceEntry>>) returns (ok: bool)
      requires forall p :: p in Touched(ms) ==> p in current && current[p] == At(Seen(files, f), p)
      modifies this`files
      ensures var attempt := RestoreDown(old(files), store.objects.objects, f, ms, |ms|);
              ok == attempt.ok && files == if ok then attempt.files else PutBack(old(files), f, ms)
    {
      hide RestoreDown;
      ok := RestoreMutations(f, ms);
      if !ok {
        ghost var original := PutBack(old(files), f, ms);
        forall p | p !in Touched(ms) ensures At(files, p) == At(original, p) {
          RestoreDownFrame(old(files), store.objects.objects, f, ms, |ms|, p);
        }
        RestoreRecovery(original, current, UniqueMutationPaths(ms));
      }
    }

    /** Undo of a ready record: all or nothing, as far as the tracked paths were read. */
    method UndoReady(e: Event, record: Record) returns (reply: Reply)
      requires e.UndoRequested? && record.state == Ready
      requires FindTurn(Records(store.journal), e.task, e.turn) == Some(record)
      modifies this, store, store.objects
      ensures reply == UndoReply(old(State()), e) && State() == Undo(old(State()), e)
      ensures reply == Finished(Outcome.Failed) ==>
        (files == old(files) <==> AllRead(old(files), e.faults, record.mutations))
    {
      ghost var ms := record.mutations;
      UndoCases(State(), e, record);
      UndoResultCases(files, store.objects.objects, e.faults, ms);
      ReadPaths(files, e.faults, ms);
      hide Records, RestoreDown, RecoveryRecord, ConflictsAmong, PutAll, Seen, Collected, CurrentHashes, AllRead,
        UndoResult, Undo, UndoReply, Refuses, Touched, UniqueMutationPaths, At, PutBack, FindTurn;
      var paths := UniqueMutationPaths(record.mutations);
      var read := ReadCurrent(e.faults, paths);
      if read.None? { return ReadFailed; }
      var conflicts := FindConflicts(record.mutations, paths, read.value, Seen(files, e.faults));
      if |conflicts| > 0 {
        store.Append(record.(state := RecordState.Conflict));
        return Finished(Outcome.Conflict(conflicts));
      }
      var ok := Restore(e, record, read.value);
      if ok { return Finished(Outcome.Undone); }
      FailureKeepsFiles(old(files), old(store.objects.objects), e.faults, ms);
      return Finished(Outcome.Failed);
    }

    /** From the recovery record to the outcome, when there is no conflict. */
    method Restore(e: Event, record: Record, current: map<Path, Option<WorkspaceEntry>>) returns (ok: bool)
      requires e.UndoRequested?
      requires forall p :: p in Touched(record.mutations) ==> p in current && current[p] == At(Seen(files, e.faults), p)
      requires ConflictsAmong(Seen(files, e.faults), record.mutations, UniqueMutationPaths(record.mutations)) == []
      modifies this, store, store.objects
      ensures var result := UndoResult(old(files), old(store.objects.objects), e.faults, record.mutations);
              && result.1 == (if ok then Outcome.Undone else Outcome.Failed)
              && State() == Undoing(old(State()), e, record, result.0, result.1)
    {
      UndoResultCases(files, store.objects.objects, e.faults, record.mutations);
      RecoveryStored(State(), e, record);
      hide GcJournal, GcObjects, Records, Lines, RestoreDown, RecoveryRecord, ConflictsAmong, Hashes, PutAll, Seen,
        UndoResult, Touched, UniqueMutationPaths, At, PutBack, Collected, CurrentHashes;
      var recovery := CreateRecovery(e, record, current);
      ok := TryRestore(e.faults, record.mutations, current);
      Conclude(e, record, recovery, ok);
    }

    /** Journals the outcome of both records; after a success the journal is compacted and collected. */
    method Conclude(e: Event, record: Record, recovery: Record, ok: bool)
      requires e.UndoRequested?
      modifies store, store.objects
      ensures var state := if ok then RecordState.Undone else RecordState.Failed;
              var journal := old(store.journal) + [Whole(record.(state := state))] + [Whole(recovery.(state := state))];
              var s := State().(journal := journal, objects := old(store.objects.objects));
              State() == if ok then Collected(s.(journal := Lines(Records(journal))), e.now, e.stuck) else s
    {
      hide GcJournal, GcObjects, Records, Lines;
      var state := if ok then RecordState.Undone else RecordState.Failed;
      store.Append(record.(state := state));
      store.Append(recovery.(state := state));
      if ok {
        store.Compact();
        store.Gc(e.now, e.stuck);
      }
    }

    /** Undo of a turn. */
    method UndoTurn(e: Event) returns (reply: Reply)
      requires e.UndoRequested?
      modifies this, store, store.objects
      ensures reply == UndoReply(old(State()), e) && State() == Step(old(State()), e)
    {
      hide Records, Undo, UndoResult;
      var records := store.ReadRecords();
      var record := FindTurn(records, e.task, e.turn);
      UndoRefused(State(), e);
      if record.None? { return NoCheckpoint; }
      if record.value.state != Ready { return NotReady(record.value.state); }
      reply := UndoReady(e, record.value);
    }
  }
}
