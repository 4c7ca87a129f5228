/** Whole runs of the activity log against the plain list of activities they stand for
    (src/main/persistence/activity-log-store.ts). */
module ActivityLogRuns {
  import opened StreamText
  import opened ActivityLog
  import opened ActivityLogTurns

  // ---------- runs ----------

  /** The file after an operation of a loaded store, whatever the file holds. An operation that has to read
      a file it cannot read fails and writes nothing; adding an activity reads nothing. */
  ghost function Perform(cls: Classes, log: seq<Record>, op: Operation): seq<Record> {
    if op.Add? then log + [Append(LastSequence(log) + 1, NormalizeActivity(cls, op.activity))]
    else if Replay(cls, Repaired(log)).Ok? then LogStep(cls, Repaired(log), op)
    else log
  }

  lemma PerformIsStep(cls: Classes, log: seq<Record>, op: Operation)
    requires Replay(cls, log).Ok?
    ensures Perform(cls, log, op) == LogStep(cls, log, op)
  {
    hide Replay, Read, NormalizeActivity;
    ReplayedIsIntact(cls, log);
    hide Repaired, DeltaRecords, TurnRecords, Replaced, FindSegment, LastSequence;
  }

  ghost function LogAfter(cls: Classes, ops: seq<Operation>): seq<Record> {
    if ops == [] then [] else Perform(cls, LogAfter(cls, ops[..|ops| - 1]), ops[|ops| - 1])
  }

  ghost function ListAfter(cls: Classes, ops: seq<Operation>): seq<Activity> {
    if ops == [] then [] else ListStep(cls, ListAfter(cls, ops[..|ops| - 1]), ops[|ops| - 1])
  }

  // ---------- the log stays readable ----------

  /** An operation leaves a log that replays exactly when it is not a completion of an unnamed segment that
      finds an activity to complete. */
  lemma StepIsSoundIff(cls: Classes, log: seq<Record>, op: Operation)
    requires Sound(cls, log)
    ensures Sound(cls, LogStep(cls, log, op)) <==> !Unrecordable(Raw(cls, log), op)
  {
    hide Sequenced, Replay, LogStep, Unrecordable, Raw, ListStep, Read, Repaired, Logged, Wanted;
    match op
    case Add(a) => AddReplays(cls, log, a); OnlyCompletions(Raw(cls, log), op);
    case Stream(_, _) => BatchReplays(cls, log, op); OnlyCompletions(Raw(cls, log), op);
    case Complete(_, _, _, _) =>
      if Unrecordable(Raw(cls, log), op) {
        UnrecordableIsRefused(cls, log, op);
      } else {
        CompleteReplays(cls, log, op);
      }
    case CompleteTurn(_, _, _, _) => CompleteTurnReplays(cls, log, op); OnlyCompletions(Raw(cls, log), op);
    case Replace(_, _, _, _, _, _) => RewriteReplays(cls, log, op); OnlyCompletions(Raw(cls, log), op);
    case Compact => RewriteReplays(cls, log, op); OnlyCompletions(Raw(cls, log), op);
  }

  lemma OnlyCompletions(list: seq<Activity>, op: Operation)
    ensures !op.Complete? ==> !Unrecordable(list, op)
    ensures op.Complete? && IsName(op.segment) ==> !Unrecordable(list, op)
  {
  }

  /** The operation at `k` completes an unnamed segment of a log that can still be read. */
  ghost predicate Spoils(cls: Classes, ops: seq<Operation>, k: int)
    requires 0 <= k < |ops|
  {
    Replay(cls, LogAfter(cls, ops[..k])).Ok? && Unrecordable(Raw(cls, LogAfter(cls, ops[..k])), ops[k])
  }

  lemma NextLog(cls: Classes, ops: seq<Operation>, k: nat)
    requires k < |ops|
    ensures LogAfter(cls, ops[..k + 1]) == Perform(cls, LogAfter(cls, ops[..k]), ops[k])
    ensures ListAfter(cls, ops[..k + 1]) == ListStep(cls, ListAfter(cls, ops[..k]), ops[k])
  {
    hide Perform, ListStep;
    assert ops[..k + 1][..k] == ops[..k];
  }

  /** In every run the file is, at each point, at most one leading snapshot and then consecutive records that
      replay without an error, if and only if no completion of an unnamed segment was written. */
  lemma RunIsSound(cls: Classes, ops: seq<Operation>)
    ensures (forall k :: 0 <= k <= |ops| ==> Sound(cls, LogAfter(cls, ops[..k])))
      <==> (forall k :: 0 <= k < |ops| ==> !Spoils(cls, ops, k))
  {
    hide Sequenced, Replay, Perform, Unrecordable, Raw, LogStep;
    if forall k :: 0 <= k < |ops| ==> !Spoils(cls, ops, k) {
      forall k | 0 <= k <= |ops| ensures Sound(cls, LogAfter(cls, ops[..k])) { SoundUpTo(cls, ops, k); }
    } else {
      var k :| 0 <= k < |ops| && Spoils(cls, ops, k);
      if Sound(cls, LogAfter(cls, ops[..k])) {
        StepIsSoundIff(cls, LogAfter(cls, ops[..k]), ops[k]);
        PerformIsStep(cls, LogAfter(cls, ops[..k]), ops[k]);
        NextLog(cls, ops, k);
      }
    }
  }

  lemma {:induction false} SoundUpTo(cls: Classes, ops: seq<Operation>, n: nat)
    requires n <= |ops| && forall k :: 0 <= k < n ==> !Spoils(cls, ops, k)
    ensures Sound(cls, LogAfter(cls, ops[..n]))
  {
    hide Perform, Unrecordable, LogStep;
    if n == 0 {
      assert ops[..0] == [];
    } else {
      SoundUpTo(cls, ops, n - 1);
      hide Sequenced, Replay, Raw;
      assert !Spoils(cls, ops, n - 1);
      StepIsSoundIff(cls, LogAfter(cls, ops[..n - 1]), ops[n - 1]);
      PerformIsStep(cls, LogAfter(cls, ops[..n - 1]), ops[n - 1]);
      NextLog(cls, ops, n - 1);
    }
  }

  /** A run whose completions all name their segment never spoils its log. */
  lemma NamedRunIsSound(cls: Classes, ops: seq<Operation>)
    requires forall k :: 0 <= k < |ops| && ops[k].Complete? ==> IsName(ops[k].segment)
    ensures Sound(cls, LogAfter(cls, ops))
  {
    hide Sequenced, Replay, Unrecordable, Raw, LogAfter;
    forall k | 0 <= k < |ops| ensures !Spoils(cls, ops, k) {
      if Replay(cls, LogAfter(cls, ops[..k])).Ok? { OnlyCompletions(Raw(cls, LogAfter(cls, ops[..k])), ops[k]); }
    }
    SoundUpTo(cls, ops, |ops|);
    assert ops[..|ops|] == ops;
  }

  // ---------- what follows an unnamed completion ----------

  /** Every read of the file reports an error. */
  ghost predicate Broken(cls: Classes, log: seq<Record>) { Replay(cls, Repaired(log)).Err? }

  ghost function PerformAll(cls: Classes, log: seq<Record>, ops: seq<Operation>): seq<Record>
    decreases |ops|
  {
    if ops == [] then log else PerformAll(cls, Perform(cls, log, ops[0]), ops[1..])
  }

  lemma BrokenStays(cls: Classes, log: seq<Record>, op: Operation)
    requires Broken(cls, log)
    ensures Broken(cls, Perform(cls, log, op))
  {
    hide Replay;
    if op.Add? {
      var r := Append(LastSequence(log) + 1, NormalizeActivity(cls, op.activity));
      assert Repaired(log + [r]) == log + [r];
      var n := |Repaired(log)|;
      assert (log + [r])[..n] == Repaired(log);
      ErrorStays(cls, log + [r], n);
    }
  }

  /** The completion of an unnamed segment is lost at the next read; if an activity is added before that,
      every later read fails, whatever is done. */
  lemma {:induction false} UnnamedCompletionIsLost(cls: Classes, log: seq<Record>, op: Operation, a: Activity,
      more: seq<Operation>)
    requires op.Complete? && Sound(cls, log) && Unrecordable(Raw(cls, log), op)
    ensures Repaired(Perform(cls, log, op)) == log
    ensures Broken(cls, PerformAll(cls, Perform(cls, Perform(cls, log, op), Add(a)), more))
    decreases |more|
  {
    hide Sequenced, Unrecordable, LogStep;
    PerformIsStep(cls, log, op);
    UnrecordableIsRefused(cls, log, op);
    var spoiled := Perform(cls, log, op);
    var after := Perform(cls, spoiled, Add(a));
    hide Replay;
    var r := Append(LastSequence(spoiled) + 1, NormalizeActivity(cls, a));
    assert after == spoiled + [r] && Repaired(after) == after;
    assert after[..|spoiled|] == spoiled;
    ErrorStays(cls, after, |spoiled|);
    hide Perform, Repaired;
    AllBroken(cls, after, more);
  }

  lemma {:induction false} AllBroken(cls: Classes, log: seq<Record>, more: seq<Operation>)
    requires Broken(cls, log)
    ensures Broken(cls, PerformAll(cls, log, more))
    decreases |more|
  {
    hide Replay, Perform, Repaired;
    if more != [] {
      BrokenStays(cls, log, more[0]);
      AllBroken(cls, Perform(cls, log, more[0]), more[1..]);
    }
  }

  // ---------- the log agrees with the list ----------

  /** The log replays, and to the list but for the texts. */
  ghost predicate Agrees(cls: Classes, log: seq<Record>, list: seq<Activity>) {
    Sound(cls, log) && SameShape(Raw(cls, log), list)
  }

  /** The exact condition for one operation to be recorded as it was done. */
  ghost predicate Kept(list: seq<Activity>, op: Operation) {
    !Unrecordable(list, op) && (op.CompleteTurn? ==> Recorded(list, op))
  }

  lemma UnrecordableIgnoresText(a: seq<Activity>, b: seq<Activity>, op: Operation)
    requires SameShape(a, b)
    ensures Unrecordable(a, op) <==> Unrecordable(b, op)
  {
    if op.Complete? {
      FindIgnoresText(a, b, op.task, op.segment);
      var i := FindSegment(a, op.task, op.segment);
      hide FindSegment;
      if i >= 0 { assert SameButText(a[i], b[i]); }
    }
  }

  /** The new log replays to the operation applied to the list it starts from. */
  lemma StepReplays(cls: Classes, log: seq<Record>, op: Operation)
    requires Sound(cls, log) && Kept(Raw(cls, log), op)
    ensures Sound(cls, LogStep(cls, log, op))
    ensures Raw(cls, LogStep(cls, log, op)) == ListStep(cls, Base(cls, log, op), op)
  {
    hide Replay, Sequenced, LogStep, ListStep, Read, Raw, Recorded, Unrecordable;
    match op
    case Add(a) => AddReplays(cls, log, a);
    case Stream(_, _) => BatchReplays(cls, log, op);
    case Complete(_, _, _, _) => CompleteReplays(cls, log, op);
    case CompleteTurn(_, _, _, _) => TurnRecordedIff(cls, log, op);
    case Replace(_, _, _, _, _, _) => RewriteReplays(cls, log, op);
    case Compact => RewriteReplays(cls, log, op);
  }

  lemma BaseShape(cls: Classes, log: seq<Record>, list: seq<Activity>, op: Operation)
    requires Agrees(cls, log, list)
    ensures SameShape(Base(cls, log, op), list)
  {
    hide Replay, Sequenced, NormalizeAll, SameButText;
    NormalizeKeepsShape(cls, Raw(cls, log));
    ShapeIsTransitive(Read(cls, log), Raw(cls, log), list);
  }

  lemma StepAgreesIff(cls: Classes, log: seq<Record>, list: seq<Activity>, op: Operation)
    requires Agrees(cls, log, list)
    ensures Agrees(cls, LogStep(cls, log, op), ListStep(cls, list, op)) <==> Kept(list, op)
  {
    hide Replay, Sequenced, LogStep, ListStep, Unrecordable, Recorded, SameShape, Raw;
    ShapeIsSymmetric(Raw(cls, log), list);
    UnrecordableIgnoresText(Raw(cls, log), list, op);
    if Unrecordable(list, op) {
      StepIsSoundIff(cls, log, op);
    } else if op.CompleteTurn? && !Recorded(list, op) {
      LostTurn(cls, log, list, op);
    } else {
      if op.CompleteTurn? { RecordedIgnoresText(list, Raw(cls, log), op); }
      StepReplays(cls, log, op);
      BaseShape(cls, log, list, op);
      ListStepKeepsShape(cls, Base(cls, log, op), list, op);
    }
  }

  lemma LostTurn(cls: Classes, log: seq<Record>, list: seq<Activity>, op: Operation)
    requires Agrees(cls, log, list) && op.CompleteTurn? && !Recorded(list, op)
    ensures !Agrees(cls, LogStep(cls, log, op), ListStep(cls, list, op))
  {
    hide Replay, Sequenced, LogStep, ListStep, Recorded, SameShape, Raw, Logged, Wanted;
    var raw := Raw(cls, log);
    if Recorded(raw, op) { RecordedIgnoresText(raw, list, op); }
    CompleteTurnReplays(cls, log, op);
    LostInShape(raw, op);
    ListStepKeepsShape(cls, raw, list, op);
    ShapeIsSymmetric(ListStep(cls, raw, op), ListStep(cls, list, op));
    if SameShape(Raw(cls, LogStep(cls, log, op)), ListStep(cls, list, op)) {
      ShapeIsTransitive(Logged(raw, raw, op, 0), ListStep(cls, list, op), Wanted(raw, op));
    }
  }

  ghost predicate AgreesAt(cls: Classes, ops: seq<Operation>, k: int)
    requires 0 <= k <= |ops|
  {
    Agrees(cls, LogAfter(cls, ops[..k]), ListAfter(cls, ops[..k]))
  }

  ghost predicate KeptAt(cls: Classes, ops: seq<Operation>, k: int)
    requires 0 <= k < |ops|
  {
    Kept(ListAfter(cls, ops[..k]), ops[k])
  }

  ghost predicate AllKept(cls: Classes, ops: seq<Operation>) {
    forall k :: 0 <= k < |ops| ==> KeptAt(cls, ops, k)
  }

  lemma AgreesNext(cls: Classes, ops: seq<Operation>, k: nat)
    requires k < |ops| && AgreesAt(cls, ops, k)
    ensures AgreesAt(cls, ops, k + 1) <==> KeptAt(cls, ops, k)
  {
    hide Sequenced, Replay, Perform, LogStep, ListStep, Kept, SameShape, LogAfter, ListAfter;
    StepAgreesIff(cls, LogAfter(cls, ops[..k]), ListAfter(cls, ops[..k]), ops[k]);
    PerformIsStep(cls, LogAfter(cls, ops[..k]), ops[k]);
    NextLog(cls, ops, k);
  }

  lemma {:induction false} AgreesUpTo(cls: Classes, ops: seq<Operation>, n: nat)
    requires n <= |ops| && forall k :: 0 <= k < n ==> KeptAt(cls, ops, k)
    ensures AgreesAt(cls, ops, n)
  {
    if n == 0 {
      assert ops[..0] == [];
    } else {
      AgreesUpTo(cls, ops, n - 1);
      hide AgreesAt, KeptAt;
      AgreesNext(cls, ops, n - 1);
    }
  }

  /** The log agrees with the list at every point of a run, in identifiers, order, metadata and times, if
      and only if each operation meets its condition. */
  lemma RunAgrees(cls: Classes, ops: seq<Operation>)
    ensures (forall k :: 0 <= k <= |ops| ==> AgreesAt(cls, ops, k)) <==> AllKept(cls, ops)
  {
    hide AgreesAt, KeptAt;
    if AllKept(cls, ops) {
      forall k | 0 <= k <= |ops| ensures AgreesAt(cls, ops, k) { AgreesUpTo(cls, ops, k); }
    } else {
      var k :| 0 <= k < |ops| && !KeptAt(cls, ops, k);
      if AgreesAt(cls, ops, k) { AgreesNext(cls, ops, k); }
    }
  }

  /** What a reader sees then. */
  lemma RunReads(cls: Classes, ops: seq<Operation>)
    requires AllKept(cls, ops)
    ensures Sound(cls, LogAfter(cls, ops)) && SameShape(Read(cls, LogAfter(cls, ops)), ListAfter(cls, ops))
  {
    hide LogAfter, ListAfter, KeptAt, Sequenced, Replay, NormalizeAll, SameButText;
    AgreesUpTo(cls, ops, |ops|);
    assert ops[..|ops|] == ops;
    NormalizeKeepsShape(cls, Raw(cls, LogAfter(cls, ops)));
    ShapeIsTransitive(Read(cls, LogAfter(cls, ops)), Raw(cls, LogAfter(cls, ops)), ListAfter(cls, ops));
  }

  // ---------- the same completion again ----------

  /** The metadata leave the activity in its segment. */
  predicate KeepsSegment(op: Operation)
    requires op.Complete?
  {
    SegmentId in op.metadata ==> op.metadata[SegmentId] == op.segment
  }

  lemma {:induction false} SegmentStaysFound(list: seq<Activity>, op: Operation)
    requires op.Complete? && KeepsSegment(op) && FindSegment(list, op.task, op.segment) >= 0
    ensures var i := FindSegment(list, op.task, op.segment);
      FindSegment(list[i := Completed(list[i], op.phase, op.metadata)], op.task, op.segment) == i
  {
    var i := FindSegment(list, op.task, op.segment);
    var after := list[i := Completed(list[i], op.phase, op.metadata)];
    hide FindSegment;
    assert InSegment(after[i], op.task, op.segment);
    assert forall k :: 0 <= k < i ==> after[k] == list[k];
  }

  /** What was completed is found complete, but for an array and for a phase that the metadata name themselves. */
  lemma CompletedIsComplete(a: Activity, phase: Phase, metadata: Metadata)
    ensures AlreadyComplete(Completed(a, phase, metadata), phase, metadata)
      <==> forall k :: k in metadata ==> !metadata[k].ArrayValue? && (k == AssistantPhase ==> metadata[k] == phase)
  {
    var after := Completed(a, phase, metadata);
    forall k | k in metadata
      ensures Identical(after.metadata[k], metadata[k])
        <==> !metadata[k].ArrayValue? && (k == AssistantPhase ==> metadata[k] == phase)
    {
    }
  }

  /** The metadata hold no array, and no phase but the operation's. */
  predicate Comparable(op: Operation)
    requires op.Complete?
  {
    forall k :: k in op.metadata ==> !op.metadata[k].ArrayValue? && (k == AssistantPhase ==> op.metadata[k] == op.phase)
  }

  lemma CompletedList(cls: Classes, list: seq<Activity>, op: Operation)
    requires op.Complete? && FindSegment(list, op.task, op.segment) >= 0
    ensures var i := FindSegment(list, op.task, op.segment);
      ListStep(cls, list, op) == list[i := Completed(list[i], op.phase, op.metadata)]
  {
    hide FindSegment, Completed;
  }

  lemma CompletedTwice(a: Activity, phase: Phase, metadata: Metadata)
    ensures Completed(Completed(a, phase, metadata), phase, metadata) == Completed(a, phase, metadata)
  {
    var once := Completed(a, phase, metadata);
    assert Completed(once, phase, metadata).metadata == once.metadata;
  }

  /** A completion that is repeated changes nothing a reader sees; it writes nothing exactly when its metadata can be
      compared with those of the log. */
  lemma RepeatedCompletion(cls: Classes, log: seq<Record>, op: Operation)
    requires op.Complete? && IsName(op.segment) && KeepsSegment(op)
    requires Sound(cls, log) && FindSegment(Raw(cls, log), op.task, op.segment) >= 0
    ensures var once := LogStep(cls, log, op);
      && Sound(cls, once) && Sound(cls, LogStep(cls, once, op))
      && Read(cls, LogStep(cls, once, op)) == Read(cls, once)
      && (LogStep(cls, once, op) == once <==> Comparable(op))
  {
    hide Replay, Sequenced, LogStep, FindSegment, Completed, AlreadyComplete, ListStep, NormalizeAll, Raw, LastSequence;
    var list := Raw(cls, log);
    OnlyCompletions(list, op);
    CompleteReplays(cls, log, op);
    CompletedList(cls, list, op);
    var once := LogStep(cls, log, op);
    var i := FindSegment(list, op.task, op.segment);
    SegmentStaysFound(list, op);
    OnlyCompletions(Raw(cls, once), op);
    CompleteReplays(cls, once, op);
    CompletedList(cls, Raw(cls, once), op);
    CompletedTwice(list[i], op.phase, op.metadata);
    SameRead(cls, LogStep(cls, once, op), once);
    CompletedIsComplete(list[i], op.phase, op.metadata);
    FoundOnReading(cls, once, op);
    CompleteStep(cls, once, op);
  }

  lemma SameRead(cls: Classes, a: seq<Record>, b: seq<Record>)
    requires Replay(cls, a).Ok? && Replay(cls, b).Ok? && Raw(cls, a) == Raw(cls, b)
    ensures Read(cls, a) == Read(cls, b)
  {
    hide Replay;
  }

  // ---------- the texts ----------

  lemma WithoutOneMore(list: seq<Activity>, a: Activity, id: Id)
    ensures Without(list + [a], id) == Without(list, id) + if a.id == id then [] else [a]
  {
    assert (list + [a])[..|list|] == list;
  }

  lemma NormalizeKeepsId(cls: Classes, a: Activity)
    ensures NormalizeActivity(cls, a).id == a.id
  {
    hide Normalize;
  }

  lemma NothingNormalized(cls: Classes, id: Id)
    ensures NormalizeAll(cls, []) == [] && Without([], id) == []
  {
  }

  lemma {:induction false} WithoutNormalized(cls: Classes, list: seq<Activity>, id: Id)
    ensures Without(NormalizeAll(cls, list), id) == NormalizeAll(cls, Without(list, id))
  {
    hide *;
    if list == [] {
      NothingNormalized(cls, id);
    } else {
      var init, last := list[..|list| - 1], list[|list| - 1];
      assert list == init + [last];
      WithoutNormalized(cls, init, id);
      NormalizeOneMore(cls, init, last);
      WithoutOneMore(init, last, id);
      WithoutOneMore(NormalizeAll(cls, init), NormalizeActivity(cls, last), id);
      NormalizeKeepsId(cls, last);
      NormalizeOneMore(cls, Without(init, id), last);
      assert Without(init, id) + [] == Without(init, id);
      assert NormalizeAll(cls, Without(init, id)) + [] == NormalizeAll(cls, Without(init, id));
    }
  }

  lemma NormalizeOneMore(cls: Classes, list: seq<Activity>, a: Activity)
    ensures NormalizeAll(cls, list + [a]) == NormalizeAll(cls, list) + [NormalizeActivity(cls, a)]
  {
    assert (list + [a])[..|list|] == list;
    hide NormalizeActivity;
  }

  lemma DemotedText(cls: Classes, a: Activity, task: nat, turn: Value)
    ensures Demoted(NormalizeActivity(cls, a), task, turn) == Demoted(a, task, turn) <==> NormalizeActivity(cls, a) == a
  {
    hide Normalize;
    assert Demoted(NormalizeActivity(cls, a), task, turn).text == NormalizeActivity(cls, a).text;
    assert Demoted(a, task, turn).text == a.text;
    assert NormalizeActivity(cls, a) == a.(text := NormalizeActivity(cls, a).text);
  }

  lemma DemotedTexts(cls: Classes, list: seq<Activity>, task: nat, turn: Value)
    ensures DemotedAll(NormalizeAll(cls, list), task, turn) == DemotedAll(list, task, turn) <==> Normalized(cls, list)
  {
    hide Demoted, NormalizeActivity;
    var a, b := DemotedAll(NormalizeAll(cls, list), task, turn), DemotedAll(list, task, turn);
    forall i | 0 <= i < |list| ensures a[i] == b[i] <==> NormalizeActivity(cls, list[i]) == list[i] {
      DemotedText(cls, list[i], task, turn);
    }
    hide DemotedAll, NormalizeAll;
    assert |a| == |list| == |b|;
    if Normalized(cls, list) {
      assert forall i :: 0 <= i < |list| ==> NormalizeActivity(cls, list[i]) == list[i];
      assert a == b;
    } else {
      var i :| 0 <= i < |list| && NormalizeActivity(cls, list[i]) != list[i];
      assert a[i] != b[i];
    }
  }

  lemma CreatedAtNormalized(cls: Classes, list: seq<Activity>, id: Id, now: int)
    ensures CreatedAt(NormalizeAll(cls, list), id, now) == CreatedAt(list, id, now)
  {
    hide SameButText, NormalizeAll;
    NormalizeKeepsShape(cls, list);
    CreatedAtIgnoresText(NormalizeAll(cls, list), list, id, now);
  }

  /** The texts a snapshot takes in are those of the list: none of them can be collapsed, but for the
      replaced response's. */
  ghost predicate Settled(cls: Classes, list: seq<Activity>, op: Operation) {
    && (op.Compact? ==> Normalized(cls, list))
    && (op.Replace? ==> Normalized(cls, Without(list, Replacement(op.task, op.segment))))
  }

  lemma ReplacedTexts(cls: Classes, list: seq<Activity>, op: Operation)
    requires op.Replace?
    ensures Replaced(cls, NormalizeAll(cls, list), op) == Replaced(cls, list, op) <==> Settled(cls, list, op)
  {
    var id := Replacement(op.task, op.segment);
    WithoutNormalized(cls, list, id);
    DemotedTexts(cls, Without(list, id), op.task, op.turn);
    CreatedAtNormalized(cls, list, id, op.now);
    hide Without, DemotedAll, NormalizeAll, CreatedAt, Normalized, Normalize;
    var a := DemotedAll(NormalizeAll(cls, Without(list, id)), op.task, op.turn);
    var b := DemotedAll(Without(list, id), op.task, op.turn);
    assert Replaced(cls, NormalizeAll(cls, list), op)[..|a|] == a && Replaced(cls, list, op)[..|b|] == b;
  }

  lemma SettledIff(cls: Classes, list: seq<Activity>, op: Operation)
    requires op.Replace? || op.Compact?
    ensures ListStep(cls, NormalizeAll(cls, list), op) == ListStep(cls, list, op) <==> Settled(cls, list, op)
  {
    hide NormalizeAll, Normalized, Replaced, Without;
    if op.Replace? { ReplacedTexts(cls, list, op); } else { NormalizedIsFixed(cls, list); }
  }

  ghost predicate SettledAt(cls: Classes, ops: seq<Operation>, k: int)
    requires 0 <= k < |ops|
  {
    Settled(cls, ListAfter(cls, ops[..k]), ops[k])
  }

  ghost predicate AllSettled(cls: Classes, ops: seq<Operation>) {
    forall k :: 0 <= k < |ops| ==> SettledAt(cls, ops, k)
  }

  /** The log replays to the list, texts included. */
  ghost predicate Matches(cls: Classes, log: seq<Record>, list: seq<Activity>) {
    Sound(cls, log) && Raw(cls, log) == list
  }

  ghost predicate MatchesAt(cls: Classes, ops: seq<Operation>, k: int)
    requires 0 <= k <= |ops|
  {
    Matches(cls, LogAfter(cls, ops[..k]), ListAfter(cls, ops[..k]))
  }

  lemma StepMatchesIff(cls: Classes, log: seq<Record>, list: seq<Activity>, op: Operation)
    requires Matches(cls, log, list) && Kept(list, op)
    ensures Matches(cls, LogStep(cls, log, op), ListStep(cls, list, op)) <==> Settled(cls, list, op)
  {
    hide Replay, Sequenced, LogStep, ListStep, Kept, NormalizeAll, Settled;
    StepReplays(cls, log, op);
    if op.Replace? || op.Compact? { SettledIff(cls, list, op); } else { OnlySnapshots(cls, list, op); }
  }

  lemma OnlySnapshots(cls: Classes, list: seq<Activity>, op: Operation)
    requires !op.Replace? && !op.Compact?
    ensures Settled(cls, list, op)
  {
  }

  lemma MatchesNext(cls: Classes, ops: seq<Operation>, k: nat)
    requires k < |ops| && MatchesAt(cls, ops, k) && KeptAt(cls, ops, k)
    ensures MatchesAt(cls, ops, k + 1) <==> SettledAt(cls, ops, k)
  {
    hide Sequenced, Replay, Perform, LogStep, ListStep, Kept, Settled, LogAfter, ListAfter, Raw;
    StepMatchesIff(cls, LogAfter(cls, ops[..k]), ListAfter(cls, ops[..k]), ops[k]);
    PerformIsStep(cls, LogAfter(cls, ops[..k]), ops[k]);
    NextLog(cls, ops, k);
  }

  lemma {:induction false} MatchesUpTo(cls: Classes, ops: seq<Operation>, n: nat)
    requires n <= |ops| && forall k :: 0 <= k < n ==> KeptAt(cls, ops, k) && SettledAt(cls, ops, k)
    ensures MatchesAt(cls, ops, n)
  {
    if n == 0 {
      assert ops[..0] == [];
    } else {
      MatchesUpTo(cls, ops, n - 1);
      hide MatchesAt, KeptAt, SettledAt;
      MatchesNext(cls, ops, n - 1);
    }
  }

  lemma MatchingAgrees(cls: Classes, log: seq<Record>, list: seq<Activity>)
    requires Matches(cls, log, list)
    ensures Agrees(cls, log, list)
  {
    hide Replay, Sequenced;
  }

  /** The log replays to the list at every point of a run, texts included, if and only if each operation meets its
      condition and no snapshot takes in a text that can be collapsed. */
  lemma RunKeepsTexts(cls: Classes, ops: seq<Operation>)
    ensures (forall k :: 0 <= k <= |ops| ==> MatchesAt(cls, ops, k)) <==> AllKept(cls, ops) && AllSettled(cls, ops)
  {
    hide Matches, Agrees, KeptAt, SettledAt, LogAfter, ListAfter;
    if AllKept(cls, ops) && AllSettled(cls, ops) {
      forall k | 0 <= k <= |ops| ensures MatchesAt(cls, ops, k) { MatchesUpTo(cls, ops, k); }
    } else if forall k :: 0 <= k <= |ops| ==> MatchesAt(cls, ops, k) {
      forall k | 0 <= k <= |ops| ensures AgreesAt(cls, ops, k) {
        assert MatchesAt(cls, ops, k);
        MatchingAgrees(cls, LogAfter(cls, ops[..k]), ListAfter(cls, ops[..k]));
      }
      RunAgrees(cls, ops);
      var k :| 0 <= k < |ops| && !SettledAt(cls, ops, k);
      assert MatchesAt(cls, ops, k + 1);
      MatchesNext(cls, ops, k);
    }
  }

  /** Then a reader sees the list with its texts normalised: the list itself exactly when none of its texts
      can be collapsed. */
  lemma RunReadsTexts(cls: Classes, ops: seq<Operation>)
    requires AllKept(cls, ops) && AllSettled(cls, ops)
    ensures Sound(cls, LogAfter(cls, ops))
    ensures Read(cls, LogAfter(cls, ops)) == NormalizeAll(cls, ListAfter(cls, ops))
    ensures Read(cls, LogAfter(cls, ops)) == ListAfter(cls, ops) <==> Normalized(cls, ListAfter(cls, ops))
  {
    hide LogAfter, ListAfter, KeptAt, SettledAt, Sequenced, Replay, NormalizeAll, Normalized;
    MatchesUpTo(cls, ops, |ops|);
    assert ops[..|ops|] == ops;
    NormalizedIsFixed(cls, ListAfter(cls, ops));
  }

  /** A snapshot of texts that cannot be collapsed takes in none that can. */
  lemma NormalizedIsSettled(cls: Classes, list: seq<Activity>, op: Operation)
    requires Normalized(cls, list)
    ensures Settled(cls, list, op)
  {
    hide Normalized, NormalizeAll, Without;
    if op.Replace? {
      var id := Replacement(op.task, op.segment);
      NormalizedIsFixed(cls, list);
      WithoutNormalized(cls, list, id);
      NormalizedIsFixed(cls, Without(list, id));
    }
  }

  ghost predicate NormalizedAt(cls: Classes, ops: seq<Operation>, k: int)
    requires 0 <= k <= |ops|
  {
    Normalized(cls, ListAfter(cls, ops[..k]))
  }

  /** The log replays, and a reader sees the list, texts included. */
  ghost predicate ReadsAs(cls: Classes, log: seq<Record>, list: seq<Activity>) {
    Sound(cls, log) && Read(cls, log) == list
  }

  ghost predicate ReadsAt(cls: Classes, ops: seq<Operation>, k: int)
    requires 0 <= k <= |ops|
  {
    ReadsAs(cls, LogAfter(cls, ops[..k]), ListAfter(cls, ops[..k]))
  }

  lemma ReadsNormalized(cls: Classes, log: seq<Record>, list: seq<Activity>)
    ensures Matches(cls, log, list) && Normalized(cls, list) ==> ReadsAs(cls, log, list)
    ensures ReadsAs(cls, log, list) ==> Normalized(cls, list) && Agrees(cls, log, list)
  {
    hide Sequenced, Replay, Normalized, NormalizeAll, SameShape;
    NormalizedIsFixed(cls, list);
    if ReadsAs(cls, log, list) {
      ReadIsNormalized(cls, log);
      NormalizeKeepsShape(cls, Raw(cls, log));
      ShapeIsSymmetric(Read(cls, log), Raw(cls, log));
    }
  }

  /** A reader sees the list at every point of a run, texts included, if and only if each operation meets its
      condition and no text of the list can be collapsed at any point. */
  lemma RunReadsList(cls: Classes, ops: seq<Operation>)
    ensures (forall k :: 0 <= k <= |ops| ==> ReadsAt(cls, ops, k))
      <==> AllKept(cls, ops) && forall k :: 0 <= k <= |ops| ==> NormalizedAt(cls, ops, k)
  {
    hide KeptAt, Matches, Agrees, Settled, ReadsAs, Normalized, LogAfter, ListAfter;
    forall k | 0 <= k <= |ops|
      ensures MatchesAt(cls, ops, k) && NormalizedAt(cls, ops, k) ==> ReadsAt(cls, ops, k)
      ensures ReadsAt(cls, ops, k) ==> NormalizedAt(cls, ops, k) && AgreesAt(cls, ops, k)
    {
      ReadsNormalized(cls, LogAfter(cls, ops[..k]), ListAfter(cls, ops[..k]));
    }
    RunAgrees(cls, ops);
    if AllKept(cls, ops) && forall k :: 0 <= k <= |ops| ==> NormalizedAt(cls, ops, k) {
      forall k | 0 <= k < |ops| ensures SettledAt(cls, ops, k) {
        assert NormalizedAt(cls, ops, k);
        NormalizedIsSettled(cls, ListAfter(cls, ops[..k]), ops[k]);
      }
      RunKeepsTexts(cls, ops);
    }
  }

  // ---------- compaction ----------

  /** Compacting changes nothing a reader sees, texts included. */
  lemma CompactionKeepsRead(cls: Classes, log: seq<Record>)
    requires Replay(cls, log).Ok?
    ensures Sound(cls, LogStep(cls, log, Compact)) && Read(cls, LogStep(cls, log, Compact)) == Read(cls, log)
  {
    hide Sequenced, NormalizeAll, Normalized, Replay;
    CompactionReplays(cls, log);
    NormalizedIsFixed(cls, Raw(cls, log));
    NormalizedIsFixed(cls, Read(cls, log));
  }

  lemma CompactionReplays(cls: Classes, log: seq<Record>)
    requires Replay(cls, log).Ok?
    ensures Sound(cls, LogStep(cls, log, Compact)) && Raw(cls, LogStep(cls, log, Compact)) == Read(cls, log)
  {
    hide *;
    ReplaySequence(cls, log);
    RewritesCompact();
    SnapshotStep(cls, log, Compact);
    CompactionIsNoStep(cls, Read(cls, log));
    SnapshotReplays(cls, LastSequence(log), Read(cls, log));
  }

  lemma RewritesCompact()
    ensures Rewrites(Compact)
  {
  }

  function WithoutCompactions(ops: seq<Operation>): seq<Operation> {
    if ops == [] then []
    else WithoutCompactions(ops[..|ops| - 1]) + (if ops[|ops| - 1].Compact? then [] else [ops[|ops| - 1]])
  }

  lemma ListAfterOne(cls: Classes, ops: seq<Operation>, op: Operation)
    ensures ListAfter(cls, ops + [op]) == ListStep(cls, ListAfter(cls, ops), op)
  {
    hide ListStep;
    assert (ops + [op])[..|ops|] == ops;
  }

  lemma CompactionIsNoStep(cls: Classes, list: seq<Activity>)
    ensures ListStep(cls, list, Compact) == list
  {
  }

  /** What holds of each operation and the list it is done to holds without the compactions. */
  lemma {:induction false} CompactionsDoNothing(cls: Classes, ops: seq<Operation>)
    ensures var kept := WithoutCompactions(ops);
      && ListAfter(cls, kept) == ListAfter(cls, ops)
      && (AllKept(cls, ops) ==> AllKept(cls, kept)) && (AllSettled(cls, ops) ==> AllSettled(cls, kept))
  {
    hide ListStep, KeptAt, SettledAt, ListAfter;
    if ops != [] {
      var n := |ops| - 1;
      CompactionsDoNothing(cls, ops[..n]);
      ConditionsBefore(cls, ops, n);
      var kept := WithoutCompactions(ops[..n]);
      assert ops == ops[..n] + [ops[n]];
      ListAfterOne(cls, ops[..n], ops[n]);
      if ops[n].Compact? {
        assert WithoutCompactions(ops) == kept;
        CompactionIsNoStep(cls, ListAfter(cls, ops[..n]));
      } else {
        assert WithoutCompactions(ops) == kept + [ops[n]];
        ListAfterOne(cls, kept, ops[n]);
        OneMoreCondition(cls, ops, n, kept);
      }
    }
  }

  lemma ConditionsBefore(cls: Classes, ops: seq<Operation>, n: nat)
    requires n <= |ops|
    ensures (AllKept(cls, ops) ==> AllKept(cls, ops[..n])) && (AllSettled(cls, ops) ==> AllSettled(cls, ops[..n]))
  {
    hide Kept, Settled, ListAfter;
    forall k | 0 <= k < n
      ensures KeptAt(cls, ops[..n], k) == KeptAt(cls, ops, k) && SettledAt(cls, ops[..n], k) == SettledAt(cls, ops, k)
    {
      assert ops[..n][..k] == ops[..k];
    }
  }

  lemma OneMoreCondition(cls: Classes, ops: seq<Operation>, n: nat, kept: seq<Operation>)
    requires n < |ops| && ListAfter(cls, kept) == ListAfter(cls, ops[..n])
    requires AllKept(cls, ops[..n]) ==> AllKept(cls, kept)
    requires AllSettled(cls, ops[..n]) ==> AllSettled(cls, kept)
    ensures AllKept(cls, ops) ==> AllKept(cls, kept + [ops[n]])
    ensures AllSettled(cls, ops) ==> AllSettled(cls, kept + [ops[n]])
  {
    ConditionsBefore(cls, ops, n);
    ConditionsBefore(cls, kept + [ops[n]], |kept|);
    var more := kept + [ops[n]];
    assert more[..|kept|] == kept;
    hide Kept, Settled, ListAfter;
    forall k | 0 <= k < |kept|
      ensures KeptAt(cls, more, k) == KeptAt(cls, kept, k) && SettledAt(cls, more, k) == SettledAt(cls, kept, k)
    {
      assert more[..k] == kept[..k];
    }
    assert AllKept(cls, ops) ==> KeptAt(cls, ops, n);
    assert AllSettled(cls, ops) ==> SettledAt(cls, ops, n);
  }

  /** Compactions at any points of a run show a reader the same activities as none; the same texts too, when
      no snapshot takes in a text that can be collapsed. */
  lemma CompactionsAreInvisible(cls: Classes, ops: seq<Operation>)
    requires AllKept(cls, ops)
    ensures Sound(cls, LogAfter(cls, ops)) && Sound(cls, LogAfter(cls, WithoutCompactions(ops)))
    ensures SameShape(Read(cls, LogAfter(cls, ops)), Read(cls, LogAfter(cls, WithoutCompactions(ops))))
    ensures AllSettled(cls, ops) ==> Read(cls, LogAfter(cls, ops)) == Read(cls, LogAfter(cls, WithoutCompactions(ops)))
  {
    hide ListAfter, LogAfter, KeptAt, SettledAt, NormalizeAll, Replay, Sequenced, SameButText, Normalized;
    var kept := WithoutCompactions(ops);
    CompactionsDoNothing(cls, ops);
    RunReads(cls, ops);
    RunReads(cls, kept);
    ShapeIsSymmetric(Read(cls, LogAfter(cls, kept)), ListAfter(cls, ops));
    ShapeIsTransitive(Read(cls, LogAfter(cls, ops)), ListAfter(cls, ops), Read(cls, LogAfter(cls, kept)));
    if AllSettled(cls, ops) {
      RunReadsTexts(cls, ops);
      RunReadsTexts(cls, kept);
    }
  }
}
