/** What a caller has to keep to for every operation of a run to be recorded as it was done
    (src/main/persistence/activity-log-store.ts, src/main/tasks/task-event-projector.ts). */
module ActivityLogOrder {
  import opened Options
  import opened StreamText
  import opened ActivityLog
  import opened ActivityLogTurns
  import opened ActivityLogRuns

  // ---------- the order of calls ----------

  /** No call gives an activity a segment but a delta or a replacement, and completions name theirs. */
  predicate Plain(op: Operation) {
    match op
    case Add(a) => !(a.assistant && SegmentId in a.metadata)
    case Complete(_, segment, _, metadata) => SegmentId !in metadata && IsName(segment)
    case CompleteTurn(_, _, _, metadata) => SegmentId !in metadata
    case _ => true
  }

  predicate DeltaAvoids(d: Delta, turn: Value, segment: Value) {
    if SegmentId in d.metadata then d.metadata[SegmentId] != segment else Lookup(d.metadata, TurnId) != Some(turn)
  }

  /** After a replacement nothing streams to its segment or, without a segment, to its turn; its segment is
      not completed; and its turn is replaced again only in the same segment. */
  predicate Follows(replace: Operation, op: Operation)
    requires replace.Replace?
  {
    match op
    case Stream(task, deltas) => task == replace.task ==>
      forall k :: 0 <= k < |deltas| ==> DeltaAvoids(deltas[k], replace.turn, replace.segment)
    case Complete(task, segment, _, _) => task == replace.task ==> segment != replace.segment
    case Replace(task, turn, segment, _, _, _) =>
      task == replace.task && turn == replace.turn ==> segment == replace.segment
    case _ => true
  }

  ghost predicate Orderly(ops: seq<Operation>) {
    && (forall k :: 0 <= k < |ops| ==> Plain(ops[k]))
    && forall j, k :: 0 <= j < k < |ops| && ops[j].Replace? ==> Follows(ops[j], ops[k])
  }

  // ---------- what it keeps ----------

  predicate Segmented(a: Activity) { a.assistant && SegmentId in a.metadata }

  predicate IsReplacement(a: Activity) { Segmented(a) && a.id == Replacement(a.task, a.metadata[SegmentId]) }

  /** A segment is shared with an earlier activity only by a replacement. */
  predicate Tidy(list: seq<Activity>) {
    forall i, j :: 0 <= i < j < |list| && SameSegment(list[i], list[j]) ==> IsReplacement(list[j])
  }

  predicate SealedBy(a: Activity, op: Operation) {
    && op.Replace? && op.task == a.task && Lookup(a.metadata, SegmentId) == Some(op.segment)
    && Lookup(a.metadata, TurnId) == Some(op.turn) && Lookup(a.metadata, AssistantPhase) == Some(Final)
  }

  /** Every replacement is the final response of the turn it was made for. */
  ghost predicate Sealed(list: seq<Activity>, ops: seq<Operation>) {
    forall i :: 0 <= i < |list| && IsReplacement(list[i]) ==> exists j :: 0 <= j < |ops| && SealedBy(list[i], ops[j])
  }

  ghost predicate Orderable(list: seq<Activity>, ops: seq<Operation>) { Tidy(list) && Sealed(list, ops) }

  lemma MoreOps(list: seq<Activity>, ops: seq<Operation>, op: Operation)
    requires Sealed(list, ops)
    ensures Sealed(list, ops + [op])
  {
    hide IsReplacement, SealedBy;
    var more := ops + [op];
    forall i | 0 <= i < |list| && IsReplacement(list[i])
      ensures exists j :: 0 <= j < |more| && SealedBy(list[i], more[j])
    {
      var j :| 0 <= j < |ops| && SealedBy(list[i], ops[j]);
      assert more[j] == ops[j];
    }
  }

  lemma SealOf(list: seq<Activity>, ops: seq<Operation>, i: nat) returns (j: nat)
    requires Sealed(list, ops) && i < |list| && IsReplacement(list[i])
    ensures j < |ops| && ops[j].Replace? && SealedBy(list[i], ops[j])
  {
    j :| 0 <= j < |ops| && SealedBy(list[i], ops[j]);
  }

  /** The same activity, changed otherwise than in its identity, and not a replacement. */
  predicate Edited(a: Activity, b: Activity) { SegmentKept(a, b) && a.id == b.id && !IsReplacement(b) }

  lemma EditedKind(a: Activity, b: Activity)
    requires Edited(a, b)
    ensures !IsReplacement(a)
    ensures forall c :: (SameSegment(a, c) <==> SameSegment(b, c)) && (SameSegment(c, a) <==> SameSegment(c, b))
  {
  }

  lemma EditsKeep(list: seq<Activity>, after: seq<Activity>, ops: seq<Operation>)
    requires Orderable(list, ops) && |after| == |list|
    requires forall k :: 0 <= k < |list| ==> after[k] == list[k] || Edited(after[k], list[k])
    ensures Orderable(after, ops)
  {
    hide IsReplacement, SameSegment, Edited, SealedBy;
    forall i, j | 0 <= i < j < |after| && SameSegment(after[i], after[j]) ensures IsReplacement(after[j]) {
      if after[i] != list[i] { EditedKind(after[i], list[i]); }
      if after[j] != list[j] { EditedKind(after[j], list[j]); }
      assert SameSegment(list[i], list[j]);
      if after[j] != list[j] { EditedIsNone(after[j], list[j]); }
    }
    forall i | 0 <= i < |after| && IsReplacement(after[i])
      ensures exists j :: 0 <= j < |ops| && SealedBy(after[i], ops[j])
    {
      if after[i] != list[i] { EditedKind(after[i], list[i]); }
    }
  }

  lemma EditedIsNone(a: Activity, b: Activity)
    requires Edited(a, b)
    ensures !IsReplacement(b)
  {
  }

  /** A new activity of a segment nobody has, or of none. */
  lemma NewKeeps(list: seq<Activity>, a: Activity, ops: seq<Operation>)
    requires Orderable(list, ops) && !IsReplacement(a) && forall k :: 0 <= k < |list| ==> !SameSegment(list[k], a)
    ensures Orderable(list + [a], ops)
  {
    hide IsReplacement, SameSegment, SealedBy;
  }

  lemma SealedIsNotContinued(a: Activity, replace: Operation, task: nat, d: Delta)
    requires SealedBy(a, replace) && (replace.task == task ==> DeltaAvoids(d, replace.turn, replace.segment))
    ensures !Continues(a, task, Lookup(d.metadata, TurnId), Lookup(d.metadata, SegmentId))
  {
  }

  /** What a delta continues is no replacement. */
  lemma ContinuedIsOpen(list: seq<Activity>, ops: seq<Operation>, task: nat, d: Delta)
    requires Orderable(list, ops) && FindFor(list, task, d) >= 0
    requires forall j :: 0 <= j < |ops| && ops[j].Replace? && ops[j].task == task ==>
      DeltaAvoids(d, ops[j].turn, ops[j].segment)
    ensures !IsReplacement(list[FindFor(list, task, d)])
  {
    var i := FindFor(list, task, d);
    assert Continues(list[i], task, Lookup(d.metadata, TurnId), Lookup(d.metadata, SegmentId));
    hide FindAssistant, Continues, IsReplacement, SealedBy, DeltaAvoids, Lookup;
    if IsReplacement(list[i]) {
      var j := SealOf(list, ops, i);
      SealedIsNotContinued(list[i], ops[j], task, d);
    }
  }

  lemma ContinuedIsEdited(cls: Classes, list: seq<Activity>, task: nat, d: Delta)
    requires var i := FindFor(list, task, d); i >= 0 && !IsReplacement(list[i])
    ensures var i := FindFor(list, task, d); Edited(Continued(cls, list[i], d.text, d.metadata), list[i])
  {
    var i := FindFor(list, task, d);
    assert Continues(list[i], task, Lookup(d.metadata, TurnId), Lookup(d.metadata, SegmentId));
    hide FindAssistant, Merge;
  }

  lemma StartedIsNew(cls: Classes, list: seq<Activity>, task: nat, d: Delta)
    requires FindFor(list, task, d) < 0
    ensures !IsReplacement(Started(cls, task, d))
    ensures forall k :: 0 <= k < |list| ==> !SameSegment(list[k], Started(cls, task, d))
  {
    forall k | 0 <= k < |list| ensures !SameSegment(list[k], Started(cls, task, d)) {
      assert !Continues(list[k], task, Lookup(d.metadata, TurnId), Lookup(d.metadata, SegmentId));
    }
  }

  lemma DeltaKeeps(cls: Classes, list: seq<Activity>, ops: seq<Operation>, task: nat, d: Delta)
    requires Orderable(list, ops)
    requires forall j :: 0 <= j < |ops| && ops[j].Replace? && ops[j].task == task ==>
      DeltaAvoids(d, ops[j].turn, ops[j].segment)
    ensures Orderable(Streamed(cls, list, task, d), ops)
  {
    hide Orderable, IsReplacement, SameSegment, Edited, FindFor, Started, Continued, DeltaAvoids;
    var i := FindFor(list, task, d);
    if i >= 0 {
      FoundInList(list, task, d);
      ContinuedIsOpen(list, ops, task, d);
      ContinuedIsEdited(cls, list, task, d);
      EditsKeep(list, Streamed(cls, list, task, d), ops);
    } else {
      StartedIsNew(cls, list, task, d);
      NewKeeps(list, Started(cls, task, d), ops);
    }
  }

  lemma FoundInList(list: seq<Activity>, task: nat, d: Delta)
    ensures FindFor(list, task, d) < |list|
  {
  }

  lemma {:induction false} StreamKeeps(cls: Classes, list: seq<Activity>, ops: seq<Operation>, task: nat,
      deltas: seq<Delta>)
    requires Orderable(list, ops)
    requires forall j :: 0 <= j < |ops| && ops[j].Replace? ==> Follows(ops[j], Stream(task, deltas))
    ensures Orderable(StreamedAll(cls, list, task, deltas), ops)
    decreases |deltas|
  {
    hide Orderable, Streamed, DeltaAvoids;
    if deltas != [] {
      DeltaKeeps(cls, list, ops, task, deltas[0]);
      forall j | 0 <= j < |ops| && ops[j].Replace? ensures Follows(ops[j], Stream(task, deltas[1..])) {
        assert Follows(ops[j], Stream(task, deltas));
      }
      StreamKeeps(cls, Streamed(cls, list, task, deltas[0]), ops, task, deltas[1..]);
    }
  }

  lemma CompletedIsEdited(a: Activity, phase: Phase, metadata: Metadata)
    requires SegmentId !in metadata && !IsReplacement(a)
    ensures Edited(Completed(a, phase, metadata), a)
  {
  }

  lemma CompleteKeeps(cls: Classes, list: seq<Activity>, ops: seq<Operation>, op: Operation)
    requires Orderable(list, ops) && op.Complete? && Plain(op)
    requires forall j :: 0 <= j < |ops| && ops[j].Replace? ==> Follows(ops[j], op)
    ensures Orderable(ListStep(cls, list, op), ops)
  {
    var i := FindSegment(list, op.task, op.segment);
    if i >= 0 {
      CompletedIsOpen(list, ops, op, i);
      hide FindSegment, Edited, Completed;
      CompletedIsEdited(list[i], op.phase, op.metadata);
      EditsKeep(list, ListStep(cls, list, op), ops);
    }
  }

  lemma SealedIsNotInSegment(a: Activity, replace: Operation, op: Operation)
    requires SealedBy(a, replace) && op.Complete? && Follows(replace, op)
    ensures !InSegment(a, op.task, op.segment)
  {
  }

  lemma CompletedIsOpen(list: seq<Activity>, ops: seq<Operation>, op: Operation, i: nat)
    requires Orderable(list, ops) && op.Complete? && i < |list| && InSegment(list[i], op.task, op.segment)
    requires forall j :: 0 <= j < |ops| && ops[j].Replace? ==> Follows(ops[j], op)
    ensures !IsReplacement(list[i])
  {
    hide IsReplacement, SealedBy, Follows, InSegment;
    if IsReplacement(list[i]) {
      var j := SealOf(list, ops, i);
      SealedIsNotInSegment(list[i], ops[j], op);
    }
  }

  lemma UnfinishedIsOpen(list: seq<Activity>, ops: seq<Operation>, op: Operation, i: nat)
    requires Orderable(list, ops) && op.CompleteTurn? && i < |list| && Due(list, op, i)
    ensures !IsReplacement(list[i])
  {
    hide IsReplacement, SealedBy, Due;
    if IsReplacement(list[i]) {
      var j := SealOf(list, ops, i);
      SealedIsNotDue(list, op, i, ops[j]);
    }
  }

  lemma SealedIsNotDue(list: seq<Activity>, op: Operation, i: nat, replace: Operation)
    requires op.CompleteTurn? && i < |list| && SealedBy(list[i], replace)
    ensures !Due(list, op, i)
  {
  }

  lemma TurnKeeps(list: seq<Activity>, ops: seq<Operation>, op: Operation)
    requires Orderable(list, ops) && op.CompleteTurn? && Plain(op)
    ensures Orderable(Wanted(list, op), ops) && Recorded(list, op)
  {
    hide Edited, Due, Wanted, Completed, IsReplacement, Orderable, FirstOf;
    WantedLength(list, op);
    forall k | 0 <= k < |list| ensures Wanted(list, op)[k] == list[k] || Edited(Wanted(list, op)[k], list[k]) {
      WantedAt(list, op, k);
      if Due(list, op, k) {
        UnfinishedIsOpen(list, ops, op, k);
        CompletedIsEdited(list[k], op.phase, op.metadata);
      }
    }
    EditsKeep(list, Wanted(list, op), ops);
    forall i | 0 <= i < |list| && Due(list, op, i) ensures FirstOf(list, op, i) == i { DueIsFirst(list, ops, op, i); }
  }

  lemma DueIsFirst(list: seq<Activity>, ops: seq<Operation>, op: Operation, i: nat)
    requires Orderable(list, ops) && op.CompleteTurn? && i < |list| && Due(list, op, i)
    ensures FirstOf(list, op, i) == i
  {
    UnfinishedIsOpen(list, ops, op, i);
    var f := FirstOf(list, op, i);
    if f < i { assert SameSegment(list[f], list[i]); }
  }

  lemma {:induction false} WithoutKeepsOrder(list: seq<Activity>, ops: seq<Operation>, id: Id)
    requires Orderable(list, ops)
    ensures Orderable(Without(list, id), ops)
  {
    hide IsReplacement, SameSegment, SealedBy;
    if list != [] {
      var n := |list| - 1;
      var init := Without(list[..n], id);
      WithoutKeepsOrder(list[..n], ops, id);
      if list[n].id != id {
        forall k | 0 <= k < |init| && SameSegment(init[k], list[n]) ensures IsReplacement(list[n]) {
          WithoutKeeps(list[..n], id, init[k]);
          var m :| 0 <= m < n && list[..n][m] == init[k];
          assert SameSegment(list[m], list[n]);
        }
        assert Without(list, id) == init + [list[n]];
      } else {
        assert Without(list, id) == init;
      }
    }
  }

  /** A replacement made before is either replaced itself or not of the turn that is demoted. */
  lemma DemotedIsEdited(a: Activity, ops: seq<Operation>, op: Operation)
    requires op.Replace? && a.id != Replacement(op.task, op.segment)
    requires IsReplacement(a) ==> exists j :: 0 <= j < |ops| && SealedBy(a, ops[j])
    requires forall j :: 0 <= j < |ops| && ops[j].Replace? ==> Follows(ops[j], op)
    ensures Demoted(a, op.task, op.turn) == a || Edited(Demoted(a, op.task, op.turn), a)
  {
    hide Follows, Edited, IsReplacement, OfTurn;
    if !IsReplacement(a) {
      DemotedOtherwise(a, op);
    } else {
      var j :| 0 <= j < |ops| && SealedBy(a, ops[j]);
      SealedIsNotOfTurn(a, ops[j], op);
    }
  }

  lemma DemotedOtherwise(a: Activity, op: Operation)
    requires op.Replace? && !IsReplacement(a)
    ensures Demoted(a, op.task, op.turn) == a || Edited(Demoted(a, op.task, op.turn), a)
  {
  }

  lemma SealedIsNotOfTurn(a: Activity, replace: Operation, op: Operation)
    requires op.Replace? && a.id != Replacement(op.task, op.segment) && IsReplacement(a)
    requires replace.Replace? && SealedBy(a, replace) && Follows(replace, op)
    ensures !OfTurn(a, op.task, op.turn)
  {
  }

  lemma ReplacedParts(cls: Classes, list: seq<Activity>, op: Operation) returns (a: Activity)
    requires op.Replace?
    ensures Replaced(cls, list, op)
      == DemotedAll(Without(list, Replacement(op.task, op.segment)), op.task, op.turn) + [a]
    ensures IsReplacement(a) && SealedBy(a, op)
  {
    hide Normalize, CreatedAt, Without, DemotedAll;
    a := Replaced(cls, list, op)[|Replaced(cls, list, op)| - 1];
  }

  lemma ReplacementKeeps(list: seq<Activity>, a: Activity, ops: seq<Operation>, op: Operation)
    requires Orderable(list, ops) && IsReplacement(a) && SealedBy(a, op)
    ensures Orderable(list + [a], ops + [op])
  {
    MoreOps(list, ops, op);
    hide IsReplacement, SealedBy, SameSegment;
    assert (ops + [op])[|ops|] == op;
  }

  lemma DemotedKeeps(list: seq<Activity>, ops: seq<Operation>, op: Operation)
    requires Orderable(list, ops) && op.Replace?
    requires forall j :: 0 <= j < |ops| && ops[j].Replace? ==> Follows(ops[j], op)
    requires forall k :: 0 <= k < |list| ==> list[k].id != Replacement(op.task, op.segment)
    ensures Orderable(DemotedAll(list, op.task, op.turn), ops)
  {
    hide Demoted, IsReplacement, SealedBy, Edited, Follows, DemotedAll, SameSegment, Tidy;
    var demoted := DemotedAll(list, op.task, op.turn);
    forall k | 0 <= k < |list| ensures demoted[k] == list[k] || Edited(demoted[k], list[k]) {
      DemotedIsEdited(list[k], ops, op);
    }
    EditsKeep(list, demoted, ops);
  }

  lemma ReplaceKeeps(cls: Classes, list: seq<Activity>, ops: seq<Operation>, op: Operation)
    requires Orderable(list, ops) && op.Replace?
    requires forall j :: 0 <= j < |ops| && ops[j].Replace? ==> Follows(ops[j], op)
    ensures Orderable(Replaced(cls, list, op), ops + [op])
  {
    hide *;
    var kept := Without(list, Replacement(op.task, op.segment));
    WithoutKeepsOrder(list, ops, Replacement(op.task, op.segment));
    DemotedKeeps(kept, ops, op);
    var a := ReplacedParts(cls, list, op);
    ReplacementKeeps(DemotedAll(kept, op.task, op.turn), a, ops, op);
  }

  // ---------- orderly runs ----------

  lemma StepKeepsOrder(cls: Classes, list: seq<Activity>, ops: seq<Operation>, op: Operation)
    requires Orderable(list, ops) && Plain(op)
    requires forall j :: 0 <= j < |ops| && ops[j].Replace? ==> Follows(ops[j], op)
    ensures Orderable(ListStep(cls, list, op), ops + [op]) && Kept(list, op)
  {
    hide Tidy, Sealed, Follows, FindSegment, Streamed, Recorded, Replaced, Completed, TurnCompletedUpTo;
    match op
    case Add(a) =>
      NotSegmented(cls, a);
      NewKeeps(list, NormalizeActivity(cls, a), ops);
      MoreOps(list + [NormalizeActivity(cls, a)], ops, op);
    case Stream(task, deltas) =>
      StreamKeeps(cls, list, ops, task, deltas);
      MoreOps(StreamedAll(cls, list, task, deltas), ops, op);
    case Complete(_, _, _, _) =>
      CompleteKeeps(cls, list, ops, op);
      MoreOps(ListStep(cls, list, op), ops, op);
    case CompleteTurn(_, _, _, _) =>
      TurnKeeps(list, ops, op);
      MoreOps(Wanted(list, op), ops, op);
    case Replace(_, _, _, _, _, _) => ReplaceKeeps(cls, list, ops, op);
    case Compact => MoreOps(list, ops, op);
  }

  lemma NotSegmented(cls: Classes, a: Activity)
    requires Plain(Add(a))
    ensures !IsReplacement(NormalizeActivity(cls, a)) && forall c :: !SameSegment(c, NormalizeActivity(cls, a))
  {
    hide Normalize;
  }

  lemma OrderlyBefore(ops: seq<Operation>, n: nat)
    requires Orderly(ops) && n < |ops|
    ensures Plain(ops[n])
    ensures forall j :: 0 <= j < |ops[..n]| && ops[..n][j].Replace? ==> Follows(ops[..n][j], ops[n])
  {
    hide Plain, Follows;
  }

  lemma NothingIsOrderable(cls: Classes)
    ensures Orderable(ListAfter(cls, []), [])
  {
  }

  lemma KeptThere(cls: Classes, ops: seq<Operation>, k: nat)
    requires k < |ops| && Kept(ListAfter(cls, ops[..k]), ops[k])
    ensures KeptAt(cls, ops, k)
  {
  }

  lemma {:induction false} OrderlyUpTo(cls: Classes, ops: seq<Operation>, n: nat)
    requires Orderly(ops) && n <= |ops|
    ensures Orderable(ListAfter(cls, ops[..n]), ops[..n]) && forall k :: 0 <= k < n ==> KeptAt(cls, ops, k)
  {
    hide *;
    if n == 0 {
      assert ops[..0] == [];
      NothingIsOrderable(cls);
    } else {
      OrderlyUpTo(cls, ops, n - 1);
      OrderlyBefore(ops, n - 1);
      StepKeepsOrder(cls, ListAfter(cls, ops[..n - 1]), ops[..n - 1], ops[n - 1]);
      KeptThere(cls, ops, n - 1);
      NextLog(cls, ops, n - 1);
      assert ops[..n - 1] + [ops[n - 1]] == ops[..n];
    }
  }

  /** In an orderly run every operation is recorded as it was done. */
  lemma OrderlyRunsAreKept(cls: Classes, ops: seq<Operation>)
    requires Orderly(ops)
    ensures AllKept(cls, ops)
    ensures Sound(cls, LogAfter(cls, ops)) && SameShape(Read(cls, LogAfter(cls, ops)), ListAfter(cls, ops))
  {
    hide Plain, Follows, Kept, Orderable, LogAfter, ListAfter, KeptAt, Sequenced, Replay;
    OrderlyUpTo(cls, ops, |ops|);
    RunReads(cls, ops);
  }
}
