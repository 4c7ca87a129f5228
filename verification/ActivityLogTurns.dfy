/** Completing every unfinished activity of a turn: one record each, and what they replay to
    (src/main/persistence/activity-log-store.ts, completeAssistantSegmentsForTurn and
    applyAssistantSegmentCompleted). */
module ActivityLogTurns {
  import opened Options
  import opened StreamText
  import opened ActivityLog

  predicate Due(list: seq<Activity>, op: Operation, i: int)
    requires op.CompleteTurn? && 0 <= i < |list|
  {
    Unfinished(list[i], op.task, op.turn)
  }

  function SegmentOf(list: seq<Activity>, op: Operation, i: int): Value
    requires op.CompleteTurn? && 0 <= i < |list| && Due(list, op, i)
  {
    list[i].metadata[SegmentId]
  }

  function Done(a: Activity, op: Operation): Activity
    requires op.CompleteTurn?
  {
    Completed(a, op.phase, op.metadata)
  }

  lemma DoneTwice(a: Activity, op: Operation)
    requires op.CompleteTurn?
    ensures Done(Done(a, op), op) == Done(a, op)
  {
    assert Done(Done(a, op), op).metadata == Done(a, op).metadata;
  }

  /** The list the turn's completion stands for: every unfinished activity completed. */
  function Wanted(list: seq<Activity>, op: Operation): seq<Activity>
    requires op.CompleteTurn?
  {
    TurnCompletedUpTo(list, op.task, op.turn, op.phase, op.metadata, |list|)
  }

  /** What the records for the activities due in `list` from `i` on replay to, starting from `raw`. */
  function Logged(raw: seq<Activity>, list: seq<Activity>, op: Operation, i: nat): (r: seq<Activity>)
    requires op.CompleteTurn? && i <= |list|
    ensures |r| == |raw|
    decreases |list| - i
  {
    if i == |list| then raw
    else if !Due(list, op, i) then Logged(raw, list, op, i + 1)
    else
      var f := FindSegment(raw, op.task, SegmentOf(list, op, i));
      Logged(if f < 0 then raw else raw[f := Done(raw[f], op)], list, op, i + 1)
  }

  // ---------- the records always find an activity ----------

  function SegmentSize(list: seq<Activity>, task: nat, segment: Value): nat {
    if list == [] then 0
    else SegmentSize(list[..|list| - 1], task, segment) + if InSegment(list[|list| - 1], task, segment) then 1 else 0
  }

  lemma {:induction false} SegmentSizeAfter(list: seq<Activity>, f: nat, a: Activity, task: nat, segment: Value)
    requires f < |list|
    ensures SegmentSize(list[f := a], task, segment)
      >= SegmentSize(list, task, segment) - (if InSegment(list[f], task, segment) then 1 else 0)
  {
    hide InSegment;
    if f < |list| - 1 {
      SegmentSizeAfter(list[..|list| - 1], f, a, task, segment);
      assert list[f := a][..|list| - 1] == list[..|list| - 1][f := a];
    } else {
      assert list[f := a][..|list| - 1] == list[..|list| - 1];
    }
  }

  lemma {:induction false} EmptySegment(list: seq<Activity>, task: nat, segment: Value)
    requires forall i :: 0 <= i < |list| ==> !InSegment(list[i], task, segment)
    ensures SegmentSize(list, task, segment) == 0
  {
    if list != [] { EmptySegment(list[..|list| - 1], task, segment); }
  }

  /** How many activities of a segment are still due. */
  function Remaining(list: seq<Activity>, op: Operation, i: nat, segment: Value): nat
    requires op.CompleteTurn? && i <= |list|
    decreases |list| - i
  {
    if i == |list| then 0
    else (if Due(list, op, i) && SegmentOf(list, op, i) == segment then 1 else 0) + Remaining(list, op, i + 1, segment)
  }

  lemma {:induction false} RemainingAreInSegment(list: seq<Activity>, op: Operation, i: nat, segment: Value)
    requires op.CompleteTurn? && i <= |list|
    ensures Remaining(list, op, i, segment) + SegmentSize(list[..i], op.task, segment)
      <= SegmentSize(list, op.task, segment)
    decreases |list| - i
  {
    if i == |list| {
      assert list[..i] == list;
    } else {
      RemainingAreInSegment(list, op, i + 1, segment);
      assert list[..i + 1][..i] == list[..i];
    }
  }

  ghost predicate EnoughLeft(raw: seq<Activity>, list: seq<Activity>, op: Operation, i: nat)
    requires op.CompleteTurn? && i <= |list|
  {
    forall segment :: Remaining(list, op, i, segment) <= SegmentSize(raw, op.task, segment)
  }

  lemma EnoughAtStart(list: seq<Activity>, op: Operation)
    requires op.CompleteTurn?
    ensures EnoughLeft(list, list, op, 0)
  {
    forall segment ensures Remaining(list, op, 0, segment) <= SegmentSize(list, op.task, segment) {
      RemainingAreInSegment(list, op, 0, segment);
    }
  }

  lemma OneIsLeft(raw: seq<Activity>, list: seq<Activity>, op: Operation, i: nat)
    requires op.CompleteTurn? && i < |list| && Due(list, op, i) && EnoughLeft(raw, list, op, i)
    ensures FindSegment(raw, op.task, SegmentOf(list, op, i)) >= 0
  {
    var segment := SegmentOf(list, op, i);
    assert Remaining(list, op, i, segment) >= 1;
    if FindSegment(raw, op.task, segment) < 0 { EmptySegment(raw, op.task, segment); }
  }

  lemma CompletionConsumes(raw: seq<Activity>, list: seq<Activity>, op: Operation, i: nat, f: nat)
    requires op.CompleteTurn? && i < |list| && Due(list, op, i) && EnoughLeft(raw, list, op, i)
    requires f < |raw| && InSegment(raw[f], op.task, SegmentOf(list, op, i))
    ensures EnoughLeft(raw[f := Done(raw[f], op)], list, op, i + 1)
  {
    hide SegmentSize;
    var after := raw[f := Done(raw[f], op)];
    forall other ensures Remaining(list, op, i + 1, other) <= SegmentSize(after, op.task, other) {
      SegmentSizeAfter(raw, f, after[f], op.task, other);
      assert Remaining(list, op, i, other) <= SegmentSize(raw, op.task, other);
    }
  }

  lemma NothingConsumed(raw: seq<Activity>, list: seq<Activity>, op: Operation, i: nat)
    requires op.CompleteTurn? && i < |list| && !Due(list, op, i) && EnoughLeft(raw, list, op, i)
    ensures EnoughLeft(raw, list, op, i + 1)
  {
    forall segment ensures Remaining(list, op, i + 1, segment) <= SegmentSize(raw, op.task, segment) {
      assert Remaining(list, op, i, segment) <= SegmentSize(raw, op.task, segment);
    }
  }

  lemma CompletionApplies(cls: Classes, raw: seq<Activity>, list: seq<Activity>, op: Operation, i: nat, sequence: int)
    requires op.CompleteTurn? && i < |list| && Due(list, op, i)
    requires FindSegment(raw, op.task, SegmentOf(list, op, i)) >= 0
    ensures var f := FindSegment(raw, op.task, SegmentOf(list, op, i));
      Apply(cls, raw, SegmentCompleted(sequence, op.task, SegmentOf(list, op, i), op.phase, op.metadata))
        == Ok(raw[f := Done(raw[f], op)])
  {
    hide FindSegment;
  }

  /** Whatever segments are shared or renamed, the records of a completed turn find an activity each, and
      they replay to `Logged`. */
  lemma {:induction false} TurnAlwaysReplays(cls: Classes, log: seq<Record>, read: seq<Activity>,
      list: seq<Activity>, op: Operation, i: nat)
    requires op.CompleteTurn? && Sound(cls, log) && SameShape(read, list) && i <= |list|
    requires EnoughLeft(Raw(cls, log), list, op, i)
    ensures var after := log + TurnRecords(read, op, i, LastSequence(log) + 1);
      Sound(cls, after) && Raw(cls, after) == Logged(Raw(cls, log), list, op, i)
    decreases |list| - i
  {
    hide Sequenced, Replay, Raw, Apply, LastSequence, FindSegment, EnoughLeft, Done;
    if i == |list| {
      assert log + [] == log;
    } else {
      assert SameButText(read[i], list[i]);
      var raw := Raw(cls, log);
      if Due(list, op, i) {
        var r := SegmentCompleted(LastSequence(log) + 1, op.task, SegmentOf(list, op, i), op.phase, op.metadata);
        OneIsLeft(raw, list, op, i);
        CompletionApplies(cls, raw, list, op, i, LastSequence(log) + 1);
        CompletionConsumes(raw, list, op, i, FindSegment(raw, op.task, SegmentOf(list, op, i)));
        AppendReplays(cls, log, r);
        TurnAlwaysReplays(cls, log + [r], read, list, op, i + 1);
        var rest := TurnRecords(read, op, i + 1, LastSequence(log) + 2);
        assert log + ([r] + rest) == (log + [r]) + rest;
      } else {
        NothingConsumed(raw, list, op, i);
        TurnAlwaysReplays(cls, log, read, list, op, i + 1);
      }
    }
  }

  lemma CompleteTurnReplays(cls: Classes, log: seq<Record>, op: Operation)
    requires op.CompleteTurn? && Sound(cls, log)
    ensures Sound(cls, LogStep(cls, log, op))
    ensures Raw(cls, LogStep(cls, log, op)) == Logged(Raw(cls, log), Raw(cls, log), op, 0)
    ensures ListStep(cls, Raw(cls, log), op) == Wanted(Raw(cls, log), op)
  {
    var list := Raw(cls, log);
    NormalizeKeepsShape(cls, list);
    EnoughAtStart(list, op);
    TurnStep(cls, log, op);
    hide Sequenced, Replay, NormalizeAll, Logged, EnoughLeft, LastSequence, TurnCompletedUpTo, LogStep;
    TurnAlwaysReplays(cls, log, Read(cls, log), list, op, 0);
  }

  // ---------- completions that rename no segment ----------

  predicate SameSegments(a: seq<Activity>, b: seq<Activity>) {
    && |a| == |b|
    && forall i :: 0 <= i < |a| ==>
      && a[i].task == b[i].task && a[i].assistant == b[i].assistant
      && Lookup(a[i].metadata, SegmentId) == Lookup(b[i].metadata, SegmentId)
  }

  lemma FindBySegments(a: seq<Activity>, b: seq<Activity>, task: nat, segment: Value)
    requires SameSegments(a, b)
    ensures FindSegment(a, task, segment) == FindSegment(b, task, segment)
  {
    var i, j := FindSegment(a, task, segment), FindSegment(b, task, segment);
    hide FindSegment;
    assert i >= 0 ==> InSegment(b[i], task, segment);
    assert j >= 0 ==> InSegment(a[j], task, segment);
  }

  /** The activity the record for `i` is replayed on when no segment is renamed. */
  function FirstOf(list: seq<Activity>, op: Operation, i: int): (f: int)
    requires op.CompleteTurn? && 0 <= i < |list| && Due(list, op, i)
    ensures 0 <= f <= i && InSegment(list[f], op.task, SegmentOf(list, op, i))
  {
    FindSegment(list, op.task, SegmentOf(list, op, i))
  }

  predicate NoChange(list: seq<Activity>, op: Operation, i: int)
    requires op.CompleteTurn? && 0 <= i < |list|
  {
    Done(list[i], op) == list[i]
  }

  /** Some activity due before `i` has `k` as the first of its segment. */
  ghost predicate Hit(list: seq<Activity>, op: Operation, i: int, k: int)
    requires op.CompleteTurn? && 0 <= i <= |list|
  {
    exists u :: 0 <= u < i && Due(list, op, u) && FirstOf(list, op, u) == k
  }

  ghost predicate HitState(raw: seq<Activity>, list: seq<Activity>, op: Operation, i: nat)
    requires op.CompleteTurn? && i <= |list|
  {
    |raw| == |list| && forall k :: 0 <= k < |list| ==>
      raw[k] == if Hit(list, op, i, k) then Done(list[k], op) else list[k]
  }

  lemma DoneKeepsSegment(a: Activity, op: Operation)
    requires op.CompleteTurn?
    ensures Done(a, op).task == a.task && Done(a, op).assistant == a.assistant && Done(a, op).text == a.text
    ensures SegmentId !in op.metadata ==> Lookup(Done(a, op).metadata, SegmentId) == Lookup(a.metadata, SegmentId)
    ensures SegmentId in op.metadata ==> Lookup(Done(a, op).metadata, SegmentId) == Some(op.metadata[SegmentId])
  {
  }

  lemma {:induction false} KeepingLogged(raw: seq<Activity>, list: seq<Activity>, op: Operation, i: nat)
    requires op.CompleteTurn? && SegmentId !in op.metadata && i <= |list| && HitState(raw, list, op, i)
    ensures HitState(Logged(raw, list, op, i), list, op, |list|)
    decreases |list| - i
  {
    hide Done, FirstOf, Due;
    if i < |list| {
      if Due(list, op, i) {
        forall k | 0 <= k < |list| ensures SegmentKept(raw[k], list[k]) {
          DoneKeepsSegment(list[k], op);
        }
        KeptIsSame(raw, list);
        FindBySegments(raw, list, op.task, SegmentOf(list, op, i));
        var f := FirstOf(list, op, i);
        FirstOfIs(list, op, i);
        DoneTwice(list[f], op);
        var after := raw[f := Done(raw[f], op)];
        forall k | 0 <= k < |list| ensures after[k] == if Hit(list, op, i + 1, k) then Done(list[k], op) else list[k] {
          HitMore(list, op, i, k);
        }
        KeepingLogged(after, list, op, i + 1);
      } else {
        forall k | 0 <= k < |list| ensures Hit(list, op, i + 1, k) <==> Hit(list, op, i, k) { HitMore(list, op, i, k); }
        KeepingLogged(raw, list, op, i + 1);
      }
    }
  }

  lemma FirstOfIs(list: seq<Activity>, op: Operation, i: nat)
    requires op.CompleteTurn? && i < |list| && Due(list, op, i)
    ensures FirstOf(list, op, i) == FindSegment(list, op.task, SegmentOf(list, op, i))
  {
  }

  predicate SegmentKept(a: Activity, b: Activity) {
    a.task == b.task && a.assistant == b.assistant && Lookup(a.metadata, SegmentId) == Lookup(b.metadata, SegmentId)
  }

  lemma KeptIsSame(a: seq<Activity>, b: seq<Activity>)
    requires |a| == |b| && forall k :: 0 <= k < |a| ==> SegmentKept(a[k], b[k])
    ensures SameSegments(a, b)
  {
  }

  lemma HitMore(list: seq<Activity>, op: Operation, i: nat, k: int)
    requires op.CompleteTurn? && i < |list|
    ensures Hit(list, op, i + 1, k) <==> Hit(list, op, i, k) || (Due(list, op, i) && FirstOf(list, op, i) == k)
  {
    hide FirstOf, Due;
  }

  /** Every activity that is due is the first of its segment; or its completion would change nothing, and
      that of the first of its segment is wanted as well or would change nothing either. */
  ghost predicate RecordedInPlace(list: seq<Activity>, op: Operation)
    requires op.CompleteTurn?
  {
    forall i :: 0 <= i < |list| && Due(list, op, i) ==>
      var f := FirstOf(list, op, i);
      f == i || (NoChange(list, op, i) && (Due(list, op, f) || NoChange(list, op, f)))
  }

  lemma WantedAt(list: seq<Activity>, op: Operation, k: nat)
    requires op.CompleteTurn? && k < |list|
    ensures |Wanted(list, op)| == |list|
    ensures Wanted(list, op)[k] == if Due(list, op, k) then Done(list[k], op) else list[k]
  {
  }

  lemma FirstOfFirst(list: seq<Activity>, op: Operation, i: nat, u: nat)
    requires op.CompleteTurn? && i < |list| && u < |list| && Due(list, op, i) && Due(list, op, u)
    requires FirstOf(list, op, u) == i
    ensures FirstOf(list, op, i) == i
  {
  }

  lemma InPlaceIff(list: seq<Activity>, op: Operation, logged: seq<Activity>)
    requires op.CompleteTurn? && HitState(logged, list, op, |list|)
    ensures logged == Wanted(list, op) <==> RecordedInPlace(list, op)
  {
    hide Done, FirstOf, Due, Wanted;
    WantedLength(list, op);
    if RecordedInPlace(list, op) {
      forall k | 0 <= k < |list| ensures logged[k] == Wanted(list, op)[k] {
        WantedAt(list, op, k);
        if Due(list, op, k) { assert FirstOf(list, op, k) == k ==> Hit(list, op, |list|, k); }
      }
    } else {
      var i :| 0 <= i < |list| && Due(list, op, i) && var f := FirstOf(list, op, i);
        !(f == i || (NoChange(list, op, i) && (Due(list, op, f) || NoChange(list, op, f))));
      var f := FirstOf(list, op, i);
      WantedAt(list, op, i);
      WantedAt(list, op, f);
      assert Hit(list, op, |list|, f);
      if Hit(list, op, |list|, i) {
        var u :| 0 <= u < |list| && Due(list, op, u) && FirstOf(list, op, u) == i;
        FirstOfFirst(list, op, i, u);
      }
    }
  }

  lemma WantedLength(list: seq<Activity>, op: Operation)
    requires op.CompleteTurn?
    ensures |Wanted(list, op)| == |list|
  {
  }

  // ---------- completions that move the activities to another segment ----------

  /** The first activity of the segment that the completed ones are moved to, if there is one. */
  function Target(list: seq<Activity>, op: Operation): int
    requires op.CompleteTurn? && SegmentId in op.metadata
  {
    FindSegment(list, op.task, op.metadata[SegmentId])
  }

  predicate Moves(list: seq<Activity>, op: Operation, i: int)
    requires op.CompleteTurn? && SegmentId in op.metadata && 0 <= i < |list| && Due(list, op, i)
  {
    SegmentOf(list, op, i) != op.metadata[SegmentId]
  }

  /** Nothing due before `k`. */
  ghost predicate Clear(list: seq<Activity>, op: Operation, k: int)
    requires op.CompleteTurn? && k <= |list|
  {
    forall x :: 0 <= x < k ==> !Due(list, op, x)
  }

  /** Every earlier activity of the segment of one that moves is due as well. */
  ghost predicate MovesInOrder(list: seq<Activity>, op: Operation)
    requires op.CompleteTurn? && SegmentId in op.metadata
  {
    forall i, x :: 0 <= x < i < |list| && Due(list, op, i) && Moves(list, op, i) ==>
      (InSegment(list[x], op.task, SegmentOf(list, op, i)) ==> Due(list, op, x))
  }

  /** Something due before `i` is in the target segment already. */
  ghost predicate StaysBefore(list: seq<Activity>, op: Operation, i: int)
    requires op.CompleteTurn? && SegmentId in op.metadata && i <= |list|
  {
    exists u :: 0 <= u < i && Due(list, op, u) && !Moves(list, op, u)
  }

  /** What has been completed after the records for the activities before `i`. */
  ghost predicate Moved(list: seq<Activity>, op: Operation, i: int, k: int)
    requires op.CompleteTurn? && SegmentId in op.metadata && 0 <= i <= |list| && 0 <= k < |list|
  {
    || (k < i && Due(list, op, k) && Moves(list, op, k))
    || (k == Target(list, op) && Clear(list, op, k) && StaysBefore(list, op, i))
  }

  ghost predicate MovedState(raw: seq<Activity>, list: seq<Activity>, op: Operation, i: nat)
    requires op.CompleteTurn? && SegmentId in op.metadata && i <= |list|
  {
    |raw| == |list| && forall k :: 0 <= k < |list| ==>
      raw[k] == if Moved(list, op, i, k) then Done(list[k], op) else list[k]
  }

  lemma TargetStays(list: seq<Activity>, op: Operation, i: nat)
    requires op.CompleteTurn? && SegmentId in op.metadata && i < |list| && Due(list, op, i) && !Moves(list, op, i)
    ensures 0 <= Target(list, op) <= i && InSegment(list[Target(list, op)], op.task, op.metadata[SegmentId])
    ensures forall k :: 0 <= k < Target(list, op) ==> !InSegment(list[k], op.task, op.metadata[SegmentId])
  {
    var t := Target(list, op);
    hide FindSegment;
    assert InSegment(list[i], op.task, op.metadata[SegmentId]);
  }

  /** The record of an activity that moves is replayed on it. */
  lemma MoverIsFirst(raw: seq<Activity>, list: seq<Activity>, op: Operation, i: nat)
    requires op.CompleteTurn? && SegmentId in op.metadata && i < |list| && Due(list, op, i) && Moves(list, op, i)
    requires MovesInOrder(list, op) && MovedState(raw, list, op, i)
    ensures FindSegment(raw, op.task, SegmentOf(list, op, i)) == i && raw[i] == list[i]
  {
    var segment := SegmentOf(list, op, i);
    var f := FindSegment(raw, op.task, segment);
    if i == Target(list, op) { TargetSegment(list, op); }
    hide FindSegment, Target;
    assert raw[i] == list[i] && InSegment(list[i], op.task, segment);
    forall k | 0 <= k < i ensures !InSegment(raw[k], op.task, segment) {
      if Moved(list, op, i, k) { DoneKeepsSegment(list[k], op); }
    }
  }

  lemma TargetSegment(list: seq<Activity>, op: Operation)
    requires op.CompleteTurn? && SegmentId in op.metadata
    ensures Target(list, op) >= 0 ==> InSegment(list[Target(list, op)], op.task, op.metadata[SegmentId])
  {
  }

  /** The record of one that stays is replayed on the first of the target segment, or, when something before
      that has been moved into it, changes nothing. */
  lemma StayerHits(raw: seq<Activity>, list: seq<Activity>, op: Operation, i: nat)
    requires op.CompleteTurn? && SegmentId in op.metadata && i < |list| && Due(list, op, i) && !Moves(list, op, i)
    requires MovedState(raw, list, op, i)
    ensures var f := FindSegment(raw, op.task, SegmentOf(list, op, i));
      f >= 0 && if Clear(list, op, Target(list, op)) then f == Target(list, op) else Done(raw[f], op) == raw[f]
  {
    var x := op.metadata[SegmentId];
    var t := Target(list, op);
    var f := FindSegment(raw, op.task, x);
    TargetStays(list, op, i);
    DoneKeepsSegment(list[t], op);
    hide FindSegment, Target;
    assert InSegment(raw[t], op.task, x);
    if Clear(list, op, t) {
      forall k | 0 <= k < t ensures !InSegment(raw[k], op.task, x) { }
    } else {
      var u :| 0 <= u < t && Due(list, op, u);
      DoneKeepsSegment(list[u], op);
      assert !InSegment(list[u], op.task, x);
      assert Moved(list, op, i, u) && InSegment(raw[u], op.task, x);
      assert f <= u && !InSegment(list[f], op.task, x);
      DoneTwice(list[f], op);
    }
  }

  lemma {:induction false} MovingLogged(raw: seq<Activity>, list: seq<Activity>, op: Operation, i: nat)
    requires op.CompleteTurn? && SegmentId in op.metadata && i <= |list|
    requires MovesInOrder(list, op) && MovedState(raw, list, op, i)
    ensures MovedState(Logged(raw, list, op, i), list, op, |list|)
    decreases |list| - i
  {
    hide Done, Due, FindSegment, MovesInOrder, Target, Moves, InSegment;
    if i < |list| {
      if Due(list, op, i) {
        var f := FindSegment(raw, op.task, SegmentOf(list, op, i));
        if Moves(list, op, i) {
          MoverIsFirst(raw, list, op, i);
        } else {
          StayerHits(raw, list, op, i);
        }
        MovedMore(raw, list, op, i, f);
        MovingLogged(raw[f := Done(raw[f], op)], list, op, i + 1);
      } else {
        MovedSame(raw, list, op, i);
        MovingLogged(raw, list, op, i + 1);
      }
    }
  }

  lemma MovedSame(raw: seq<Activity>, list: seq<Activity>, op: Operation, i: nat)
    requires op.CompleteTurn? && SegmentId in op.metadata && i < |list| && !Due(list, op, i)
    requires MovedState(raw, list, op, i)
    ensures MovedState(raw, list, op, i + 1)
  {
    hide Done, Due, Target, Moves;
    assert StaysBefore(list, op, i + 1) <==> StaysBefore(list, op, i);
  }

  /** What the record for `i` adds. */
  lemma MovedNext(list: seq<Activity>, op: Operation, i: nat, k: nat)
    requires op.CompleteTurn? && SegmentId in op.metadata && i < |list| && Due(list, op, i) && k < |list|
    ensures Moved(list, op, i + 1, k) <==>
      || Moved(list, op, i, k)
      || if Moves(list, op, i) then k == i else k == Target(list, op) && Clear(list, op, k)
  {
    hide Due, Target, Moves, Clear;
    assert StaysBefore(list, op, i + 1) <==> StaysBefore(list, op, i) || !Moves(list, op, i);
  }

  lemma MovedMore(raw: seq<Activity>, list: seq<Activity>, op: Operation, i: nat, f: nat)
    requires op.CompleteTurn? && SegmentId in op.metadata && i < |list| && Due(list, op, i)
    requires MovedState(raw, list, op, i)
    requires f < |list|
    requires Moves(list, op, i) ==> f == i && raw[i] == list[i]
    requires !Moves(list, op, i) ==>
      if Clear(list, op, Target(list, op)) then f == Target(list, op) else Done(raw[f], op) == raw[f]
    ensures MovedState(raw[f := Done(raw[f], op)], list, op, i + 1)
  {
    DoneTwice(list[f], op);
    hide Done, Due, Target, Moves, Clear, Moved;
    var after := raw[f := Done(raw[f], op)];
    forall k | 0 <= k < |list| ensures after[k] == if Moved(list, op, i + 1, k) then Done(list[k], op) else list[k] {
      MovedNext(list, op, i, k);
    }
  }

  /** Of the activities due in the target segment the first is the segment's first with nothing due before
      it, and the others would not change; and that first one is due or would not change. */
  ghost predicate StaysInPlace(list: seq<Activity>, op: Operation)
    requires op.CompleteTurn? && SegmentId in op.metadata
  {
    forall i :: 0 <= i < |list| && Due(list, op, i) && !Moves(list, op, i) ==>
      var t := Target(list, op);
      && ((i == t && Clear(list, op, t)) || NoChange(list, op, i))
      && (0 <= t < |list| && Clear(list, op, t) && !Due(list, op, t) ==> NoChange(list, op, t))
  }

  lemma StaysIff(list: seq<Activity>, op: Operation, logged: seq<Activity>)
    requires op.CompleteTurn? && SegmentId in op.metadata && MovedState(logged, list, op, |list|)
    ensures logged == Wanted(list, op) <==> StaysInPlace(list, op)
  {
    hide Done, Due, Wanted, Target, Moves;
    WantedLength(list, op);
    if StaysInPlace(list, op) {
      forall k | 0 <= k < |list| ensures logged[k] == Wanted(list, op)[k] {
        WantedAt(list, op, k);
        if Due(list, op, k) && !Moves(list, op, k) { assert StaysBefore(list, op, |list|); }
      }
    } else {
      var i :| 0 <= i < |list| && Due(list, op, i) && !Moves(list, op, i) && var t := Target(list, op);
        !(((i == t && Clear(list, op, t)) || NoChange(list, op, i))
          && (0 <= t < |list| && Clear(list, op, t) && !Due(list, op, t) ==> NoChange(list, op, t)));
      var t := Target(list, op);
      TargetStays(list, op, i);
      WantedAt(list, op, i);
      WantedAt(list, op, t);
      assert StaysBefore(list, op, |list|);
    }
  }

  // ---------- moving out of order ----------

  /** `x` is still in its segment only while nothing has been replayed on the later `i`. */
  predicate Blocked(raw: seq<Activity>, list: seq<Activity>, task: nat, x: int, i: int, segment: Value) {
    && |raw| == |list| && 0 <= x < i < |list|
    && (InSegment(raw[x], task, segment) ==> raw[i] == list[i])
  }

  lemma BlockedStays(raw: seq<Activity>, list: seq<Activity>, op: Operation, x: nat, i: nat, segment: Value, f: nat,
      t: Value)
    requires op.CompleteTurn? && SegmentId in op.metadata && Blocked(raw, list, op.task, x, i, segment)
    requires segment != op.metadata[SegmentId] && InSegment(list[i], op.task, segment)
    requires f < |raw| && f == FindSegment(raw, op.task, t)
    ensures Blocked(raw[f := Done(raw[f], op)], list, op.task, x, i, segment)
  {
    DoneKeepsSegment(raw[f], op);
    hide Done;
  }

  lemma {:induction false} BlockedLogged(raw: seq<Activity>, list: seq<Activity>, op: Operation, n: nat, x: nat,
      i: nat, segment: Value)
    requires op.CompleteTurn? && SegmentId in op.metadata && n <= |list| && Blocked(raw, list, op.task, x, i, segment)
    requires segment != op.metadata[SegmentId] && InSegment(list[i], op.task, segment)
    ensures Blocked(Logged(raw, list, op, n), list, op.task, x, i, segment)
    decreases |list| - n
  {
    hide Done, Blocked, FindSegment, InSegment, Due;
    if n < |list| {
      if Due(list, op, n) {
        var t := SegmentOf(list, op, n);
        var f := FindSegment(raw, op.task, t);
        if f < 0 {
          BlockedLogged(raw, list, op, n + 1, x, i, segment);
        } else {
          BlockedStays(raw, list, op, x, i, segment, f, t);
          BlockedLogged(raw[f := Done(raw[f], op)], list, op, n + 1, x, i, segment);
        }
      } else {
        BlockedLogged(raw, list, op, n + 1, x, i, segment);
      }
    }
  }

  lemma OutOfOrderIsLost(list: seq<Activity>, op: Operation)
    requires op.CompleteTurn? && SegmentId in op.metadata && !MovesInOrder(list, op)
    ensures Logged(list, list, op, 0) != Wanted(list, op)
  {
    hide Done, Logged, Wanted, Due;
    var i, x :| 0 <= x < i < |list| && Due(list, op, i) && Moves(list, op, i)
      && InSegment(list[x], op.task, SegmentOf(list, op, i)) && !Due(list, op, x);
    DueInSegment(list, op, i);
    BlockedLogged(list, list, op, 0, x, i, SegmentOf(list, op, i));
    WantedAt(list, op, i);
    WantedAt(list, op, x);
    DoneKeepsSegment(list[i], op);
  }

  lemma DueInSegment(list: seq<Activity>, op: Operation, i: nat)
    requires op.CompleteTurn? && i < |list| && Due(list, op, i)
    ensures InSegment(list[i], op.task, SegmentOf(list, op, i))
  {
  }

  // ---------- when the log records what was done ----------

  /** The exact condition for a completed turn to be recorded as it was done. */
  ghost predicate Recorded(list: seq<Activity>, op: Operation)
    requires op.CompleteTurn?
  {
    if SegmentId in op.metadata then MovesInOrder(list, op) && StaysInPlace(list, op) else RecordedInPlace(list, op)
  }

  lemma LoggedIff(list: seq<Activity>, op: Operation)
    requires op.CompleteTurn?
    ensures Logged(list, list, op, 0) == Wanted(list, op) <==> Recorded(list, op)
  {
    hide Logged, Wanted, Done, Due, MovesInOrder, StaysInPlace, RecordedInPlace, Target, FirstOf;
    if SegmentId !in op.metadata {
      KeepingLogged(list, list, op, 0);
      InPlaceIff(list, op, Logged(list, list, op, 0));
    } else if MovesInOrder(list, op) {
      MovingLogged(list, list, op, 0);
      StaysIff(list, op, Logged(list, list, op, 0));
    } else {
      OutOfOrderIsLost(list, op);
    }
  }

  /** The log records what a turn's completion did to the list exactly under that condition. */
  lemma TurnRecordedIff(cls: Classes, log: seq<Record>, op: Operation)
    requires op.CompleteTurn? && Sound(cls, log)
    ensures Sound(cls, LogStep(cls, log, op))
    ensures Raw(cls, LogStep(cls, log, op)) == ListStep(cls, Raw(cls, log), op) <==> Recorded(Raw(cls, log), op)
  {
    hide Replay, Sequenced, LogStep, ListStep, Recorded, Raw, Logged, Wanted;
    CompleteTurnReplays(cls, log, op);
    LoggedIff(Raw(cls, log), op);
  }

  predicate SameSegment(a: Activity, b: Activity) {
    && a.assistant && b.assistant && a.task == b.task
    && SegmentId in a.metadata && SegmentId in b.metadata && a.metadata[SegmentId] == b.metadata[SegmentId]
  }

  /** Segment identifiers are unique within a task. */
  predicate UniqueSegments(list: seq<Activity>) {
    forall i, j :: 0 <= i < j < |list| ==> !SameSegment(list[i], list[j])
  }

  /** Unique identifiers before and after suffice. */
  lemma UniqueIsRecorded(list: seq<Activity>, op: Operation)
    requires op.CompleteTurn? && UniqueSegments(list) && UniqueSegments(Wanted(list, op))
    ensures Recorded(list, op)
  {
    WantedLength(list, op);
    if SegmentId !in op.metadata {
      hide Wanted;
    } else {
      hide Wanted, Done;
      forall i | 0 <= i < |list| && Due(list, op, i) && !Moves(list, op, i)
        ensures i == Target(list, op) && Clear(list, op, i)
      {
        TargetStays(list, op, i);
        WantedAt(list, op, i);
        DoneKeepsSegment(list[i], op);
        forall x | 0 <= x < i ensures !Due(list, op, x) {
          WantedAt(list, op, x);
          DoneKeepsSegment(list[x], op);
        }
      }
    }
  }

  // ---------- the condition is about identifiers and metadata alone ----------

  lemma DueIgnoresText(a: seq<Activity>, b: seq<Activity>, op: Operation, i: nat)
    requires op.CompleteTurn? && SameShape(a, b) && i < |a|
    ensures Due(a, op, i) <==> Due(b, op, i)
    ensures NoChange(a, op, i) <==> NoChange(b, op, i)
    ensures forall segment :: InSegment(a[i], op.task, segment) <==> InSegment(b[i], op.task, segment)
  {
    assert SameButText(a[i], b[i]);
    assert Done(a[i], op) == a[i] <==> Done(a[i], op).metadata == a[i].metadata;
    assert Done(b[i], op) == b[i] <==> Done(b[i], op).metadata == b[i].metadata;
  }

  lemma SegmentOfIgnoresText(a: seq<Activity>, b: seq<Activity>, op: Operation, i: nat)
    requires op.CompleteTurn? && SameShape(a, b) && i < |a| && Due(a, op, i) && Due(b, op, i)
    ensures SegmentOf(a, op, i) == SegmentOf(b, op, i) && FirstOf(a, op, i) == FirstOf(b, op, i)
  {
    assert SameButText(a[i], b[i]);
    FindIgnoresText(a, b, op.task, SegmentOf(a, op, i));
  }

  lemma {:induction false} RecordedIgnoresText(a: seq<Activity>, b: seq<Activity>, op: Operation)
    requires op.CompleteTurn? && SameShape(a, b) && Recorded(a, op)
    ensures Recorded(b, op)
  {
    hide Due, NoChange, InSegment, SegmentOf, FirstOf, Target, SameShape;
    ShapeLength(a, b);
    forall i | 0 <= i < |a| ensures Due(a, op, i) <==> Due(b, op, i) { DueIgnoresText(a, b, op, i); }
    forall i | 0 <= i < |a| && Due(a, op, i)
      ensures SegmentOf(a, op, i) == SegmentOf(b, op, i) && FirstOf(a, op, i) == FirstOf(b, op, i)
    {
      SegmentOfIgnoresText(a, b, op, i);
    }
    forall i | 0 <= i < |a| ensures NoChange(a, op, i) <==> NoChange(b, op, i) { DueIgnoresText(a, b, op, i); }
    if SegmentId in op.metadata {
      TargetIgnoresText(a, b, op);
      forall i, segment | 0 <= i < |a|
        ensures InSegment(a[i], op.task, segment) <==> InSegment(b[i], op.task, segment)
      {
        DueIgnoresText(a, b, op, i);
      }
    }
  }

  lemma TargetIgnoresText(a: seq<Activity>, b: seq<Activity>, op: Operation)
    requires op.CompleteTurn? && SegmentId in op.metadata && SameShape(a, b)
    ensures Target(a, op) == Target(b, op)
  {
    FindIgnoresText(a, b, op.task, op.metadata[SegmentId]);
  }

  lemma ShapeLength(a: seq<Activity>, b: seq<Activity>)
    requires SameShape(a, b)
    ensures |a| == |b|
  {
  }

  /** Completions leave the texts alone, so lists that differ after one differ in shape. */
  lemma {:induction false} LoggedKeepsTexts(raw: seq<Activity>, list: seq<Activity>, op: Operation, i: nat)
    requires op.CompleteTurn? && i <= |list|
    ensures forall k :: 0 <= k < |raw| ==> Logged(raw, list, op, i)[k].text == raw[k].text
    decreases |list| - i
  {
    hide Due, FindSegment;
    if i < |list| {
      if Due(list, op, i) {
        var f := FindSegment(raw, op.task, SegmentOf(list, op, i));
        LoggedKeepsTexts(if f < 0 then raw else raw[f := Done(raw[f], op)], list, op, i + 1);
      } else {
        LoggedKeepsTexts(raw, list, op, i + 1);
      }
    }
  }

  lemma LostInShape(list: seq<Activity>, op: Operation)
    requires op.CompleteTurn? && !Recorded(list, op)
    ensures !SameShape(Logged(list, list, op, 0), Wanted(list, op))
  {
    hide Recorded, Logged, Wanted;
    LoggedIff(list, op);
    LoggedKeepsTexts(list, list, op, 0);
    WantedLength(list, op);
    var logged, wanted := Logged(list, list, op, 0), Wanted(list, op);
    var k :| 0 <= k < |list| && logged[k] != wanted[k];
    WantedAt(list, op, k);
    DoneKeepsSegment(list[k], op);
    assert logged[k].text == wanted[k].text;
  }
}
