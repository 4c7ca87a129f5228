/** What each operation does to the list of activities, in terms of tasks, turns, segments and texts
    (src/main/persistence/activity-log-store.ts). */
module ActivityLogMeanings {
  import opened Options
  import opened StreamText
  import opened ActivityLog

  // ---------- adding and continuing ----------

  /** An activity is added at the end, an assistant's with its text collapsed. */
  lemma AddMeans(cls: Classes, list: seq<Activity>, a: Activity)
    ensures ListStep(cls, list, Add(a)) == list + [if a.assistant then a.(text := Collapse(cls, a.text)) else a]
  {
    NormalizeIsCollapse(cls, a.text);
    hide Normalize, Collapse;
  }

  /** What a delta may continue: an assistant's activity of the task, in the delta's segment if it has one, and
      otherwise of its turn. */
  predicate Target(a: Activity, task: nat, d: Delta) {
    && a.task == task && a.assistant
    && if SegmentId in d.metadata then SegmentId in a.metadata && a.metadata[SegmentId] == d.metadata[SegmentId]
       else if TurnId in d.metadata then TurnId in a.metadata && a.metadata[TurnId] == d.metadata[TurnId]
       else TurnId !in a.metadata
  }

  /** A delta continues the last activity it may, or starts one at the end when there is none. */
  lemma FoundIsTarget(list: seq<Activity>, task: nat, d: Delta)
    ensures var i := FindFor(list, task, d);
      && (i >= 0 <==> exists k :: 0 <= k < |list| && Target(list[k], task, d))
      && (i >= 0 ==> Target(list[i], task, d) && forall k :: i < k < |list| ==> !Target(list[k], task, d))
  {
    forall k | 0 <= k < |list|
      ensures Target(list[k], task, d) ==
        Continues(list[k], task, Lookup(d.metadata, TurnId), Lookup(d.metadata, SegmentId))
    {
    }
    hide FindAssistant;
  }

  // ---------- completing ----------

  /** An assistant's activity in a segment of a task. */
  predicate HasSegment(a: Activity, task: nat, segment: Value) {
    a.task == task && a.assistant && SegmentId in a.metadata && a.metadata[SegmentId] == segment
  }

  /** The activity with the metadata laid over its own, and the phase over both. */
  predicate CompletedWith(a: Activity, b: Activity, phase: Phase, metadata: Metadata) {
    && b.id == a.id && b.task == a.task && b.assistant == a.assistant && b.text == a.text && b.createdAt == a.createdAt
    && b.metadata.Keys == a.metadata.Keys + metadata.Keys + {AssistantPhase}
    && forall k :: k in b.metadata ==>
         b.metadata[k] == if k == AssistantPhase then phase else if k in metadata then metadata[k] else a.metadata[k]
  }

  lemma CompletedOver(a: Activity, phase: Phase, metadata: Metadata)
    ensures CompletedWith(a, Completed(a, phase, metadata), phase, metadata)
  {
  }

  /** The activity that is the first of its segment. */
  ghost predicate FirstOfSegment(list: seq<Activity>, task: nat, segment: Value, i: int)
    requires 0 <= i < |list|
  {
    HasSegment(list[i], task, segment) && forall k :: 0 <= k < i ==> !HasSegment(list[k], task, segment)
  }

  /** Completing a segment completes its first activity and no other. */
  lemma CompleteMeans(cls: Classes, list: seq<Activity>, op: Operation)
    requires op.Complete?
    ensures var after := ListStep(cls, list, op);
      && |after| == |list|
      && forall i :: 0 <= i < |list| ==>
           if FirstOfSegment(list, op.task, op.segment, i)
           then CompletedWith(list[i], after[i], op.phase, op.metadata) else after[i] == list[i]
  {
    forall k | 0 <= k < |list|
      ensures HasSegment(list[k], op.task, op.segment) == InSegment(list[k], op.task, op.segment) {}
    var i := FindSegment(list, op.task, op.segment);
    if i >= 0 { CompletedOver(list[i], op.phase, op.metadata); }
    hide FindSegment, HasSegment, InSegment, CompletedWith, Completed;
  }

  /** An activity of the turn that is in progress, in a named segment. */
  predicate InProgress(a: Activity, task: nat, turn: Value) {
    && a.task == task && a.assistant && TurnId in a.metadata && a.metadata[TurnId] == turn
    && AssistantPhase in a.metadata && a.metadata[AssistantPhase] == Progress
    && SegmentId in a.metadata && IsName(a.metadata[SegmentId])
  }

  lemma TurnCompletedOver(a: Activity, task: nat, turn: Value, phase: Phase, metadata: Metadata)
    ensures if InProgress(a, task, turn)
      then CompletedWith(a, TurnCompleted(a, task, turn, phase, metadata), phase, metadata)
      else TurnCompleted(a, task, turn, phase, metadata) == a
  {
    CompletedOver(a, phase, metadata);
    hide CompletedWith, Completed;
  }

  /** Completing a turn completes every activity of the turn that is in progress and in a named segment, and no
      other. */
  lemma CompleteTurnMeans(cls: Classes, list: seq<Activity>, op: Operation)
    requires op.CompleteTurn?
    ensures var after := ListStep(cls, list, op);
      && |after| == |list|
      && forall i :: 0 <= i < |list| ==>
           if InProgress(list[i], op.task, op.turn)
           then CompletedWith(list[i], after[i], op.phase, op.metadata) else after[i] == list[i]
  {
    hide TurnCompletedUpTo, TurnCompleted, InProgress, CompletedWith;
    forall i | 0 <= i < |list|
      ensures if InProgress(list[i], op.task, op.turn)
        then CompletedWith(list[i], ListStep(cls, list, op)[i], op.phase, op.metadata)
        else ListStep(cls, list, op)[i] == list[i]
    {
      TurnCompletedOver(list[i], op.task, op.turn, op.phase, op.metadata);
    }
  }

  // ---------- replacing ----------

  /** When the first activity of an identifier was created, or now when there is none. */
  lemma {:induction false} CreatedAtIs(list: seq<Activity>, id: Id, now: int, i: nat)
    requires i <= |list| && (i < |list| ==> list[i].id == id) && forall k :: 0 <= k < i ==> list[k].id != id
    ensures CreatedAt(list, id, now) == if i < |list| then list[i].createdAt else now
  {
    if i > 0 {
      var rest := list[1..];
      forall k | 0 <= k < i - 1 ensures rest[k].id != id { assert rest[k] == list[k + 1]; }
      CreatedAtIs(rest, id, now, i - 1);
    }
  }

  /** Back in progress, when it is an assistant's of the turn. */
  function Reopened(a: Activity, task: nat, turn: Value): Activity {
    if a.task == task && a.assistant && TurnId in a.metadata && a.metadata[TurnId] == turn
    then a.(metadata := a.metadata[AssistantPhase := Progress]) else a
  }

  lemma DemotedIsReopened(a: Activity, task: nat, turn: Value)
    ensures Demoted(a, task, turn) == Reopened(a, task, turn)
  {
  }

  function Response(text: Text, op: Operation, createdAt: int): Activity
    requires op.Replace?
  {
    Activity(Replacement(op.task, op.segment), op.task, true, text,
      op.metadata + map[TurnId := op.turn, SegmentId := op.segment, AssistantPhase := Final,
                        AssistantReplacement := True],
      createdAt)
  }

  lemma Overlaid(m: Metadata, turn: Value, segment: Value)
    ensures m[TurnId := turn][SegmentId := segment][AssistantPhase := Final][AssistantReplacement := True]
      == m + map[TurnId := turn, SegmentId := segment, AssistantPhase := Final, AssistantReplacement := True]
  {
  }

  lemma ReplacedParts(cls: Classes, list: seq<Activity>, op: Operation)
    requires op.Replace?
    ensures ListStep(cls, list, op) ==
      var id := Replacement(op.task, op.segment);
      DemotedAll(Without(list, id), op.task, op.turn)
        + [Response(Collapse(cls, op.text), op, CreatedAt(list, id, op.now))]
  {
    NormalizeIsCollapse(cls, op.text);
    Overlaid(op.metadata, op.turn, op.segment);
    hide Normalize, Collapse, CreatedAt, Without, DemotedAll;
  }

  /** The replacement: the collapsed text as the final response of the turn and segment, with the time of the first
      activity it replaces; before it every other activity, in order, those of the turn back in progress. */
  lemma ReplaceMeans(cls: Classes, list: seq<Activity>, op: Operation)
    requires op.Replace?
    ensures var id := Replacement(op.task, op.segment);
      var after, others := ListStep(cls, list, op), Without(list, id);
      && |after| == |others| + 1
      && (forall i :: 0 <= i < |others| ==> after[i] == Reopened(others[i], op.task, op.turn))
      && after[|others|] == Response(Collapse(cls, op.text), op, CreatedAt(list, id, op.now))
  {
    ReplacedParts(cls, list, op);
    hide ListStep, Collapse, CreatedAt, Without, DemotedAll, Demoted, Reopened, Response;
    var others := Without(list, Replacement(op.task, op.segment));
    forall i | 0 <= i < |others| ensures Demoted(others[i], op.task, op.turn) == Reopened(others[i], op.task, op.turn) {
      DemotedIsReopened(others[i], op.task, op.turn);
    }
  }

  // ---------- what a batch of deltas leaves ----------

  /** The text shown after the deltas, merged one by one. */
  ghost function ShownText(cls: Classes, before: Text, deltas: seq<Delta>): Text {
    if deltas == [] then before
    else Merge(cls, ShownText(cls, before, deltas[..|deltas| - 1]), deltas[|deltas| - 1].text)
  }

  /** The value of the last delta that has one under the key, or the one before. */
  function LastGiven(before: Option<Value>, deltas: seq<Delta>, key: Key): Option<Value> {
    if deltas == [] then before
    else if key in deltas[|deltas| - 1].metadata then Some(deltas[|deltas| - 1].metadata[key])
    else LastGiven(before, deltas[..|deltas| - 1], key)
  }

  /** The deltas continue the same segment, or name none and continue the same turn. */
  predicate OneTarget(deltas: seq<Delta>) {
    forall i, j :: 0 <= i < |deltas| && 0 <= j < |deltas| ==>
      && Lookup(deltas[i].metadata, SegmentId) == Lookup(deltas[j].metadata, SegmentId)
      && Lookup(deltas[i].metadata, TurnId) == Lookup(deltas[j].metadata, TurnId)
  }

  lemma {:induction false} StreamedLast(cls: Classes, list: seq<Activity>, task: nat, deltas: seq<Delta>)
    requires deltas != []
    ensures StreamedAll(cls, list, task, deltas) ==
      Streamed(cls, StreamedAll(cls, list, task, deltas[..|deltas| - 1]), task, deltas[|deltas| - 1])
    decreases |deltas|
  {
    hide Streamed;
    if |deltas| > 1 {
      StreamedLast(cls, Streamed(cls, list, task, deltas[0]), task, deltas[1..]);
      assert deltas[1..][..|deltas| - 2] == deltas[..|deltas| - 1][1..];
    }
  }

  /** `after` is `list` with the activity at `at`, which may be new at the end, as the deltas leave it. */
  ghost predicate BatchLeft(cls: Classes, list: seq<Activity>, task: nat, deltas: seq<Delta>, at: nat,
      after: seq<Activity>)
    requires deltas != [] && at <= |list|
  {
    && |after| == (if at == |list| then |list| + 1 else |list|)
    && (forall k :: 0 <= k < |list| && k != at ==> after[k] == list[k])
    && after[at].task == task && after[at].assistant
    && after[at].text == ShownText(cls, if at < |list| then list[at].text else [], deltas)
    && (forall key :: Lookup(after[at].metadata, key)
          == LastGiven(if at < |list| then Lookup(list[at].metadata, key) else None, deltas, key))
    && after[at].id == (if at < |list| then list[at].id else Streaming(deltas[0].uuid))
    && after[at].createdAt == (if at < |list| then list[at].createdAt else deltas[0].now)
  }

  lemma OneDeltaLeaves(cls: Classes, list: seq<Activity>, task: nat, d: Delta)
    ensures var i := FindFor(list, task, d);
      BatchLeft(cls, list, task, [d], if i < 0 then |list| else i, Streamed(cls, list, task, d))
  {
    hide Merge, FindAssistant;
    var i := FindFor(list, task, d);
    var at := if i < 0 then |list| else i;
    assert [d][..0] == [];
    var text := if i < 0 then [] else list[i].text;
    assert ShownText(cls, text, []) == text;
    assert ShownText(cls, text, [d]) == Merge(cls, text, d.text);
    forall key ensures Lookup(Streamed(cls, list, task, d)[at].metadata, key)
      == LastGiven(if i < 0 then None else Lookup(list[i].metadata, key), [d], key)
    {
      assert LastGiven(if i < 0 then None else Lookup(list[i].metadata, key), [], key)
        == if i < 0 then None else Lookup(list[i].metadata, key);
    }
  }

  /** The next delta finds the same activity again. */
  lemma FoundAgain(cls: Classes, list: seq<Activity>, task: nat, deltas: seq<Delta>, d: Delta, after: seq<Activity>)
    requires deltas != [] && OneTarget(deltas + [d])
    requires var i := FindFor(list, task, deltas[0]);
      BatchLeft(cls, list, task, deltas, if i < 0 then |list| else i, after)
    ensures FindFor(after, task, d) == var i := FindFor(list, task, deltas[0]); if i < 0 then |list| else i
  {
    var last := deltas[|deltas| - 1];
    assert (deltas + [d])[|deltas|] == d && (deltas + [d])[|deltas| - 1] == last && (deltas + [d])[0] == deltas[0];
    var i := FindFor(list, task, deltas[0]);
    var at := if i < 0 then |list| else i;
    var key := if SegmentId in d.metadata then SegmentId else TurnId;
    hide FindAssistant, ShownText;
    var before := if i < 0 then None else Lookup(list[i].metadata, key);
    forall k | 0 <= k < |deltas| ensures Lookup(deltas[k].metadata, key) == Lookup(d.metadata, key) {
      assert (deltas + [d])[k] == deltas[k];
    }
    NotGiven(before, deltas, d, key);
    assert Lookup(after[at].metadata, key) == LastGiven(before, deltas, key);
    assert Continues(after[at], task, Lookup(d.metadata, TurnId), Lookup(d.metadata, SegmentId));
  }

  /** A key that all deltas agree on. */
  lemma {:induction false} NotGiven(before: Option<Value>, deltas: seq<Delta>, d: Delta, key: Key)
    requires deltas != []
    requires forall i :: 0 <= i < |deltas| ==> Lookup(deltas[i].metadata, key) == Lookup(d.metadata, key)
    ensures key in d.metadata ==> LastGiven(before, deltas, key) == Lookup(d.metadata, key)
    ensures key !in d.metadata ==> LastGiven(before, deltas, key) == before
  {
    var n := |deltas| - 1;
    assert Lookup(deltas[n].metadata, key) == Lookup(d.metadata, key);
    if n > 0 { NotGiven(before, deltas[..n], d, key); }
  }

  lemma OneMoreLeft(cls: Classes, list: seq<Activity>, task: nat, deltas: seq<Delta>, d: Delta, at: nat,
      middle: seq<Activity>)
    requires deltas != [] && at <= |list| && BatchLeft(cls, list, task, deltas, at, middle)
    requires FindFor(middle, task, d) == at
    ensures BatchLeft(cls, list, task, deltas + [d], at, Streamed(cls, middle, task, d))
  {
    hide FindAssistant, Merge;
    var more := deltas + [d];
    assert more[..|more| - 1] == deltas && more[|more| - 1] == d && more[0] == deltas[0];
    var after := Streamed(cls, middle, task, d);
    var text := if at < |list| then list[at].text else [];
    assert ShownText(cls, text, more) == Merge(cls, ShownText(cls, text, deltas), d.text);
    forall key ensures Lookup(after[at].metadata, key)
      == LastGiven(if at < |list| then Lookup(list[at].metadata, key) else None, more, key)
    {
    }
  }

  /** A batch for one activity merges the fragments in order and leaves under each key the value of the last delta that
      has one; it continues the activity found first or starts one at the end, and touches no other. */
  lemma {:induction false} BatchLeaves(cls: Classes, list: seq<Activity>, task: nat, deltas: seq<Delta>)
    requires deltas != [] && OneTarget(deltas)
    ensures var i := FindFor(list, task, deltas[0]);
      BatchLeft(cls, list, task, deltas, if i < 0 then |list| else i, StreamedAll(cls, list, task, deltas))
    decreases |deltas|
  {
    hide Streamed, BatchLeft, FindAssistant;
    StreamedLast(cls, list, task, deltas);
    if |deltas| == 1 {
      assert deltas == [deltas[0]];
      assert StreamedAll(cls, list, task, deltas[..0]) == list;
      OneDeltaLeaves(cls, list, task, deltas[0]);
    } else {
      var n := |deltas| - 1;
      assert deltas == deltas[..n] + [deltas[n]];
      var middle := StreamedAll(cls, list, task, deltas[..n]);
      BatchLeaves(cls, list, task, deltas[..n]);
      FoundAgain(cls, list, task, deltas[..n], deltas[n], middle);
      var i := FindFor(list, task, deltas[0]);
      OneMoreLeft(cls, list, task, deltas[..n], deltas[n], if i < 0 then |list| else i, middle);
    }
  }
}
