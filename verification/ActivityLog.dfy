/** The activity log: records, replay, and the plain list it stands for
    (src/main/persistence/activity-log-store.ts). */
module ActivityLog {
  import opened Options
  import opened StreamText

  // ---------- activities and records ----------

  datatype Key = TurnId | SegmentId | AssistantPhase | AssistantReplacement | OtherKey(name: nat)

  /** A metadata value: a primitive, or an array. `EmptyName` is the empty string, the first three are other
      strings. */
  datatype Value = Progress | Final | Name(id: nat) | EmptyName | True | OtherValue(id: nat) | ArrayValue(id: nat)

  /** Whether a value of the log is the caller's: an array is compared by reference, and the log's are its own. */
  predicate Identical(logged: Value, given: Value) { logged == given && !given.ArrayValue? }

  /** The two phases a segment is completed with. */
  type Phase = v: Value | v.Progress? || v.Final? witness Progress

  type Metadata = map<Key, Value>

  /** Identifiers made by the store are distinct from each other and from the callers'. */
  datatype Id = Given(id: nat) | Streaming(uuid: nat) | Replacement(task: nat, segment: Value)

  datatype Activity = Activity(id: Id, task: nat, assistant: bool, text: Text, metadata: Metadata, createdAt: int)

  datatype Record =
    | Append(sequence: int, activity: Activity)
    | AssistantDelta(sequence: int, task: nat, turn: Option<Value>, text: Text, metadata: Metadata)
    | SegmentCompleted(sequence: int, task: nat, segment: Value, phase: Phase, metadata: Metadata)
    | Snapshot(sequence: int, activities: seq<Activity>)

  /** A string that is not empty. */
  predicate IsName(v: Value) { v.Progress? || v.Final? || v.Name? }

  /** Whether the line of a record is accepted when it is read: the segment of a completion must be a name,
      which nothing checks when the record is written. */
  predicate Readable(r: Record) { r.SegmentCompleted? ==> IsName(r.segment) }

  function Lookup(m: Metadata, k: Key): Option<Value> { if k in m then Some(m[k]) else None }

  // ---------- finding an activity ----------

  predicate Continues(a: Activity, task: nat, turn: Option<Value>, segment: Option<Value>) {
    && a.task == task && a.assistant
    && if segment.Some? then Lookup(a.metadata, SegmentId) == segment else Lookup(a.metadata, TurnId) == turn
  }

  /** The last activity a delta continues, or -1. */
  function FindAssistant(list: seq<Activity>, task: nat, turn: Option<Value>, segment: Option<Value>): (i: int)
    ensures -1 <= i < |list|
    ensures i >= 0 ==> Continues(list[i], task, turn, segment)
    ensures forall k :: i < k < |list| ==> !Continues(list[k], task, turn, segment)
  {
    if list == [] then -1
    else if Continues(list[|list| - 1], task, turn, segment) then |list| - 1
    else FindAssistant(list[..|list| - 1], task, turn, segment)
  }

  predicate InSegment(a: Activity, task: nat, segment: Value) {
    a.task == task && a.assistant && Lookup(a.metadata, SegmentId) == Some(segment)
  }

  /** The first activity of a segment at or after `from`, or -1. */
  function FindSegmentFrom(list: seq<Activity>, task: nat, segment: Value, from: nat): (i: int)
    requires from <= |list|
    ensures i == -1 || from <= i < |list|
    ensures i >= 0 ==> InSegment(list[i], task, segment)
    ensures forall k :: from <= k < (if i < 0 then |list| else i) ==> !InSegment(list[k], task, segment)
    decreases |list| - from
  {
    if from == |list| then -1
    else if InSegment(list[from], task, segment) then from
    else FindSegmentFrom(list, task, segment, from + 1)
  }

  function FindSegment(list: seq<Activity>, task: nat, segment: Value): (i: int)
    ensures -1 <= i < |list|
    ensures i >= 0 ==> InSegment(list[i], task, segment)
    ensures forall k :: 0 <= k < (if i < 0 then |list| else i) ==> !InSegment(list[k], task, segment)
  {
    FindSegmentFrom(list, task, segment, 0)
  }

  // ---------- replay ----------

  datatype ReplayError = RecordInvalid | SequenceNotIncreasing | DeltaWithoutActivity | CompletionWithoutActivity

  datatype Replayed = Replayed(activities: seq<Activity>, sequence: int)

  ghost function Continued(cls: Classes, a: Activity, text: Text, metadata: Metadata): Activity {
    a.(text := Merge(cls, a.text, text), metadata := a.metadata + metadata)
  }

  function Completed(a: Activity, phase: Phase, metadata: Metadata): Activity {
    a.(metadata := a.metadata + metadata + map[AssistantPhase := phase])
  }

  ghost function Apply(cls: Classes, list: seq<Activity>, r: Record): Result<seq<Activity>, ReplayError> {
    match r
    case Snapshot(_, activities) => Ok(activities)
    case Append(_, a) => Ok(list + [a])
    case AssistantDelta(_, task, turn, text, metadata) =>
      var i := FindAssistant(list, task, turn, Lookup(metadata, SegmentId));
      if i < 0 then Err(DeltaWithoutActivity) else Ok(list[i := Continued(cls, list[i], text, metadata)])
    case SegmentCompleted(_, task, segment, phase, metadata) =>
      var i := FindSegment(list, task, segment);
      if i < 0 then Err(CompletionWithoutActivity) else Ok(list[i := Completed(list[i], phase, metadata)])
  }

  ghost function ReplayStep(cls: Classes, s: Replayed, r: Record): Result<Replayed, ReplayError> {
    if !Readable(r) then Err(RecordInvalid)
    else if r.sequence <= s.sequence then Err(SequenceNotIncreasing)
    else match Apply(cls, s.activities, r)
         case Err(e) => Err(e)
         case Ok(list) => Ok(Replayed(list, r.sequence))
  }

  ghost function Replay(cls: Classes, log: seq<Record>): Result<Replayed, ReplayError> {
    if log == [] then Ok(Replayed([], -1))
    else match Replay(cls, log[..|log| - 1])
         case Err(e) => Err(e)
         case Ok(s) => ReplayStep(cls, s, log[|log| - 1])
  }

  /** The file as a load leaves it: a last record that is not accepted is taken for a torn one and dropped. */
  function Repaired(log: seq<Record>): seq<Record> {
    if log != [] && !Readable(log[|log| - 1]) then log[..|log| - 1] else log
  }

  lemma ReplayedIsIntact(cls: Classes, log: seq<Record>)
    requires Replay(cls, log).Ok?
    ensures Repaired(log) == log
  {
  }

  lemma {:induction false} ErrorStays(cls: Classes, log: seq<Record>, n: nat)
    requires n <= |log| && Replay(cls, log[..n]).Err?
    ensures Replay(cls, log) == Replay(cls, log[..n])
    decreases |log|
  {
    hide ReplayStep;
    if n == |log| {
      assert log[..n] == log;
    } else {
      assert log[..|log| - 1][..n] == log[..n];
      ErrorStays(cls, log[..|log| - 1], n);
    }
  }

  // ---------- what a reader sees ----------

  ghost function NormalizeActivity(cls: Classes, a: Activity): Activity {
    if a.assistant then a.(text := Normalize(cls, a.text)) else a
  }

  ghost function NormalizeAll(cls: Classes, list: seq<Activity>): (r: seq<Activity>)
    ensures |r| == |list|
    ensures forall i :: 0 <= i < |list| ==> r[i] == NormalizeActivity(cls, list[i])
  {
    if list == [] then []
    else NormalizeAll(cls, list[..|list| - 1]) + [NormalizeActivity(cls, list[|list| - 1])]
  }

  /** The activities `read` returns for a log that replays. */
  ghost function Read(cls: Classes, log: seq<Record>): seq<Activity>
    requires Replay(cls, log).Ok?
  {
    NormalizeAll(cls, Replay(cls, log).value.activities)
  }

  ghost predicate Normalized(cls: Classes, list: seq<Activity>) {
    forall i :: 0 <= i < |list| ==> NormalizeActivity(cls, list[i]) == list[i]
  }

  lemma NormalizeActivityTwice(cls: Classes, a: Activity)
    ensures NormalizeActivity(cls, NormalizeActivity(cls, a)) == NormalizeActivity(cls, a)
  {
  }

  lemma NormalizedIsFixed(cls: Classes, list: seq<Activity>)
    ensures Normalized(cls, NormalizeAll(cls, list))
    ensures Normalized(cls, list) <==> NormalizeAll(cls, list) == list
  {
    hide NormalizeActivity;
    var all := NormalizeAll(cls, list);
    forall i | 0 <= i < |list| ensures NormalizeActivity(cls, all[i]) == all[i] {
      NormalizeActivityTwice(cls, list[i]);
    }
  }

  lemma ReadIsNormalized(cls: Classes, log: seq<Record>)
    requires Replay(cls, log).Ok?
    ensures Normalized(cls, Read(cls, log))
  {
    hide Replay, NormalizeAll, Normalized;
    NormalizedIsFixed(cls, Raw(cls, log));
  }

  // ---------- everything but the texts ----------

  predicate SameButText(a: Activity, b: Activity) { a.(text := []) == b.(text := []) }

  predicate SameShape(a: seq<Activity>, b: seq<Activity>) {
    |a| == |b| && forall i :: 0 <= i < |a| ==> SameButText(a[i], b[i])
  }

  lemma NormalizeKeepsShape(cls: Classes, list: seq<Activity>)
    ensures SameShape(NormalizeAll(cls, list), list)
  {
  }

  lemma FindIgnoresText(a: seq<Activity>, b: seq<Activity>, task: nat, segment: Value)
    requires SameShape(a, b)
    ensures FindSegment(a, task, segment) == FindSegment(b, task, segment)
  {
    var i, j := FindSegment(a, task, segment), FindSegment(b, task, segment);
    hide FindSegment;
    assert i >= 0 ==> SameButText(a[i], b[i]);
    assert j >= 0 ==> SameButText(a[j], b[j]);
  }

  // ---------- the operations on a plain list ----------

  /** One fragment of an assistant response, with the identifier and time a new activity would get. */
  datatype Delta = Delta(text: Text, metadata: Metadata, uuid: nat, now: int)

  datatype Operation =
    | Add(activity: Activity)
    | Stream(task: nat, deltas: seq<Delta>)
    | Complete(task: nat, segment: Value, phase: Phase, metadata: Metadata)
    | CompleteTurn(task: nat, turn: Value, phase: Phase, metadata: Metadata)
    | Replace(task: nat, turn: Value, segment: Value, text: Text, metadata: Metadata, now: int)
    | Compact

  ghost function Started(cls: Classes, task: nat, d: Delta): Activity {
    Activity(Streaming(d.uuid), task, true, Normalize(cls, d.text), d.metadata, d.now)
  }

  function FindFor(list: seq<Activity>, task: nat, d: Delta): int {
    FindAssistant(list, task, Lookup(d.metadata, TurnId), Lookup(d.metadata, SegmentId))
  }

  ghost function Streamed(cls: Classes, list: seq<Activity>, task: nat, d: Delta): seq<Activity> {
    var i := FindFor(list, task, d);
    if i < 0 then list + [Started(cls, task, d)] else list[i := Continued(cls, list[i], d.text, d.metadata)]
  }

  ghost function StreamedAll(cls: Classes, list: seq<Activity>, task: nat, deltas: seq<Delta>): seq<Activity>
    decreases |deltas|
  {
    if deltas == [] then list
    else StreamedAll(cls, Streamed(cls, list, task, deltas[0]), task, deltas[1..])
  }

  predicate OfTurn(a: Activity, task: nat, turn: Value) {
    a.task == task && a.assistant && Lookup(a.metadata, TurnId) == Some(turn)
  }

  /** A segment of the turn that is still in progress. */
  predicate Unfinished(a: Activity, task: nat, turn: Value) {
    && OfTurn(a, task, turn) && Lookup(a.metadata, AssistantPhase) == Some(Progress)
    && SegmentId in a.metadata && IsName(a.metadata[SegmentId])
  }

  function TurnCompleted(a: Activity, task: nat, turn: Value, phase: Phase, metadata: Metadata): Activity {
    if Unfinished(a, task, turn) then Completed(a, phase, metadata) else a
  }

  /** The list with the first `n` activities completed. */
  function TurnCompletedUpTo(list: seq<Activity>, task: nat, turn: Value, phase: Phase, metadata: Metadata,
      n: nat): (r: seq<Activity>)
    requires n <= |list|
    ensures |r| == |list|
    ensures forall k :: 0 <= k < n ==> r[k] == TurnCompleted(list[k], task, turn, phase, metadata)
    ensures forall k :: n <= k < |list| ==> r[k] == list[k]
  {
    if n == 0 then list
    else
      var before := TurnCompletedUpTo(list, task, turn, phase, metadata, n - 1);
      before[n - 1 := TurnCompleted(list[n - 1], task, turn, phase, metadata)]
  }

  function Without(list: seq<Activity>, id: Id): (r: seq<Activity>)
    ensures forall i :: 0 <= i < |r| ==> r[i].id != id
  {
    if list == [] then []
    else Without(list[..|list| - 1], id) + (if list[|list| - 1].id == id then [] else [list[|list| - 1]])
  }

  function Demoted(a: Activity, task: nat, turn: Value): Activity {
    if OfTurn(a, task, turn)
    then a.(metadata := a.metadata[AssistantPhase := Progress]) else a
  }

  function DemotedAll(list: seq<Activity>, task: nat, turn: Value): (r: seq<Activity>)
    ensures |r| == |list|
    ensures forall i :: 0 <= i < |list| ==> r[i] == Demoted(list[i], task, turn)
  {
    if list == [] then []
    else DemotedAll(list[..|list| - 1], task, turn) + [Demoted(list[|list| - 1], task, turn)]
  }

  /** When the first activity with an identifier was created. */
  function CreatedAt(list: seq<Activity>, id: Id, now: int): int {
    if list == [] then now else if list[0].id == id then list[0].createdAt else CreatedAt(list[1..], id, now)
  }

  ghost function Replaced(cls: Classes, list: seq<Activity>, op: Operation): seq<Activity>
    requires op.Replace?
  {
    var id := Replacement(op.task, op.segment);
    DemotedAll(Without(list, id), op.task, op.turn) + [Activity(id, op.task, true, Normalize(cls, op.text),
      op.metadata[TurnId := op.turn][SegmentId := op.segment][AssistantPhase := Final][AssistantReplacement := True],
      CreatedAt(list, id, op.now))]
  }

  lemma {:induction false} WithoutKeeps(list: seq<Activity>, id: Id, a: Activity)
    ensures a in Without(list, id) <==> a in list && a.id != id
  {
    if list != [] {
      WithoutKeeps(list[..|list| - 1], id, a);
      assert list == list[..|list| - 1] + [list[|list| - 1]];
    }
  }

  /** After a replacement its identifier occurs once, at the end, as the final response of the turn; every
      other response of the turn is in progress, and no activity with another identifier is lost. */
  lemma ReplacedMeans(cls: Classes, list: seq<Activity>, op: Operation, a: Activity)
    requires op.Replace?
    ensures var r := Replaced(cls, list, op);
      && r != [] && r[|r| - 1].id == Replacement(op.task, op.segment)
      && Lookup(r[|r| - 1].metadata, AssistantPhase) == Some(Final)
      && (forall i :: 0 <= i < |r| - 1 ==> r[i].id != Replacement(op.task, op.segment))
      && (forall i :: 0 <= i < |r| - 1 && OfTurn(r[i], op.task, op.turn) ==>
            Lookup(r[i].metadata, AssistantPhase) == Some(Progress))
      && (a in list && a.id != Replacement(op.task, op.segment) ==>
            exists i :: 0 <= i < |r| - 1 && r[i].id == a.id && r[i].text == a.text && r[i].createdAt == a.createdAt)
  {
    hide *;
    var id := Replacement(op.task, op.segment);
    var last := ReplacedForm(cls, list, op);
    WithoutKeeps(list, id, a);
    WithoutNone(list, id);
    DemotedMeans(Without(list, id), op.task, op.turn, a);
    assert Replaced(cls, list, op)[..|Without(list, id)|] == DemotedAll(Without(list, id), op.task, op.turn);
  }

  lemma ReplacedForm(cls: Classes, list: seq<Activity>, op: Operation) returns (last: Activity)
    requires op.Replace?
    ensures Replaced(cls, list, op)
      == DemotedAll(Without(list, Replacement(op.task, op.segment)), op.task, op.turn) + [last]
    ensures last.id == Replacement(op.task, op.segment) && Lookup(last.metadata, AssistantPhase) == Some(Final)
  {
    hide Without, Normalize, CreatedAt, DemotedAll;
    last := Replaced(cls, list, op)[|Replaced(cls, list, op)| - 1];
  }

  lemma WithoutNone(list: seq<Activity>, id: Id)
    ensures forall i :: 0 <= i < |Without(list, id)| ==> Without(list, id)[i].id != id
  {
  }

  lemma DemotedMeans(list: seq<Activity>, task: nat, turn: Value, a: Activity)
    ensures var r := DemotedAll(list, task, turn);
      && |r| == |list| && (forall i :: 0 <= i < |r| ==> r[i].id == list[i].id)
      && (forall i :: 0 <= i < |r| && OfTurn(r[i], task, turn) ==>
            Lookup(r[i].metadata, AssistantPhase) == Some(Progress))
      && (a in list ==> exists i ::
            0 <= i < |r| && r[i].id == a.id && r[i].text == a.text && r[i].createdAt == a.createdAt)
  {
    hide DemotedAll;
    if a in list {
      var k :| 0 <= k < |list| && list[k] == a;
      assert DemotedAll(list, task, turn)[k] == Demoted(a, task, turn);
    }
  }

  /** What each operation does to a plain list of activities. */
  ghost function ListStep(cls: Classes, list: seq<Activity>, op: Operation): seq<Activity> {
    match op
    case Add(a) => list + [NormalizeActivity(cls, a)]
    case Stream(task, deltas) => StreamedAll(cls, list, task, deltas)
    case Complete(task, segment, phase, metadata) =>
      var i := FindSegment(list, task, segment);
      if i < 0 then list else list[i := Completed(list[i], phase, metadata)]
    case CompleteTurn(task, turn, phase, metadata) =>
      TurnCompletedUpTo(list, task, turn, phase, metadata, |list|)
    case Replace(_, _, _, _, _, _) => Replaced(cls, list, op)
    case Compact => list
  }

  // ---------- the operations on the log ----------

  function LastSequence(log: seq<Record>): int { if log == [] then 0 else log[|log| - 1].sequence }

  ghost function DeltaRecord(cls: Classes, next: seq<Activity>, task: nat, d: Delta, sequence: int): Record {
    if FindFor(next, task, d) < 0 then Append(sequence, Started(cls, task, d))
    else AssistantDelta(sequence, task, Lookup(d.metadata, TurnId), d.text, d.metadata)
  }

  /** The records written for a batch of deltas, the first with number `sequence`. */
  ghost function DeltaRecords(cls: Classes, next: seq<Activity>, task: nat, deltas: seq<Delta>,
      sequence: int): (r: seq<Record>)
    ensures |r| == |deltas|
    decreases |deltas|
  {
    if deltas == [] then []
    else [DeltaRecord(cls, next, task, deltas[0], sequence)]
         + DeltaRecords(cls, Streamed(cls, next, task, deltas[0]), task, deltas[1..], sequence + 1)
  }

  predicate AlreadyComplete(a: Activity, phase: Phase, metadata: Metadata) {
    && Lookup(a.metadata, AssistantPhase) == Some(phase)
    && forall k :: k in metadata ==> k in a.metadata && Identical(a.metadata[k], metadata[k])
  }

  /** The records written to complete the unfinished activities from position `i` on. */
  function TurnRecords(list: seq<Activity>, op: Operation, i: nat, sequence: int): seq<Record>
    requires op.CompleteTurn? && i <= |list|
    decreases |list| - i
  {
    if i == |list| then []
    else if !Unfinished(list[i], op.task, op.turn) then TurnRecords(list, op, i + 1, sequence)
    else [SegmentCompleted(sequence, op.task, list[i].metadata[SegmentId], op.phase, op.metadata)]
         + TurnRecords(list, op, i + 1, sequence + 1)
  }

  /** The log after an operation, for a log that replays. */
  ghost function LogStep(cls: Classes, log: seq<Record>, op: Operation): seq<Record>
    requires Replay(cls, log).Ok?
  {
    var list := Read(cls, log);
    var sequence := LastSequence(log) + 1;
    match op
    case Add(a) => log + [Append(sequence, NormalizeActivity(cls, a))]
    case Stream(task, deltas) => log + DeltaRecords(cls, list, task, deltas, sequence)
    case Complete(task, segment, phase, metadata) =>
      var i := FindSegment(list, task, segment);
      if i < 0 || AlreadyComplete(list[i], phase, metadata) then log
      else log + [SegmentCompleted(sequence, task, segment, phase, metadata)]
    case CompleteTurn(_, _, _, _) => log + TurnRecords(list, op, 0, sequence)
    case Replace(_, _, _, _, _, _) => [Snapshot(LastSequence(log), Replaced(cls, list, op))]
    case Compact => [Snapshot(LastSequence(log), list)]
  }

  // ---------- the shape of the file ----------

  /** At most one snapshot, at the head; consecutive sequence numbers. */
  predicate Sequenced(log: seq<Record>) {
    && (forall k :: 1 <= k < |log| ==> !log[k].Snapshot? && log[k].sequence == log[k - 1].sequence + 1)
    && (log != [] ==> if log[0].Snapshot? then log[0].sequence >= 0 else log[0].sequence == 1)
  }

  ghost predicate Sound(cls: Classes, log: seq<Record>) { Sequenced(log) && Replay(cls, log).Ok? }

  ghost function Raw(cls: Classes, log: seq<Record>): seq<Activity>
    requires Replay(cls, log).Ok?
  {
    Replay(cls, log).value.activities
  }

  lemma ReplaySequence(cls: Classes, log: seq<Record>)
    requires Replay(cls, log).Ok?
    ensures Replay(cls, log).value.sequence == if log == [] then -1 else LastSequence(log)
    ensures LastSequence(log) >= 0
  {
    hide Apply;
    if log != [] { ReplaySequence(cls, log[..|log| - 1]); }
  }

  /** The next record in sequence replays whenever it applies. */
  lemma AppendReplays(cls: Classes, log: seq<Record>, r: Record)
    requires Sound(cls, log) && !r.Snapshot? && Readable(r) && r.sequence == LastSequence(log) + 1
    requires Apply(cls, Raw(cls, log), r).Ok?
    ensures Sound(cls, log + [r]) && LastSequence(log + [r]) == r.sequence
    ensures Raw(cls, log + [r]) == Apply(cls, Raw(cls, log), r).value
  {
    hide Apply;
    ReplaySequence(cls, log);
    LastIsNonNegative(log);
  }

  lemma LastIsNonNegative(log: seq<Record>)
    requires Sequenced(log)
    ensures LastSequence(log) >= 0
  {
    if |log| > 1 {
      LastIsNonNegative(log[..|log| - 1]);
    }
  }

  lemma SnapshotReplays(cls: Classes, sequence: int, list: seq<Activity>)
    requires sequence >= 0
    ensures var log := [Snapshot(sequence, list)];
      Sound(cls, log) && LastSequence(log) == sequence && Raw(cls, log) == list
  {
  }

  // ---------- each operation's records replay to the operation on the list ----------

  lemma StreamedKeepsShape(cls: Classes, a: seq<Activity>, b: seq<Activity>, task: nat, d: Delta)
    requires SameShape(a, b)
    ensures SameShape(Streamed(cls, a, task, d), Streamed(cls, b, task, d))
  {
    hide Merge, Normalize, FindAssistant;
  }

  lemma DeltaApplies(cls: Classes, next: seq<Activity>, raw: seq<Activity>, task: nat, d: Delta, sequence: int)
    requires SameShape(next, raw)
    ensures Apply(cls, raw, DeltaRecord(cls, next, task, d, sequence)) == Ok(Streamed(cls, raw, task, d))
  {
  }

  /** The writer works on the normalised list, the replay on the raw one: the records of a batch
      still replay to the batch applied to the raw list. */
  lemma {:induction false} StreamReplays(cls: Classes, log: seq<Record>, next: seq<Activity>, task: nat,
      deltas: seq<Delta>)
    requires Sound(cls, log) && SameShape(next, Raw(cls, log))
    ensures var after := log + DeltaRecords(cls, next, task, deltas, LastSequence(log) + 1);
      Sound(cls, after) && Raw(cls, after) == StreamedAll(cls, Raw(cls, log), task, deltas)
    decreases |deltas|
  {
    hide Sequenced, Replay, Raw, Apply, Streamed, SameShape, LastSequence;
    if deltas == [] {
      assert log + [] == log;
    } else {
      var r := DeltaRecord(cls, next, task, deltas[0], LastSequence(log) + 1);
      var rest := DeltaRecords(cls, Streamed(cls, next, task, deltas[0]), task, deltas[1..], LastSequence(log) + 2);
      DeltaApplies(cls, next, Raw(cls, log), task, deltas[0], LastSequence(log) + 1);
      AppendReplays(cls, log, r);
      StreamedKeepsShape(cls, next, Raw(cls, log), task, deltas[0]);
      StreamReplays(cls, log + [r], Streamed(cls, next, task, deltas[0]), task, deltas[1..]);
      assert log + ([r] + rest) == (log + [r]) + rest;
    }
  }

  // ---------- operations and texts ----------

  lemma StreamedAllKeepsShape(cls: Classes, a: seq<Activity>, b: seq<Activity>, task: nat, deltas: seq<Delta>)
    requires SameShape(a, b)
    ensures SameShape(StreamedAll(cls, a, task, deltas), StreamedAll(cls, b, task, deltas))
    decreases |deltas|
  {
    hide Streamed, SameShape;
    if deltas != [] {
      StreamedKeepsShape(cls, a, b, task, deltas[0]);
      StreamedAllKeepsShape(cls, Streamed(cls, a, task, deltas[0]), Streamed(cls, b, task, deltas[0]), task,
        deltas[1..]);
    }
  }

  lemma WithoutKeepsShape(a: seq<Activity>, b: seq<Activity>, id: Id)
    requires SameShape(a, b)
    ensures SameShape(Without(a, id), Without(b, id))
  {
    if a != [] { WithoutKeepsShape(a[..|a| - 1], b[..|b| - 1], id); }
  }

  lemma {:induction false} CreatedAtIgnoresText(a: seq<Activity>, b: seq<Activity>, id: Id, now: int)
    requires SameShape(a, b)
    ensures CreatedAt(a, id, now) == CreatedAt(b, id, now)
  {
    if a != [] {
      assert SameButText(a[0], b[0]);
      CreatedAtIgnoresText(a[1..], b[1..], id, now);
    }
  }

  lemma ReplacedKeepsShape(cls: Classes, a: seq<Activity>, b: seq<Activity>, op: Operation)
    requires op.Replace? && SameShape(a, b)
    ensures SameShape(Replaced(cls, a, op), Replaced(cls, b, op))
  {
    var id := Replacement(op.task, op.segment);
    WithoutKeepsShape(a, b, id);
    CreatedAtIgnoresText(a, b, id, op.now);
    hide Without, CreatedAt, Normalize, DemotedAll;
  }

  lemma ListStepKeepsShape(cls: Classes, a: seq<Activity>, b: seq<Activity>, op: Operation)
    requires SameShape(a, b)
    ensures SameShape(ListStep(cls, a, op), ListStep(cls, b, op))
  {
    if op.Stream? {
      StreamedAllKeepsShape(cls, a, b, op.task, op.deltas);
    } else if op.Replace? {
      ReplacedKeepsShape(cls, a, b, op);
    } else if op.Complete? || op.CompleteTurn? {
    } else {
      hide NormalizeActivity;
    }
  }

  lemma ShapeIsSymmetric(a: seq<Activity>, b: seq<Activity>)
    requires SameShape(a, b)
    ensures SameShape(b, a)
  {
  }

  lemma ShapeIsTransitive(a: seq<Activity>, b: seq<Activity>, c: seq<Activity>)
    requires SameShape(a, b) && SameShape(b, c)
    ensures SameShape(a, c)
  {
  }

  /** The list an operation starts from: a snapshot is taken of what a reader sees, every other
      record is replayed over the texts as they were accumulated. */
  ghost function Base(cls: Classes, log: seq<Record>, op: Operation): seq<Activity>
    requires Replay(cls, log).Ok?
  {
    if op.Replace? || op.Compact? then Read(cls, log) else Raw(cls, log)
  }

  // ---------- what each operation writes ----------

  lemma AddStep(cls: Classes, log: seq<Record>, a: Activity)
    requires Replay(cls, log).Ok?
    ensures LogStep(cls, log, Add(a)) == log + [Append(LastSequence(log) + 1, NormalizeActivity(cls, a))]
  {
    hide Replay, Read, NormalizeActivity, LastSequence;
  }

  lemma StreamStep(cls: Classes, log: seq<Record>, op: Operation)
    requires op.Stream? && Replay(cls, log).Ok?
    ensures LogStep(cls, log, op) == log + DeltaRecords(cls, Read(cls, log), op.task, op.deltas, LastSequence(log) + 1)
  {
    hide Replay, Read, DeltaRecords, LastSequence;
  }

  lemma CompleteStep(cls: Classes, log: seq<Record>, op: Operation)
    requires op.Complete? && Replay(cls, log).Ok?
    ensures LogStep(cls, log, op) ==
      var list := Read(cls, log);
      var i := FindSegment(list, op.task, op.segment);
      if i < 0 || AlreadyComplete(list[i], op.phase, op.metadata) then log
      else log + [SegmentCompleted(LastSequence(log) + 1, op.task, op.segment, op.phase, op.metadata)]
  {
    hide Replay, Read, DeltaRecords, TurnRecords, Replaced, FindSegment, LastSequence, AlreadyComplete;
  }

  lemma TurnStep(cls: Classes, log: seq<Record>, op: Operation)
    requires op.CompleteTurn? && Replay(cls, log).Ok?
    ensures LogStep(cls, log, op) == log + TurnRecords(Read(cls, log), op, 0, LastSequence(log) + 1)
  {
    hide Replay, Read, TurnRecords, LastSequence;
  }

  /** Writes a fresh snapshot. */
  predicate Rewrites(op: Operation) { op.Replace? || op.Compact? }

  lemma SnapshotStep(cls: Classes, log: seq<Record>, op: Operation)
    requires Rewrites(op) && Replay(cls, log).Ok?
    ensures LogStep(cls, log, op) == [Snapshot(LastSequence(log), ListStep(cls, Read(cls, log), op))]
  {
    hide Replay, Read, Replaced, LastSequence;
  }

  lemma ReplacedStep(cls: Classes, list: seq<Activity>, op: Operation)
    requires op.Replace?
    ensures Rewrites(op) && ListStep(cls, list, op) == Replaced(cls, list, op)
  {
    hide Replaced;
  }

  // ---------- each operation replays ----------

  /** A completion that is already recorded would change nothing. */
  lemma AlreadyCompleteIsNoStep(cls: Classes, list: seq<Activity>, op: Operation)
    requires op.Complete?
    requires var i := FindSegment(list, op.task, op.segment);
      i < 0 || AlreadyComplete(list[i], op.phase, op.metadata)
    ensures ListStep(cls, list, op) == list
  {
    var i := FindSegment(list, op.task, op.segment);
    hide FindSegment;
    if i >= 0 {
      assert Completed(list[i], op.phase, op.metadata).metadata == list[i].metadata;
      assert Completed(list[i], op.phase, op.metadata) == list[i];
    }
  }

  /** A completion that writes a record which is refused when it is read. */
  predicate Unrecordable(list: seq<Activity>, op: Operation) {
    && op.Complete? && !IsName(op.segment)
    && var i := FindSegment(list, op.task, op.segment);
       i >= 0 && !AlreadyComplete(list[i], op.phase, op.metadata)
  }

  lemma CompletionApplies(cls: Classes, list: seq<Activity>, op: Operation, sequence: int)
    requires op.Complete? && FindSegment(list, op.task, op.segment) >= 0
    ensures Apply(cls, list, SegmentCompleted(sequence, op.task, op.segment, op.phase, op.metadata))
      == Ok(ListStep(cls, list, op))
  {
    hide FindSegment, Completed;
  }

  /** The segment found, and whether it is complete, do not depend on the texts. */
  lemma FoundOnReading(cls: Classes, log: seq<Record>, op: Operation)
    requires op.Complete? && Replay(cls, log).Ok?
    ensures var i := FindSegment(Raw(cls, log), op.task, op.segment);
      && i == FindSegment(Read(cls, log), op.task, op.segment) && |Read(cls, log)| == |Raw(cls, log)|
      && (i >= 0 ==> (AlreadyComplete(Read(cls, log)[i], op.phase, op.metadata)
                      <==> AlreadyComplete(Raw(cls, log)[i], op.phase, op.metadata)))
  {
    var list := Raw(cls, log);
    NormalizeKeepsShape(cls, list);
    var i := FindSegment(list, op.task, op.segment);
    FindIgnoresText(Read(cls, log), list, op.task, op.segment);
    hide Replay, NormalizeAll, FindSegment;
    if i >= 0 { assert SameButText(Read(cls, log)[i], list[i]); }
  }

  lemma CompleteReplays(cls: Classes, log: seq<Record>, op: Operation)
    requires op.Complete? && Sound(cls, log) && !Unrecordable(Raw(cls, log), op)
    ensures Sound(cls, LogStep(cls, log, op)) && Raw(cls, LogStep(cls, log, op)) == ListStep(cls, Raw(cls, log), op)
  {
    hide FindSegment, Replay, Sequenced, Apply, ListStep, Raw, Read, LastSequence, LogStep, AlreadyComplete;
    FoundOnReading(cls, log, op);
    CompleteStep(cls, log, op);
    var list := Raw(cls, log);
    var i := FindSegment(list, op.task, op.segment);
    if i < 0 || AlreadyComplete(list[i], op.phase, op.metadata) {
      AlreadyCompleteIsNoStep(cls, list, op);
    } else {
      CompletionApplies(cls, list, op, LastSequence(log) + 1);
      AppendReplays(cls, log, SegmentCompleted(LastSequence(log) + 1, op.task, op.segment, op.phase, op.metadata));
    }
  }

  lemma RefusedLast(cls: Classes, log: seq<Record>, r: Record)
    requires Replay(cls, log).Ok? && !Readable(r)
    ensures Replay(cls, log + [r]) == Err(RecordInvalid) && Repaired(log + [r]) == log
  {
    hide Apply;
    assert (log + [r])[..|log|] == log;
  }

  lemma CompletionWritten(cls: Classes, log: seq<Record>, op: Operation)
    requires op.Complete? && Replay(cls, log).Ok? && Unrecordable(Raw(cls, log), op)
    ensures var r := SegmentCompleted(LastSequence(log) + 1, op.task, op.segment, op.phase, op.metadata);
      !Readable(r) && LogStep(cls, log, op) == log + [r]
  {
    hide Replay, Read, Raw, FindSegment, LastSequence, AlreadyComplete, LogStep;
    CompleteStep(cls, log, op);
    FoundOnReading(cls, log, op);
  }

  /** The record of such a completion makes the log fail to replay; the next load drops it. */
  lemma UnrecordableIsRefused(cls: Classes, log: seq<Record>, op: Operation)
    requires op.Complete? && Replay(cls, log).Ok? && Unrecordable(Raw(cls, log), op)
    ensures Replay(cls, LogStep(cls, log, op)) == Err(RecordInvalid)
    ensures Repaired(LogStep(cls, log, op)) == log
  {
    hide Replay, LogStep, Unrecordable, Repaired, Raw;
    CompletionWritten(cls, log, op);
    RefusedLast(cls, log, SegmentCompleted(LastSequence(log) + 1, op.task, op.segment, op.phase, op.metadata));
  }

  lemma AddReplays(cls: Classes, log: seq<Record>, a: Activity)
    requires Sound(cls, log)
    ensures Sound(cls, LogStep(cls, log, Add(a)))
    ensures Raw(cls, LogStep(cls, log, Add(a))) == ListStep(cls, Raw(cls, log), Add(a))
  {
    AddStep(cls, log, a);
    hide Replay, Sequenced, NormalizeActivity, NormalizeAll, LogStep, LastSequence, Raw;
    AppendReplays(cls, log, Append(LastSequence(log) + 1, NormalizeActivity(cls, a)));
  }

  lemma BatchReplays(cls: Classes, log: seq<Record>, op: Operation)
    requires op.Stream? && Sound(cls, log)
    ensures Sound(cls, LogStep(cls, log, op)) && Raw(cls, LogStep(cls, log, op)) == ListStep(cls, Raw(cls, log), op)
  {
    NormalizeKeepsShape(cls, Raw(cls, log));
    StreamStep(cls, log, op);
    hide Replay, Sequenced, NormalizeAll, SameShape, StreamedAll, LogStep;
    StreamReplays(cls, log, Read(cls, log), op.task, op.deltas);
  }

  lemma RewriteReplays(cls: Classes, log: seq<Record>, op: Operation)
    requires Rewrites(op) && Sound(cls, log)
    ensures Sound(cls, LogStep(cls, log, op)) && Raw(cls, LogStep(cls, log, op)) == ListStep(cls, Read(cls, log), op)
  {
    LastIsNonNegative(log);
    SnapshotStep(cls, log, op);
    hide *;
    SnapshotReplays(cls, LastSequence(log), ListStep(cls, Read(cls, log), op));
  }
}
