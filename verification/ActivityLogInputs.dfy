/** Two runs of ordinary calls that the log does not record as they were done
    (src/main/persistence/activity-log-store.ts, src/main/tasks/task-event-projector.ts). */
module ActivityLogInputs {
  import opened Options
  import opened StreamText
  import opened ActivityLog
  import opened ActivityLogTurns
  import opened ActivityLogRuns

  lemma AfterOne(cls: Classes, op: Operation)
    ensures LogAfter(cls, [op]) == Perform(cls, [], op) && ListAfter(cls, [op]) == ListStep(cls, [], op)
  {
    hide Perform, ListStep;
    assert [op][..0] == [];
    assert LogAfter(cls, []) == [] && ListAfter(cls, []) == [];
  }

  // ---------- the empty segment identifier ----------

  /** A response streamed under the empty segment identifier, and the completion of that segment. */
  function Unnamed(text: Text): seq<Operation> {
    [Stream(0, [Delta(text, map[SegmentId := EmptyName, AssistantPhase := Progress], 0, 0)]),
     Complete(0, EmptyName, Final, map[])]
  }

  ghost function Response(cls: Classes, text: Text): Activity {
    Activity(Streaming(0), 0, true, Normalize(cls, text), map[SegmentId := EmptyName, AssistantPhase := Progress], 0)
  }

  lemma StreamedUnnamed(cls: Classes, text: Text)
    ensures LogAfter(cls, Unnamed(text)[..1]) == [ActivityLog.Append(1, Response(cls, text))]
    ensures Sound(cls, LogAfter(cls, Unnamed(text)[..1]))
    ensures Raw(cls, LogAfter(cls, Unnamed(text)[..1])) == [Response(cls, text)]
  {
    var op := Unnamed(text)[0];
    var d := op.deltas[0];
    assert Unnamed(text)[..1] == [op];
    AfterOne(cls, op);
    hide LogAfter, ListAfter;
    NothingReads(cls);
    PerformIsStep(cls, [], op);
    hide Perform, Normalize;
    assert DeltaRecords(cls, Streamed(cls, [], 0, d), 0, op.deltas[1..], 2) == [];
    FirstReplays(cls, Response(cls, text));
  }

  lemma NothingReads(cls: Classes)
    ensures Sound(cls, []) && Raw(cls, []) == [] && Read(cls, []) == []
  {
  }

  lemma FirstReplays(cls: Classes, a: Activity)
    ensures Sound(cls, [ActivityLog.Append(1, a)]) && Raw(cls, [ActivityLog.Append(1, a)]) == [a]
  {
    NothingReads(cls);
    AppendReplays(cls, [], ActivityLog.Append(1, a));
    assert [] + [ActivityLog.Append(1, a)] == [ActivityLog.Append(1, a)];
  }

  /** The completion is written and lost at the next read, while the list has it; and if an activity is added
      first, every later read fails, whatever is done. */
  lemma {:induction false} UnnamedSegmentSpoilsLog(cls: Classes, text: Text, a: Activity, more: seq<Operation>)
    ensures var ops := Unnamed(text);
      && Spoils(cls, ops, 1)
      && LogAfter(cls, ops)
         == [ActivityLog.Append(1, Response(cls, text)), SegmentCompleted(2, 0, EmptyName, Final, map[])]
      && Repaired(LogAfter(cls, ops)) == LogAfter(cls, ops[..1])
      && ListAfter(cls, ops) == [Completed(Response(cls, text), Final, map[])]
      && Broken(cls, PerformAll(cls, Perform(cls, LogAfter(cls, ops), Add(a)), more))
  {
    hide *;
    var ops := Unnamed(text);
    UnnamedOps(text);
    var log := LogAfter(cls, ops[..1]);
    StreamedUnnamed(cls, text);
    UnnamedIsFound(cls, text);
    OneAppended(cls, log, Response(cls, text));
    SpoilsNow(cls, ops, 1);
    UnnamedCompletionIsLost(cls, log, ops[1], a, more);
    CompletionWritten(cls, log, ops[1]);
    PerformIsStep(cls, log, ops[1]);
    NextLog(cls, ops, 1);
    assert ops[..2] == ops;
  }

  lemma UnnamedOps(text: Text)
    ensures |Unnamed(text)| == 2 && Unnamed(text)[1] == Complete(0, EmptyName, Final, map[])
  {
  }

  lemma OneAppended(cls: Classes, log: seq<Record>, a: Activity)
    requires log == [ActivityLog.Append(1, a)]
    ensures LastSequence(log) == 1 && (Sound(cls, log) ==> Replay(cls, log).Ok?)
  {
  }

  lemma SpoilsNow(cls: Classes, ops: seq<Operation>, k: nat)
    requires k < |ops| && Replay(cls, LogAfter(cls, ops[..k])).Ok?
    requires Unrecordable(Raw(cls, LogAfter(cls, ops[..k])), ops[k])
    ensures Spoils(cls, ops, k)
  {
    hide Replay, Unrecordable, Raw, LogAfter;
  }

  lemma UnnamedIsFound(cls: Classes, text: Text)
    ensures Unrecordable([Response(cls, text)], Unnamed(text)[1])
    ensures ListAfter(cls, Unnamed(text)) == [Completed(Response(cls, text), Final, map[])]
  {
    var ops := Unnamed(text);
    hide Normalize;
    assert FindSegment([Response(cls, text)], 0, EmptyName) == 0;
    assert ops[..1] == [ops[0]];
    AfterOne(cls, ops[0]);
    assert ListAfter(cls, ops) == ListStep(cls, ListAfter(cls, ops[..1]), ops[1]);
    hide ListAfter, FindSegment;
    var d := ops[0].deltas[0];
    assert StreamedAll(cls, [], 0, [d]) == Streamed(cls, [], 0, d);
  }

  // ---------- a segment shared through a replacement ----------

  const TURN: Value := Name(0)
  const FIRST: Value := Name(1)
  const SECOND: Value := Name(2)

  /** A response is streamed in one segment of a turn, replaced there and then in another segment, and the turn is
      completed. */
  function Shared(text: Text): seq<Operation> {
    [Stream(0, [Delta(text, map[TurnId := TURN, SegmentId := FIRST, AssistantPhase := Progress], 0, 0)]),
     Replace(0, TURN, FIRST, text, map[], 0), Replace(0, TURN, SECOND, text, map[], 0),
     CompleteTurn(0, TURN, Final, map[])]
  }

  ghost function StreamedResponse(cls: Classes, text: Text): Activity {
    Activity(Streaming(0), 0, true, Normalize(cls, text),
      map[TurnId := TURN, SegmentId := FIRST, AssistantPhase := Progress], 0)
  }

  ghost function ReplacedResponse(cls: Classes, text: Text, segment: Value, phase: Value): Activity {
    Activity(Replacement(0, segment), 0, true, Normalize(cls, text),
      map[TurnId := TURN, SegmentId := segment, AssistantPhase := phase, AssistantReplacement := True], 0)
  }

  lemma {:induction false} WithoutAbsent(list: seq<Activity>, id: Id)
    requires forall i :: 0 <= i < |list| ==> list[i].id != id
    ensures Without(list, id) == list
  {
    if list != [] { WithoutAbsent(list[..|list| - 1], id); }
  }

  lemma {:induction false} CreatedNow(list: seq<Activity>, id: Id, now: int)
    requires forall i :: 0 <= i < |list| ==> list[i].id != id
    ensures CreatedAt(list, id, now) == now
  {
    if list != [] { CreatedNow(list[1..], id, now); }
  }

  function FinalMetadata(segment: Value): Metadata {
    var m: Metadata := map[];
    m[TurnId := TURN][SegmentId := segment][AssistantPhase := Final][AssistantReplacement := True]
  }

  lemma ReplacedIs(cls: Classes, list: seq<Activity>, text: Text, segment: Value)
    ensures var id := Replacement(0, segment);
      ListStep(cls, list, Replace(0, TURN, segment, text, map[], 0))
        == DemotedAll(Without(list, id), 0, TURN)
           + [Activity(id, 0, true, Normalize(cls, text), FinalMetadata(segment), CreatedAt(list, id, 0))]
  {
    hide Normalize, DemotedAll, CreatedAt, Without;
  }

  lemma FinalResponse(cls: Classes, text: Text, segment: Value)
    ensures Activity(Replacement(0, segment), 0, true, Normalize(cls, text), FinalMetadata(segment), 0)
      == ReplacedResponse(cls, text, segment, Final)
  {
    hide Normalize;
    assert FinalMetadata(segment)
      == map[TurnId := TURN, SegmentId := segment, AssistantPhase := Final, AssistantReplacement := True];
  }

  /** What a first replacement in a segment does. */
  lemma NewlyReplaced(cls: Classes, list: seq<Activity>, text: Text, segment: Value)
    requires forall i :: 0 <= i < |list| ==> list[i].id != Replacement(0, segment)
    ensures ListStep(cls, list, Replace(0, TURN, segment, text, map[], 0))
      == DemotedAll(list, 0, TURN) + [ReplacedResponse(cls, text, segment, Final)]
  {
    hide *;
    WithoutAbsent(list, Replacement(0, segment));
    CreatedNow(list, Replacement(0, segment), 0);
    ReplacedIs(cls, list, text, segment);
    FinalResponse(cls, text, segment);
  }

  lemma DemotedResponses(cls: Classes, text: Text, segment: Value)
    ensures Demoted(StreamedResponse(cls, text), 0, TURN) == StreamedResponse(cls, text)
    ensures Demoted(ReplacedResponse(cls, text, segment, Final), 0, TURN) ==
      ReplacedResponse(cls, text, segment, Progress)
  {
    hide Normalize;
    var m := map[TurnId := TURN, SegmentId := FIRST, AssistantPhase := Progress];
    assert m[AssistantPhase := Progress] == m;
    assert ReplacedResponse(cls, text, segment, Final).metadata[AssistantPhase := Progress]
      == ReplacedResponse(cls, text, segment, Progress).metadata;
  }

  lemma OnceStreamed(cls: Classes, text: Text)
    ensures ListAfter(cls, Shared(text)[..1]) == [StreamedResponse(cls, text)]
  {
    var op := Shared(text)[0];
    var d := op.deltas[0];
    assert Shared(text)[..1] == [op];
    AfterOne(cls, op);
    hide ListAfter, Normalize;
    assert StreamedAll(cls, [], 0, [d]) == Streamed(cls, [], 0, d);
  }

  lemma SharedOps(text: Text)
    ensures |Shared(text)| == 4
    ensures Shared(text)[1] == Replace(0, TURN, FIRST, text, map[], 0)
    ensures Shared(text)[2] == Replace(0, TURN, SECOND, text, map[], 0)
    ensures Shared(text)[3] == CompleteTurn(0, TURN, Final, map[])
  {
  }

  lemma ResponseIds(cls: Classes, text: Text, segment: Value, phase: Value)
    ensures StreamedResponse(cls, text).id == Streaming(0)
    ensures ReplacedResponse(cls, text, segment, phase).id == Replacement(0, segment) && FIRST != SECOND
  {
    hide Normalize;
  }

  lemma OnceReplaced(cls: Classes, text: Text)
    ensures ListAfter(cls, Shared(text)[..2])
      == [StreamedResponse(cls, text), ReplacedResponse(cls, text, FIRST, Final)]
  {
    hide *;
    OnceStreamed(cls, text);
    SharedOps(text);
    NextLog(cls, Shared(text), 1);
    DemotedResponses(cls, text, FIRST);
    ResponseIds(cls, text, FIRST, Final);
    var list := [StreamedResponse(cls, text)];
    NewlyReplaced(cls, list, text, FIRST);
    assert DemotedAll(list, 0, TURN) == [StreamedResponse(cls, text)];
  }

  /** The three activities before the turn is completed: two of them are in progress in one segment. */
  lemma TwiceReplaced(cls: Classes, text: Text)
    ensures ListAfter(cls, Shared(text)[..3]) ==
      [StreamedResponse(cls, text), ReplacedResponse(cls, text, FIRST, Progress),
       ReplacedResponse(cls, text, SECOND, Final)]
  {
    hide *;
    OnceReplaced(cls, text);
    SharedOps(text);
    NextLog(cls, Shared(text), 2);
    DemotedResponses(cls, text, FIRST);
    ResponseIds(cls, text, FIRST, Final);
    var a, b := StreamedResponse(cls, text), ReplacedResponse(cls, text, FIRST, Final);
    NewlyReplaced(cls, [a, b], text, SECOND);
    assert DemotedAll([a, b], 0, TURN) == [Demoted(a, 0, TURN), Demoted(b, 0, TURN)];
  }

  predicate SharesFirst(list: seq<Activity>) {
    && |list| == 3
    && list[0].task == list[1].task == 0 && list[0].assistant && list[1].assistant
    && list[0].metadata == map[TurnId := TURN, SegmentId := FIRST, AssistantPhase := Progress]
    && list[1].metadata
       == map[TurnId := TURN, SegmentId := FIRST, AssistantPhase := Progress, AssistantReplacement := True]
    && Lookup(list[2].metadata, AssistantPhase) == Some(Final)
  }

  lemma SecondIsLost(list: seq<Activity>, op: Operation)
    requires SharesFirst(list) && op == CompleteTurn(0, TURN, Final, map[])
    ensures Lookup(Logged(list, list, op, 0)[1].metadata, AssistantPhase) == Some(Progress)
    ensures Lookup(Wanted(list, op)[1].metadata, AssistantPhase) == Some(Final)
    ensures |Wanted(list, op)| == 3
  {
    hide Logged, FindSegment, Wanted;
    WantedLength(list, op);
    WantedAt(list, op, 1);
    assert FindSegment(list, 0, FIRST) == 0 by { assert InSegment(list[0], 0, FIRST); }
    var once := list[0 := Done(list[0], op)];
    assert FindSegment(once, 0, FIRST) == 0 by { assert InSegment(once[0], 0, FIRST); }
    LoggedTwice(list, once, op);
  }

  lemma LoggedTwice(list: seq<Activity>, once: seq<Activity>, op: Operation)
    requires SharesFirst(list) && op == CompleteTurn(0, TURN, Final, map[])
    requires once == list[0 := Done(list[0], op)]
    requires FindSegment(list, 0, FIRST) == 0 && FindSegment(once, 0, FIRST) == 0
    ensures Logged(list, list, op, 0) == once[0 := Done(once[0], op)]
  {
    hide FindSegment, Done;
    var twice := once[0 := Done(once[0], op)];
    assert Logged(twice, list, op, 3) == twice;
    assert !Due(list, op, 2) && Logged(twice, list, op, 2) == twice;
    assert Logged(once, list, op, 1) == Logged(twice, list, op, 2);
  }

  /** The replacement is completed by the call and read back in progress. */
  lemma SharedSegmentIsLost(cls: Classes, text: Text)
    ensures var ops := Shared(text);
      && Sound(cls, LogAfter(cls, ops)) && !KeptAt(cls, ops, 3)
      && |Read(cls, LogAfter(cls, ops))| == |ListAfter(cls, ops)| == 3
      && Lookup(Read(cls, LogAfter(cls, ops))[1].metadata, AssistantPhase) == Some(Progress)
      && Lookup(ListAfter(cls, ops)[1].metadata, AssistantPhase) == Some(Final)
  {
    var ops := Shared(text);
    var log, list := LogAfter(cls, ops[..3]), ListAfter(cls, ops[..3]);
    TwiceReplaced(cls, text);
    FirstThreeAreKept(cls, text);
    assert ops[..4] == ops;
    NextLog(cls, ops, 3);
    hide Normalize, LogAfter, ListAfter, Perform, Kept, Sequenced, Replay, NormalizeAll, LogStep, ListStep, Logged,
      Wanted;
    AgreesUpTo(cls, ops, 3);
    SharedShape(cls, text, Raw(cls, log));
    CompleteTurnReplays(cls, log, ops[3]);
    PerformIsStep(cls, log, ops[3]);
    SecondIsLost(Raw(cls, log), ops[3]);
    SharedShape(cls, text, list);
    SecondIsLost(list, ops[3]);
    TurnStepIsWanted(cls, list, ops[3]);
    NormalizeKeepsShape(cls, Raw(cls, LogAfter(cls, ops)));
    assert SameButText(Read(cls, LogAfter(cls, ops))[1], Raw(cls, LogAfter(cls, ops))[1]);
    NotKept(cls, text);
  }

  lemma TurnStepIsWanted(cls: Classes, list: seq<Activity>, op: Operation)
    requires op.CompleteTurn?
    ensures ListStep(cls, list, op) == Wanted(list, op)
  {
  }

  lemma SharedShape(cls: Classes, text: Text, list: seq<Activity>)
    requires SameShape(list, [StreamedResponse(cls, text),
      ReplacedResponse(cls, text, FIRST, Progress), ReplacedResponse(cls, text, SECOND, Final)])
    ensures SharesFirst(list)
  {
    hide Normalize;
  }

  lemma FirstThreeAreKept(cls: Classes, text: Text)
    ensures forall k :: 0 <= k < 3 ==> KeptAt(cls, Shared(text), k)
  {
    hide ListAfter;
  }

  lemma NotKept(cls: Classes, text: Text)
    ensures !KeptAt(cls, Shared(text), 3)
  {
    var ops := Shared(text);
    var list := ListAfter(cls, ops[..3]);
    TwiceReplaced(cls, text);
    hide Normalize, ListAfter, Logged, Wanted, Recorded;
    SharedShape(cls, text, list);
    SecondIsLost(list, ops[3]);
    LoggedIff(list, ops[3]);
  }
}
