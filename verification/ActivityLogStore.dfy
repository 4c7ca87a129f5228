/** The store that keeps an activity log (src/main/persistence/activity-log-store.ts). */
module ActivityLogStore {
  import opened Options
  import opened StreamText
  import opened ActivityLog
  import opened ActivityLogRuns

  // ---------- the counters ----------

  /** The records since the snapshot, and their bytes; the counters that decide when to compact. */
  function OperationsSince(log: seq<Record>): nat {
    if log == [] || log[|log| - 1].Snapshot? then 0 else OperationsSince(log[..|log| - 1]) + 1
  }

  function BytesSince(size: Record -> nat, log: seq<Record>): nat {
    if log == [] || log[|log| - 1].Snapshot? then 0 else BytesSince(size, log[..|log| - 1]) + size(log[|log| - 1])
  }

  lemma SinceOneMore(size: Record -> nat, log: seq<Record>, r: Record)
    ensures OperationsSince(log + [r]) == if r.Snapshot? then 0 else OperationsSince(log) + 1
    ensures BytesSince(size, log + [r]) == if r.Snapshot? then 0 else BytesSince(size, log) + size(r)
  {
  }

  lemma NothingYet(size: Record -> nat)
    ensures OperationsSince([]) == 0 && BytesSince(size, []) == 0 && Increasing([])
  {
  }

  /** Every record's number is above the one before it, and none is negative. */
  predicate Increasing(log: seq<Record>) {
    && (forall k :: 1 <= k < |log| ==> log[k - 1].sequence < log[k].sequence)
    && (log != [] ==> log[0].sequence >= 0)
  }

  /** What a load asks of the records: each accepted, and their numbers increasing. */
  predicate Loadable(log: seq<Record>) { Increasing(log) && forall k :: 0 <= k < |log| ==> Readable(log[k]) }

  lemma LoadableIsIntact(log: seq<Record>)
    requires Loadable(log)
    ensures Repaired(log) == log
  {
  }

  lemma ReplayedIsLoadable(cls: Classes, log: seq<Record>)
    requires Replay(cls, log).Ok?
    ensures Loadable(log)
  {
    hide Apply;
    if log != [] {
      var init := log[..|log| - 1];
      ReplayedIsLoadable(cls, init);
      ReplaySequence(cls, init);
      hide Increasing;
      assert log == init + [log[|log| - 1]];
      IncreasingOneMore(init, log[|log| - 1]);
    }
  }

  // ---------- the activities reported ----------

  ghost function ReportedDelta(cls: Classes, next: seq<Activity>, task: nat, d: Delta): Activity {
    var i := FindFor(next, task, d);
    if i < 0 then Started(cls, task, d) else Continued(cls, next[i], d.text, d.metadata)
  }

  /** The activities reported for a batch: each as it was right after its delta. */
  ghost function Reported(cls: Classes, next: seq<Activity>, task: nat, deltas: seq<Delta>): seq<Activity>
    decreases |deltas|
  {
    if deltas == [] then []
    else
      [ReportedDelta(cls, next, task, deltas[0])]
      + Reported(cls, Streamed(cls, next, task, deltas[0]), task, deltas[1..])
  }

  /** The activities completing a turn reports, from position `i` on. */
  function TurnReported(list: seq<Activity>, op: Operation, i: nat): seq<Activity>
    requires op.CompleteTurn? && i <= |list|
    decreases |list| - i
  {
    if i == |list| then []
    else (if Unfinished(list[i], op.task, op.turn) then [Completed(list[i], op.phase, op.metadata)] else [])
         + TurnReported(list, op, i + 1)
  }

  // ---------- one record ----------

  method FindAssistantIndex(list: seq<Activity>, task: nat, turn: Option<Value>, segment: Option<Value>)
    returns (index: int)
    ensures index == FindAssistant(list, task, turn, segment)
  {
    hide FindAssistant, Lookup;
    index := |list| - 1;
    while index >= 0
      invariant -1 <= index < |list|
      invariant forall k :: index < k < |list| ==> !Continues(list[k], task, turn, segment)
    {
      var activity := list[index];
      if activity.task == task && activity.assistant {
        if segment.Some? && Lookup(activity.metadata, SegmentId) == segment { return; }
        if segment.None? && Lookup(activity.metadata, TurnId) == turn { return; }
      }
      index := index - 1;
    }
    return -1;
  }

  method Normalizing(cls: Classes, a: Activity) returns (r: Activity)
    ensures r == NormalizeActivity(cls, a)
  {
    r := a;
    if a.assistant {
      var text := NormalizeAssistantText(cls, a.text);
      r := a.(text := text);
    }
  }

  method ApplyAssistantDelta(cls: Classes, list: seq<Activity>, ghost sequence: int, task: nat, turn: Option<Value>,
      text: Text, metadata: Metadata)
    returns (r: Result<seq<Activity>, ReplayError>)
    ensures r == Apply(cls, list, AssistantDelta(sequence, task, turn, text, metadata))
  {
    hide Merge, FindAssistant;
    var index := FindAssistantIndex(list, task, turn, Lookup(metadata, SegmentId));
    if index < 0 { return Err(DeltaWithoutActivity); }
    var previous := list[index];
    var merged := MergeAssistantText(cls, previous.text, text);
    return Ok(list[index := previous.(text := merged, metadata := previous.metadata + metadata)]);
  }

  method ApplySegmentCompleted(cls: Classes, list: seq<Activity>, ghost sequence: int, task: nat, segment: Value,
      phase: Phase, metadata: Metadata)
    returns (r: Result<seq<Activity>, ReplayError>)
    ensures r == Apply(cls, list, SegmentCompleted(sequence, task, segment, phase, metadata))
  {
    hide FindSegment;
    var index := FindSegment(list, task, segment);
    if index < 0 { return Err(CompletionWithoutActivity); }
    var previous := list[index];
    return Ok(list[index := previous.(metadata := previous.metadata + metadata + map[AssistantPhase := phase])]);
  }

  lemma IncreasingPrefix(log: seq<Record>, n: nat)
    requires Increasing(log) && n <= |log|
    ensures Increasing(log[..n])
  {
  }

  lemma IncreasingOneMore(log: seq<Record>, r: Record)
    ensures Increasing(log + [r])
      <==> Increasing(log) && r.sequence > (if log == [] then -1 else log[|log| - 1].sequence)
  {
    assert (log + [r])[..|log|] == log;
    if Increasing(log + [r]) {
      IncreasingPrefix(log + [r], |log|);
      assert (log + [r])[|log|] == r;
      if log != [] { assert (log + [r])[|log| - 1] == log[|log| - 1]; }
    }
  }

  /** A refused record that is not the last one. */
  lemma RefusedInside(log: seq<Record>, i: nat)
    requires i < |log| - 1 && !Readable(log[i])
    ensures !Loadable(Repaired(log))
  {
    assert Repaired(log)[i] == log[i];
  }

  lemma NotIncreasingInside(log: seq<Record>, i: nat)
    requires i < |log| && Readable(log[i]) && log[i].sequence <= if i == 0 then -1 else log[i - 1].sequence
    ensures !Loadable(Repaired(log))
  {
    assert Repaired(log)[i] == log[i];
    if i > 0 { assert Repaired(log)[i - 1] == log[i - 1]; }
  }

  lemma {:induction false} DeltasOneMore(size: Record -> nat, log: seq<Record>, records: seq<Record>, k: nat)
    requires k < |records| && !records[k].Snapshot?
    ensures OperationsSince(log + records[..k + 1]) == OperationsSince(log + records[..k]) + 1
    ensures BytesSince(size, log + records[..k + 1]) == BytesSince(size, log + records[..k]) + size(records[k])
  {
    SinceOneMore(size, log + records[..k], records[k]);
    assert log + records[..k + 1] == (log + records[..k]) + [records[k]];
  }

  /** The first `k` deltas have been turned into `records` and `updated`, and the list into `next`. */
  ghost predicate BatchUpTo(cls: Classes, list: seq<Activity>, task: nat, deltas: seq<Delta>, number: int, k: nat,
      next: seq<Activity>, records: seq<Record>, updated: seq<Activity>)
  {
    && k <= |deltas|
    && records + DeltaRecords(cls, next, task, deltas[k..], number + k) == DeltaRecords(cls, list, task, deltas, number)
    && updated + Reported(cls, next, task, deltas[k..]) == Reported(cls, list, task, deltas)
  }

  lemma BatchStarts(cls: Classes, list: seq<Activity>, task: nat, deltas: seq<Delta>, number: int)
    ensures BatchUpTo(cls, list, task, deltas, number, 0, list, [], [])
  {
    hide DeltaRecords, Reported;
    assert deltas[0..] == deltas;
  }

  lemma BatchUnfolds(cls: Classes, next: seq<Activity>, task: nat, deltas: seq<Delta>, number: int)
    requires deltas != []
    ensures DeltaRecords(cls, next, task, deltas, number)
      == [DeltaRecord(cls, next, task, deltas[0], number)]
         + DeltaRecords(cls, Streamed(cls, next, task, deltas[0]), task, deltas[1..], number + 1)
    ensures Reported(cls, next, task, deltas)
      == [ReportedDelta(cls, next, task, deltas[0])]
         + Reported(cls, Streamed(cls, next, task, deltas[0]), task, deltas[1..])
  {
  }

  lemma OneMoved<T>(done: seq<T>, x: T, rest: seq<T>)
    ensures done + ([x] + rest) == (done + [x]) + rest
  {
  }

  lemma BatchMoves(cls: Classes, list: seq<Activity>, task: nat, deltas: seq<Delta>, number: int, k: nat,
      next: seq<Activity>, records: seq<Record>, updated: seq<Activity>)
    requires k < |deltas| && BatchUpTo(cls, list, task, deltas, number, k, next, records, updated)
    ensures BatchUpTo(cls, list, task, deltas, number, k + 1, Streamed(cls, next, task, deltas[k]),
      records + [DeltaRecord(cls, next, task, deltas[k], number + k)],
      updated + [ReportedDelta(cls, next, task, deltas[k])])
  {
    hide DeltaRecord, ReportedDelta, Streamed, DeltaRecords, Reported;
    BatchUnfolds(cls, next, task, deltas[k..], number + k);
    assert deltas[k..][1..] == deltas[k + 1..];
    var after := Streamed(cls, next, task, deltas[k]);
    OneMoved(records, DeltaRecord(cls, next, task, deltas[k], number + k),
      DeltaRecords(cls, after, task, deltas[k + 1..], number + k + 1));
    OneMoved(updated, ReportedDelta(cls, next, task, deltas[k]), Reported(cls, after, task, deltas[k + 1..]));
  }

  lemma BatchEnds(cls: Classes, list: seq<Activity>, task: nat, deltas: seq<Delta>, number: int,
      next: seq<Activity>, records: seq<Record>, updated: seq<Activity>)
    requires BatchUpTo(cls, list, task, deltas, number, |deltas|, next, records, updated)
    ensures records == DeltaRecords(cls, list, task, deltas, number) && updated == Reported(cls, list, task, deltas)
  {
  }

  lemma SnapshotIs(cls: Classes, size: Record -> nat, sequence: int, list: seq<Activity>)
    requires sequence >= 0 && Normalized(cls, list)
    ensures var log := [Snapshot(sequence, list)];
      && Replay(cls, log).Ok? && ActivityLog.Read(cls, log) == list && LastSequence(log) == sequence
      && OperationsSince(log) == 0 && BytesSince(size, log) == 0
  {
    SnapshotReplays(cls, sequence, list);
    NormalizedIsFixed(cls, list);
    hide Replay, Normalized, NormalizeAll, Sequenced;
  }

  predicate NoSnapshots(records: seq<Record>) { forall i :: 0 <= i < |records| ==> !records[i].Snapshot? }

  lemma NothingWritten()
    ensures NoSnapshots([])
  {
  }

  lemma NoneMore(records: seq<Record>, record: Record)
    requires NoSnapshots(records) && !record.Snapshot?
    ensures NoSnapshots(records + [record])
  {
  }

  /** A call of the store: an operation, and whether the file has been loaded since the program started. */
  datatype Call = Call(op: Operation, loaded: bool)

  datatype Performance = Performance(ok: bool, file: seq<Record>)

  class Store {
    const cls: Classes
    const size: Record -> nat
    const compactionBytes: int
    const compactionOperations: int
    /** The file's records; a missing file has none. */
    var file: seq<Record>
    var loaded: bool
    var cache: Option<seq<Activity>>
    var sequence: int
    var bytesSinceSnapshot: nat
    var operationsSinceSnapshot: nat

    constructor (cls: Classes, size: Record -> nat, compactionBytes: int, compactionOperations: int, file: seq<Record>)
      ensures Valid() && this.file == file && !loaded && this.cls == cls && this.size == size
      ensures this.compactionBytes == compactionBytes && this.compactionOperations == compactionOperations
    {
      this.cls, this.size := cls, size;
      this.compactionBytes, this.compactionOperations := compactionBytes, compactionOperations;
      this.file, loaded, cache := file, false, None;
      sequence, bytesSinceSnapshot, operationsSinceSnapshot := 0, 0, 0;
    }

    /** The counters are those of the file, and a cached list is what the file reads as. */
    ghost predicate Valid()
      reads this
    {
      && (loaded ==> Counted())
      && (cache.Some? ==> loaded && Replay(cls, file).Ok? && cache.value == ActivityLog.Read(cls, file))
    }

    ghost predicate Counted()
      reads this
    {
      && sequence == LastSequence(file)
      && operationsSinceSnapshot == OperationsSince(file)
      && bytesSinceSnapshot == BytesSince(size, file)
    }

    // ---------- what a call does to the file ----------

    predicate NeedsCompaction(log: seq<Record>) {
      && OperationsSince(log) != 0
      && (BytesSince(size, log) >= compactionBytes || OperationsSince(log) >= compactionOperations)
    }

    predicate Openable(log: seq<Record>, loaded: bool) { loaded || Loadable(Repaired(log)) }

    /** The file once it is loaded. */
    function Opened(log: seq<Record>, loaded: bool): seq<Record> {
      if loaded || !Openable(log, loaded) then log else Repaired(log)
    }

    /** Every call but a replacement compacts a file that has grown enough. */
    predicate Compacts(log: seq<Record>, op: Operation) { !op.Replace? && NeedsCompaction(log) }

    ghost function Prepared(log: seq<Record>, op: Operation): seq<Record> {
      if Compacts(log, op) then Perform(cls, log, Compact) else log
    }

    /** The outcome of a call and the file it leaves: it loads the file, compacts it, and does the operation; it
        fails where it has to read a file that cannot be read, and writes nothing then. */
    ghost function Performed(log: seq<Record>, loaded: bool, op: Operation): Performance {
      var base := Opened(log, loaded);
      var ok := Openable(log, loaded) && ((op.Add? && !Compacts(base, op)) || !Broken(cls, base));
      Performance(ok, if ok then Perform(cls, Prepared(base, op), op) else base)
    }

    /** Preparing changes nothing a reader sees. */
    lemma PreparedReads(log: seq<Record>, op: Operation)
      requires !Broken(cls, log)
      ensures var prepared := Prepared(log, op);
        !Broken(cls, prepared) && ActivityLog.Read(cls, Repaired(prepared)) == ActivityLog.Read(cls, Repaired(log))
    {
      hide Replay, Repaired, NormalizeAll, NeedsCompaction;
      if Compacts(log, op) {
        CompactPerformed(log);
        CompactionKeepsRead(cls, Repaired(log));
        ReplayedIsIntact(cls, Prepared(log, op));
      }
    }

    lemma CompactPerformed(log: seq<Record>)
      requires !Broken(cls, log)
      ensures Perform(cls, log, Compact) == LogStep(cls, Repaired(log), Compact)
    {
      hide LogStep;
    }

    /** Before a call appends, the file is behind its last snapshot by less than both limits, or by nothing. */
    lemma PreparedIsShort(log: seq<Record>, op: Operation)
      requires !Broken(cls, log) && !op.Replace?
      ensures var prepared := Prepared(log, op);
        || OperationsSince(prepared) == 0
        || (OperationsSince(prepared) < compactionOperations && BytesSince(size, prepared) < compactionBytes)
    {
      hide Replay, Repaired, NormalizeAll;
      if Compacts(log, op) {
        CompactPerformed(log);
        SnapshotBacklog(LastSequence(Repaired(log)), ActivityLog.Read(cls, Repaired(log)));
      }
    }

    lemma SnapshotBacklog(sequence: int, list: seq<Activity>)
      ensures OperationsSince([Snapshot(sequence, list)]) == 0
    {
    }

    // ---------- calls and the plain list ----------

    lemma PreparedAgrees(log: seq<Record>, list: seq<Activity>, op: Operation)
      requires Agrees(cls, log, list)
      ensures Agrees(cls, Prepared(log, op), list)
    {
      hide Replay, Sequenced, Perform, LogStep, NeedsCompaction, SameShape;
      PerformIsStep(cls, log, Compact);
      StepAgreesIff(cls, log, list, Compact);
      CompactionIsNoStep(cls, list);
    }

    /** A call on a log that agrees with a list succeeds, and does its operation to both exactly under the condition
        for that. */
    lemma CallAgreesIff(log: seq<Record>, list: seq<Activity>, call: Call)
      requires Agrees(cls, log, list)
      ensures Performed(log, call.loaded, call.op).ok
      ensures Agrees(cls, Performed(log, call.loaded, call.op).file, ListStep(cls, list, call.op))
        <==> Kept(list, call.op)
    {
      ReplayedIsIntact(cls, log);
      ReplayedIsLoadable(cls, log);
      hide Replay, Sequenced, Repaired, Loadable, Perform, LogStep, Kept, NeedsCompaction, SameShape;
      assert Opened(log, call.loaded) == log;
      PreparedAgrees(log, list, call.op);
      var prepared := Prepared(log, call.op);
      PerformIsStep(cls, prepared, call.op);
      StepAgreesIff(cls, prepared, list, call.op);
    }

    lemma PreparedMatches(log: seq<Record>, list: seq<Activity>, op: Operation)
      requires Matches(cls, log, list) && Normalized(cls, list)
      ensures Matches(cls, Prepared(log, op), list)
    {
      hide Replay, Sequenced, Perform, LogStep, NeedsCompaction, Normalized, Raw;
      PerformIsStep(cls, log, Compact);
      NormalizedIsSettled(cls, list, Compact);
      StepMatchesIff(cls, log, list, Compact);
      CompactionIsNoStep(cls, list);
    }

    /** The same with the texts, when none of the list can be collapsed. */
    lemma CallMatches(log: seq<Record>, list: seq<Activity>, call: Call)
      requires Matches(cls, log, list) && Normalized(cls, list) && Kept(list, call.op)
      ensures Matches(cls, Performed(log, call.loaded, call.op).file, ListStep(cls, list, call.op))
    {
      ReplayedIsIntact(cls, log);
      ReplayedIsLoadable(cls, log);
      hide Replay, Sequenced, Repaired, Loadable, Perform, LogStep, Kept, NeedsCompaction, Normalized, Raw;
      assert Opened(log, call.loaded) == log;
      PreparedMatches(log, list, call.op);
      var prepared := Prepared(log, call.op);
      PerformIsStep(cls, prepared, call.op);
      NormalizedIsSettled(cls, list, call.op);
      StepMatchesIff(cls, prepared, list, call.op);
    }

    // ---------- runs of calls ----------

    ghost function FileAfter(calls: seq<Call>): seq<Record> {
      if calls == [] then []
      else
        var last := calls[|calls| - 1];
        Performed(FileAfter(calls[..|calls| - 1]), last.loaded, last.op).file
    }

    function Operations(calls: seq<Call>): (ops: seq<Operation>)
      ensures |ops| == |calls|
    {
      seq(|calls|, i requires 0 <= i < |calls| => calls[i].op)
    }

    ghost predicate FileAgreesAt(calls: seq<Call>, k: int)
      requires 0 <= k <= |calls|
    {
      Agrees(cls, FileAfter(calls[..k]), ListAfter(cls, Operations(calls)[..k]))
    }

    ghost predicate FileMatchesAt(calls: seq<Call>, k: int)
      requires 0 <= k <= |calls|
    {
      Matches(cls, FileAfter(calls[..k]), ListAfter(cls, Operations(calls)[..k]))
    }

    ghost predicate FileReadsAt(calls: seq<Call>, k: int)
      requires 0 <= k <= |calls|
    {
      ReadsAs(cls, FileAfter(calls[..k]), ListAfter(cls, Operations(calls)[..k]))
    }

    lemma NextFile(calls: seq<Call>, k: nat)
      requires k < |calls|
      ensures FileAfter(calls[..k + 1]) == Performed(FileAfter(calls[..k]), calls[k].loaded, calls[k].op).file
    {
      hide Performed;
      assert calls[..k + 1][..k] == calls[..k];
    }

    lemma NothingYetDone(calls: seq<Call>)
      ensures FileAgreesAt(calls, 0) && FileMatchesAt(calls, 0)
    {
      assert calls[..0] == [] && Operations(calls)[..0] == [];
    }

    lemma FileAgreesNext(calls: seq<Call>, k: nat)
      requires k < |calls| && FileAgreesAt(calls, k)
      ensures Performed(FileAfter(calls[..k]), calls[k].loaded, calls[k].op).ok
      ensures FileAgreesAt(calls, k + 1) <==> KeptAt(cls, Operations(calls), k)
    {
      hide Agrees, Performed, ListStep, Kept, FileAfter, ListAfter;
      NextFile(calls, k);
      NextLog(cls, Operations(calls), k);
      CallAgreesIff(FileAfter(calls[..k]), ListAfter(cls, Operations(calls)[..k]), calls[k]);
    }

    lemma {:induction false} FileAgreesUpTo(calls: seq<Call>, n: nat)
      requires n <= |calls| && forall k :: 0 <= k < n ==> KeptAt(cls, Operations(calls), k)
      ensures FileAgreesAt(calls, n)
    {
      hide *;
      if n == 0 {
        NothingYetDone(calls);
      } else {
        FileAgreesUpTo(calls, n - 1);
        FileAgreesNext(calls, n - 1);
      }
    }

    lemma FileMatchesNext(calls: seq<Call>, k: nat)
      requires k < |calls| && FileMatchesAt(calls, k)
      requires KeptAt(cls, Operations(calls), k) && NormalizedAt(cls, Operations(calls), k)
      ensures FileMatchesAt(calls, k + 1)
    {
      hide Matches, Performed, ListStep, Kept, FileAfter, ListAfter, Normalized;
      NextFile(calls, k);
      NextLog(cls, Operations(calls), k);
      CallMatches(FileAfter(calls[..k]), ListAfter(cls, Operations(calls)[..k]), calls[k]);
    }

    lemma {:induction false} FileMatchesUpTo(calls: seq<Call>, n: nat)
      requires n <= |calls|
      requires forall k :: 0 <= k < n ==> KeptAt(cls, Operations(calls), k) && NormalizedAt(cls, Operations(calls), k)
      ensures FileMatchesAt(calls, n)
    {
      hide *;
      if n == 0 {
        NothingYetDone(calls);
      } else {
        FileMatchesUpTo(calls, n - 1);
        FileMatchesNext(calls, n - 1);
      }
    }

    lemma FileReadsNormalized(calls: seq<Call>, k: nat)
      requires k <= |calls|
      ensures FileMatchesAt(calls, k) && NormalizedAt(cls, Operations(calls), k) ==> FileReadsAt(calls, k)
      ensures FileReadsAt(calls, k) ==> NormalizedAt(cls, Operations(calls), k) && FileAgreesAt(calls, k)
    {
      hide Matches, Agrees, ReadsAs, Normalized, FileAfter, ListAfter, Operations;
      ReadsNormalized(cls, FileAfter(calls[..k]), ListAfter(cls, Operations(calls)[..k]));
    }

    /** Whatever the limits of compaction and wherever the program is started anew, the file agrees with the plain list
        at every point, in all but the texts, if and only if the run keeps its operations; all calls succeed then. */
    lemma CallsAgree(calls: seq<Call>)
      ensures (forall k :: 0 <= k <= |calls| ==> FileAgreesAt(calls, k)) <==> AllKept(cls, Operations(calls))
      ensures AllKept(cls, Operations(calls)) ==>
        forall k :: 0 <= k < |calls| ==> Performed(FileAfter(calls[..k]), calls[k].loaded, calls[k].op).ok
    {
      hide FileAgreesAt, KeptAt, Performed, FileAfter;
      if AllKept(cls, Operations(calls)) {
        forall k | 0 <= k <= |calls| ensures FileAgreesAt(calls, k) { FileAgreesUpTo(calls, k); }
        forall k | 0 <= k < |calls| ensures Performed(FileAfter(calls[..k]), calls[k].loaded, calls[k].op).ok {
          FileAgreesNext(calls, k);
        }
      } else {
        var k :| 0 <= k < |calls| && !KeptAt(cls, Operations(calls), k);
        if FileAgreesAt(calls, k) { FileAgreesNext(calls, k); }
      }
    }

    /** What a reader sees is the list at every point, texts included, if and only if the run keeps its operations and
        no text of the list can be collapsed at any point; with the first condition alone, it is but for the texts. */
    lemma CallsRead(calls: seq<Call>)
      ensures (forall k :: 0 <= k <= |calls| ==> FileReadsAt(calls, k))
        <==> AllKept(cls, Operations(calls))
             && forall k :: 0 <= k <= |calls| ==> NormalizedAt(cls, Operations(calls), k)
      ensures AllKept(cls, Operations(calls)) ==>
        && !Broken(cls, FileAfter(calls))
        && SameShape(ActivityLog.Read(cls, Repaired(FileAfter(calls))), ListAfter(cls, Operations(calls)))
    {
      hide FileAgreesAt, FileMatchesAt, FileReadsAt, KeptAt, NormalizedAt, Operations, Broken, SameShape, FileAfter,
        ListAfter;
      CallsAgree(calls);
      forall k | 0 <= k <= |calls|
        ensures FileMatchesAt(calls, k) && NormalizedAt(cls, Operations(calls), k) ==> FileReadsAt(calls, k)
        ensures FileReadsAt(calls, k) ==> NormalizedAt(cls, Operations(calls), k) && FileAgreesAt(calls, k)
      {
        FileReadsNormalized(calls, k);
      }
      if AllKept(cls, Operations(calls)) {
        LastReads(calls);
        if forall k :: 0 <= k <= |calls| ==> NormalizedAt(cls, Operations(calls), k) {
          forall k | 0 <= k <= |calls| ensures FileMatchesAt(calls, k) { FileMatchesUpTo(calls, k); }
        }
      }
    }

    lemma LastReads(calls: seq<Call>)
      requires FileAgreesAt(calls, |calls|)
      ensures !Broken(cls, FileAfter(calls))
      ensures SameShape(ActivityLog.Read(cls, Repaired(FileAfter(calls))), ListAfter(cls, Operations(calls)))
    {
      hide FileAfter, ListAfter, Replay, Sequenced, Repaired, SameButText, NormalizeAll;
      assert calls[..|calls|] == calls && Operations(calls)[..|calls|] == Operations(calls);
      var file := FileAfter(calls);
      ReplayedIsIntact(cls, file);
      NormalizeKeepsShape(cls, Raw(cls, file));
      ShapeIsTransitive(ActivityLog.Read(cls, file), Raw(cls, file), ListAfter(cls, Operations(calls)));
    }

    // ---------- loading and reading ----------

    /** The record loop of a load: only the numbers are looked at. */
    method ReplayMetadata() returns (ok: bool)
      modifies this
      ensures ok <==> Loadable(Repaired(old(file)))
      ensures loaded == old(loaded) && cache == old(cache)
      ensures ok ==> file == Repaired(old(file)) && Counted()
      ensures !ok ==> file == old(file)
    {
      hide Increasing, OperationsSince, BytesSince;
      var records := file;
      var last, bytes, operations := -1, 0, 0;
      NothingYet(size);
      for i := 0 to |records|
        invariant file == records == old(file) && loaded == old(loaded) && cache == old(cache)
        invariant Loadable(records[..i]) && last == (if i == 0 then -1 else records[i - 1].sequence)
        invariant i > 0 ==> last >= 0
        invariant operations == OperationsSince(records[..i]) && bytes == BytesSince(size, records[..i])
      {
        var record := records[i];
        assert records[..i + 1] == records[..i] + [record];
        if !Readable(record) {
          if i != |records| - 1 {
            RefusedInside(records, i);
            return false;
          }
          file := records[..i];
          break;
        }
        IncreasingOneMore(records[..i], record);
        if record.sequence <= last {
          NotIncreasingInside(records, i);
          return false;
        }
        SinceOneMore(size, records[..i], record);
        if record.Snapshot? {
          bytes, operations := 0, 0;
        } else {
          bytes, operations := bytes + size(record), operations + 1;
        }
        last := record.sequence;
      }
      assert records[..|records|] == records;
      sequence := if last > 0 then last else 0;
      bytesSinceSnapshot, operationsSinceSnapshot := bytes, operations;
      return true;
    }

    /** The record loop of a read. */
    method ReplayFile() returns (r: Result<seq<Activity>, ReplayError>)
      modifies this
      ensures loaded == old(loaded) && cache == old(cache)
      ensures r.Ok? <==> !Broken(cls, old(file))
      ensures r.Ok? ==> file == Repaired(old(file)) && r.value == ActivityLog.Read(cls, file) && Counted()
      ensures r.Err? ==> r.error == Replay(cls, Repaired(old(file))).error && file == old(file)
      ensures r.Err? ==> unchanged(`sequence) && unchanged(`bytesSinceSnapshot) && unchanged(`operationsSinceSnapshot)
    {
      hide ReplayStep, Replay, OperationsSince, BytesSince;
      var records := file;
      var activities, last, bytes, operations := [], -1, 0, 0;
      NothingYet(size);
      NothingReplayed();
      for i := 0 to |records|
        invariant file == records == old(file) && loaded == old(loaded) && cache == old(cache)
        invariant unchanged(`sequence) && unchanged(`bytesSinceSnapshot) && unchanged(`operationsSinceSnapshot)
        invariant Replay(cls, records[..i]) == Ok(Replayed(activities, last))
        invariant operations == OperationsSince(records[..i]) && bytes == BytesSince(size, records[..i])
      {
        var record := records[i];
        if !Readable(record) {
          if i != |records| - 1 {
            FailsInside(records, i);
            StepFails(activities, last, record);
            return Err(RecordInvalid);
          }
          file := records[..i];
          break;
        }
        FailsInside(records, i);
        var next := ApplyRecord(activities, last, record);
        if next.Err? {
          return next;
        }
        SinceOneMore(size, records[..i], record);
        assert records[..i + 1] == records[..i] + [record];
        activities := next.value;
        if record.Snapshot? {
          bytes, operations := 0, 0;
        } else {
          bytes, operations := bytes + size(record), operations + 1;
        }
        last := record.sequence;
      }
      assert records[..|records|] == records;
      ReplayedIsIntact(cls, file);
      ReplaySequence(cls, file);
      var normalized := NormalizingAll(activities);
      sequence := if last > 0 then last else 0;
      bytesSinceSnapshot, operationsSinceSnapshot := bytes, operations;
      return Ok(normalized);
    }

    lemma NothingReplayed()
      ensures Replay(cls, []) == Ok(Replayed([], -1))
    {
    }

    lemma StepFails(activities: seq<Activity>, last: int, record: Record)
      requires !Readable(record)
      ensures ReplayStep(cls, Replayed(activities, last), record) == Err(RecordInvalid)
    {
    }

    /** A record that fails, other than an unreadable last one, is the error of the whole file. */
    lemma FailsInside(records: seq<Record>, i: nat)
      requires i < |records| && Replay(cls, records[..i]).Ok? && (Readable(records[i]) || i < |records| - 1)
      ensures Replay(cls, records[..i + 1]) == ReplayStep(cls, Replay(cls, records[..i]).value, records[i])
      ensures Replay(cls, records[..i + 1]).Err? ==> Replay(cls, Repaired(records)) == Replay(cls, records[..i + 1])
    {
      hide ReplayStep;
      assert records[..i + 1][..i] == records[..i];
      assert Repaired(records)[..i + 1] == records[..i + 1];
      if Replay(cls, records[..i + 1]).Err? { ErrorStays(cls, Repaired(records), i + 1); }
    }

    /** One record of the file that is accepted. */
    method ApplyRecord(activities: seq<Activity>, last: int, record: Record)
      returns (r: Result<seq<Activity>, ReplayError>)
      requires Readable(record)
      ensures ReplayStep(cls, Replayed(activities, last), record) ==
        match r case Ok(list) => Ok(Replayed(list, record.sequence)) case Err(e) => Err(e)
    {
      hide FindAssistant, FindSegment, Continued, Completed;
      if record.sequence <= last { return Err(SequenceNotIncreasing); }
      match record
      case Snapshot(_, list) => r := Ok(list);
      case Append(_, a) => r := Ok(activities + [a]);
      case AssistantDelta(n, task, turn, text, metadata) =>
        r := ApplyAssistantDelta(cls, activities, n, task, turn, text, metadata);
      case SegmentCompleted(n, task, segment, phase, metadata) =>
        r := ApplySegmentCompleted(cls, activities, n, task, segment, phase, metadata);
    }

    method NormalizingAll(list: seq<Activity>) returns (r: seq<Activity>)
      ensures r == NormalizeAll(cls, list)
    {
      hide NormalizeActivity;
      r := [];
      for i := 0 to |list|
        invariant r == NormalizeAll(cls, list[..i])
      {
        assert list[..i + 1][..i] == list[..i];
        var a := Normalizing(cls, list[i]);
        r := r + [a];
      }
      assert list[..|list|] == list;
    }

    method EnsureLoaded() returns (ok: bool)
      requires Valid()
      modifies this
      ensures Valid() && cache == old(cache) && file == Opened(old(file), old(loaded))
      ensures ok == Openable(old(file), old(loaded)) && (ok ==> loaded) && (!ok ==> !loaded)
    {
      if loaded { return true; }
      hide Replay, OperationsSince, BytesSince, Loadable, Repaired;
      ok := ReplayMetadata();
      loaded := ok;
    }

    /** What `read` returns: the cached list, or else the file replayed, repaired on the way. */
    method ReadAll() returns (r: Result<seq<Activity>, ReplayError>)
      requires Valid()
      modifies this
      ensures Valid() && (r.Ok? ==> loaded) && (old(loaded) ==> loaded)
      ensures r.Ok? <==> !Broken(cls, old(file))
      ensures r.Ok? ==> file == Repaired(old(file)) && r.value == ActivityLog.Read(cls, file)
      ensures r.Err? ==> file == Opened(old(file), old(loaded)) && loaded == Openable(old(file), old(loaded))
    {
      OpenedReads(file, loaded);
      hide Replay, OperationsSince, BytesSince, NormalizeAll, Repaired, Loadable;
      if cache.Some? { ReplayedIsIntact(cls, file); }
      var ok := EnsureLoaded();
      if !ok { return Err(RecordInvalid); }
      if cache.Some? { return Ok(cache.value); }
      r := ReplayFile();
      if r.Ok? {
        ReplayedIsIntact(cls, file);
        cache := Some(r.value);
      }
    }

    /** Loading changes nothing a reader sees. */
    lemma OpenedReads(log: seq<Record>, loaded: bool)
      ensures Broken(cls, Opened(log, loaded)) <==> Broken(cls, log)
      ensures Openable(log, loaded) ==> Repaired(Opened(log, loaded)) == Repaired(log)
      ensures !Openable(log, loaded) ==> Broken(cls, log)
    {
      if !loaded && Openable(log, loaded) { LoadableIsIntact(Repaired(log)); }
      if !Broken(cls, log) { ReplayedIsLoadable(cls, Repaired(log)); }
      hide Replay, Loadable;
    }

    method WriteSnapshot(list: seq<Activity>)
      requires Valid() && loaded && Normalized(cls, list) && Replay(cls, file).Ok?
      modifies this
      ensures Valid() && loaded && file == [Snapshot(old(LastSequence(file)), list)]
    {
      ReplaySequence(cls, file);
      SnapshotIs(cls, size, sequence, list);
      hide LastSequence, Replay, ActivityLog.Read, OperationsSince, BytesSince, Normalized;
      file := [Snapshot(sequence, list)];
      cache := Some(list);
      bytesSinceSnapshot, operationsSinceSnapshot := 0, 0;
    }

    method CompactIfNeeded() returns (ok: bool)
      requires Valid() && loaded
      modifies this
      ensures Valid() && loaded
      ensures ok <==> !NeedsCompaction(old(file)) || !Broken(cls, old(file))
      ensures file == if ok && NeedsCompaction(old(file)) then Perform(cls, old(file), Compact) else old(file)
    {
      hide Replay, NormalizeAll, OperationsSince, BytesSince, Normalized, LogStep, Repaired, Perform;
      if operationsSinceSnapshot == 0 { return true; }
      if bytesSinceSnapshot < compactionBytes && operationsSinceSnapshot < compactionOperations { return true; }
      var list := ReadAll();
      if list.Err? { return false; }
      CompactStep(old(file));
      ReplayedIsIntact(cls, file);
      WriteSnapshot(list.value);
      return true;
    }

    lemma CompactStep(log: seq<Record>)
      requires !Broken(cls, log)
      ensures Perform(cls, log, Compact) ==
        [Snapshot(LastSequence(Repaired(log)), ActivityLog.Read(cls, Repaired(log)))]
      ensures Normalized(cls, ActivityLog.Read(cls, Repaired(log)))
    {
      hide Replay, Read, Normalized, LastSequence, Repaired, LogStep, ListStep;
      SnapshotStep(cls, Repaired(log), Compact);
      CompactionIsNoStep(cls, ActivityLog.Read(cls, Repaired(log)));
      ReadIsNormalized(cls, Repaired(log));
    }

    /** Writes records and counts them. */
    method AppendRecords(records: seq<Record>)
      requires Valid() && loaded && NoSnapshots(records)
      modifies this
      ensures Valid() && loaded && file == old(file) + records
    {
      hide Replay, NormalizeAll;
      ghost var before := file;
      if records == [] {
        assert file + [] == file;
        return;
      }
      file := file + records;
      cache := None;
      sequence := records[|records| - 1].sequence;
      assert before + records[..0] == before;
      for k := 0 to |records|
        invariant file == before + records && cache.None? && loaded && sequence == LastSequence(file)
        invariant operationsSinceSnapshot == OperationsSince(before + records[..k])
        invariant bytesSinceSnapshot == BytesSince(size, before + records[..k])
      {
        DeltasOneMore(size, before, records, k);
        bytesSinceSnapshot := bytesSinceSnapshot + size(records[k]);
        operationsSinceSnapshot := operationsSinceSnapshot + 1;
      }
      assert before + records[..|records|] == file;
    }

    // ---------- the calls ----------

    /** What every call but a replacement begins with. */
    method Prepare(ghost op: Operation) returns (ok: bool)
      requires Valid() && !op.Replace?
      modifies this
      ensures Valid()
      ensures var base := Opened(old(file), old(loaded));
        && ok == (Openable(old(file), old(loaded)) && (!Compacts(base, op) || !Broken(cls, base)))
        && file == if ok then Prepared(base, op) else base
      ensures ok ==> loaded
    {
      hide Replay, NormalizeAll, OperationsSince, BytesSince, Repaired, Perform, Loadable, LastSequence,
        NeedsCompaction;
      ok := EnsureLoaded();
      if !ok { return; }
      ok := CompactIfNeeded();
    }

    method Append(activity: Activity) returns (ok: bool)
      requires Valid()
      modifies this
      ensures Valid() && Performance(ok, file) == old(Performed(file, loaded, Add(activity)))
    {
      hide Replay, NormalizeAll, OperationsSince, BytesSince, NormalizeActivity, Repaired, Loadable, Prepared, Opened;
      ok := Prepare(Add(activity));
      if !ok { return; }
      var normalized := Normalizing(cls, activity);
      AppendRecords([ActivityLog.Append(sequence + 1, normalized)]);
    }

    /** The list a call works on. */
    method Current(ghost op: Operation) returns (r: Result<seq<Activity>, ReplayError>)
      requires Valid() && !op.Replace? && !op.Add?
      modifies this
      ensures Valid() && (r.Ok? ==> loaded) && r.Ok? == !Broken(cls, old(file))
      ensures r.Err? ==> file == Opened(old(file), old(loaded))
      ensures r.Ok? ==>
        && file == Repaired(old(Prepared(Opened(file, loaded), op))) && Replay(cls, file).Ok?
        && r.value == ActivityLog.Read(cls, file) == ActivityLog.Read(cls, old(Repaired(file)))
    {
      hide Replay, NormalizeAll, OperationsSince, BytesSince, Repaired, Loadable, NeedsCompaction, LastSequence;
      OpenedReads(file, loaded);
      ghost var base := Opened(file, loaded);
      var ok := Prepare(op);
      if !ok { return Err(RecordInvalid); }
      if !Broken(cls, base) { PreparedReads(base, op); }
      r := ReadAll();
    }

    /** What a call that has read its list leaves. */
    lemma Reads(log: seq<Record>, loaded: bool, op: Operation)
      requires !op.Add? && !Broken(cls, log)
      ensures var prepared := Prepared(Opened(log, loaded), op);
        && Replay(cls, Repaired(prepared)).Ok?
        && Performed(log, loaded, op) == Performance(true, LogStep(cls, Repaired(prepared), op))
    {
      hide Replay, Repaired, Loadable, NeedsCompaction, LogStep, Prepared;
      OpenedReads(log, loaded);
      PreparedReads(Opened(log, loaded), op);
    }

    lemma Fails(log: seq<Record>, loaded: bool, op: Operation)
      requires !op.Add? && Broken(cls, log)
      ensures Performed(log, loaded, op) == Performance(false, Opened(log, loaded))
    {
      hide Replay, Repaired, Loadable, NeedsCompaction, Perform, Prepared;
      OpenedReads(log, loaded);
    }

    /** A batch of deltas: the activities as each left them, and a record for each. */
    method AppendAssistantDeltas(task: nat, deltas: seq<Delta>) returns (ok: bool, updated: seq<Activity>)
      requires Valid()
      modifies this
      ensures Valid()
      ensures deltas == [] ==> ok && updated == [] && file == old(file)
      ensures deltas != [] ==> Performance(ok, file) == old(Performed(file, loaded, Stream(task, deltas)))
      ensures deltas != [] ==> ok == !Broken(cls, old(file))
      ensures deltas != [] && ok ==> updated == Reported(cls, old(ActivityLog.Read(cls, Repaired(file))), task, deltas)
    {
      hide Broken, NormalizeAll, OperationsSince, BytesSince, LastSequence, LogStep, DeltaRecords, Prepared, Opened,
        Repaired, Reported, Performed, Replay;
      updated := [];
      if |deltas| == 0 { return true, []; }
      ghost var op := Stream(task, deltas);
      if Broken(cls, file) { Fails(file, loaded, op); } else { Reads(file, loaded, op); }
      var list := Current(op);
      if list.Err? { return false, []; }
      var records;
      records, updated := WriteDeltas(list.value, task, deltas);
      StreamStep(cls, file, op);
      AppendRecords(records);
      ok := true;
    }

    method WriteDelta(next: seq<Activity>, task: nat, delta: Delta, number: int)
      returns (record: Record, activity: Activity, after: seq<Activity>)
      ensures record == DeltaRecord(cls, next, task, delta, number) && !record.Snapshot?
      ensures activity == ReportedDelta(cls, next, task, delta)
      ensures after == Streamed(cls, next, task, delta)
    {
      hide Merge, Normalize, FindAssistant;
      var turn := Lookup(delta.metadata, TurnId);
      var index := FindAssistantIndex(next, task, turn, Lookup(delta.metadata, SegmentId));
      if index < 0 {
        var text := NormalizeAssistantText(cls, delta.text);
        activity := Activity(Streaming(delta.uuid), task, true, text, delta.metadata, delta.now);
        record := ActivityLog.Append(number, activity);
        after := next + [activity];
      } else {
        var previous := next[index];
        var text := MergeAssistantText(cls, previous.text, delta.text);
        activity := previous.(text := text, metadata := previous.metadata + delta.metadata);
        record := AssistantDelta(number, task, turn, delta.text, delta.metadata);
        after := next[index := activity];
      }
    }

    method WriteDeltas(list: seq<Activity>, task: nat, deltas: seq<Delta>)
      returns (records: seq<Record>, updated: seq<Activity>)
      ensures records == DeltaRecords(cls, list, task, deltas, sequence + 1)
      ensures updated == Reported(cls, list, task, deltas)
      ensures NoSnapshots(records)
    {
      hide *;
      var next := list;
      records, updated := [], [];
      NothingWritten();
      BatchStarts(cls, list, task, deltas, sequence + 1);
      for k := 0 to |deltas|
        invariant |records| == k && NoSnapshots(records)
        invariant BatchUpTo(cls, list, task, deltas, sequence + 1, k, next, records, updated)
      {
        var record, activity, after := WriteDelta(next, task, deltas[k], sequence + |records| + 1);
        NoneMore(records, record);
        BatchMoves(cls, list, task, deltas, sequence + 1, k, next, records, updated);
        records, updated, next := records + [record], updated + [activity], after;
      }
      BatchEnds(cls, list, task, deltas, sequence + 1, next, records, updated);
    }

    /** The first activity of a segment is given its phase; nothing is written when it has it. */
    method CompleteAssistantSegment(task: nat, segment: Value, phase: Phase, metadata: Metadata)
      returns (ok: bool, updated: Option<Activity>)
      requires Valid()
      modifies this
      ensures Valid()
      ensures Performance(ok, file) == old(Performed(file, loaded, Complete(task, segment, phase, metadata)))
      ensures ok == !Broken(cls, old(file))
      ensures ok ==>
        var list := old(ActivityLog.Read(cls, Repaired(file)));
        var i := FindSegment(list, task, segment);
        updated == if i < 0 then None else Some(Completed(list[i], phase, metadata))
    {
      hide Broken, Replay, NormalizeAll, OperationsSince, BytesSince, LastSequence, LogStep, Prepared, Opened,
        Repaired, Performed, FindSegment, Completed, AlreadyComplete;
      ghost var op := Complete(task, segment, phase, metadata);
      if Broken(cls, file) { Fails(file, loaded, op); } else { Reads(file, loaded, op); }
      var list := Current(op);
      if list.Err? { return false, None; }
      CompleteStep(cls, file, op);
      var index := FindSegment(list.value, task, segment);
      if index < 0 { return true, None; }
      var previous := list.value[index];
      if AlreadyComplete(previous, phase, metadata) {
        AlreadyCompleted(previous, phase, metadata);
        return true, Some(previous);
      }
      updated := Some(Completed(previous, phase, metadata));
      AppendRecords([SegmentCompleted(sequence + 1, task, segment, phase, metadata)]);
      ok := true;
    }

    lemma AlreadyCompleted(a: Activity, phase: Phase, metadata: Metadata)
      requires AlreadyComplete(a, phase, metadata)
      ensures Completed(a, phase, metadata) == a
    {
      assert Completed(a, phase, metadata).metadata == a.metadata;
    }

    /** Every unfinished segment of a turn is given a phase, in one batch. */
    method CompleteAssistantSegmentsForTurn(task: nat, turn: Value, phase: Phase, metadata: Metadata)
      returns (ok: bool, updated: seq<Activity>)
      requires Valid()
      modifies this
      ensures Valid()
      ensures Performance(ok, file) == old(Performed(file, loaded, CompleteTurn(task, turn, phase, metadata)))
      ensures ok == !Broken(cls, old(file))
      ensures ok ==>
        var op := CompleteTurn(task, turn, phase, metadata);
        updated == TurnReported(old(ActivityLog.Read(cls, Repaired(file))), op, 0)
    {
      hide Broken, Replay, NormalizeAll, OperationsSince, BytesSince, LastSequence, LogStep, Prepared, Opened,
        Repaired, Performed, TurnRecords, TurnReported;
      ghost var op := CompleteTurn(task, turn, phase, metadata);
      if Broken(cls, file) { Fails(file, loaded, op); } else { Reads(file, loaded, op); }
      var list := Current(op);
      if list.Err? { return false, []; }
      var records;
      records, updated := WriteCompletions(list.value, CompleteTurn(task, turn, phase, metadata));
      TurnStep(cls, file, op);
      if |records| == 0 {
        assert file + [] == file;
        return true, updated;
      }
      AppendRecords(records);
      ok := true;
    }

    method WriteCompletions(list: seq<Activity>, op: Operation) returns (records: seq<Record>, updated: seq<Activity>)
      requires op.CompleteTurn?
      ensures records == TurnRecords(list, op, 0, sequence + 1) && updated == TurnReported(list, op, 0)
      ensures NoSnapshots(records)
    {
      records, updated := [], [];
      for i := 0 to |list|
        invariant NoSnapshots(records)
        invariant records + TurnRecords(list, op, i, sequence + |records| + 1) == TurnRecords(list, op, 0, sequence + 1)
        invariant updated + TurnReported(list, op, i) == TurnReported(list, op, 0)
      {
        var activity := list[i];
        if Unfinished(activity, op.task, op.turn) {
          var changed := activity.(metadata := activity.metadata + op.metadata + map[AssistantPhase := op.phase]);
          var segment := activity.metadata[SegmentId];
          records := records + [SegmentCompleted(sequence + |records| + 1, op.task, segment, op.phase, op.metadata)];
          updated := updated + [changed];
        }
      }
    }

    /** The replaced response becomes the last activity of a fresh snapshot. */
    method ReplaceAssistantResponse(task: nat, turn: Value, segment: Value, text: Text, metadata: Metadata, now: int)
      returns (updated: Option<Activity>)
      requires Valid()
      modifies this
      ensures Valid()
      ensures Performance(updated.Some?, file)
        == old(Performed(file, loaded, Replace(task, turn, segment, text, metadata, now)))
      ensures updated.Some? == !Broken(cls, old(file))
      ensures updated.Some? ==>
        && updated.value.id == Replacement(task, segment)
        && |file| == 1 && file[0].Snapshot? && file[0].activities != []
        && file[0].activities[|file[0].activities| - 1] == updated.value
    {
      hide Replay, NormalizeAll, OperationsSince, BytesSince, LastSequence, Normalize, CreatedAt, Without, DemotedAll,
        Repaired, Loadable, Performed, LogStep, Normalized;
      ghost var op := Replace(task, turn, segment, text, metadata, now);
      OpenedReads(file, loaded);
      if Broken(cls, file) { Fails(file, loaded, op); } else { Reads(file, loaded, op); }
      var ok := EnsureLoaded();
      if !ok { return None; }
      var current := ReadAll();
      if current.Err? { return None; }
      var id := Replacement(task, segment);
      var normalized := NormalizeAssistantText(cls, text);
      var replacement := Activity(id, task, true, normalized,
        metadata[TurnId := turn][SegmentId := segment][AssistantPhase := Final][AssistantReplacement := True],
        CreatedAt(current.value, id, now));
      ReplaceStep(file, op);
      ReplayedIsIntact(cls, file);
      WriteSnapshot(DemotedAll(Without(current.value, id), task, turn) + [replacement]);
      updated := Some(replacement);
    }

    lemma ReplaceStep(log: seq<Record>, op: Operation)
      requires Replay(cls, log).Ok? && op.Replace?
      ensures LogStep(cls, log, op) == [Snapshot(LastSequence(log), Replaced(cls, ActivityLog.Read(cls, log), op))]
      ensures Normalized(cls, Replaced(cls, ActivityLog.Read(cls, log), op))
    {
      hide *;
      ReplacedStep(cls, ActivityLog.Read(cls, log), op);
      SnapshotStep(cls, log, op);
      ReadIsNormalized(cls, log);
      ReplacedIsNormalized(cls, ActivityLog.Read(cls, log), op);
    }
  }

  lemma {:induction false} WithoutIsNormalized(cls: Classes, list: seq<Activity>, id: Id)
    requires Normalized(cls, list)
    ensures Normalized(cls, Without(list, id))
  {
    hide NormalizeActivity;
    if list != [] { WithoutIsNormalized(cls, list[..|list| - 1], id); }
  }

  lemma DemotedIsNormalized(cls: Classes, a: Activity, task: nat, turn: Value)
    requires NormalizeActivity(cls, a) == a
    ensures NormalizeActivity(cls, Demoted(a, task, turn)) == Demoted(a, task, turn)
  {
    hide Normalize;
  }

  lemma DemotedAreNormalized(cls: Classes, list: seq<Activity>, task: nat, turn: Value)
    requires Normalized(cls, list)
    ensures Normalized(cls, DemotedAll(list, task, turn))
  {
    hide NormalizeActivity, Demoted;
    forall i | 0 <= i < |list|
      ensures NormalizeActivity(cls, DemotedAll(list, task, turn)[i]) == DemotedAll(list, task, turn)[i]
    {
      DemotedIsNormalized(cls, list[i], task, turn);
    }
  }

  lemma ReplacedIsNormalized(cls: Classes, list: seq<Activity>, op: Operation)
    requires op.Replace? && Normalized(cls, list)
    ensures Normalized(cls, Replaced(cls, list, op))
  {
    var kept := Without(list, Replacement(op.task, op.segment));
    WithoutIsNormalized(cls, list, Replacement(op.task, op.segment));
    DemotedAreNormalized(cls, kept, op.task, op.turn);
    NormalizeIdempotent(cls, op.text);
    hide Normalize, Without, CreatedAt, DemotedAll;
  }
}
