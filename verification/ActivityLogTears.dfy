/** The activity log as the text of its file: operations interleaved with crashes that cut the file short
    (src/main/persistence/activity-log-store.ts). */
module ActivityLogTears {
  import opened StreamText
  import opened ActivityLog
  import opened ActivityLogRuns
  import opened ByteStrings
  import opened TornWrites

  /** The records written, and the text of the file. */
  datatype State = State(log: seq<Record>, text: seq<Byte>)

  datatype Event = Operate(op: Operation) | Tear(bytes: nat)

  ghost predicate IsCodec(c: Codec<Record>) {
    Faithful(c) && forall r :: c.number(r) == r.sequence && c.accepts(r) == Readable(r)
  }

  /** What reading the file leaves: a last record that is refused is dropped. */
  function Reread(c: Codec<Record>, s: State): State {
    State(Repaired(s.log), if Repaired(s.log) == s.log then s.text else Written(c, Repaired(s.log)))
  }

  /** The lines of the new records are appended. */
  predicate Appends(c: Codec<Record>, s: State, t: State) {
    s.log <= t.log && t.text == s.text + Written(c, t.log[|s.log|..])
  }

  /** Adding an activity appends its line; any other operation reads the file first, and rewrites it or appends the
      lines of its records. After a crash the file holds its first bytes, and the program loads them. */
  ghost predicate Step(c: Codec<Record>, cls: Classes, s: State, e: Event, t: State) {
    match e
    case Operate(op) =>
      && t.log == Perform(cls, s.log, op)
      && if op.Add? then Appends(c, s, t)
         else if Broken(cls, s.log) then t == s
         else if Rewrites(op) then t.text == Written(c, t.log)
         else Appends(c, Reread(c, s), t)
    case Tear(n) => n <= |s.text| && Loads(c, s.text[..n], t.log, t.text)
  }

  /** The file holds whole lines, of a log that replays once a last record that is refused is dropped. */
  ghost predicate Whole(c: Codec<Record>, cls: Classes, s: State) {
    s.text == Written(c, s.log) && Sequenced(s.log) && Sound(cls, Repaired(s.log))
  }

  // ---------- the records of such a log ----------

  lemma {:induction false} AllReadable(cls: Classes, log: seq<Record>)
    requires Replay(cls, log).Ok?
    ensures forall i :: 0 <= i < |log| ==> Readable(log[i])
  {
    hide Apply;
    if log != [] { AllReadable(cls, log[..|log| - 1]); }
  }

  /** What is left of a log cut after any record still replays. */
  lemma {:induction false} PrefixIsSound(cls: Classes, log: seq<Record>, n: nat)
    requires Sound(cls, log) && n <= |log|
    ensures Sound(cls, log[..n])
    decreases |log|
  {
    hide ReplayStep;
    if n == |log| {
      assert log[..n] == log;
    } else {
      var init := log[..|log| - 1];
      assert init[..n] == log[..n];
      PrefixIsSound(cls, init, n);
    }
  }

  lemma NumbersIncrease(c: Codec<Record>, log: seq<Record>)
    requires IsCodec(c) && Sequenced(log)
    ensures Numbered(c, log)
  {
    hide Faithful;
  }

  lemma AcceptedIsRepaired(c: Codec<Record>, log: seq<Record>)
    requires IsCodec(c)
    ensures Accepted(c, log) == Repaired(log)
  {
    hide Faithful;
  }

  lemma WholeIsIntact(c: Codec<Record>, cls: Classes, log: seq<Record>)
    requires IsCodec(c) && Sequenced(log) && Sound(cls, Repaired(log))
    ensures Numbered(c, log) && Intact(c, log)
  {
    NumbersIncrease(c, log);
    AllReadable(cls, Repaired(log));
    hide Faithful, Replay, Sequenced;
    forall i | 0 <= i < |log| - 1 ensures c.accepts(log[i]) { assert Repaired(log)[i] == log[i]; }
  }

  /** A load finds the records of such a file, but for a last one that is refused. */
  lemma WholeIsLoaded(c: Codec<Record>, cls: Classes, s: State)
    requires IsCodec(c) && Whole(c, cls, s)
    ensures Loads(c, s.text, Repaired(s.log), Written(c, Repaired(s.log)))
  {
    WholeIsIntact(c, cls, s.log);
    AcceptedIsRepaired(c, s.log);
    hide Faithful, Written, Loads, Numbered, Intact, Sequenced, Replay;
    WholeLoads(c, s.log);
  }

  // ---------- one operation ----------

  lemma OneMoreSequenced(log: seq<Record>, r: Record)
    requires Sequenced(log) && !r.Snapshot? && r.sequence == LastSequence(log) + 1
    ensures Sequenced(log + [r])
  {
  }

  /** An operation on a log that replays leaves one that does, or adds one refused record to it. */
  lemma LogStepIsWhole(cls: Classes, log: seq<Record>, op: Operation)
    requires Sound(cls, log)
    ensures Sequenced(LogStep(cls, log, op)) && Sound(cls, Repaired(LogStep(cls, log, op)))
  {
    hide Sequenced, Replay, LogStep, Unrecordable, Raw, Repaired;
    StepIsSoundIff(cls, log, op);
    if Unrecordable(Raw(cls, log), op) {
      UnrecordableCompletes(Raw(cls, log), op);
      UnrecordableIsRefused(cls, log, op);
      CompletionWritten(cls, log, op);
      OneMoreSequenced(log, SegmentCompleted(LastSequence(log) + 1, op.task, op.segment, op.phase, op.metadata));
    } else {
      ReplayedIsIntact(cls, LogStep(cls, log, op));
    }
  }

  lemma UnrecordableCompletes(list: seq<Activity>, op: Operation)
    requires Unrecordable(list, op)
    ensures op.Complete?
  {
  }

  lemma AppendedIsWritten(c: Codec<Record>, s: State, t: State)
    requires s.text == Written(c, s.log) && Appends(c, s, t)
    ensures t.text == Written(c, t.log)
  {
    assert t.log == s.log + t.log[|s.log|..];
    WrittenConcat(c, s.log, t.log[|s.log|..]);
  }

  lemma AllReadableIfReplayed(cls: Classes, log: seq<Record>, i: nat)
    requires i < |log| && !Readable(log[i])
    ensures Replay(cls, log).Err?
  {
    if Replay(cls, log).Ok? { AllReadable(cls, log); }
  }

  lemma AddedLog(cls: Classes, log: seq<Record>, a: Activity) returns (r: Record)
    ensures Perform(cls, log, Add(a)) == log + [r] && Repaired(log + [r]) == log + [r]
    ensures r == Append(LastSequence(log) + 1, NormalizeActivity(cls, a))
  {
    hide NormalizeActivity, LastSequence, Replay;
    r := Append(LastSequence(log) + 1, NormalizeActivity(cls, a));
  }

  /** Adding an activity right behind a refused record is what spoils the log. */
  lemma AddedIsSoundIff(cls: Classes, log: seq<Record>, a: Activity)
    requires Sequenced(log) && Sound(cls, Repaired(log))
    ensures var after := Perform(cls, log, Add(a));
      Sequenced(after) && (Sound(cls, Repaired(after)) <==> Repaired(log) == log)
  {
    var r := AddedLog(cls, log, a);
    OneMoreSequenced(log, r);
    hide Sequenced, Replay, Perform, LogStep;
    if Repaired(log) == log {
      AddReplays(cls, log, a);
      PerformIsStep(cls, log, Add(a));
    } else {
      AllReadableIfReplayed(cls, log + [r], |log| - 1);
    }
  }

  lemma AddKeepsIff(c: Codec<Record>, cls: Classes, s: State, a: Activity, t: State)
    requires Whole(c, cls, s) && Step(c, cls, s, Operate(Add(a)), t)
    ensures t.text == Written(c, t.log) && (Whole(c, cls, t) <==> Repaired(s.log) == s.log)
  {
    hide Written, Sequenced, Replay, Repaired, Perform;
    AppendedIsWritten(c, s, t);
    AddedIsSoundIff(cls, s.log, a);
  }

  lemma OtherKeeps(c: Codec<Record>, cls: Classes, s: State, op: Operation, t: State)
    requires IsCodec(c) && Whole(c, cls, s) && Step(c, cls, s, Operate(op), t) && !op.Add?
    ensures Whole(c, cls, t)
  {
    hide IsCodec, Written, Sequenced, Replay, LogStep, Repaired;
    assert t.log == LogStep(cls, Repaired(s.log), op);
    LogStepIsWhole(cls, Repaired(s.log), op);
    if !Rewrites(op) { AppendedIsWritten(c, Reread(c, s), t); }
  }

  // ---------- one crash ----------

  /** A crash leaves the records whose lines survive, but for a last one that is refused; and whole lines exactly
      when the file was not cut right before the newline of a record that is accepted. */
  lemma TearKeepsIff(c: Codec<Record>, cls: Classes, s: State, n: nat, t: State)
    requires IsCodec(c) && Whole(c, cls, s) && Step(c, cls, s, Tear(n), t)
    ensures t.log == Repaired(s.log[..Survivors(c, s.log, n)]) && Sound(cls, t.log)
    ensures Whole(c, cls, t) <==> !BeforeNewline(c, s.log, n)
  {
    WholeIsIntact(c, cls, s.log);
    AcceptedIsRepaired(c, s.log[..Survivors(c, s.log, n)]);
    hide Faithful, Written, Loads, Survivors, BeforeNewline, Sequenced, Replay, Numbered, Intact;
    var after := TornLoad(c, s.log, n);
    LoadsOneWay(c, s.text[..n], t.log, t.text, Survived(c, s.log, n), after);
    SurvivedIsSound(cls, s.log, Survivors(c, s.log, n));
    ReplayedIsIntact(cls, t.log);
    if BeforeNewline(c, s.log, n) { assert |after + [NEWLINE]| == |after| + 1; }
  }

  lemma SurvivedIsSound(cls: Classes, log: seq<Record>, m: nat)
    requires Sound(cls, Repaired(log)) && m <= |log|
    ensures Sound(cls, Repaired(log[..m]))
  {
    if m == |log| {
      assert log[..m] == log;
    } else {
      assert log[..m] == Repaired(log)[..m];
      PrefixIsSound(cls, Repaired(log), m);
      ReplayedIsIntact(cls, log[..m]);
    }
  }

  /** Once records were appended after a cut right before a newline, a load is refused, or has lost the last survivor
      along with the one record that was appended. */
  lemma AppendIsRefused(c: Codec<Record>, cls: Classes, s: State, n: nat, t: State, op: Operation, u: State)
    requires IsCodec(c) && Whole(c, cls, s) && Step(c, cls, s, Tear(n), t) && BeforeNewline(c, s.log, n)
    requires Step(c, cls, t, Operate(op), u) && !Rewrites(op) && u.log != t.log
    ensures t.log != []
    ensures forall loaded, kept :: Loads(c, u.text, loaded, kept) ==>
      |u.log| == |t.log| + 1 && loaded == t.log[..|t.log| - 1]
  {
    hide *;
    StepParts(c, cls, s, n, t, op, u);
    TearKeepsIff(c, cls, s, n, t);
    WholeIsIntact(c, cls, s.log);
    AcceptedIsRepaired(c, s.log[..Survivors(c, s.log, n)]);
    SurvivedIs(c, s.log, n);
    LogStepIsWhole(cls, t.log, op);
    WholeIsIntact(c, cls, u.log);
    var more := u.log[|t.log|..];
    assert u.log == t.log + more;
    TailIsIntact(c, t.log, more);
    AppendAfterTear(c, s.log, n, t.text, more);
  }

  lemma SurvivedIs(c: Codec<Record>, log: seq<Record>, n: nat)
    ensures Survived(c, log, n) == Accepted(c, log[..Survivors(c, log, n)])
  {
  }

  lemma TailIsIntact(c: Codec<Record>, log: seq<Record>, more: seq<Record>)
    requires Intact(c, log + more)
    ensures Intact(c, more)
  {
    forall i | 0 <= i < |more| - 1 ensures c.accepts(more[i]) { assert (log + more)[|log| + i] == more[i]; }
  }

  lemma StepParts(c: Codec<Record>, cls: Classes, s: State, n: nat, t: State, op: Operation, u: State)
    requires IsCodec(c) && Whole(c, cls, s) && Step(c, cls, s, Tear(n), t)
    requires Step(c, cls, t, Operate(op), u) && !Rewrites(op)
    ensures Faithful(c) && s.text == Written(c, s.log) && Sequenced(s.log) && Sound(cls, Repaired(s.log))
    ensures n <= |s.text| && Loads(c, s.text[..n], t.log, t.text)
    ensures Sound(cls, t.log) && u.log == LogStep(cls, t.log, op)
    ensures t.log <= u.log && u.text == t.text + Written(c, u.log[|t.log|..])
  {
    hide Faithful, Written, Loads, LogStep, Sequenced, Replay, Perform;
    TearKeepsIff(c, cls, s, n, t);
    ReplayedIsIntact(cls, t.log);
    PerformIsStep(cls, t.log, op);
  }

  /** The completion of an unnamed segment in the file: a load drops its line and leaves the file as it was before;
      once an activity was added behind it, no load is possible. */
  lemma UnnamedCompletionInFile(c: Codec<Record>, cls: Classes, s: State, op: Operation, t: State, a: Activity,
      u: State)
    requires IsCodec(c) && Whole(c, cls, s) && Sound(cls, s.log) && Unrecordable(Raw(cls, s.log), op)
    requires Step(c, cls, s, Operate(op), t) && Step(c, cls, t, Operate(Add(a)), u)
    ensures t.log != s.log && Loads(c, t.text, s.log, s.text)
    ensures forall loaded, kept :: !Loads(c, u.text, loaded, kept)
  {
    hide Faithful, Written, Loads, LogStep, Sequenced, Replay, Perform, Unrecordable, Raw, NormalizeActivity, Accepted;
    UnrecordableCompletes(Raw(cls, s.log), op);
    PerformIsStep(cls, s.log, op);
    UnrecordableIsRefused(cls, s.log, op);
    OtherKeeps(c, cls, s, op, t);
    WholeIsLoaded(c, cls, t);
    var r := AddedLog(cls, t.log, a);
    AddKeepsIff(c, cls, t, a, u);
    RefusedRecord(c, u.log, |t.log| - 1);
  }

  // ---------- runs ----------

  ghost predicate IsRun(c: Codec<Record>, cls: Classes, states: seq<State>, events: seq<Event>) {
    && |states| == |events| + 1 && states[0] == State([], [])
    && forall k :: 0 <= k < |events| ==> Step(c, cls, states[k], events[k], states[k + 1])
  }

  /** No activity is added right behind a refused record, and no crash cuts the file right before the newline of one
      that is accepted. */
  ghost predicate Harmless(c: Codec<Record>, s: State, e: Event) {
    match e
    case Operate(op) => op.Add? ==> Repaired(s.log) == s.log
    case Tear(n) => !BeforeNewline(c, s.log, n)
  }

  lemma StepKeepsIff(c: Codec<Record>, cls: Classes, s: State, e: Event, t: State)
    requires IsCodec(c) && Whole(c, cls, s) && Step(c, cls, s, e, t)
    ensures Whole(c, cls, t) <==> Harmless(c, s, e)
  {
    hide Step, Whole, BeforeNewline, IsCodec, Repaired;
    match e
    case Operate(op) =>
      if op.Add? { AddKeepsIff(c, cls, s, op.activity, t); } else { OtherKeeps(c, cls, s, op, t); }
    case Tear(n) => TearKeepsIff(c, cls, s, n, t);
  }

  lemma {:induction false} WholeUpTo(c: Codec<Record>, cls: Classes, states: seq<State>, events: seq<Event>, n: nat)
    requires IsCodec(c) && IsRun(c, cls, states, events) && n <= |events|
    requires forall k :: 0 <= k < n ==> Harmless(c, states[k], events[k])
    ensures Whole(c, cls, states[n])
  {
    hide Step, Harmless, IsCodec;
    if n == 0 {
      NothingIsWhole(c, cls);
    } else {
      WholeUpTo(c, cls, states, events, n - 1);
      hide Whole;
      StepKeepsIff(c, cls, states[n - 1], events[n - 1], states[n]);
    }
  }

  lemma NothingIsWhole(c: Codec<Record>, cls: Classes)
    ensures Whole(c, cls, State([], []))
  {
  }

  /** At every point of a run of operations and crashes the file holds whole lines of a log that loads, if and only if
      no crash cut it right before the newline of an accepted record and no activity was added right behind a refused
      one. */
  lemma RunStaysWhole(c: Codec<Record>, cls: Classes, states: seq<State>, events: seq<Event>)
    requires IsCodec(c) && IsRun(c, cls, states, events)
    ensures (forall k :: 0 <= k < |states| ==> Whole(c, cls, states[k]))
      <==> (forall k :: 0 <= k < |events| ==> Harmless(c, states[k], events[k]))
  {
    hide Step, Harmless, IsCodec, Whole;
    if forall k :: 0 <= k < |events| ==> Harmless(c, states[k], events[k]) {
      forall k | 0 <= k < |states| ensures Whole(c, cls, states[k]) { WholeUpTo(c, cls, states, events, k); }
    } else {
      var k :| 0 <= k < |events| && !Harmless(c, states[k], events[k]);
      if Whole(c, cls, states[k]) {
        StepKeepsIff(c, cls, states[k], events[k], states[k + 1]);
        assert !Whole(c, cls, states[k + 1]);
      }
    }
  }
}
