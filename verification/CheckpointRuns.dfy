/** Whole runs of the checkpoint service of one workspace: the steps its per-workspace queue
    makes atomic, and what every run keeps (src/main/checkpoints/checkpoint-service.ts). */
module CheckpointRuns {
  import opened Options
  import opened CheckpointTypes
  import opened CheckpointObjectStore
  import opened CheckpointDiff
  import opened CheckpointUndo
  import opened CheckpointStore

  /** The workspace on disk, the turns in memory, the journal and the objects. */
  datatype State = State(files: Workspace, active: map<Name, Record>, journal: seq<Line>, objects: Objects)

  /** What a caller of undo is told. */
  datatype Reply = NoCheckpoint | NotReady(state: RecordState) | ReadFailed | Finished(outcome: Outcome)

  datatype Event =
    | Edited(files: Workspace)
    | TurnStarted(session: Name, task: Name, turn: Name, id: nat, at: int)
    | TurnEnded(session: Name, turn: Name, now: int, stuck: set<Hash>)
    | HostRequested(session: Name, after: Workspace, mutations: seq<Mutation>)
    | UndoRequested(task: Name, turn: Name, faults: Faults, recoveryId: nat, at: int, now: int, stuck: set<Hash>)

  // ---------- the steps ----------

  function StartedRecord(e: Event): Record
    requires e.TurnStarted?
  {
    Record(e.id, Turn, e.task, Some(e.session), e.turn, e.at, Active, [], None)
  }

  function Start(s: State, e: Event): State
    requires e.TurnStarted?
  {
    s.(active := s.active[e.session := StartedRecord(e)])
  }

  /** A host request bracketed by two scans; with no active turn or no difference nothing is recorded. */
  function Host(s: State, e: Event): State
    requires e.HostRequested?
  {
    if e.session !in s.active || e.mutations == [] then s.(files := e.after)
    else
      var r := s.active[e.session];
      var r' := r.(mutations := r.mutations + e.mutations);
      State(e.after, s.active[e.session := r'], s.journal + [Whole(r')], PutAll(s.objects, Hashes(e.mutations)))
  }

  ghost function Collected(s: State, now: int, stuck: set<Hash>): State {
    s.(journal := GcJournal(s.journal, s.objects, now), objects := GcObjects(s.journal, s.objects, now, stuck))
  }

  ghost function End(s: State, e: Event): State
    requires e.TurnEnded?
  {
    if e.session !in s.active || s.active[e.session].turnId != e.turn then s
    else
      var r := s.active[e.session];
      var journal := if r.mutations == [] then s.journal else Lines(Records(s.journal + [Whole(r.(state := Ready))]));
      Collected(s.(active := s.active - {e.session}, journal := journal), e.now, e.stuck)
  }

  function FindTurn(rs: seq<Record>, task: Name, turn: Name): (r: Option<Record>)
    ensures r.Some? ==> r.value in rs && r.value.kind == Turn && r.value.taskId == task && r.value.turnId == turn
    ensures r.None? ==> forall x :: x in rs ==> !(x.kind == Turn && x.taskId == task && x.turnId == turn)
  {
    if rs == [] then None
    else if rs[0].kind == Turn && rs[0].taskId == task && rs[0].turnId == turn then Some(rs[0])
    else FindTurn(rs[1..], task, turn)
  }

  /** The turn found is the first one of that task and turn. */
  lemma {:induction false} FindTurnIsFirst(rs: seq<Record>, task: Name, turn: Name)
    ensures FindTurn(rs, task, turn).Some? ==>
      exists i :: 0 <= i < |rs| && rs[i] == FindTurn(rs, task, turn).value
        && forall j :: 0 <= j < i ==> !(rs[j].kind == Turn && rs[j].taskId == task && rs[j].turnId == turn)
  {
    if rs != [] && !(rs[0].kind == Turn && rs[0].taskId == task && rs[0].turnId == turn) {
      FindTurnIsFirst(rs[1..], task, turn);
      if FindTurn(rs[1..], task, turn).Some? {
        var i :| 0 <= i < |rs[1..]| && rs[1..][i] == FindTurn(rs[1..], task, turn).value
          && forall j :: 0 <= j < i ==>
            !(rs[1..][j].kind == Turn && rs[1..][j].taskId == task && rs[1..][j].turnId == turn);
        assert rs[i + 1] == FindTurn(rs, task, turn).value;
        forall j | 0 <= j < i + 1 ensures !(rs[j].kind == Turn && rs[j].taskId == task && rs[j].turnId == turn) {
          if j > 0 { assert rs[1..][j - 1] == rs[j]; }
        }
      }
    } else if rs != [] {
      assert rs[0] == FindTurn(rs, task, turn).value;
    }
  }

  /** The recovery record's mutations: the current entry of every tracked path. */
  function RecoveryMutations(ws: Workspace, paths: seq<Path>): seq<Mutation> {
    if paths == [] then []
    else
      var n := |paths| - 1;
      var p := paths[n];
      RecoveryMutations(ws, paths[..n])
      + [Mutation(n, if p in ws then Created else Deleted, p, None, None, EntryAt(ws, p))]
  }

  lemma {:induction false} ApplyOneMore(ws: Workspace, ms: seq<Mutation>, m: Mutation)
    ensures ApplyAll(ws, ms + [m]) == Apply(ApplyAll(ws, ms), m)
    decreases |ms|
  {
    hide Apply;
    if ms == [] {
      assert [] + [m] == [m] && [m][1..] == [];
      assert ApplyAll(Apply(ws, m), []) == Apply(ws, m);
    } else {
      assert (ms + [m])[1..] == ms[1..] + [m];
      ApplyOneMore(Apply(ws, ms[0]), ms[1..], m);
    }
  }

  /** Applied to any workspace, the recovery record's mutations bring back the entries it was made from. */
  lemma {:induction false} RecoveryRebuilds(ws: Workspace, other: Workspace, paths: seq<Path>, p: Path)
    ensures At(ApplyAll(other, RecoveryMutations(ws, paths)), p) == if p in paths then At(ws, p) else At(other, p)
  {
    if paths != [] {
      var init, last := paths[..|paths| - 1], paths[|paths| - 1];
      assert paths == init + [last];
      RecoveryRebuilds(ws, other, init, p);
      var m := Mutation(|init|, if last in ws then Created else Deleted, last, None, None, EntryAt(ws, last));
      ApplyOneMore(other, RecoveryMutations(ws, init), m);
    }
  }

  function RecoveryRecord(s: State, e: Event, source: Record): Record
    requires e.UndoRequested?
  {
    Record(e.recoveryId, Recovery, source.taskId, None, source.turnId, e.at, InRecovery,
           RecoveryMutations(Seen(s.files, e.faults), UniqueMutationPaths(source.mutations)), Some(source.id))
  }

  ghost function UndoReply(s: State, e: Event): Reply
    requires e.UndoRequested?
  {
    var found := FindTurn(Records(s.journal), e.task, e.turn);
    if found.None? then NoCheckpoint
    else if found.value.state != Ready then NotReady(found.value.state)
    else if Refuses(found.value.mutations, e.faults) then ReadFailed
    else Finished(UndoResult(s.files, s.objects, e.faults, found.value.mutations).1)
  }

  /** What undoing a ready record leaves, for the workspace and the outcome of it. */
  ghost function Undoing(s: State, e: Event, r: Record, files: Workspace, outcome: Outcome): State
    requires e.UndoRequested?
  {
    if outcome.Conflict? then
      s.(journal := s.journal + [Whole(r.(state := RecordState.Conflict))])
    else
      var recovery := RecoveryRecord(s, e, r);
      var objects := PutAll(s.objects, Hashes(recovery.mutations));
      var state := if outcome.Undone? then RecordState.Undone else RecordState.Failed;
      var journal := s.journal + [Whole(recovery)] + [Whole(r.(state := state))] + [Whole(recovery.(state := state))];
      if outcome.Undone? then
        Collected(State(files, s.active, Lines(Records(journal)), objects), e.now, e.stuck)
      else
        State(files, s.active, journal, objects)
  }

  ghost function Undo(s: State, e: Event): State
    requires e.UndoRequested?
  {
    var reply := UndoReply(s, e);
    if !reply.Finished? then s
    else
      var r := FindTurn(Records(s.journal), e.task, e.turn).value;
      Undoing(s, e, r, UndoResult(s.files, s.objects, e.faults, r.mutations).0, reply.outcome)
  }

  predicate Refuses(ms: seq<Mutation>, f: Faults) { exists p :: p in Touched(ms) && p in f.refused }

  /** Undo of a record that is ready, case by case. */
  lemma UndoCases(s: State, e: Event, r: Record)
    requires e.UndoRequested? && FindTurn(Records(s.journal), e.task, e.turn) == Some(r) && r.state == Ready
    ensures Refuses(r.mutations, e.faults) ==> UndoReply(s, e) == ReadFailed && Undo(s, e) == s
    ensures !Refuses(r.mutations, e.faults) ==>
      var result := UndoResult(s.files, s.objects, e.faults, r.mutations);
      UndoReply(s, e) == Finished(result.1) && Undo(s, e) == Undoing(s, e, r, result.0, result.1)
  {
    hide Records, UndoResult, RecoveryRecord, Collected, Lines, Hashes, PutAll, FindTurn;
  }

  lemma UndoRefused(s: State, e: Event)
    requires e.UndoRequested?
    ensures !UndoReply(s, e).Finished? ==> Undo(s, e) == s
    ensures UndoReply(s, e).Finished? ==>
      var r := FindTurn(Records(s.journal), e.task, e.turn); r.Some? && r.value.state == Ready
  {
    hide Records, UndoResult, FindTurn;
  }

  ghost function Step(s: State, e: Event): State {
    match e
    case Edited(files) => s.(files := files)
    case TurnStarted(_, _, _, _, _) => Start(s, e)
    case TurnEnded(_, _, _, _) => End(s, e)
    case HostRequested(_, _, _) => Host(s, e)
    case UndoRequested(_, _, _, _, _, _, _) => Undo(s, e)
  }

  // ---------- runs ----------

  /** A state together with the host requests recorded for each turn so far. */
  datatype Config = Config(state: State, history: map<nat, seq<Bracket>>)

  /** Identifiers are new, and a request's mutations are the exact diff of its two scans. */
  ghost predicate Allowed(c: Config, e: Event) {
    match e
    case TurnStarted(_, _, _, id, _) => id !in c.history && NewId(Records(c.state.journal), id)
    case HostRequested(_, after, mutations) => ExactDiff(c.state.files, after, mutations)
    case UndoRequested(_, _, _, id, _, _, _) => id !in c.history && NewId(Records(c.state.journal), id)
    case _ => true
  }

  ghost function Next(c: Config, e: Event): Config {
    var history :=
      if e.TurnStarted? then c.history[e.id := []]
      else if e.HostRequested? && e.session in c.state.active && e.mutations != [] then
        var id := c.state.active[e.session].id;
        var bracket := Bracket(c.state.files, e.after, e.mutations);
        c.history[id := (if id in c.history then c.history[id] else []) + [bracket]]
      else c.history;
    Config(Step(c.state, e), history)
  }

  ghost predicate ValidRun(c: Config, es: seq<Event>)
    decreases |es|
  {
    es == [] || (Allowed(c, es[0]) && ValidRun(Next(c, es[0]), es[1..]))
  }

  ghost function Run(c: Config, es: seq<Event>): Config
    decreases |es|
  {
    if es == [] then c else Run(Next(c, es[0]), es[1..])
  }

  /** A service newly created for a workspace without checkpoints. */
  function Initial(files: Workspace): Config { Config(State(files, map[], [], map[]), map[]) }

  // ---------- the invariant ----------

  /** Every record that can be read has both sides of all its mutations stored. */
  ghost predicate Complete(s: State) {
    forall r :: r in Records(s.journal) ==> Hashes(r.mutations) <= s.objects.Keys
  }

  /** A turn in memory is journalled as active as soon as it has a mutation. */
  ghost predicate Mirrored(s: State) {
    && (forall n :: n in s.active ==>
          var r := s.active[n];
          && r.kind == Turn && r.state == Active
          && (if r.mutations == [] then NewId(Records(s.journal), r.id) else r in Records(s.journal)))
    && (forall m, n :: m in s.active && n in s.active && m != n ==> s.active[m].id != s.active[n].id)
  }

  ghost predicate BuiltFrom(r: Record, history: map<nat, seq<Bracket>>) {
    r.id in history && ValidTurn(history[r.id]) && r.mutations == Recorded(history[r.id])
  }

  /** Every turn is the record of a sequence of bracketed requests. */
  ghost predicate Historical(c: Config) {
    && (forall r :: r in Records(c.state.journal) && r.kind == Turn ==> BuiltFrom(r, c.history))
    && (forall r :: r in Records(c.state.journal) && r.kind == Recovery ==> r.id !in c.history)
    && (forall n :: n in c.state.active ==> BuiltFrom(c.state.active[n], c.history))
  }

  ghost predicate Inv(c: Config) {
    Sound(c.state.objects) && Complete(c.state) && Mirrored(c.state) && Historical(c)
  }

  // ---------- how the records change ----------

  lemma AppendedRecords(journal: seq<Line>, r: Record)
    ensures forall x :: x in Records(journal + [Whole(r)]) <==> x == r || (x in Records(journal) && x.id != r.id)
  {
    RecordsMembers(journal);
    RecordsMembers(journal + [Whole(r)]);
    assert (journal + [Whole(r)])[..|journal|] == journal;
  }

  lemma UniqueRecord(journal: seq<Line>, x: Record, y: Record)
    requires x in Records(journal) && y in Records(journal) && x.id == y.id
    ensures x == y
  {
    RecordsMembers(journal);
  }

  lemma CollectedRecords(journal: seq<Line>, o: Objects, now: int, stuck: set<Hash>)
    ensures forall x :: x in Records(GcJournal(journal, o, now)) ==> x in Records(journal)
    ensures forall x :: x in Records(journal) && Unfinished(x) ==> x in Records(GcJournal(journal, o, now))
    ensures forall x :: x in Records(GcJournal(journal, o, now)) && Hashes(x.mutations) <= o.Keys
              ==> Hashes(x.mutations) <= GcObjects(journal, o, now, stuck).Keys
  {
    hide UniqueIds, Retained, Sort, Lines, Hashes, AllHashes, UnfinishedOf, SetBytes;
    var rs := Records(journal);
    var g := Retained(rs, now, SizesOf(o));
    RecordsMembers(journal);
    GcRetention(rs, now, SizesOf(o));
    RewrittenRecords(g.kept);
    SortMembers(g.kept, false);
    FilterMembers(rs, now);
    forall x | x in Records(GcJournal(journal, o, now)) ensures x in rs && Hashes(x.mutations) <= g.referenced {
      assert x in g.kept;
      AllHashesContain(g.kept, x);
      assert g.kept == UnfinishedOf(rs) + g.kept[|UnfinishedOf(rs)|..];
    }
  }

  lemma CollectedObjects(journal: seq<Line>, o: Objects, now: int, stuck: set<Hash>)
    requires Sound(o)
    ensures Sound(GcObjects(journal, o, now, stuck))
  {
  }

  /** Garbage collection keeps the invariant: what it keeps stays complete, and a turn still in
      memory is journalled as active, so it is kept. */
  lemma CollectKeepsInv(c: Config, now: int, stuck: set<Hash>)
    requires Inv(c)
    ensures Inv(c.(state := Collected(c.state, now, stuck)))
  {
    hide Hashes, ValidTurn, Recorded, GcObjects, GcJournal, Records;
    CollectedRecords(c.state.journal, c.state.objects, now, stuck);
    CollectedObjects(c.state.journal, c.state.objects, now, stuck);
  }

  lemma CompactKeepsInv(c: Config)
    requires Inv(c)
    ensures Inv(c.(state := c.state.(journal := Lines(Records(c.state.journal)))))
  {
    hide Hashes, ValidTurn, Recorded, Records, Lines;
    CompactKeepsRecords(c.state.journal);
  }

  // ---------- each step keeps the invariant ----------

  lemma StartKeepsInv(c: Config, e: Event)
    requires Inv(c) && e.TurnStarted? && Allowed(c, e)
    ensures Inv(Next(c, e))
  {
    hide Mirrored, Complete, Historical, Sound;
    StartKeepsHistory(c, e);
    StartKeepsMirror(c, e);
    StartKeepsComplete(c, e);
  }

  lemma StartKeepsHistory(c: Config, e: Event)
    requires Historical(c) && e.TurnStarted? && Allowed(c, e)
    ensures Historical(Next(c, e))
  {
    hide Records, ValidTurn;
    var c' := Next(c, e);
    StartedHistory(c, e);
    hide BuiltFrom;
    forall r | r in Records(c.state.journal) && r.kind == Recovery ensures r.id !in c'.history { NotNew(c, e, r); }
  }

  lemma StartedHistory(c: Config, e: Event)
    requires e.TurnStarted? && e.id !in c.history
    ensures BuiltFrom(StartedRecord(e), Next(c, e).history)
    ensures forall r :: BuiltFrom(r, c.history) ==> BuiltFrom(r, Next(c, e).history)
  {
    hide Records;
    assert Recorded([]) == [];
  }

  lemma NotNew(c: Config, e: Event, r: Record)
    requires e.TurnStarted? && NewId(Records(c.state.journal), e.id) && r in Records(c.state.journal)
    ensures r.id != e.id
  {
    hide Records;
  }

  lemma StartKeepsMirror(c: Config, e: Event)
    requires Mirrored(c.state) && Historical(c) && e.TurnStarted? && Allowed(c, e)
    ensures Mirrored(Next(c, e).state)
  {
    hide Records, ValidTurn, Recorded;
    forall n | n in c.state.active ensures c.state.active[n].id != e.id {
      assert BuiltFrom(c.state.active[n], c.history);
    }
  }

  lemma StartKeepsComplete(c: Config, e: Event)
    requires Complete(c.state) && Sound(c.state.objects) && e.TurnStarted?
    ensures Complete(Next(c, e).state) && Sound(Next(c, e).state.objects)
  {
    hide Records, Hashes;
  }

  lemma {:induction false} RecordedAppend(rs: seq<Bracket>, b: Bracket)
    ensures Recorded(rs + [b]) == Recorded(rs) + b.mutations
    ensures ValidTurn(rs) && ExactDiff(b.before, b.after, b.mutations) ==> ValidTurn(rs + [b])
  {
    if rs == [] {
      assert Recorded([b]) == b.mutations + Recorded([b][1..]) == b.mutations;
      assert [] + [b] == [b];
    } else {
      assert (rs + [b])[1..] == rs[1..] + [b];
      RecordedAppend(rs[1..], b);
    }
  }

  lemma HostKeepsHistory(c: Config, e: Event)
    requires Historical(c) && Mirrored(c.state) && e.HostRequested? && Allowed(c, e)
    requires e.session in c.state.active && e.mutations != []
    ensures Historical(Next(c, e))
  {
    hide Hashes, Records, ExactDiff;
    var r := c.state.active[e.session];
    var c' := Next(c, e);
    var r' := c'.state.active[e.session];
    AppendedRecords(c.state.journal, r');
    RecordedAppend(c.history[r.id], Bracket(c.state.files, e.after, e.mutations));
    assert BuiltFrom(r', c'.history);
    forall x | BuiltFrom(x, c.history) && x.id != r.id ensures BuiltFrom(x, c'.history) {}
  }

  lemma HostKeepsMirror(c: Config, e: Event)
    requires Mirrored(c.state) && e.HostRequested?
    requires e.session in c.state.active && e.mutations != []
    ensures Mirrored(Next(c, e).state)
  {
    hide Hashes, Records;
    var r := c.state.active[e.session];
    AppendedRecords(c.state.journal, r.(mutations := r.mutations + e.mutations));
  }

  lemma HostKeepsComplete(c: Config, e: Event)
    requires Inv(c) && e.HostRequested?
    requires e.session in c.state.active && e.mutations != []
    ensures Complete(Next(c, e).state) && Sound(Next(c, e).state.objects)
  {
    hide Hashes, Records;
    var r := c.state.active[e.session];
    var r' := r.(mutations := r.mutations + e.mutations);
    AppendedRecords(c.state.journal, r');
    HashesConcat(r.mutations, e.mutations);
    assert Hashes(r.mutations) <= c.state.objects.Keys by { NoHashes(r.mutations); }
  }

  lemma NoHashes(ms: seq<Mutation>)
    ensures ms == [] ==> Hashes(ms) == {}
  {
  }

  lemma HostKeepsInv(c: Config, e: Event)
    requires Inv(c) && e.HostRequested? && Allowed(c, e)
    ensures Inv(Next(c, e))
  {
    hide Mirrored, Complete, Historical, Sound;
    if e.session in c.state.active && e.mutations != [] {
      HostKeepsHistory(c, e);
      HostKeepsMirror(c, e);
      HostKeepsComplete(c, e);
    } else {
      FilesIrrelevant(c, e.after);
    }
  }

  lemma FilesIrrelevant(c: Config, files: Workspace)
    requires Inv(c)
    ensures Inv(c.(state := c.state.(files := files)))
  {
  }

  /** Marking a journalled turn changes its state only. */
  lemma MarkKeepsInv(c: Config, r: Record, state: RecordState)
    requires Inv(c) && r in Records(c.state.journal) && r.kind == Turn
    requires forall n :: n in c.state.active ==> c.state.active[n].id != r.id
    ensures Inv(c.(state := c.state.(journal := c.state.journal + [Whole(r.(state := state))])))
    ensures r.(state := state) in Records(c.state.journal + [Whole(r.(state := state))])
  {
    hide Hashes, Records, ValidTurn, Recorded;
    AppendedRecords(c.state.journal, r.(state := state));
    assert BuiltFrom(r.(state := state), c.history) by { assert BuiltFrom(r, c.history); }
  }

  /** Dropping a turn from memory. */
  lemma ForgetKeepsInv(c: Config, session: Name)
    requires Inv(c)
    ensures Inv(c.(state := c.state.(active := c.state.active - {session})))
  {
  }

  lemma EndKeepsInv(c: Config, e: Event)
    requires Inv(c) && e.TurnEnded?
    ensures Inv(Next(c, e))
  {
    var s := c.state;
    if e.session in s.active && s.active[e.session].turnId == e.turn {
      var r := s.active[e.session];
      var c1 := c.(state := s.(active := s.active - {e.session}));
      ForgetKeepsInv(c, e.session);
      EndReady(c, c1, e);
      hide Inv, Records, Lines;
      if r.mutations == [] {
        CollectKeepsInv(c1, e.now, e.stuck);
      } else {
        var c2 := c1.(state := c1.state.(journal := s.journal + [Whole(r.(state := Ready))]));
        CompactKeepsInv(c2);
        CollectKeepsInv(c2.(state := c2.state.(journal := Lines(Records(c2.state.journal)))), e.now, e.stuck);
      }
    }
  }

  lemma EndReady(c: Config, c1: Config, e: Event)
    requires Inv(c) && Inv(c1) && e.TurnEnded? && e.session in c.state.active
    requires c1 == c.(state := c.state.(active := c.state.active - {e.session}))
    ensures var r := c.state.active[e.session];
            r.mutations != [] ==> Inv(c1.(state := c1.state.(journal := c.state.journal + [Whole(r.(state := Ready))])))
  {
    hide Records, Hashes, ValidTurn, Recorded;
    var r := c.state.active[e.session];
    if r.mutations != [] { MarkKeepsInv(c1, r, Ready); }
  }

  lemma {:induction false} RecoveryHashes(ws: Workspace, paths: seq<Path>)
    ensures Hashes(RecoveryMutations(ws, paths)) == CurrentHashes(ws, set p | p in paths)
  {
    if paths != [] {
      var n := |paths| - 1;
      var p := paths[n];
      RecoveryHashes(ws, paths[..n]);
      assert paths == paths[..n] + [p];
      var m := Mutation(n, if p in ws then Created else Deleted, p, None, None, EntryAt(ws, p));
      HashesConcat(RecoveryMutations(ws, paths[..n]), [m]);
      assert Hashes([m]) == EntryHash(m.before) + EntryHash(m.after) + Hashes([m][1..]);
    }
  }

  /** Appending a recovery record whose objects have been stored. */
  lemma RecoveryKeepsInv(c: Config, recovery: Record)
    requires Inv(c) && recovery.kind == Recovery && recovery.id !in c.history
    requires NewId(Records(c.state.journal), recovery.id)
    ensures Inv(c.(state := c.state.(journal := c.state.journal + [Whole(recovery)],
                                     objects := PutAll(c.state.objects, Hashes(recovery.mutations)))))
    ensures recovery in Records(c.state.journal + [Whole(recovery)])
  {
    hide Hashes, Records, ValidTurn, Recorded;
    AppendedRecords(c.state.journal, recovery);
  }

  lemma MarkRecoveryKeepsInv(c: Config, recovery: Record, state: RecordState)
    requires Inv(c) && recovery in Records(c.state.journal) && recovery.kind == Recovery
    ensures Inv(c.(state := c.state.(journal := c.state.journal + [Whole(recovery.(state := state))])))
  {
    hide Hashes, Records, ValidTurn, Recorded;
    AppendedRecords(c.state.journal, recovery.(state := state));
    forall n | n in c.state.active ensures c.state.active[n].id != recovery.id {
      assert BuiltFrom(c.state.active[n], c.history);
    }
  }

  lemma ReadyIsNotInMemory(c: Config, r: Record)
    requires Inv(c) && r in Records(c.state.journal) && r.state == Ready
    ensures forall n :: n in c.state.active ==> c.state.active[n].id != r.id
  {
    hide Records, Hashes, ValidTurn, Recorded;
    forall n | n in c.state.active ensures c.state.active[n].id != r.id {
      var a := c.state.active[n];
      if a.id == r.id && a.mutations != [] { UniqueRecord(c.state.journal, a, r); }
    }
  }

  lemma UndoKeepsInv(c: Config, e: Event)
    requires Inv(c) && e.UndoRequested? && Allowed(c, e)
    ensures Inv(Next(c, e))
  {
    hide Inv, Records, Lines, UndoResult, RecoveryMutations, Hashes;
    var s := c.state;
    var reply := UndoReply(s, e);
    if reply.Finished? {
      var r := FindTurn(Records(s.journal), e.task, e.turn).value;
      ReadyIsNotInMemory(c, r);
      if reply.outcome.Conflict? {
        MarkKeepsInv(c, r, RecordState.Conflict);
      } else {
        var recovery := RecoveryRecord(s, e, r);
        var state := if reply.outcome.Undone? then RecordState.Undone else RecordState.Failed;
        var journal, objects := s.journal + [Whole(recovery)], PutAll(s.objects, Hashes(recovery.mutations));
        var c1 := c.(state := s.(journal := journal, objects := objects));
        RecoveryKeepsInv(c, recovery);
        AppendedRecords(s.journal, recovery);
        var c2 := c1.(state := c1.state.(journal := c1.state.journal + [Whole(r.(state := state))]));
        MarkKeepsInv(c1, r, state);
        AppendedRecords(c1.state.journal, r.(state := state));
        var c3 := c2.(state := c2.state.(journal := c2.state.journal + [Whole(recovery.(state := state))]));
        MarkRecoveryKeepsInv(c2, recovery, state);
        var files := UndoResult(s.files, s.objects, e.faults, r.mutations).0;
        var c4 := c3.(state := c3.state.(files := files));
        FilesIrrelevant(c3, files);
        if reply.outcome.Undone? {
          var c5 := c4.(state := c4.state.(journal := Lines(Records(c4.state.journal))));
          CompactKeepsInv(c4);
          CollectKeepsInv(c5, e.now, e.stuck);
          assert Next(c, e) == c5.(state := Collected(c5.state, e.now, e.stuck));
        } else {
          assert Next(c, e) == c4;
        }
      }
    }
  }

  lemma NextKeepsInv(c: Config, e: Event)
    requires Inv(c) && Allowed(c, e)
    ensures Inv(Next(c, e))
  {
    hide Inv;
    match e
    case Edited(files) => FilesIrrelevant(c, files);
    case TurnStarted(_, _, _, _, _) => StartKeepsInv(c, e);
    case TurnEnded(_, _, _, _) => EndKeepsInv(c, e);
    case HostRequested(_, _, _) => HostKeepsInv(c, e);
    case UndoRequested(_, _, _, _, _, _, _) => UndoKeepsInv(c, e);
  }

  lemma {:induction false} RunKeepsInv(c: Config, es: seq<Event>)
    requires Inv(c) && ValidRun(c, es)
    ensures Inv(Run(c, es))
    decreases |es|
  {
    hide Inv;
    if es != [] {
      NextKeepsInv(c, es[0]);
      RunKeepsInv(Next(c, es[0]), es[1..]);
    }
  }

  lemma ReachableInv(files: Workspace, es: seq<Event>)
    requires ValidRun(Initial(files), es)
    ensures Inv(Run(Initial(files), es))
  {
    RunKeepsInv(Initial(files), es);
  }

  // ---------- what every run guarantees ----------

  /** Over whole runs of interleaved sessions, turn ends and undos, every record that can be read
      has all its before and after objects in the store, with their own bytes. */
  lemma RecordsStayComplete(files: Workspace, es: seq<Event>, r: Record, h: Hash)
    requires ValidRun(Initial(files), es)
    requires r in Records(Run(Initial(files), es).state.journal) && h in Hashes(r.mutations)
    ensures var o := Run(Initial(files), es).state.objects; h in o && o[h] == h.bytes
  {
    hide Records, Hashes;
    ReachableInv(files, es);
  }

  /** Undo of any turn, in any reachable state and with any failures of reads, writes and stored objects. A
      refusal or a conflict leaves the workspace as it was. A failure does exactly when every tracked path
      that exists was read; success restores the turn exactly when the last removal of each path was not a
      swallowed one, and every tracked path had held what the record left there exactly when every one that
      exists was read. */
  lemma UndoInAnyRun(files: Workspace, es: seq<Event>, e: Event)
    requires ValidRun(Initial(files), es) && e.UndoRequested?
    ensures var c := Run(Initial(files), es);
            var reply := UndoReply(c.state, e);
            var after := Step(c.state, e).files;
            && (reply != Finished(Outcome.Undone) && reply != Finished(Outcome.Failed) ==> after == c.state.files)
            && (reply == Finished(Outcome.Failed) ==>
                  var r := FindTurn(Records(c.state.journal), e.task, e.turn).value;
                  after == c.state.files <==> AllRead(c.state.files, e.faults, r.mutations))
            && (reply == Finished(Outcome.Undone) ==>
                  var r := FindTurn(Records(c.state.journal), e.task, e.turn).value;
                  && r.id in c.history && r.mutations == Recorded(c.history[r.id])
                  && (TurnRestored(c.state.files, c.history[r.id], after)
                    <==> NothingLeftBehind(e.faults, r.mutations))
                  && (AsLeft(c.state.files, r.mutations) <==> AllRead(c.state.files, e.faults, r.mutations)))
  {
    var c := Run(Initial(files), es);
    ReachableInv(files, es);
    hide *;
    UndoRefused(c.state, e);
    StepIsUndo(c.state, e);
    if UndoReply(c.state, e).Finished? {
      var r := FindTurn(Records(c.state.journal), e.task, e.turn).value;
      UndoCases(c.state, e, r);
      var result := UndoResult(c.state.files, c.state.objects, e.faults, r.mutations);
      UndoingFiles(c.state, e, r, result.0, result.1);
      UndoResultFiles(c.state.files, c.state.objects, e.faults, r.mutations);
      BuiltInRun(c, r);
      if result.1.Failed? { FailureKeepsFiles(c.state.files, c.state.objects, e.faults, r.mutations); }
      if result.1.Undone? {
        UndoneRestoresTurn(c.state.files, c.state.objects, e.faults, c.history[r.id]);
        UndoneWasAsLeft(c.state.files, c.state.objects, e.faults, r.mutations);
      }
    }
  }

  lemma StepIsUndo(s: State, e: Event)
    requires e.UndoRequested?
    ensures Step(s, e) == Undo(s, e)
  {
    hide Undo;
  }

  lemma UndoingFiles(s: State, e: Event, r: Record, files: Workspace, outcome: Outcome)
    requires e.UndoRequested?
    ensures Undoing(s, e, r, files, outcome).files == if outcome.Conflict? then s.files else files
  {
    hide RecoveryRecord, Hashes, PutAll, Records, Lines, GcJournal, GcObjects;
  }

  lemma UndoResultFiles(ws: Workspace, o: Objects, f: Faults, ms: seq<Mutation>)
    ensures var result := UndoResult(ws, o, f, ms); result.1.Conflict? ==> result.0 == ws
  {
    hide ConflictsAmong, UniqueMutationPaths, RestoreDown, PutAll, CurrentHashes, Touched, PutBack;
  }

  lemma BuiltInRun(c: Config, r: Record)
    requires Inv(c) && r in Records(c.state.journal) && r.kind == Turn
    ensures r.id in c.history && ValidTurn(c.history[r.id]) && r.mutations == Recorded(c.history[r.id])
    ensures Sound(c.state.objects)
  {
    hide Records, Hashes, ValidTurn, Recorded;
    assert BuiltFrom(r, c.history);
  }

  /** In any reachable state undo of a ready turn reports undone, unless an operation fails, exactly
      when its mutations chain up to the current files; an untampered turn always does. */
  lemma UndoSucceedsInAnyRun(files: Workspace, es: seq<Event>, e: Event)
    requires ValidRun(Initial(files), es) && e.UndoRequested? && e.faults == NO_FAULTS
    ensures var c := Run(Initial(files), es);
            var found := FindTurn(Records(c.state.journal), e.task, e.turn);
            found.Some? && found.value.state == Ready ==>
              && (UndoReply(c.state, e) == Finished(Outcome.Undone) <==> Chained(c.state.files, found.value.mutations))
              && found.value.id in c.history
              && (Untampered(c.state.files, c.history[found.value.id], Touched(found.value.mutations))
                  ==> UndoReply(c.state, e) == Finished(Outcome.Undone))
  {
    hide Records, Hashes, UndoResult, Chained, ValidTurn, Untampered;
    ReachableInv(files, es);
    var c := Run(Initial(files), es);
    var found := FindTurn(Records(c.state.journal), e.task, e.turn);
    if found.Some? && found.value.state == Ready {
      var r := found.value;
      assert BuiltFrom(r, c.history);
      TurnIsProper(c.history[r.id]);
      forall i | 0 <= i < |r.mutations| ensures EntryHash(r.mutations[i].before) <= c.state.objects.Keys {
        HashesContain(r.mutations, i);
      }
      UndoneIff(c.state.files, c.state.objects, r.mutations);
      if Untampered(c.state.files, c.history[r.id], Touched(r.mutations)) {
        UntamperedTurnIsUndone(c.state.files, c.state.objects, c.history[r.id]);
      }
    }
  }
}
