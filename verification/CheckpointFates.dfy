/** What became of each turn: which can be undone, and what a request to undo it is told
    (src/main/checkpoints/checkpoint-service.ts). */
module CheckpointFates {
  import opened Options
  import opened CheckpointTypes
  import opened CheckpointObjectStore
  import opened CheckpointDiff
  import opened CheckpointUndo
  import opened CheckpointRetention
  import opened CheckpointStore
  import opened CheckpointRuns

  /** A turn is open until it is ended; then it can be undone until an undo of it is carried out. */
  datatype Fate = Open | Ended | Tried(outcome: Outcome)

  /** What is known of the turns from the events and the replies alone: the event each was started by, and its fate. */
  datatype Annals = Annals(starts: map<nat, Event>, fates: map<nat, Fate>)

  const NOTHING_YET := Annals(map[], map[])

  ghost function NextAnnals(c: Config, annals: Annals, e: Event): Annals {
    match e
    case TurnStarted(_, _, _, id, _) => Annals(annals.starts[id := e], annals.fates[id := Open])
    case TurnEnded(session, turn, _, _) =>
      if session in c.state.active && c.state.active[session].turnId == turn
      then annals.(fates := annals.fates[c.state.active[session].id := Ended]) else annals
    case UndoRequested(task, turn, _, _, _, _, _) =>
      if UndoReply(c.state, e).Finished? then
        var id := FindTurn(Records(c.state.journal), task, turn).value.id;
        annals.(fates := annals.fates[id := Tried(UndoReply(c.state, e).outcome)])
      else annals
    case _ => annals
  }

  ghost function AnnalsAfter(c: Config, annals: Annals, es: seq<Event>): Annals
    decreases |es|
  {
    if es == [] then annals else AnnalsAfter(Next(c, es[0]), NextAnnals(c, annals, es[0]), es[1..])
  }

  /** The state a turn of that fate is recorded with. */
  function StateOf(fate: Fate): RecordState {
    match fate
    case Open => Active
    case Ended => Ready
    case Tried(outcome) =>
      if outcome.Undone? then RecordState.Undone
      else if outcome.Conflict? then RecordState.Conflict
      else RecordState.Failed
  }

  /** The record is of the turn that the event started. */
  predicate StartedBy(r: Record, e: Event) {
    && e.TurnStarted? && r.id == e.id && r.taskId == e.task && r.turnId == e.turn && r.sessionId == Some(e.session)
    && r.createdAt == e.at && r.source.None?
  }

  ghost predicate TurnAsFated(r: Record, annals: Annals) {
    r.kind == Turn ==>
      && r.id in annals.starts && StartedBy(r, annals.starts[r.id])
      && r.id in annals.fates && r.state == StateOf(annals.fates[r.id])
  }

  /** A recovery record is that of an undo that was carried out, and says how that ended. */
  predicate RecoverySettled(r: Record, annals: Annals) {
    r.kind == Recovery ==>
      && r.source.Some? && r.source.value in annals.fates
      && annals.fates[r.source.value].Tried? && !annals.fates[r.source.value].outcome.Conflict?
      && r.state == StateOf(annals.fates[r.source.value])
  }

  ghost predicate RecordFated(r: Record, annals: Annals) { TurnAsFated(r, annals) && RecoverySettled(r, annals) }

  /** A turn in memory is open. */
  ghost predicate OpenTurn(r: Record, annals: Annals) {
    && r.id in annals.starts && StartedBy(r, annals.starts[r.id])
    && r.id in annals.fates && annals.fates[r.id] == Open
  }

  ghost predicate Fated(c: Config, annals: Annals) {
    && (forall r :: r in Records(c.state.journal) ==> RecordFated(r, annals))
    && (forall n :: n in c.state.active ==> OpenTurn(c.state.active[n], annals))
    && annals.fates.Keys <= c.history.Keys
  }

  // ---------- each step ----------

  /** The event ends the turn that a session has in memory. */
  predicate Ends(s: State, e: Event) {
    e.TurnEnded? && e.session in s.active && s.active[e.session].turnId == e.turn
  }

  /** Nothing new is known but of one turn, of which no undo had been carried out. */
  ghost predicate NewsOf(annals: Annals, later: Annals, id: nat) {
    && (forall i :: i in annals.starts && i != id ==> i in later.starts && later.starts[i] == annals.starts[i])
    && (forall i :: i in annals.fates && i != id ==> i in later.fates && later.fates[i] == annals.fates[i])
    && (id in annals.fates ==> !annals.fates[id].Tried?)
  }

  lemma OthersStayFated(r: Record, annals: Annals, later: Annals, id: nat)
    requires NewsOf(annals, later, id)
    ensures RecordFated(r, annals) && r.id != id ==> RecordFated(r, later)
    ensures RecordFated(r, annals) && r.kind == Recovery ==> RecordFated(r, later)
    ensures OpenTurn(r, annals) && r.id != id ==> OpenTurn(r, later)
  {
  }

  /** The record of an open turn, once the turn has another fate. */
  lemma MarkedIsFated(r: Record, annals: Annals, fate: Fate)
    requires r.kind == Turn && r.id in annals.starts && StartedBy(r, annals.starts[r.id])
    ensures RecordFated(r.(state := StateOf(fate)), annals.(fates := annals.fates[r.id := fate]))
  {
  }

  lemma OpenIsFated(r: Record, annals: Annals)
    requires r.kind == Turn && r.state == Active && OpenTurn(r, annals)
    ensures forall ms :: RecordFated(r.(mutations := ms), annals) && OpenTurn(r.(mutations := ms), annals)
    ensures r.id in annals.starts && StartedBy(r, annals.starts[r.id])
    ensures r.id in annals.fates && !annals.fates[r.id].Tried?
  {
  }

  lemma StartedIsOpen(e: Event, annals: Annals)
    requires e.TurnStarted?
    ensures OpenTurn(StartedRecord(e), Annals(annals.starts[e.id := e], annals.fates[e.id := Open]))
  {
  }

  lemma StartFated(c: Config, annals: Annals, e: Event)
    requires Inv(c) && Fated(c, annals) && e.TurnStarted? && Allowed(c, e)
    ensures Fated(Next(c, e), NextAnnals(c, annals, e))
  {
    hide Records, Inv, RecordFated, OpenTurn;
    var later := NextAnnals(c, annals, e);
    StartedIsOpen(e, annals);
    assert e.id !in annals.fates;
    forall r | r in Records(c.state.journal) ensures RecordFated(r, later) {
      NotNew(c, e, r);
      OthersStayFated(r, annals, later, e.id);
    }
    forall n | n in c.state.active ensures OpenTurn(c.state.active[n], later) {
      IsKnown(c.state.active[n], annals);
      OthersStayFated(c.state.active[n], annals, later, e.id);
    }
  }

  lemma IsKnown(r: Record, annals: Annals)
    requires OpenTurn(r, annals)
    ensures r.id in annals.fates
  {
  }

  lemma ActiveIsTurn(c: Config, n: Name)
    requires Inv(c) && n in c.state.active
    ensures c.state.active[n].kind == Turn && c.state.active[n].state == Active
    ensures forall m :: m in c.state.active && m != n ==> c.state.active[m].id != c.state.active[n].id
    ensures c.state.active[n].mutations == [] ==>
      forall r :: r in Records(c.state.journal) ==> r.id != c.state.active[n].id
  {
    hide Records, Hashes, Complete, Historical;
  }

  lemma HostFated(c: Config, annals: Annals, e: Event)
    requires Inv(c) && Fated(c, annals) && e.HostRequested?
    ensures Fated(Next(c, e), NextAnnals(c, annals, e))
  {
    hide Records, Hashes, Inv, RecordFated, OpenTurn;
    if e.session in c.state.active && e.mutations != [] {
      var r := c.state.active[e.session];
      ActiveIsTurn(c, e.session);
      OpenIsFated(r, annals);
      AppendedRecords(c.state.journal, r.(mutations := r.mutations + e.mutations));
    }
  }

  /** Collecting and compacting invent no records. */
  lemma CollectedFrom(s: State, now: int, stuck: set<Hash>, r: Record)
    requires r in Records(Collected(s, now, stuck).journal)
    ensures r in Records(s.journal)
  {
    hide Records, GcJournal, GcObjects;
    CollectedRecords(s.journal, s.objects, now, stuck);
  }

  lemma CollectedActive(s: State, now: int, stuck: set<Hash>)
    ensures Collected(s, now, stuck).active == s.active
  {
  }

  /** The journal before the collection at the end of a turn. */
  lemma BeforeEnd(c: Config, e: Event) returns (s: State)
    requires Inv(c) && Ends(c.state, e)
    ensures Step(c.state, e) == Collected(s, e.now, e.stuck) && s.files == c.state.files
    ensures s.active == c.state.active - {e.session}
    ensures var r := c.state.active[e.session];
      forall x :: x in Records(s.journal) <==>
        (r.mutations != [] && x == r.(state := Ready)) || (x in Records(c.state.journal) && x.id != r.id)
  {
    hide Inv, Records, Collected, Lines;
    var r := c.state.active[e.session];
    ActiveIsTurn(c, e.session);
    var ready := c.state.journal + [Whole(r.(state := Ready))];
    s := c.state.(active := c.state.active - {e.session},
      journal := if r.mutations == [] then c.state.journal else Lines(Records(ready)));
    AppendedRecords(c.state.journal, r.(state := Ready));
    CompactKeepsRecords(ready);
  }

  lemma EndFated(c: Config, annals: Annals, e: Event)
    requires Inv(c) && Fated(c, annals) && e.TurnEnded?
    ensures Fated(Next(c, e), NextAnnals(c, annals, e))
  {
    hide Records, Inv, RecordFated, OpenTurn, End, Collected;
    var later := NextAnnals(c, annals, e);
    if Ends(c.state, e) {
      var s := BeforeEnd(c, e);
      var r := c.state.active[e.session];
      ActiveIsTurn(c, e.session);
      OpenIsFated(r, annals);
      MarkedIsFated(r, annals, Ended);
      CollectedActive(s, e.now, e.stuck);
      forall x | x in Records(Next(c, e).state.journal) ensures RecordFated(x, later) {
        CollectedFrom(s, e.now, e.stuck, x);
        OthersStayFated(x, annals, later, r.id);
      }
      forall n | n in s.active ensures OpenTurn(s.active[n], later) {
        OthersStayFated(s.active[n], annals, later, r.id);
      }
    } else {
      NotEnded(c.state, e);
    }
  }

  lemma NotEnded(s: State, e: Event)
    requires e.TurnEnded? && !Ends(s, e)
    ensures Step(s, e) == s
  {
  }

  /** A ready turn has ended, and no undo of it was carried out. */
  lemma ReadyIsEnded(r: Record, annals: Annals)
    requires r.kind == Turn && r.state == Ready && RecordFated(r, annals)
    ensures r.id in annals.starts && StartedBy(r, annals.starts[r.id]) && r.id in annals.fates
    ensures annals.fates[r.id].Ended?
  {
  }

  lemma RecoveryIsFated(recovery: Record, annals: Annals)
    requires recovery.kind == Recovery && recovery.source.Some? && recovery.source.value in annals.fates
    requires annals.fates[recovery.source.value].Tried? && !annals.fates[recovery.source.value].outcome.Conflict?
    ensures RecordFated(recovery.(state := StateOf(annals.fates[recovery.source.value])), annals)
  {
  }

  /** The records before the collection after an undo: those of other turns, the marked one, and its recovery record. */
  lemma UndoneRecords(c: Config, e: Event, r: Record)
    requires Inv(c) && e.UndoRequested? && UndoReply(c.state, e).Finished?
    requires FindTurn(Records(c.state.journal), e.task, e.turn) == Some(r)
    ensures var outcome := UndoReply(c.state, e).outcome;
      var state := StateOf(Tried(outcome));
      && Step(c.state, e).active == c.state.active
      && forall x :: x in Records(Step(c.state, e).journal) ==>
           || x == r.(state := state)
           || (!outcome.Conflict? && x == RecoveryRecord(c.state, e, r).(state := state))
           || (x in Records(c.state.journal) && x.id != r.id)
  {
    hide Inv, Records, Lines, UndoResult, RecoveryMutations, Hashes, Collected, PutAll;
    var s := c.state;
    var reply := UndoReply(s, e);
    if reply.outcome.Conflict? {
      AppendedRecords(s.journal, r.(state := RecordState.Conflict));
    } else {
      var recovery := RecoveryRecord(s, e, r);
      var state := StateOf(Tried(reply.outcome));
      var j1 := s.journal + [Whole(recovery)];
      var j2 := j1 + [Whole(r.(state := state))];
      var j3 := j2 + [Whole(recovery.(state := state))];
      AppendedRecords(s.journal, recovery);
      AppendedRecords(j1, r.(state := state));
      AppendedRecords(j2, recovery.(state := state));
      var files := UndoResult(s.files, s.objects, e.faults, r.mutations).0;
      var s1 := State(files, s.active, Lines(Records(j3)), PutAll(s.objects, Hashes(recovery.mutations)));
      CompactKeepsRecords(j3);
      CollectedActive(s1, e.now, e.stuck);
      if reply.outcome.Undone? {
        forall x | x in Records(Step(s, e).journal) ensures x in Records(j3) { CollectedFrom(s1, e.now, e.stuck, x); }
      }
    }
  }

  lemma UndoFated(c: Config, annals: Annals, e: Event)
    requires Inv(c) && Fated(c, annals) && e.UndoRequested? && Allowed(c, e)
    ensures Fated(Next(c, e), NextAnnals(c, annals, e))
  {
    hide Inv, Records, UndoReply, RecordFated, OpenTurn, Step;
    var later := NextAnnals(c, annals, e);
    UndoRefused(c.state, e);
    StepIsUndo(c.state, e);
    hide Undo, RecoveryRecord;
    if UndoReply(c.state, e).Finished? {
      var r := FindTurn(Records(c.state.journal), e.task, e.turn).value;
      var fate := Tried(UndoReply(c.state, e).outcome);
      UndoneRecords(c, e, r);
      ReadyIsNotInMemory(c, r);
      ReadyIsEnded(r, annals);
      MarkedIsFated(r, annals, fate);
      forall x | x in Records(Next(c, e).state.journal) ensures RecordFated(x, later) {
        OthersStayFated(x, annals, later, r.id);
        if !fate.outcome.Conflict? && x == RecoveryRecord(c.state, e, r).(state := StateOf(fate)) {
          NamesSource(c.state, e, r);
          RecoveryIsFated(RecoveryRecord(c.state, e, r), later);
        }
      }
      forall n | n in c.state.active ensures OpenTurn(c.state.active[n], later) {
        OthersStayFated(c.state.active[n], annals, later, r.id);
      }
    }
  }

  lemma NamesSource(s: State, e: Event, r: Record)
    requires e.UndoRequested?
    ensures RecoveryRecord(s, e, r).kind == Recovery && RecoveryRecord(s, e, r).source == Some(r.id)
  {
  }

  lemma NextFated(c: Config, annals: Annals, e: Event)
    requires Inv(c) && Fated(c, annals) && Allowed(c, e)
    ensures Fated(Next(c, e), NextAnnals(c, annals, e))
  {
    hide Inv, Records, UndoReply, RecordFated, OpenTurn;
    match e
    case Edited(files) =>
    case TurnStarted(_, _, _, _, _) => StartFated(c, annals, e);
    case TurnEnded(_, _, _, _) => EndFated(c, annals, e);
    case HostRequested(_, _, _) => HostFated(c, annals, e);
    case UndoRequested(_, _, _, _, _, _, _) => UndoFated(c, annals, e);
  }

  // ---------- over runs ----------

  lemma {:induction false} RunFated(c: Config, annals: Annals, es: seq<Event>)
    requires Inv(c) && Fated(c, annals) && ValidRun(c, es)
    ensures Inv(Run(c, es)) && Fated(Run(c, es), AnnalsAfter(c, annals, es))
    decreases |es|
  {
    hide Inv, Fated, Allowed, Next, NextAnnals;
    if es != [] {
      NextFated(c, annals, es[0]);
      NextKeepsInv(c, es[0]);
      RunFated(Next(c, es[0]), NextAnnals(c, annals, es[0]), es[1..]);
    }
  }

  ghost function RunAnnals(files: Workspace, es: seq<Event>): Annals { AnnalsAfter(Initial(files), NOTHING_YET, es) }

  lemma ReachableFated(files: Workspace, es: seq<Event>)
    requires ValidRun(Initial(files), es)
    ensures Inv(Run(Initial(files), es)) && Fated(Run(Initial(files), es), RunAnnals(files, es))
  {
    hide Run, AnnalsAfter, ValidRun;
    assert Inv(Initial(files));
    RunFated(Initial(files), NOTHING_YET, es);
  }

  /** In every reachable state a turn that can be read carries the names and the time it was started with, and is
      recorded as what became of it: ready exactly when it was ended and no undo of it was carried out. */
  lemma StateIsFate(files: Workspace, es: seq<Event>, r: Record)
    requires ValidRun(Initial(files), es)
    requires r in Records(Run(Initial(files), es).state.journal) && r.kind == Turn
    ensures r.id in RunAnnals(files, es).starts && StartedBy(r, RunAnnals(files, es).starts[r.id])
    ensures r.id in RunAnnals(files, es).fates && r.state == StateOf(RunAnnals(files, es).fates[r.id])
    ensures r.state == Ready <==> RunAnnals(files, es).fates[r.id] == Ended
  {
    hide Records, Run, AnnalsAfter, ValidRun, Inv;
    ReachableFated(files, es);
    assert TurnAsFated(r, RunAnnals(files, es));
  }

  /** No recovery record is left open: each is that of a turn whose undo was carried out, and says how. */
  lemma RecoveriesSettle(files: Workspace, es: seq<Event>, r: Record)
    requires ValidRun(Initial(files), es)
    requires r in Records(Run(Initial(files), es).state.journal) && r.kind == Recovery
    ensures r.source.Some? && r.source.value in RunAnnals(files, es).fates
    ensures var fate := RunAnnals(files, es).fates[r.source.value];
      fate.Tried? && r.state == if fate.outcome.Undone? then RecordState.Undone else RecordState.Failed
  {
    hide Records, Run, AnnalsAfter, ValidRun, Inv;
    ReachableFated(files, es);
    assert RecoverySettled(r, RunAnnals(files, es));
  }

  lemma TriedStays(c: Config, annals: Annals, e: Event, id: nat)
    requires Inv(c) && Fated(c, annals) && Allowed(c, e) && id in annals.fates && annals.fates[id].Tried?
    ensures id in NextAnnals(c, annals, e).fates && NextAnnals(c, annals, e).fates[id] == annals.fates[id]
  {
    hide Inv, Records, UndoResult;
    if e.UndoRequested? && UndoReply(c.state, e).Finished? {
      var r := FindTurn(Records(c.state.journal), e.task, e.turn).value;
      assert TurnAsFated(r, annals);
    }
  }

  lemma {:induction false} TriedForever(c: Config, annals: Annals, es: seq<Event>, id: nat)
    requires Inv(c) && Fated(c, annals) && ValidRun(c, es) && id in annals.fates && annals.fates[id].Tried?
    ensures id in AnnalsAfter(c, annals, es).fates && AnnalsAfter(c, annals, es).fates[id] == annals.fates[id]
    decreases |es|
  {
    hide Inv, Fated, Allowed, Next, NextAnnals;
    if es != [] {
      TriedStays(c, annals, es[0], id);
      NextFated(c, annals, es[0]);
      NextKeepsInv(c, es[0]);
      TriedForever(Next(c, es[0]), NextAnnals(c, annals, es[0]), es[1..], id);
    }
  }

  lemma {:induction false} RunMore(c: Config, annals: Annals, es: seq<Event>, more: seq<Event>)
    ensures ValidRun(c, es + more) <==> ValidRun(c, es) && ValidRun(Run(c, es), more)
    ensures Run(c, es + more) == Run(Run(c, es), more)
    ensures AnnalsAfter(c, annals, es + more) == AnnalsAfter(Run(c, es), AnnalsAfter(c, annals, es), more)
    decreases |es|
  {
    hide Allowed, Next, NextAnnals;
    if es == [] {
      assert es + more == more;
    } else {
      assert (es + more)[1..] == es[1..] + more;
      RunMore(Next(c, es[0]), NextAnnals(c, annals, es[0]), es[1..], more);
    }
  }

  /** An undo is carried out at most once: after it, whatever else happens, a request that finds the same record is told
      that it is undone, in conflict or failed, as the first one was. */
  lemma UndoneOnce(files: Workspace, es: seq<Event>, e: Event, more: seq<Event>, again: Event)
    requires ValidRun(Initial(files), es + [e] + more) && e.UndoRequested? && again.UndoRequested?
    requires var c := Run(Initial(files), es);
      var found := FindTurn(Records(c.state.journal), e.task, e.turn);
      var later := Run(Initial(files), es + [e] + more);
      var foundAgain := FindTurn(Records(later.state.journal), again.task, again.turn);
      UndoReply(c.state, e).Finished? && foundAgain.Some? && foundAgain.value.id == found.value.id
    ensures var outcome := UndoReply(Run(Initial(files), es).state, e).outcome;
      UndoReply(Run(Initial(files), es + [e] + more).state, again)
        == NotReady(if outcome.Undone? then RecordState.Undone
                    else if outcome.Conflict? then RecordState.Conflict else RecordState.Failed)
  {
    var c0 := Initial(files);
    var c, annals := Run(c0, es), RunAnnals(files, es);
    var later, laterAnnals := Run(c0, es + [e] + more), RunAnnals(files, es + [e] + more);
    RunMore(c0, NOTHING_YET, es + [e], more);
    RunMore(c0, NOTHING_YET, es, [e]);
    OneEvent(c, annals, e);
    hide Inv, Records, UndoResult, Run, AnnalsAfter, ValidRun, Initial, Next, Allowed;
    ReachableFated(files, es);
    NextFated(c, annals, e);
    NextKeepsInv(c, e);
    var id := FindTurn(Records(c.state.journal), e.task, e.turn).value.id;
    TriedForever(Next(c, e), NextAnnals(c, annals, e), more, id);
    ReachableFated(files, es + [e] + more);
    var found := FindTurn(Records(later.state.journal), again.task, again.turn).value;
    assert TurnAsFated(found, laterAnnals);
  }

  lemma OneEvent(c: Config, annals: Annals, e: Event)
    ensures ValidRun(c, [e]) <==> Allowed(c, e)
    ensures Run(c, [e]) == Next(c, e) && AnnalsAfter(c, annals, [e]) == NextAnnals(c, annals, e)
  {
    hide Allowed, Next, NextAnnals;
    assert ValidRun(Next(c, e), [e][1..]) && Run(Next(c, e), [e][1..]) == Next(c, e);
  }

  // ---------- the recovery record ----------

  /** The recovery record names its undo and the turn. */
  predicate Recovers(s: State, e: Event, source: Record, recovery: Record)
    requires e.UndoRequested?
  {
    && recovery.id == e.recoveryId && recovery.kind == Recovery && recovery.createdAt == e.at
    && recovery.taskId == source.taskId && recovery.turnId == source.turnId && recovery.source == Some(source.id)
  }

  /** It brings the tracked paths back to what was read before the undo, in whatever workspace it is applied to. */
  lemma RecoveryRecovers(s: State, e: Event, source: Record, ws: Workspace, p: Path)
    requires e.UndoRequested?
    ensures Recovers(s, e, source, RecoveryRecord(s, e, source))
    ensures At(ApplyAll(ws, RecoveryRecord(s, e, source).mutations), p)
      == At(if p in Touched(source.mutations) then Seen(s.files, e.faults) else ws, p)
  {
    RecoveryRebuilds(Seen(s.files, e.faults), ws, UniqueMutationPaths(source.mutations), p);
    hide ApplyAll, Touched, RecoveryMutations;
  }

  /** After an undo that failed the recovery record is in the journal. */
  lemma FailureLeavesRecovery(c: Config, e: Event)
    requires Inv(c) && Allowed(c, e) && e.UndoRequested? && UndoReply(c.state, e) == Finished(Outcome.Failed)
    ensures var r := FindTurn(Records(c.state.journal), e.task, e.turn);
      r.Some? && RecoveryRecord(c.state, e, r.value).(state := RecordState.Failed) in Records(Step(c.state, e).journal)
  {
    hide Inv, Records, Lines, UndoResult, RecoveryMutations, Hashes, Collected, PutAll;
    var r := FindTurn(Records(c.state.journal), e.task, e.turn).value;
    var recovery := RecoveryRecord(c.state, e, r);
    var j1 := c.state.journal + [Whole(recovery)];
    var j2 := j1 + [Whole(r.(state := RecordState.Failed))];
    AppendedRecords(j2, recovery.(state := RecordState.Failed));
  }

  /** An undo of a ready turn is refused exactly when the first read of some tracked path throws, and changes
      nothing. */
  lemma ThrownReadRefuses(s: State, e: Event)
    requires e.UndoRequested?
    ensures UndoReply(s, e) == ReadFailed <==>
      var found := FindTurn(Records(s.journal), e.task, e.turn);
      found.Some? && found.value.state == Ready
        && exists p :: p in e.faults.refused && p in Touched(found.value.mutations)
    ensures UndoReply(s, e) == ReadFailed ==> Step(s, e) == s
  {
    hide Records, UndoResult, FindTurn, Touched;
  }

  // ---------- an ended turn can be undone ----------

  /** The newest finished turn survives a collection. */
  lemma NewestSurvives(s: State, now: int, stuck: set<Hash>, r: Record)
    requires r in Records(s.journal) && Candidate(r, now)
    requires forall x :: x in Records(s.journal) && Candidate(x, now) && x != r ==> x.createdAt < r.createdAt
    ensures r in Records(Collected(s, now, stuck).journal)
  {
    hide Retained, Sort, Lines, Records, UnfinishedOf, UniqueIds, SetBytes, AllHashes, Candidate;
    var rs, sizes := Records(s.journal), SizesOf(s.objects);
    RecordsMembers(s.journal);
    GcRetention(rs, now, sizes);
    var g := Retained(rs, now, sizes);
    RewrittenRecords(g.kept);
    SortMembers(g.kept, false);
    var newest := g.kept[|UnfinishedOf(rs)|..][0];
    assert newest in g.kept[|UnfinishedOf(rs)|..];
    assert newest == r;
  }

  lemma ReadyCandidate(r: Record, now: int)
    requires r.kind == Turn && now - r.createdAt <= 30 * 24 * 60 * 60 * 1_000
    ensures Candidate(r.(state := Ready), now)
  {
  }

  lemma CandidateIsTurn(r: Record, now: int)
    requires Candidate(r, now)
    ensures r.kind == Turn
  {
  }

  /** A turn that has just ended is kept, ready, when it is not older than thirty days and no other is as new. */
  lemma NewestEndedIsReady(c: Config, e: Event)
    requires Inv(c) && Ends(c.state, e) && c.state.active[e.session].mutations != []
    requires var r := c.state.active[e.session];
      && e.now - r.createdAt <= 30 * 24 * 60 * 60 * 1_000
      && forall x :: x in Records(c.state.journal) && x.kind == Turn && x.id != r.id ==> x.createdAt < r.createdAt
    ensures c.state.active[e.session].(state := Ready) in Records(Step(c.state, e).journal)
  {
    hide Inv, Records, Collected, Step;
    var r := c.state.active[e.session];
    ActiveIsTurn(c, e.session);
    var s := BeforeEnd(c, e);
    ReadyCandidate(r, e.now);
    forall x | x in Records(s.journal) && Candidate(x, e.now) && x != r.(state := Ready)
      ensures x.createdAt < r.createdAt
    {
      CandidateIsTurn(x, e.now);
    }
    hide Candidate;
    NewestSurvives(s, e.now, e.stuck, r.(state := Ready));
  }

  /** What a collection leaves: no finished record but turns not older than thirty days, at most a hundred of them, and
      no object that neither a record holds nor could not be deleted. */
  ghost predicate Tidy(before: State, s: State, now: int, stuck: set<Hash>) {
    && (forall r :: r in Records(s.journal) ==>
          || r.state == Active || r.state == InRecovery
          || (r.kind == Turn && now - r.createdAt <= 30 * 24 * 60 * 60 * 1_000))
    && |Records(s.journal)| <= |UnfinishedOf(Records(before.journal))| + 100
    && (forall h :: h in s.objects ==> h in stuck || exists r :: r in Records(s.journal) && h in Hashes(r.mutations))
  }

  lemma CollectedIsTidy(s: State, now: int, stuck: set<Hash>)
    ensures Tidy(s, Collected(s, now, stuck), now, stuck)
  {
    hide Retained, Sort, Lines, Records, UnfinishedOf, UniqueIds, SetBytes, AllHashes, Candidate, Hashes;
    var rs, sizes := Records(s.journal), SizesOf(s.objects);
    var g := Retained(rs, now, sizes);
    RecordsMembers(s.journal);
    GcRetention(rs, now, sizes);
    RewrittenRecords(g.kept);
    SortMembers(g.kept, false);
    forall r | r in g.kept
      ensures r.state == Active || r.state == InRecovery
        || (r.kind == Turn && now - r.createdAt <= 30 * 24 * 60 * 60 * 1_000)
    {
      KeptForAReason(rs, now, sizes, r);
    }
    forall h | h in g.referenced ensures exists r :: r in g.kept && h in Hashes(r.mutations) {
      var r := HashOwner(g.kept, h);
    }
  }

  lemma {:induction false} HashOwner(rs: seq<Record>, h: Hash) returns (r: Record)
    requires h in AllHashes(rs)
    ensures r in rs && h in Hashes(r.mutations)
  {
    hide Hashes;
    var last := rs[|rs| - 1];
    if h in Hashes(last.mutations) { r := last; } else { r := HashOwner(rs[..|rs| - 1], h); }
  }

  /** Ending a turn, and undoing one, collect what is no longer needed. */
  lemma EndAndUndoCollect(c: Config, e: Event)
    requires Ends(c.state, e) || (e.UndoRequested? && UndoReply(c.state, e) == Finished(Outcome.Undone))
    ensures exists before ::
      Step(c.state, e) == Collected(before, e.now, e.stuck) && Tidy(before, Step(c.state, e), e.now, e.stuck)
  {
    hide Records, Collected, Lines, UndoResult, RecoveryMutations, Hashes, PutAll, Tidy;
    var before := BeforeCollection(c, e);
    CollectedIsTidy(before, e.now, e.stuck);
  }

  lemma BeforeCollection(c: Config, e: Event) returns (before: State)
    requires Ends(c.state, e) || (e.UndoRequested? && UndoReply(c.state, e) == Finished(Outcome.Undone))
    ensures Step(c.state, e) == Collected(before, e.now, e.stuck)
  {
    hide Records, Collected, Lines, UndoResult, RecoveryMutations, Hashes, PutAll;
    if e.TurnEnded? {
      var r := c.state.active[e.session];
      var ready := c.state.journal + [Whole(r.(state := Ready))];
      before := c.state.(active := c.state.active - {e.session},
        journal := if r.mutations == [] then c.state.journal else Lines(Records(ready)));
    } else {
      var r := FindTurn(Records(c.state.journal), e.task, e.turn).value;
      var recovery := RecoveryRecord(c.state, e, r);
      var journal := c.state.journal + [Whole(recovery)] + [Whole(r.(state := RecordState.Undone))]
        + [Whole(recovery.(state := RecordState.Undone))];
      before := State(UndoResult(c.state.files, c.state.objects, e.faults, r.mutations).0, c.state.active,
        Lines(Records(journal)), PutAll(c.state.objects, Hashes(recovery.mutations)));
    }
  }

  /** Only the turn's own record is found under its task and turn. */
  ghost predicate OnlyOne(s: State, r: Record) {
    forall x :: x in Records(s.journal) && x.kind == Turn && x.taskId == r.taskId && x.turnId == r.turnId ==>
      x.id == r.id
  }

  /** When its record is kept and its tracked paths are as the turn left them, a turn that has just ended is undone by a
      request that no operation fails. */
  lemma EndedTurnIsUndone(files: Workspace, es: seq<Event>, e: Event, undo: Event)
    requires ValidRun(Initial(files), es)
    requires var c := Run(Initial(files), es);
      && Ends(c.state, e) && c.state.active[e.session].mutations != []
      && var r := c.state.active[e.session];
      && OnlyOne(c.state, r) && r.id in c.history && Untampered(c.state.files, c.history[r.id], Touched(r.mutations))
      && r.(state := Ready) in Records(Step(c.state, e).journal)
      && undo.UndoRequested? && undo.task == r.taskId && undo.turn == r.turnId && undo.faults == NO_FAULTS
    ensures UndoReply(Step(Run(Initial(files), es).state, e), undo) == Finished(Outcome.Undone)
  {
    var c := Run(Initial(files), es);
    var r := c.state.active[e.session];
    RunMore(Initial(files), NOTHING_YET, es, [e]);
    OneEvent(c, NOTHING_YET, e);
    ReachableInv(files, es);
    EndKeepsFiles(c, e);
    hide Inv, Records, Collected, Step, UndoReply, Run, ValidRun, Initial, AnnalsAfter, Untampered, Chained, Touched;
    var s := BeforeEnd(c, e);
    var after := Step(c.state, e);
    forall x | x in Records(after.journal) && x.kind == Turn && x.taskId == r.taskId && x.turnId == r.turnId
      ensures x == r.(state := Ready)
    {
      CollectedFrom(s, e.now, e.stuck, x);
    }
    UndoSucceedsInAnyRun(files, es + [e], undo);
  }

  lemma EndKeepsFiles(c: Config, e: Event)
    requires e.TurnEnded?
    ensures Step(c.state, e).files == c.state.files
    ensures Next(c, e).history == c.history && Next(c, e).state == Step(c.state, e) && Allowed(c, e)
  {
  }
}
