/** Scheduler and environment manager composed on one key per execution
    (src/main/sandbox/vm-sandbox-execution-provider.ts): the callback the scheduler runs is the
    manager's `execute`, so the manager's operations are the callbacks in progress. */
module VmProvider {
  import S = VmScheduler
  import M = VmEnvironmentManager

  datatype State = State(scheduler: S.State, manager: M.State)

  const INITIAL := State(S.INITIAL, M.INITIAL)

  /** `Launched` starts a callback and with it `execute`; `Returned` ends both; `Cancelled` is the
      abort signal that both observe. */
  datatype Event =
    | Scheduled(s: S.Event)
    | Managed(m: M.Event)
    | Launched(id: nat, victim: nat, now: int)
    | Returned(id: nat)
    | Cancelled(id: nat)

  function Begin(s: State, e: Event): M.Event
    requires e.Launched? && e.id < |s.scheduler.calls|
  {
    var call := s.scheduler.calls[e.id];
    M.Began(e.id, call.key, call.aborted, e.victim, e.now)
  }

  predicate Enabled(s: State, e: Event) {
    match e
    case Scheduled(x) => !x.Started? && !x.Finished? && !x.Aborted? && S.Enabled(s.scheduler, x)
    case Managed(x) => !x.Began? && !x.Left? && !x.Aborted? && M.Enabled(s.manager, x)
    case Launched(id, _, _) => S.Enabled(s.scheduler, S.Started(id)) && M.Enabled(s.manager, Begin(s, e))
    case Returned(id) => S.Enabled(s.scheduler, S.Finished(id)) && M.Enabled(s.manager, M.Left(id))
    case Cancelled(id) => S.Enabled(s.scheduler, S.Aborted(id))
  }

  function Step(s: State, e: Event, operations: nat, environments: nat): State
    requires Enabled(s, e)
  {
    match e
    case Scheduled(x) => s.(scheduler := S.Step(s.scheduler, x, operations))
    case Managed(x) => s.(manager := M.Step(s.manager, x, environments))
    case Launched(id, _, _) =>
      State(S.Step(s.scheduler, S.Started(id), operations), M.Step(s.manager, Begin(s, e), environments))
    case Returned(id) =>
      State(S.Step(s.scheduler, S.Finished(id), operations), M.Step(s.manager, M.Left(id), environments))
    case Cancelled(id) =>
      State(S.Step(s.scheduler, S.Aborted(id), operations),
            if id in s.manager.ops then M.Step(s.manager, M.Aborted(id), environments) else s.manager)
  }

  /** The manager's operations are the scheduler's running callbacks, key by key. */
  ghost predicate Linked(calls: seq<S.Call>, ops: map<nat, M.Op>) {
    && (forall id: nat :: id in ops <==> id < |calls| && calls[id].phase == S.Holding(true))
    && (forall id: nat :: id in ops ==> ops[id].key == calls[id].key && ops[id].aborted == calls[id].aborted)
  }

  ghost predicate Inv(s: State, operations: nat, environments: nat) {
    S.Inv(s.scheduler, operations) && M.Inv(s.manager, environments) && Linked(s.scheduler.calls, s.manager.ops)
  }

  // ---------- the steps keep the link ----------

  /** A step of the scheduler alone leaves the running callbacks alone. */
  lemma SchedulerKeepsLink(s: S.State, e: S.Event, limit: nat, ops: map<nat, M.Op>)
    requires S.Enabled(s, e) && !e.Started? && !e.Finished? && !e.Aborted? && Linked(s.calls, ops)
    ensures Linked(S.Step(s, e, limit).calls, ops)
  {
  }

  /** Who the operations are: their keys and signals. */
  function Callers(ops: map<nat, M.Op>): map<nat, (nat, bool)> {
    map id | id in ops :: (ops[id].key, ops[id].aborted)
  }

  lemma CallersKept(s: M.State, id: nat, p: M.Phase)
    ensures id in s.ops ==> Callers(M.WithOp(s, id, p).ops) == Callers(s.ops)
    ensures Callers(M.WakeAll(s).ops) == Callers(s.ops)
  {
  }

  lemma ReserveKeepsCallers(s: M.State, id: nat, victim: nat, limit: nat)
    requires id in s.ops && (M.HasIdle(s) ==> M.OldestIdle(s, victim))
    ensures Callers(M.Reserve(s, id, victim, limit).ops) == Callers(s.ops)
  {
    hide M.HasIdle, M.OldestIdle, Callers;
    var p := M.Reserve(s, id, victim, limit).ops[id].phase;
    CallersKept(s, id, p);
  }

  lemma ReleaseKeepsCallers(s: M.State, id: nat, env: nat, now: int)
    requires id in s.ops && env < |s.entries|
    ensures Callers(M.Release(s, id, env, now).ops) == Callers(s.ops)
  {
    hide M.WakeAll, Callers;
    var entry := s.entries[env];
    var active := if entry.active == 0 then 0 else entry.active - 1;
    var s1 := s.(entries := s.entries[env := entry.(active := active, lastUsedAt := now, timerArmed := active == 0)]);
    CallersKept(s, id, M.Ended);
    CallersKept(s1, id, M.Ended);
    WokenIds(s1);
    CallersKept(M.WakeAll(s1), id, M.Ended);
  }

  lemma WokenIds(s: M.State)
    ensures M.WakeAll(s).ops.Keys == s.ops.Keys
  {
  }

  /** A step of the manager alone keeps its operations, their keys and signals. */
  lemma ManagerKeepsCallers(s: M.State, e: M.Event, limit: nat)
    requires M.Enabled(s, e) && !e.Began? && !e.Left? && !e.Aborted?
    ensures Callers(M.Step(s, e, limit).ops) == Callers(s.ops)
  {
    hide M.HasIdle, M.OldestIdle, M.WakeAll, M.Release, M.Reserve, Callers;
    match e
    case CapacityResumed(id, victim) => ReserveKeepsCallers(s, id, victim, limit);
    case EvictionClosed(id) => CallersKept(s.(pendingStarts := s.pendingStarts + {id}), id, M.Starting);
    case StartSucceeded(id, now) => SettledKeepsCallers(s, id, M.Using(|s.entries|));
    case StartFailed(id) => SettledKeepsCallers(s, id, M.Ended);
    case Executed(id, _, now) =>
      var env := s.ops[id].phase.env;
      ReleaseKeepsCallers(s, id, env, now);
      CallersKept(M.WithoutTimer(M.Unregister(s, s.entries[env].key), env), id, M.Discarding(env));
    case DiscardClosed(id) => SettledKeepsCallers(s, id, M.Releasing(s.ops[id].phase.env));
    case Released(id, now) => ReleaseKeepsCallers(s, id, s.ops[id].phase.env, now);
    case Expired(_) =>
    case CloseBegan =>
    case EntryClosed(_) =>
    case CloserDone => CallersKept(s.(closers := s.closers - 1), 0, M.Ended);
  }

  /** Waking the waiters, whatever the reservations, and then moving one operation. */
  lemma SettledKeepsCallers(s: M.State, id: nat, p: M.Phase)
    requires id in s.ops
    ensures id in M.WakeAll(s).ops
    ensures Callers(M.WakeAll(s).ops[id := M.WakeAll(s).ops[id].(phase := p)]) == Callers(s.ops)
    ensures forall s1: M.State :: s1.ops == s.ops ==> M.WakeAll(s1).ops == M.WakeAll(s).ops
  {
  }

  lemma CallersLinked(calls: seq<S.Call>, ops: map<nat, M.Op>, ops': map<nat, M.Op>)
    requires Linked(calls, ops) && Callers(ops) == Callers(ops')
    ensures Linked(calls, ops')
  {
    assert Callers(ops).Keys == ops.Keys && Callers(ops').Keys == ops'.Keys;
    forall id: nat | id in ops' ensures ops'[id].key == calls[id].key && ops'[id].aborted == calls[id].aborted {
      assert Callers(ops)[id] == Callers(ops')[id];
    }
  }

  lemma BeginKeepsCallers(s: M.State, e: M.Event, limit: nat)
    requires M.Enabled(s, e) && e.Began?
    ensures Callers(M.Step(s, e, limit).ops) == Callers(s.ops[e.id := M.Op(e.key, e.aborted, M.Ended)])
  {
    hide M.HasIdle, M.OldestIdle, M.Reserve, Callers;
    var s1 := s.(ops := s.ops[e.id := M.Op(e.key, e.aborted, M.Ended)]);
    M.IdleSame(s, s1, e.victim);
    if e.aborted {
      CallersKept(s1, e.id, M.Ended);
    } else if e.key in s1.environments && s1.environments[e.key] < |s1.entries| {
      CallersKept(s1, e.id, M.Using(s1.environments[e.key]));
    } else {
      ReserveKeepsCallers(s1, e.id, e.victim, limit);
    }
  }

  /** The scheduler's serialisation: no operation in progress has the key of a starting callback. */
  lemma LaunchedKeyIsFree(s: State, operations: nat, environments: nat, id: nat)
    requires Inv(s, operations, environments) && S.Enabled(s.scheduler, S.Started(id))
    ensures forall i :: i in s.manager.ops ==> s.manager.ops[i].key != s.scheduler.calls[id].key
  {
    hide M.Inv, S.Listed, S.Bounded, S.NoLostWakeup, S.Chained, S.PreviousSameKey, S.Queued;
    forall i: nat | i in s.manager.ops ensures s.manager.ops[i].key != s.scheduler.calls[id].key {
      S.InsideIsFirst(s.scheduler, i);
      S.InsideIsFirst(s.scheduler, id);
    }
  }

  lemma LaunchedKeepsInv(s: State, e: Event, operations: nat, environments: nat)
    requires Inv(s, operations, environments) && environments > 0 && e.Launched? && Enabled(s, e)
    ensures Inv(Step(s, e, operations, environments), operations, environments)
  {
    hide S.Inv, M.Inv, M.Step, Callers;
    var b := Begin(s, e);
    LaunchedKeyIsFree(s, operations, environments, e.id);
    BeginKeepsCallers(s.manager, b, environments);
    var calls := S.Step(s.scheduler, S.Started(e.id), operations).calls;
    CallersLinked(calls, s.manager.ops[e.id := M.Op(b.key, b.aborted, M.Ended)],
      M.Step(s.manager, b, environments).ops);
    S.StepKeepsInv(s.scheduler, S.Started(e.id), operations);
    M.StepKeepsInv(s.manager, Begin(s, e), environments);
  }

  lemma WaiterIsNotRunning(s: S.State)
    requires S.Listed(s) && s.waiters != []
    ensures s.waiters[0] < |s.calls| && s.calls[s.waiters[0]].phase.Waiting?
  {
  }

  lemma ReleaseKeepsLink(s: S.State, id: nat, ops: map<nat, M.Op>)
    requires S.Enabled(s, S.Finished(id)) && Linked(s.calls, ops)
    requires s.waiters != [] ==> s.waiters[0] < |s.calls| && s.calls[s.waiters[0]].phase.Waiting?
    ensures Linked(S.Release(s, id).calls, ops - {id})
  {
  }

  lemma FinishKeepsLink(s: S.State, id: nat, ops: map<nat, M.Op>, operations: nat)
    requires S.Inv(s, operations) && S.Enabled(s, S.Finished(id)) && Linked(s.calls, ops)
    ensures Linked(S.Release(s, id).calls, ops - {id})
  {
    hide S.Ordered, S.Bounded, S.NoLostWakeup, Linked, S.Release, S.Listed;
    if s.waiters != [] { WaiterIsNotRunning(s); }
    ReleaseKeepsLink(s, id, ops);
  }

  lemma ReturnedKeepsInv(s: State, id: nat, operations: nat, environments: nat)
    requires Inv(s, operations, environments) && environments > 0 && Enabled(s, Returned(id))
    ensures Inv(Step(s, Returned(id), operations, environments), operations, environments)
  {
    hide S.Inv, M.Inv, Linked, S.Release;
    FinishKeepsLink(s.scheduler, id, s.manager.ops, operations);
    S.StepKeepsInv(s.scheduler, S.Finished(id), operations);
    M.StepKeepsInv(s.manager, M.Left(id), environments);
  }

  lemma CancelledKeepsInv(s: State, id: nat, operations: nat, environments: nat)
    requires Inv(s, operations, environments) && environments > 0 && Enabled(s, Cancelled(id))
    ensures Inv(Step(s, Cancelled(id), operations, environments), operations, environments)
  {
    hide S.Inv, M.Inv, S.Step, M.Step, S.Cancel, M.Cancel, Linked, M.Enabled;
    CancelLinks(s.scheduler, s.manager, id);
    AbortSteps(s.scheduler, s.manager, id, operations, environments);
    S.StepKeepsInv(s.scheduler, S.Aborted(id), operations);
    if id in s.manager.ops { M.StepKeepsInv(s.manager, M.Aborted(id), environments); }
  }

  lemma AbortSteps(s: S.State, m: M.State, id: nat, operations: nat, environments: nat)
    ensures S.Enabled(s, S.Aborted(id)) ==> S.Step(s, S.Aborted(id), operations) == S.Cancel(s, id)
    ensures id in m.ops ==> M.Enabled(m, M.Aborted(id)) && M.Step(m, M.Aborted(id), environments) == M.Cancel(m, id)
  {
    hide S.Cancel, M.Cancel;
  }

  lemma CancelLinks(s: S.State, m: M.State, id: nat)
    requires Linked(s.calls, m.ops) && id < |s.calls|
    ensures Linked(S.Cancel(s, id).calls, if id in m.ops then M.Cancel(m, id).ops else m.ops)
  {
    hide S.Remove, M.RemoveWaiter;
  }

  lemma StepKeepsInv(s: State, e: Event, operations: nat, environments: nat)
    requires Inv(s, operations, environments) && environments > 0 && Enabled(s, e)
    ensures Inv(Step(s, e, operations, environments), operations, environments)
  {
    hide S.Inv, M.Inv, S.Step, M.Step, S.Enabled, M.Enabled;
    match e
    case Scheduled(x) =>
      S.StepKeepsInv(s.scheduler, x, operations);
      SchedulerKeepsLink(s.scheduler, x, operations, s.manager.ops);
    case Managed(x) =>
      M.StepKeepsInv(s.manager, x, environments);
      ManagerKeepsCallers(s.manager, x, environments);
      CallersLinked(s.scheduler.calls, s.manager.ops, M.Step(s.manager, x, environments).ops);
    case Launched(_, _, _) => LaunchedKeepsInv(s, e, operations, environments);
    case Returned(id) => ReturnedKeepsInv(s, id, operations, environments);
    case Cancelled(id) => CancelledKeepsInv(s, id, operations, environments);
  }

  // ---------- runs ----------

  ghost predicate ValidRun(es: seq<Event>, operations: nat, environments: nat)
    decreases |es|, 0
  {
    es == [] || (ValidRun(es[..|es| - 1], operations, environments)
      && Enabled(Run(es[..|es| - 1], operations, environments), es[|es| - 1]))
  }

  ghost function Run(es: seq<Event>, operations: nat, environments: nat): State
    requires ValidRun(es, operations, environments)
    decreases |es|, 1
  {
    if es == [] then INITIAL
    else Step(Run(es[..|es| - 1], operations, environments), es[|es| - 1], operations, environments)
  }

  lemma InitialInv(operations: nat, environments: nat)
    ensures Inv(INITIAL, operations, environments)
  {
    S.InitialInv(operations);
    var m := M.INITIAL;
    assert M.Reservations(m.ops) == {} && M.StartingOps(m.ops) == {};
  }

  /** Every interleaving of executions, cancellations, expiries and closings keeps the invariant. */
  lemma {:induction false} RunKeepsInv(es: seq<Event>, operations: nat, environments: nat)
    requires ValidRun(es, operations, environments) && environments > 0
    ensures Inv(Run(es, operations, environments), operations, environments)
  {
    hide Inv, Step, Enabled;
    if es == [] {
      InitialInv(operations, environments);
    } else {
      RunKeepsInv(es[..|es| - 1], operations, environments);
      StepKeepsInv(Run(es[..|es| - 1], operations, environments), es[|es| - 1], operations, environments);
    }
  }

  // ---------- what every interleaving guarantees ----------

  /** Registered environments and reserved starts together stay within the limit, and `starting` counts
      exactly the reservations that have not settled. */
  lemma PoolWithinLimit(es: seq<Event>, operations: nat, environments: nat)
    requires ValidRun(es, operations, environments) && environments > 0
    ensures var m := Run(es, operations, environments).manager;
            |m.environments| + m.starting <= environments && m.starting == |M.Reservations(m.ops)|
  {
    hide ValidRun, Run;
    RunKeepsInv(es, operations, environments);
  }

  /** An operation acquires an environment of its own key or starts one where none is registered. */
  lemma StartNeverOverwrites(es: seq<Event>, operations: nat, environments: nat, id: nat)
    requires ValidRun(es, operations, environments) && environments > 0
    requires var m := Run(es, operations, environments).manager; id in m.ops && m.ops[id].phase.Starting?
    ensures var m := Run(es, operations, environments).manager; m.ops[id].key !in m.environments
  {
    RunKeepsInv(es, operations, environments);
    M.StillAcquiring(Run(es, operations, environments).manager, id);
  }

  /** The removal is the discarding of a failed guest or a closing asked for from outside. */
  predicate Deliberate(e: Event) {
    e.Managed? && (e.m.Executed? || e.m.EntryClosed?)
  }

  /** Eviction for capacity and idle expiry never remove an environment that an operation is on. */
  lemma RemovalSparesUsed(es: seq<Event>, operations: nat, environments: nat, e: Event, k: nat, id: nat)
    requires ValidRun(es, operations, environments) && environments > 0
    requires var s := Run(es, operations, environments);
             && Enabled(s, e) && !Deliberate(e)
             && k in s.manager.environments && k !in Step(s, e, operations, environments).manager.environments
             && id in s.manager.ops && M.OnEnvironment(s.manager.ops[id].phase)
    ensures var s := Run(es, operations, environments);
            s.manager.ops[id].phase.env != s.manager.environments[k]
  {
    RunKeepsInv(es, operations, environments);
    var s := Run(es, operations, environments);
    hide ValidRun, Run, S.Inv, M.Inv;
    RemovedWasIdle(s, e, operations, environments, k);
    M.IdleIsUnused(s.manager, environments, k, id);
  }

  lemma RemovedWasIdle(s: State, e: Event, operations: nat, environments: nat, k: nat)
    requires Inv(s, operations, environments) && Enabled(s, e) && !Deliberate(e)
    requires k in s.manager.environments && k !in Step(s, e, operations, environments).manager.environments
    ensures s.manager.environments[k] < |s.manager.entries| && s.manager.entries[s.manager.environments[k]].active == 0
  {
    hide S.Step, S.Inv, M.Step, M.Enabled, M.Inv;
    if e.Launched? {
      BeginRemovesIdle(s.manager, Begin(s, e), environments, k);
    } else if e.Managed? {
      StepRemovesIdle(s.manager, e.m, environments, k);
    } else if e.Returned? {
      StepRemovesIdle(s.manager, M.Left(e.id), environments, k);
    } else {
      AbortRemovesNone(s.manager, e.id, environments);
    }
  }

  lemma ReserveRemovesIdle(m: M.State, id: nat, victim: nat, limit: nat, k: nat)
    requires id in m.ops && (M.HasIdle(m) ==> M.OldestIdle(m, victim))
    requires k in m.environments && k !in M.Reserve(m, id, victim, limit).environments
    ensures m.environments[k] < |m.entries| && m.entries[m.environments[k]].active == 0
  {
    M.ReserveCases(m, id, victim, limit);
    hide M.Reserve, M.HasIdle;
  }

  lemma BeginRemovesIdle(m: M.State, x: M.Event, limit: nat, k: nat)
    requires x.Began? && M.Enabled(m, x)
    requires k in m.environments && k !in M.Step(m, x, limit).environments
    ensures m.environments[k] < |m.entries| && m.entries[m.environments[k]].active == 0
  {
    var m1 := m.(ops := m.ops[x.id := M.Op(x.key, x.aborted, M.Ended)]);
    M.IdleSame(m, m1, x.victim);
    hide M.Reserve, M.HasIdle, M.OldestIdle;
    ReserveRemovesIdle(m1, x.id, x.victim, limit, k);
  }

  lemma StepRemovesIdle(m: M.State, x: M.Event, limit: nat, k: nat)
    requires !x.Began? && !x.Executed? && !x.EntryClosed? && !x.Aborted? && M.Enabled(m, x)
    requires k in m.environments && k !in M.Step(m, x, limit).environments
    ensures m.environments[k] < |m.entries| && m.entries[m.environments[k]].active == 0
  {
    hide M.Reserve, M.HasIdle, M.OldestIdle;
    if x.CapacityResumed? { ReserveRemovesIdle(m, x.id, x.victim, limit, k); }
  }

  lemma AbortRemovesNone(m: M.State, id: nat, limit: nat)
    ensures id in m.ops ==>
      M.Enabled(m, M.Aborted(id)) && M.Step(m, M.Aborted(id), limit).environments == m.environments
  {
    hide M.RemoveWaiter;
  }

  /** No capacity wake-up is lost: while an operation waits for capacity, an environment is active,
      a start or a closing is in progress, or a woken operation has yet to resume. */
  lemma CapacityWakeComing(es: seq<Event>, operations: nat, environments: nat)
    requires ValidRun(es, operations, environments) && environments > 0
    ensures var m := Run(es, operations, environments).manager;
            && (forall id :: id in m.ops && m.ops[id].phase.AwaitingCapacity? ==> M.WakeComing(m))
            && (m.capacityWaiters != [] <==> exists id :: id in m.ops && m.ops[id].phase.AwaitingCapacity?)
  {
    hide ValidRun, Run, M.WakeComing;
    RunKeepsInv(es, operations, environments);
    var m := Run(es, operations, environments).manager;
    if m.capacityWaiters != [] { assert m.capacityWaiters[0] in m.capacityWaiters; }
  }

  /** At most one guest operation of a key runs at a time, and it uses its environment alone. */
  lemma EnvironmentsUsedAlone(es: seq<Event>, operations: nat, environments: nat, i: nat, j: nat)
    requires ValidRun(es, operations, environments) && environments > 0
    requires var m := Run(es, operations, environments).manager;
             i in m.ops && j in m.ops && m.ops[i].phase.Using? && m.ops[i].phase == m.ops[j].phase
    ensures i == j
  {
    RunKeepsInv(es, operations, environments);
    var m := Run(es, operations, environments).manager;
    hide ValidRun, Run, M.Tracked, M.Capacity, M.Waiters, M.NoLostWakeup, M.DistinctKeys;
    M.SoleUser(m, i, m.ops[i].phase.env);
    assert j in M.UsersOf(m.ops, m.ops[i].phase.env);
  }

  // ---------- nobody is left waiting ----------

  predicate OutsideIn(p: M.Phase) { p.Starting? || p.Using? || p.Evicting? || p.Discarding? }

  /** Something outside is in progress: a start or a closing of an environment, or a guest. */
  predicate Outstanding(m: M.State) {
    || m.closers > 0
    || exists id :: id in m.ops && OutsideIn(m.ops[id].phase)
  }

  /** The steps of the program itself, which nothing outside has to allow. */
  predicate Internal(e: Event) {
    match e
    case Scheduled(x) => x.PreviousDone? || x.Resumed? || x.Rejected?
    case Managed(x) => x.CapacityResumed? || x.Released?
    case Launched(_, _, _) => true
    case Returned(_) => true
    case Cancelled(_) => false
  }

  ghost predicate Quiescent(s: State) {
    !Outstanding(s.manager) && forall e :: Internal(e) ==> !Enabled(s, e)
  }

  lemma NoWakeComing(m: M.State, limit: nat)
    requires M.Inv(m, limit) && !Outstanding(m) && forall id :: id in m.ops ==> !m.ops[id].phase.CapacityWoken?
    ensures !M.WakeComing(m)
  {
    assert M.Reservations(m.ops) == {} && M.WakingOps(m.ops) == {};
    hide M.Reservations, M.WakingOps, M.Waiters, M.Placed, M.DistinctKeys, M.NoLostWakeup;
    forall k | k in m.environments ensures m.entries[m.environments[k]].active == 0 {
      assert M.TrackedEntry(m.entries, m.ops, m.environments[k]);
      assert M.UsersOf(m.ops, m.environments[k]) == {};
    }
    assert M.ActiveKeys(m.environments, m.entries) == {};
  }

  lemma NobodyWaits(m: M.State, limit: nat)
    requires M.Inv(m, limit) && !M.WakeComing(m)
    ensures forall id :: id in m.ops ==> !m.ops[id].phase.AwaitingCapacity?
  {
    hide M.WakeComing, M.Capacity, M.Placed, M.Tracked, M.Keyed, M.DistinctKeys;
    assert m.capacityWaiters == [];
    forall id | id in m.ops ensures !m.ops[id].phase.AwaitingCapacity? { assert id !in m.capacityWaiters; }
  }

  /** An operation whose next step is the program's own can take it. */
  lemma OperationCanMove(s: State, operations: nat, environments: nat, id: nat) returns (e: Event)
    requires Inv(s, operations, environments) && id in s.manager.ops
    requires var p := s.manager.ops[id].phase; p.CapacityWoken? || p.Releasing? || p.Ended?
    ensures Internal(e) && Enabled(s, e)
  {
    hide S.Inv, M.Capacity, M.Waiters, M.Tracked, M.NoLostWakeup, M.DistinctKeys, M.HasIdle, M.OldestIdle;
    var p := s.manager.ops[id].phase;
    if p.CapacityWoken? {
      var victim := M.OldestExists(s.manager);
      e := Managed(M.CapacityResumed(id, victim));
    } else if p.Releasing? {
      assert M.PlacedOp(s.manager.environments, s.manager.entries, s.manager.ops[id]);
      e := Managed(M.Released(id, 0));
    } else {
      e := Returned(id);
    }
  }

  /** A slot that is held can be used. */
  lemma CallbackCanStart(s: State, operations: nat, environments: nat, id: nat) returns (e: Event)
    requires Inv(s, operations, environments) && S.Enabled(s.scheduler, S.Started(id))
    ensures Internal(e) && Enabled(s, e)
  {
    hide S.Inv, M.Capacity, M.Waiters, M.Tracked, M.NoLostWakeup, M.DistinctKeys, M.Placed, M.HasIdle, M.OldestIdle;
    var victim := M.OldestExists(s.manager);
    e := Launched(id, victim, 0);
  }

  lemma NoOperations(s: State, operations: nat, environments: nat)
    requires Inv(s, operations, environments) && Quiescent(s)
    ensures s.manager.ops == map[]
  {
    hide Inv, Enabled, Internal, M.Inv;
    forall id | id in s.manager.ops ensures !Ready(s.manager, id) {
      if Ready(s.manager, id) { var e := OperationCanMove(s, operations, environments, id); }
    }
    NothingInProgress(s, operations, environments);
  }

  /** The next step of the operation is the program's own. */
  predicate Ready(m: M.State, id: nat)
    requires id in m.ops
  {
    m.ops[id].phase.CapacityWoken? || m.ops[id].phase.Releasing? || m.ops[id].phase.Ended?
  }

  lemma NothingInProgress(s: State, operations: nat, environments: nat)
    requires Inv(s, operations, environments) && !Outstanding(s.manager)
    requires forall id :: id in s.manager.ops ==> !Ready(s.manager, id)
    ensures s.manager.ops == map[]
  {
    hide M.Inv, S.Inv, M.WakeComing, Linked;
    NoWakeComing(s.manager, environments);
    NobodyWaits(s.manager, environments);
    assert forall id :: id !in s.manager.ops;
  }

  /** When nothing outside is in progress and the program has no step of its own left to take, every execution has
      settled: no caller is left waiting for its predecessor, for a slot or for capacity. */
  lemma QuiescentMeansSettled(es: seq<Event>, operations: nat, environments: nat)
    requires ValidRun(es, operations, environments) && operations > 0 && environments > 0
    requires Quiescent(Run(es, operations, environments))
    ensures var s := Run(es, operations, environments);
      && s.manager.ops == map[] && s.scheduler.waiters == [] && s.manager.capacityWaiters == []
      && forall id :: 0 <= id < |s.scheduler.calls| ==> s.scheduler.calls[id].phase.Settled?
  {
    RunKeepsInv(es, operations, environments);
    var s := Run(es, operations, environments);
    hide ValidRun, Run, S.Inv, M.Inv;
    NoOperations(s, operations, environments);
    SchedulerIsStill(s, operations, environments);
    forall id | 0 <= id < |s.scheduler.calls| ensures s.scheduler.calls[id].phase.Settled? {
      S.SettledWhenQuiescent(s.scheduler, operations, id);
    }
    EmptyLists(s, operations, environments);
  }

  lemma SchedulerIsStill(s: State, operations: nat, environments: nat)
    requires Inv(s, operations, environments) && Quiescent(s) && s.manager.ops == map[]
    ensures forall id: nat :: id < |s.scheduler.calls| ==> s.scheduler.calls[id].phase != S.Holding(true)
    ensures forall id: nat :: !S.CanMove(s.scheduler, id)
  {
    hide S.Inv, M.Inv, S.Enabled, M.Enabled;
    forall id: nat ensures !S.CanMove(s.scheduler, id) {
      assert !Enabled(s, Scheduled(S.PreviousDone(id))) && !Enabled(s, Scheduled(S.Resumed(id)));
      assert !Enabled(s, Scheduled(S.Rejected(id)));
      if S.Enabled(s.scheduler, S.Started(id)) { var e := CallbackCanStart(s, operations, environments, id); }
    }
  }

  lemma FirstIsMember(list: seq<nat>)
    ensures list != [] ==> list[0] in list
  {
  }

  lemma EmptyLists(s: State, operations: nat, environments: nat)
    requires Inv(s, operations, environments) && s.manager.ops == map[]
    requires forall id :: 0 <= id < |s.scheduler.calls| ==> s.scheduler.calls[id].phase.Settled?
    ensures s.scheduler.waiters == [] && s.manager.capacityWaiters == []
  {
    hide S.Ordered, S.Bounded, S.NoLostWakeup, M.Capacity, M.Placed, M.Tracked, M.Keyed, M.DistinctKeys, M.NoLostWakeup;
    FirstIsMember(s.scheduler.waiters);
    FirstIsMember(s.manager.capacityWaiters);
  }
}
