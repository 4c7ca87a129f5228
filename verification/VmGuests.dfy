/** What happens to environments and executions over the runs of scheduler and pool together: a failed guest is never
    used again, a guest that answered is kept warm, and only cancelled executions go without
    (src/main/sandbox/vm-environment-manager.ts, src/main/sandbox/vm-scheduler.ts). */
module VmGuests {
  import opened Options
  import C = VmCancellation
  import S = VmScheduler
  import M = VmEnvironmentManager
  import opened VmProvider

  // ---------- a failed guest is gone ----------

  /** The environment is registered under no key, and no operation uses it. */
  ghost predicate Gone(m: M.State, env: nat) {
    && env < |m.entries|
    && (forall k :: k in m.environments ==> m.environments[k] != env)
    && (forall id :: id in m.ops ==> m.ops[id].phase != M.Using(env))
  }

  lemma ReserveKeepsGone(m: M.State, id: nat, victim: nat, limit: nat, env: nat)
    requires id in m.ops && (M.HasIdle(m) ==> M.OldestIdle(m, victim)) && Gone(m, env)
    ensures Gone(M.Reserve(m, id, victim, limit), env)
  {
    M.ReserveCases(m, id, victim, limit);
    hide M.Reserve, M.HasIdle, M.OldestIdle;
  }

  lemma WokenKeepsGone(m: M.State, env: nat)
    requires Gone(m, env)
    ensures Gone(M.WakeAll(m), env) && M.WakeAll(m).ops.Keys == m.ops.Keys
  {
  }

  lemma ReleaseKeepsGone(m: M.State, id: nat, of: nat, now: int, env: nat)
    requires Gone(m, env) && id in m.ops && of < |m.entries|
    ensures Gone(M.Release(m, id, of, now), env)
  {
    hide M.WakeAll;
    var entry := m.entries[of];
    var active := if entry.active == 0 then 0 else entry.active - 1;
    var s1 := m.(entries := m.entries[of := entry.(active := active, lastUsedAt := now, timerArmed := active == 0)]);
    WokenKeepsGone(s1, env);
  }

  lemma BeginKeepsGone(m: M.State, e: M.Event, limit: nat, env: nat)
    requires M.Enabled(m, e) && e.Began? && Gone(m, env)
    ensures Gone(M.Step(m, e, limit), env)
  {
    hide M.HasIdle, M.OldestIdle, M.Reserve;
    var s1 := m.(ops := m.ops[e.id := M.Op(e.key, e.aborted, M.Ended)]);
    M.IdleSame(m, s1, e.victim);
    assert Gone(s1, env);
    if !e.aborted && !(e.key in s1.environments && s1.environments[e.key] < |s1.entries|) {
      ReserveKeepsGone(s1, e.id, e.victim, limit, env);
    }
  }

  lemma StepKeepsGone(m: M.State, e: M.Event, limit: nat, env: nat)
    requires M.Enabled(m, e) && Gone(m, env)
    ensures Gone(M.Step(m, e, limit), env)
  {
    hide M.HasIdle, M.OldestIdle, M.WakeAll, M.Release, M.Reserve;
    match e
    case Began(_, _, _, _, _) => BeginKeepsGone(m, e, limit, env);
    case CapacityResumed(id, victim) => ReserveKeepsGone(m, id, victim, limit, env);
    case EvictionClosed(id) =>
    case StartSucceeded(id, now) => StartKeepsGone(m, id, now, env);
    case StartFailed(id) => UnreserveKeepsGone(m, id, env);
    case Executed(id, _, now) =>
      ReleaseKeepsGone(m, id, m.ops[id].phase.env, now, env);
    case DiscardClosed(id) => WokenKeepsGone(m, env);
    case Released(id, now) => ReleaseKeepsGone(m, id, m.ops[id].phase.env, now, env);
    case Aborted(id) =>
    case Left(id) =>
    case Expired(_) =>
    case CloseBegan =>
    case EntryClosed(_) =>
    case CloserDone => WokenKeepsGone(m.(closers := m.closers - 1), env);
  }

  lemma UnreserveKeepsGone(m: M.State, id: nat, env: nat)
    requires Gone(m, env) && id in m.ops
    ensures Gone(M.Unreserve(m, id), env) && id in M.Unreserve(m, id).ops
    ensures M.Unreserve(m, id).entries == m.entries
  {
    var s1 := m.(pendingStarts := m.pendingStarts - {id}, starting := if m.starting == 0 then 0 else m.starting - 1);
    WokenKeepsGone(s1, env);
    hide M.WakeAll;
  }

  lemma StartKeepsGone(m: M.State, id: nat, now: int, env: nat)
    requires Gone(m, env) && id in m.ops
    ensures Gone(M.Registered(m, id, now), env)
  {
    UnreserveKeepsGone(m, id, env);
    hide M.Unreserve;
  }

  /** When its guest fails, an environment is taken out of the pool, and nobody else was using it. */
  lemma FailedIsGone(m: M.State, e: M.Event, limit: nat)
    requires M.Inv(m, limit) && e.Executed? && e.guestFailed && M.Enabled(m, e)
    ensures Gone(M.Step(m, e, limit), m.ops[e.id].phase.env)
  {
    hide M.Capacity, M.Waiters, M.Tracked, M.NoLostWakeup, M.WakeAll;
    var env := m.ops[e.id].phase.env;
    var key := m.entries[env].key;
    assert M.PlacedOp(m.environments, m.entries, m.ops[e.id]);
    forall id | id in m.ops && id != e.id ensures m.ops[id].phase != M.Using(env) {
      assert M.PlacedOp(m.environments, m.entries, m.ops[id]);
    }
    if key !in m.environments { assert M.Release(m, e.id, env, e.now) == M.WithOp(m, e.id, M.Ended); }
  }

  lemma AbortKeepsGone(m: M.State, id: nat, limit: nat, env: nat)
    requires id in m.ops && Gone(m, env)
    ensures Gone(M.Step(m, M.Aborted(id), limit), env)
  {
    hide M.RemoveWaiter;
  }

  lemma ProviderKeepsGone(s: State, e: Event, operations: nat, environments: nat, env: nat)
    requires Enabled(s, e) && Gone(s.manager, env)
    ensures Gone(Step(s, e, operations, environments).manager, env)
  {
    hide M.Step, M.Enabled, S.Step, S.ChainResolved, Gone;
    match e
    case Scheduled(_) =>
    case Managed(x) => StepKeepsGone(s.manager, x, environments, env);
    case Launched(_, _, _) => StepKeepsGone(s.manager, Begin(s, e), environments, env);
    case Returned(id) => StepKeepsGone(s.manager, M.Left(id), environments, env);
    case Cancelled(id) => if id in s.manager.ops { AbortKeepsGone(s.manager, id, environments, env); }
  }

  lemma {:induction false} PrefixIsValid(es: seq<Event>, operations: nat, environments: nat, n: nat)
    requires ValidRun(es, operations, environments) && n <= |es|
    ensures ValidRun(es[..n], operations, environments)
    decreases |es|
  {
    if n == |es| {
      assert es[..n] == es;
    } else {
      assert es[..|es| - 1][..n] == es[..n];
      PrefixIsValid(es[..|es| - 1], operations, environments, n);
    }
  }

  lemma NextState(es: seq<Event>, operations: nat, environments: nat, n: nat)
    requires ValidRun(es, operations, environments) && n < |es|
    ensures ValidRun(es[..n], operations, environments) && ValidRun(es[..n + 1], operations, environments)
    ensures Enabled(Run(es[..n], operations, environments), es[n])
    ensures Run(es[..n + 1], operations, environments)
      == Step(Run(es[..n], operations, environments), es[n], operations, environments)
  {
    PrefixIsValid(es, operations, environments, n);
    PrefixIsValid(es, operations, environments, n + 1);
    assert es[..n + 1][..n] == es[..n] && es[..n + 1][n] == es[n];
    hide Enabled, Step;
  }

  lemma {:induction false} GoneStays(es: seq<Event>, operations: nat, environments: nat, n: nat, env: nat)
    requires ValidRun(es, operations, environments) && n <= |es| && ValidRun(es[..n], operations, environments)
    requires Gone(Run(es[..n], operations, environments).manager, env)
    ensures Gone(Run(es, operations, environments).manager, env)
    decreases |es|
  {
    hide Gone, Enabled, Step;
    if n == |es| {
      assert es[..n] == es;
    } else {
      var init := es[..|es| - 1];
      assert init[..n] == es[..n];
      GoneStays(init, operations, environments, n, env);
      ProviderKeepsGone(Run(init, operations, environments), es[|es| - 1], operations, environments, env);
    }
  }

  /** Once the guest of an environment has failed, the environment is registered under no key in any later state, and no
      operation ever uses it again. */
  lemma FailedGuestIsNeverReused(es: seq<Event>, operations: nat, environments: nat, n: nat, id: nat, now: int)
    requires ValidRun(es, operations, environments) && environments > 0
    requires n < |es| && es[n] == Managed(M.Executed(id, true, now))
    ensures ValidRun(es[..n], operations, environments)
    ensures var ops := Run(es[..n], operations, environments).manager.ops;
      id in ops && ops[id].phase.Using? && Gone(Run(es, operations, environments).manager, ops[id].phase.env)
  {
    hide *;
    NextState(es, operations, environments, n);
    RunKeepsInv(es[..n], operations, environments);
    FailedStep(Run(es[..n], operations, environments), operations, environments, id, now);
    GoneStays(es, operations, environments, n + 1, Run(es[..n], operations, environments).manager.ops[id].phase.env);
  }

  lemma FailedStep(s: State, operations: nat, environments: nat, id: nat, now: int)
    requires Inv(s, operations, environments) && Enabled(s, Managed(M.Executed(id, true, now)))
    ensures id in s.manager.ops && s.manager.ops[id].phase.Using?
    ensures Gone(Step(s, Managed(M.Executed(id, true, now)), operations, environments).manager,
      s.manager.ops[id].phase.env)
  {
    hide Gone, M.Inv, S.Inv, M.Step;
    FailedIsGone(s.manager, M.Executed(id, true, now), environments);
  }

  // ---------- a guest that answered is kept warm ----------

  /** An environment whose guest answered stays registered, is idle, and its idle timer runs. */
  lemma AnsweredStays(es: seq<Event>, operations: nat, environments: nat, id: nat, now: int)
    requires ValidRun(es, operations, environments) && environments > 0
    requires Enabled(Run(es, operations, environments), Managed(M.Executed(id, false, now)))
    ensures var m := Run(es, operations, environments).manager;
      var after := M.Step(m, M.Executed(id, false, now), environments);
      var env := m.ops[id].phase.env;
      && after.environments == m.environments
      && (m.ops[id].key in m.environments ==>
            && m.environments[m.ops[id].key] == env && env < |after.entries|
            && after.entries[env] == M.Entry(m.ops[id].key, 0, now, true))
      && id in after.ops && after.ops[id].phase == M.Ended
  {
    RunKeepsInv(es, operations, environments);
    var m := Run(es, operations, environments).manager;
    hide Run, ValidRun, S.Inv;
    AnsweredStep(m, id, now, environments);
  }

  lemma AnsweredStep(m: M.State, id: nat, now: int, limit: nat)
    requires M.Inv(m, limit) && M.Enabled(m, M.Executed(id, false, now))
    ensures var after := M.Step(m, M.Executed(id, false, now), limit);
      var env := m.ops[id].phase.env;
      && after.environments == m.environments
      && (m.ops[id].key in m.environments ==>
            && m.environments[m.ops[id].key] == env && env < |after.entries|
            && after.entries[env] == M.Entry(m.ops[id].key, 0, now, true))
      && id in after.ops && after.ops[id].phase == M.Ended
  {
    var env := m.ops[id].phase.env;
    assert M.PlacedOp(m.environments, m.entries, m.ops[id]);
    if m.ops[id].key in m.environments {
      assert M.TrackedEntry(m.entries, m.ops, env);
      M.SoleUser(m, id, env);
    }
    hide M.Capacity, M.Waiters, M.Tracked, M.NoLostWakeup, M.Placed, M.DistinctKeys, M.Keyed;
  }

  /** An execution whose key has an environment uses that one, without starting another or evicting any. */
  lemma WarmReuse(s: State, e: Event, operations: nat, environments: nat)
    requires Inv(s, operations, environments) && e.Launched? && Enabled(s, e)
    requires !s.scheduler.calls[e.id].aborted && s.scheduler.calls[e.id].key in s.manager.environments
    ensures var m := Step(s, e, operations, environments).manager;
      && e.id in m.ops && m.ops[e.id].phase == M.Using(s.manager.environments[s.scheduler.calls[e.id].key])
      && m.environments == s.manager.environments && m.starting == s.manager.starting
  {
    hide S.Inv, M.Capacity, M.Waiters, M.Tracked, M.NoLostWakeup, M.Placed, M.DistinctKeys, M.HasIdle, M.OldestIdle;
  }

  /** A start that succeeded registers the environment under the operation's key, in use by it alone, gives the
      reservation back and wakes all that wait for capacity. */
  lemma StartedIsRegistered(m: M.State, id: nat, now: int, limit: nat)
    requires M.Inv(m, limit) && M.Enabled(m, M.StartSucceeded(id, now))
    ensures var after := M.Step(m, M.StartSucceeded(id, now), limit);
      && after.environments == m.environments[m.ops[id].key := |m.entries|]
      && after.entries == m.entries + [M.Entry(m.ops[id].key, 1, now, false)]
      && id in after.ops && after.ops[id].phase == M.Using(|m.entries|)
      && after.starting == m.starting - 1 && after.pendingStarts == m.pendingStarts - {id}
      && after.capacityWaiters == []
  {
    assert id in M.Reservations(m.ops);
    hide M.Waiters, M.Placed, M.Tracked, M.NoLostWakeup, M.DistinctKeys, M.Keyed;
  }

  /** Closing an environment from outside takes it, and no other, out of the pool. */
  lemma ClosedIsUnregistered(m: M.State, key: nat, limit: nat)
    requires M.Inv(m, limit) && M.Enabled(m, M.EntryClosed(key))
    ensures key in m.environments
    ensures var after := M.Step(m, M.EntryClosed(key), limit);
      && after.environments == m.environments - {key} && after.ops == m.ops
      && forall k :: k in after.environments ==> after.environments[k] != m.environments[key]
  {
    hide M.Waiters, M.Placed, M.Tracked, M.NoLostWakeup, M.DistinctKeys, M.Capacity;
    var after := M.Step(m, M.EntryClosed(key), limit);
    forall k | k in after.environments ensures after.environments[k] != m.environments[key] {
      assert m.entries[m.environments[k]].key == k;
    }
  }

  // ---------- a cancelled operation acquires nothing ----------

  /** A cancelled execution that is launched, or that waits for capacity when it is cancelled, ends at once and takes
      nothing. */
  lemma CancelledTakesNothing(s: State, e: Event, operations: nat, environments: nat)
    requires Inv(s, operations, environments) && Enabled(s, e)
    requires || (e.Launched? && s.scheduler.calls[e.id].aborted)
             || (e.Cancelled? && e.id in s.manager.ops && s.manager.ops[e.id].phase.AwaitingCapacity?)
    ensures var m := Step(s, e, operations, environments).manager;
      && e.id in m.ops && m.ops[e.id].phase == M.Ended && e.id !in m.capacityWaiters
      && m.environments == s.manager.environments && m.entries == s.manager.entries
      && m.starting == s.manager.starting && m.pendingStarts == s.manager.pendingStarts
  {
    hide S.Inv, M.Capacity, M.Tracked, M.NoLostWakeup, M.Placed, M.DistinctKeys, M.Keyed, M.HasIdle, M.OldestIdle;
    if e.Cancelled? {
      M.RemoveWaiterMembers(s.manager.capacityWaiters, e.id);
    } else {
      assert e.id !in s.manager.capacityWaiters;
    }
  }

  /** An operation that has ended stays so until it leaves. */
  lemma EndedStays(m: M.State, e: M.Event, limit: nat, id: nat)
    requires M.Enabled(m, e) && id in m.ops && m.ops[id].phase.Ended?
    ensures var ops := M.Step(m, e, limit).ops; id in ops ==> ops[id].phase.Ended?
  {
    hide M.HasIdle, M.OldestIdle, M.RemoveWaiter, M.Reserve;
    if e.Began? {
      var s1 := m.(ops := m.ops[e.id := M.Op(e.key, e.aborted, M.Ended)]);
      M.IdleSame(m, s1, e.victim);
      if !e.aborted && !(e.key in s1.environments && s1.environments[e.key] < |s1.entries|) {
        OnlyOneMoves(s1, e.id, e.victim, limit);
      }
    } else if e.CapacityResumed? {
      OnlyOneMoves(m, e.id, e.victim, limit);
    }
  }

  // ---------- who goes without ----------

  /** The executions whose guest has answered or failed, or whose environment could not be started. */
  function Served(es: seq<Event>): set<nat> {
    if es == [] then {} else Served(es[..|es| - 1]) + ServedBy(es[|es| - 1])
  }

  function ServedBy(e: Event): set<nat> {
    if e.Managed? && (e.m.Executed? || e.m.StartFailed?) then {e.m.id} else {}
  }

  /** The scheduler's part of an event. */
  function SchedulerEvent(e: Event): Option<S.Event> {
    match e
    case Scheduled(x) => Some(x)
    case Managed(_) => None
    case Launched(id, _, _) => Some(S.Started(id))
    case Returned(id) => Some(S.Finished(id))
    case Cancelled(id) => Some(S.Aborted(id))
  }

  function SchedulerEvents(es: seq<Event>): seq<S.Event> {
    if es == [] then []
    else
      var x := SchedulerEvent(es[|es| - 1]);
      SchedulerEvents(es[..|es| - 1]) + if x.Some? then [x.value] else []
  }

  lemma {:induction false} SchedulerRuns(es: seq<Event>, operations: nat, environments: nat)
    requires ValidRun(es, operations, environments)
    ensures S.ValidRun(S.INITIAL, SchedulerEvents(es), operations)
    ensures Run(es, operations, environments).scheduler == S.Run(S.INITIAL, SchedulerEvents(es), operations)
  {
    hide S.Step, S.Enabled, M.Step, M.Enabled;
    if es != [] {
      var init, last := es[..|es| - 1], es[|es| - 1];
      SchedulerRuns(init, operations, environments);
      var x := SchedulerEvent(last);
      var before := SchedulerEvents(init);
      if x.Some? {
        var after := before + [x.value];
        assert after[..|after| - 1] == before;
        assert SchedulerEvents(es) == after;
      } else {
        assert SchedulerEvents(es) == before;
      }
    }
  }

  /** An operation past its use was served; one that has ended was served or cancelled. */
  predicate Reasoned(op: M.Op, id: nat, served: set<nat>) {
    && (op.phase.Discarding? || op.phase.Releasing? ==> id in served)
    && (op.phase.Ended? ==> id in served || op.aborted)
  }

  ghost predicate AllReasoned(m: M.State, served: set<nat>) {
    forall id :: id in m.ops ==> Reasoned(m.ops[id], id, served)
  }

  lemma ReserveReasoned(m: M.State, id: nat, victim: nat, limit: nat, served: set<nat>)
    requires id in m.ops && (M.HasIdle(m) ==> M.OldestIdle(m, victim)) && AllReasoned(m.(ops := m.ops - {id}), served)
    ensures AllReasoned(M.Reserve(m, id, victim, limit), served)
  {
    M.ReserveCases(m, id, victim, limit);
    hide M.Reserve, M.HasIdle, M.OldestIdle;
    forall x | x in m.ops && x != id ensures Reasoned(m.ops[x], x, served) { assert x in m.ops - {id}; }
  }

  lemma WokenReasoned(m: M.State, served: set<nat>)
    requires AllReasoned(m, served)
    ensures AllReasoned(M.WakeAll(m), served) && M.WakeAll(m).ops.Keys == m.ops.Keys
  {
  }

  lemma FewerReasoned(m: M.State, id: nat, served: set<nat>)
    requires AllReasoned(m, served)
    ensures AllReasoned(m.(ops := m.ops - {id}), served)
  {
  }

  lemma ReleaseReasoned(m: M.State, id: nat, of: nat, now: int, served: set<nat>)
    requires AllReasoned(m, served) && id in m.ops && of < |m.entries| && id in served
    ensures AllReasoned(M.Release(m, id, of, now), served)
  {
    hide M.WakeAll;
    var entry := m.entries[of];
    var active := if entry.active == 0 then 0 else entry.active - 1;
    var s1 := m.(entries := m.entries[of := entry.(active := active, lastUsedAt := now, timerArmed := active == 0)]);
    WokenReasoned(s1, served);
  }

  lemma BeginReasoned(m: M.State, e: M.Event, limit: nat, served: set<nat>)
    requires M.Enabled(m, e) && e.Began? && AllReasoned(m, served)
    ensures AllReasoned(M.Step(m, e, limit), served)
  {
    hide M.HasIdle, M.OldestIdle, M.Reserve;
    var s1 := m.(ops := m.ops[e.id := M.Op(e.key, e.aborted, M.Ended)]);
    M.IdleSame(m, s1, e.victim);
    if !e.aborted && !(e.key in s1.environments && s1.environments[e.key] < |s1.entries|) {
      ReserveReasoned(s1, e.id, e.victim, limit, served);
    }
  }

  lemma MoreServed(m: M.State, served: set<nat>, more: set<nat>)
    requires AllReasoned(m, served) && served <= more
    ensures AllReasoned(m, more)
  {
  }

  lemma UnreserveReasoned(m: M.State, id: nat, served: set<nat>)
    requires AllReasoned(m, served) && id in m.ops
    ensures AllReasoned(M.Unreserve(m, id), served) && id in M.Unreserve(m, id).ops
  {
    var s1 := m.(pendingStarts := m.pendingStarts - {id}, starting := if m.starting == 0 then 0 else m.starting - 1);
    WokenReasoned(s1, served);
    hide M.WakeAll;
  }

  lemma StepReasoned(m: M.State, e: M.Event, limit: nat, served: set<nat>)
    requires M.Enabled(m, e) && AllReasoned(m, served)
    requires e.Executed? || e.StartFailed? ==> e.id in served
    ensures AllReasoned(M.Step(m, e, limit), served)
  {
    hide M.HasIdle, M.OldestIdle, M.WakeAll, M.Release, M.Reserve, M.Unreserve, M.RemoveWaiter;
    match e
    case Began(_, _, _, _, _) => BeginReasoned(m, e, limit, served);
    case CapacityResumed(id, victim) =>
      FewerReasoned(m, id, served);
      ReserveReasoned(m, id, victim, limit, served);
    case EvictionClosed(id) =>
    case StartSucceeded(id, _) => UnreserveReasoned(m, id, served);
    case StartFailed(id) => UnreserveReasoned(m, id, served);
    case Executed(id, _, now) => ReleaseReasoned(m, id, m.ops[id].phase.env, now, served);
    case DiscardClosed(id) => WokenReasoned(m, served);
    case Released(id, now) => ReleaseReasoned(m, id, m.ops[id].phase.env, now, served);
    case Aborted(id) =>
    case Left(id) =>
    case Expired(_) =>
    case CloseBegan =>
    case EntryClosed(_) =>
    case CloserDone => WokenReasoned(m.(closers := m.closers - 1), served);
  }

  /** A call that has settled was served or cancelled. */
  ghost predicate SettledForAReason(calls: seq<S.Call>, served: set<nat>) {
    forall id: nat :: id < |calls| && calls[id].phase.Settled? ==> calls[id].aborted || id in served
  }

  ghost predicate FailingIsAborted(calls: seq<S.Call>) {
    forall id: nat :: id < |calls| && calls[id].phase.Failing? ==> calls[id].aborted
  }

  /** A step of the scheduler settles no call without a reason, given one for the callback it ends. */
  lemma SchedulerReasoned(s: S.State, x: S.Event, limit: nat, served: set<nat>)
    requires S.Inv(s, limit) && S.Enabled(s, x) && SettledForAReason(s.calls, served) && FailingIsAborted(s.calls)
    requires x.Finished? ==> x.id in served || s.calls[x.id].aborted
    ensures SettledForAReason(S.Step(s, x, limit).calls, served)
  {
    var s' := S.Step(s, x, limit);
    RegisteredCall(s, x, limit);
    hide S.Inv, S.Step, S.Enabled;
    forall id: nat | id < |s'.calls| && s'.calls[id].phase.Settled? ensures s'.calls[id].aborted || id in served {
      if id < |s.calls| { C.CallMoves(s, x, limit, id); }
    }
  }

  lemma RegisteredCall(s: S.State, x: S.Event, limit: nat)
    requires S.Inv(s, limit) && S.Enabled(s, x)
    ensures var calls := S.Step(s, x, limit).calls;
      |calls| > |s.calls| ==> |calls| == |s.calls| + 1 && !calls[|s.calls|].phase.Settled?
  {
    if |s.calls| > 0 { C.CallMoves(s, x, limit, 0); }
    hide S.Inv, S.ChainResolved;
  }

  lemma {:induction false} RunReasoned(es: seq<Event>, operations: nat, environments: nat)
    requires ValidRun(es, operations, environments) && environments > 0
    ensures AllReasoned(Run(es, operations, environments).manager, Served(es))
    ensures SettledForAReason(Run(es, operations, environments).scheduler.calls, Served(es))
  {
    hide Inv, Enabled, Step, AllReasoned, SettledForAReason;
    if es == [] {
      NothingReasoned();
    } else {
      var init := es[..|es| - 1];
      RunReasoned(init, operations, environments);
      RunKeepsInv(init, operations, environments);
      NoneFailsUncancelled(init, operations, environments);
      OneStepReasoned(Run(init, operations, environments), es[|es| - 1], operations, environments, Served(init));
    }
  }

  lemma NothingReasoned()
    ensures AllReasoned(INITIAL.manager, {}) && SettledForAReason(INITIAL.scheduler.calls, {})
  {
  }

  lemma NoneFailsUncancelled(es: seq<Event>, operations: nat, environments: nat)
    requires ValidRun(es, operations, environments)
    ensures FailingIsAborted(Run(es, operations, environments).scheduler.calls)
  {
    SchedulerRuns(es, operations, environments);
    C.RunTraced(SchedulerEvents(es), operations);
    hide S.Run, S.ValidRun, Run, ValidRun;
    var s := S.Run(S.INITIAL, SchedulerEvents(es), operations);
    forall id: nat | id < |s.calls| && s.calls[id].phase.Failing? ensures s.calls[id].aborted {
      assert C.Traced(s.calls[id], id, S.Starts(SchedulerEvents(es)), C.CancelledCalls(SchedulerEvents(es)));
    }
  }

  lemma OneStepReasoned(s: State, e: Event, operations: nat, environments: nat, served: set<nat>)
    requires Inv(s, operations, environments) && Enabled(s, e)
    requires AllReasoned(s.manager, served) && SettledForAReason(s.scheduler.calls, served)
    requires FailingIsAborted(s.scheduler.calls)
    ensures AllReasoned(Step(s, e, operations, environments).manager, served + ServedBy(e))
    ensures SettledForAReason(Step(s, e, operations, environments).scheduler.calls, served + ServedBy(e))
  {
    var now := served + ServedBy(e);
    MoreServed(s.manager, served, now);
    assert SettledForAReason(s.scheduler.calls, now);
    hide S.Inv, M.Inv, S.Step, M.Step, S.ChainResolved, M.Enabled, AllReasoned, SettledForAReason, FailingIsAborted;
    match e
    case Scheduled(x) => SchedulerReasoned(s.scheduler, x, operations, now);
    case Managed(x) => StepReasoned(s.manager, x, environments, now);
    case Launched(id, _, _) =>
      SchedulerReasoned(s.scheduler, S.Started(id), operations, now);
      StepReasoned(s.manager, Begin(s, e), environments, now);
    case Returned(id) =>
      LeavingIsReasoned(s, id, operations, environments, now);
      SchedulerReasoned(s.scheduler, S.Finished(id), operations, now);
      StepReasoned(s.manager, M.Left(id), environments, now);
    case Cancelled(id) =>
      SchedulerReasoned(s.scheduler, S.Aborted(id), operations, now);
      if id in s.manager.ops {
        CanAbort(s.manager, id);
        StepReasoned(s.manager, M.Aborted(id), environments, now);
      }
  }

  lemma CanAbort(m: M.State, id: nat)
    requires id in m.ops
    ensures M.Enabled(m, M.Aborted(id))
  {
  }

  lemma LeavingIsReasoned(s: State, id: nat, operations: nat, environments: nat, served: set<nat>)
    requires Inv(s, operations, environments) && Enabled(s, Returned(id)) && AllReasoned(s.manager, served)
    ensures id < |s.scheduler.calls| && (id in served || s.scheduler.calls[id].aborted)
  {
    hide S.Inv, M.Inv;
    assert Reasoned(s.manager.ops[id], id, served);
  }

  /** The executions that were cancelled, before or after they were called. */
  function CancelledExecutions(es: seq<Event>): set<nat> { C.CancelledCalls(SchedulerEvents(es)) }

  /** Only cancelled executions go without: when nothing outside is in progress and the program has no step of its own
      left, every other one was let in by the scheduler, and had its guest run or its environment fail to start. */
  lemma EveryExecutionIsServed(es: seq<Event>, operations: nat, environments: nat, id: nat)
    requires ValidRun(es, operations, environments) && operations > 0 && environments > 0
    requires Quiescent(Run(es, operations, environments))
    requires id < |Run(es, operations, environments).scheduler.calls| && id !in CancelledExecutions(es)
    ensures id in S.Starts(SchedulerEvents(es)) && id in Served(es)
  {
    QuiescentMeansSettled(es, operations, environments);
    RunReasoned(es, operations, environments);
    SchedulerRuns(es, operations, environments);
    C.RunTraced(SchedulerEvents(es), operations);
    hide S.Run, S.ValidRun, Run, ValidRun, Quiescent, Served, SchedulerEvents;
    var s := S.Run(S.INITIAL, SchedulerEvents(es), operations);
    assert C.Traced(s.calls[id], id, S.Starts(SchedulerEvents(es)), C.CancelledCalls(SchedulerEvents(es)));
  }

  /** In every reachable state an execution that has ended, in either queue, was served or cancelled. */
  lemma EndedForAReason(es: seq<Event>, operations: nat, environments: nat, id: nat)
    requires ValidRun(es, operations, environments) && environments > 0
    requires var s := Run(es, operations, environments);
      || (id < |s.scheduler.calls| && (s.scheduler.calls[id].phase.Failing? || s.scheduler.calls[id].phase.Settled?))
      || (id in s.manager.ops && s.manager.ops[id].phase.Ended?)
    ensures id in CancelledExecutions(es) || id in Served(es)
  {
    RunReasoned(es, operations, environments);
    RunKeepsInv(es, operations, environments);
    SchedulerRuns(es, operations, environments);
    C.RunTraced(SchedulerEvents(es), operations);
    hide S.Run, S.ValidRun, Run, ValidRun, Served, SchedulerEvents, S.Inv, M.Inv;
    var s := Run(es, operations, environments);
    if id in s.manager.ops && s.manager.ops[id].phase.Ended? { assert Reasoned(s.manager.ops[id], id, Served(es)); }
    assert C.Traced(s.scheduler.calls[id], id, S.Starts(SchedulerEvents(es)), C.CancelledCalls(SchedulerEvents(es)));
  }

  // ---------- which environment is evicted ----------

  /** The moment an event happens at, where it has one. */
  function Moment(e: M.Event): Option<int> {
    match e
    case Began(_, _, _, _, now) => Some(now)
    case StartSucceeded(_, now) => Some(now)
    case Executed(_, _, now) => Some(now)
    case Released(_, now) => Some(now)
    case _ => None
  }

  /** An environment's time is that of the last event by which an operation took it or gave it back. */
  ghost predicate Timed(before: seq<M.Entry>, after: seq<M.Entry>, moment: Option<int>) {
    && |before| <= |after|
    && (forall v :: 0 <= v < |before| ==>
          if after[v].active == before[v].active then after[v].lastUsedAt == before[v].lastUsedAt
          else moment == Some(after[v].lastUsedAt))
    && (forall v :: |before| <= v < |after| ==> moment == Some(after[v].lastUsedAt))
  }

  lemma ReserveTimed(m: M.State, id: nat, victim: nat, limit: nat, moment: Option<int>)
    requires id in m.ops && (M.HasIdle(m) ==> M.OldestIdle(m, victim))
    ensures Timed(m.entries, M.Reserve(m, id, victim, limit).entries, moment)
  {
    M.ReserveCases(m, id, victim, limit);
    hide M.Reserve, M.HasIdle, M.OldestIdle;
  }

  lemma BeginTimed(m: M.State, e: M.Event, limit: nat)
    requires M.Enabled(m, e) && e.Began?
    ensures Timed(m.entries, M.Step(m, e, limit).entries, Some(e.now))
  {
    hide M.HasIdle, M.OldestIdle, M.Reserve;
    var s1 := m.(ops := m.ops[e.id := M.Op(e.key, e.aborted, M.Ended)]);
    M.IdleSame(m, s1, e.victim);
    if !e.aborted && !(e.key in s1.environments && s1.environments[e.key] < |s1.entries|) {
      ReserveTimed(s1, e.id, e.victim, limit, Some(e.now));
    }
  }

  lemma ReleaseTimed(m: M.State, id: nat, of: nat, now: int, limit: nat)
    requires M.Inv(m, limit) && id in m.ops && (m.ops[id].phase == M.Using(of) || m.ops[id].phase == M.Releasing(of))
    requires of < |m.entries|
    ensures Timed(m.entries, M.Release(m, id, of, now).entries, Some(now))
  {
    assert M.PlacedOp(m.environments, m.entries, m.ops[id]);
    if m.ops[id].key in m.environments {
      assert M.TrackedEntry(m.entries, m.ops, of);
      M.SoleUser(m, id, of);
    }
    hide M.Capacity, M.Waiters, M.Tracked, M.NoLostWakeup, M.Placed, M.DistinctKeys, M.Keyed;
  }

  lemma StepTimed(m: M.State, e: M.Event, limit: nat)
    requires M.Inv(m, limit) && M.Enabled(m, e)
    ensures Timed(m.entries, M.Step(m, e, limit).entries, Moment(e))
  {
    hide M.Inv, M.HasIdle, M.OldestIdle, M.WakeAll, M.Release, M.Reserve, M.RemoveWaiter;
    match e
    case Began(_, _, _, _, _) => BeginTimed(m, e, limit);
    case CapacityResumed(id, victim) => ReserveTimed(m, id, victim, limit, None);
    case EvictionClosed(id) =>
    case StartSucceeded(id, _) => WokenEntries(m, id);
    case StartFailed(id) => WokenEntries(m, id);
    case Executed(id, _, now) => ReleaseTimed(m, id, m.ops[id].phase.env, now, limit);
    case DiscardClosed(id) => WokenEntries(m, id);
    case Released(id, now) => ReleaseTimed(m, id, m.ops[id].phase.env, now, limit);
    case Aborted(id) =>
    case Left(id) =>
    case Expired(_) =>
    case CloseBegan =>
    case EntryClosed(_) =>
    case CloserDone => WokenEntries(m, 0);
  }

  lemma WokenEntries(m: M.State, id: nat)
    ensures M.WakeAll(m).entries == m.entries && M.WakeAll(m).ops.Keys == m.ops.Keys
    ensures M.Unreserve(m, id).entries == m.entries
    ensures forall c :: M.WakeAll(m.(closers := c)).entries == m.entries
  {
  }

  /** The least recently used of the idle environments; of two with one time, the one registered first. */
  ghost predicate LeastRecent(m: M.State, v: nat) {
    && v < |m.entries| && m.entries[v].key in m.environments && m.environments[m.entries[v].key] == v
    && m.entries[v].active == 0
    && forall k :: k in m.environments && m.environments[k] < |m.entries| ==>
         var w := m.environments[k];
         m.entries[w].active == 0 ==>
           || m.entries[v].lastUsedAt < m.entries[w].lastUsedAt
           || (m.entries[v].lastUsedAt == m.entries[w].lastUsedAt && v <= w)
  }

  lemma ReserveEvicts(m: M.State, id: nat, victim: nat, limit: nat, v: nat)
    requires id in m.ops && (M.HasIdle(m) ==> M.OldestIdle(m, victim))
    requires M.Reserve(m, id, victim, limit).ops[id].phase == M.Evicting(v)
    ensures LeastRecent(m, v) && |m.environments| + m.starting >= limit
  {
  }

  /** An environment is evicted only from a full pool, and it is the least recently used of those that are idle. */
  lemma EvictsLeastRecent(m: M.State, e: M.Event, limit: nat, id: nat, v: nat)
    requires M.Enabled(m, e) && id in M.Step(m, e, limit).ops && M.Step(m, e, limit).ops[id].phase == M.Evicting(v)
    requires id !in m.ops || m.ops[id].phase != M.Evicting(v)
    ensures LeastRecent(m, v) && |m.environments| + m.starting >= limit
  {
    hide M.HasIdle, M.OldestIdle, M.Reserve, LeastRecent, M.RemoveWaiter;
    if e.Began? {
      var s1 := m.(ops := m.ops[e.id := M.Op(e.key, e.aborted, M.Ended)]);
      M.IdleSame(m, s1, e.victim);
      if !e.aborted && !(e.key in s1.environments && s1.environments[e.key] < |s1.entries|) {
        OnlyOneMoves(s1, e.id, e.victim, limit);
        ReserveEvicts(s1, e.id, e.victim, limit, v);
        SameRecency(m, s1, v);
      }
    } else if e.CapacityResumed? {
      OnlyOneMoves(m, e.id, e.victim, limit);
      ReserveEvicts(m, e.id, e.victim, limit, v);
    }
  }

  lemma OnlyOneMoves(m: M.State, id: nat, victim: nat, limit: nat)
    requires id in m.ops && (M.HasIdle(m) ==> M.OldestIdle(m, victim))
    ensures var after := M.Reserve(m, id, victim, limit).ops;
      after.Keys == m.ops.Keys && forall x :: x in m.ops && x != id ==> after[x] == m.ops[x]
  {
    M.ReserveCases(m, id, victim, limit);
    hide M.Reserve, M.HasIdle, M.OldestIdle;
  }

  lemma SameRecency(m: M.State, n: M.State, v: nat)
    requires n.environments == m.environments && n.entries == m.entries && LeastRecent(n, v)
    ensures LeastRecent(m, v)
  {
  }
}
