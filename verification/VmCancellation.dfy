/** Which calls of the scheduler are rejected, which are started, and in what order waiters are woken, over all runs
    (src/main/sandbox/vm-scheduler.ts). */
module VmCancellation {
  import opened VmScheduler

  /** The number of calls made. */
  function Calls(es: seq<Event>): nat {
    if es == [] then 0 else Calls(es[..|es| - 1]) + (if es[|es| - 1].Called? then 1 else 0)
  }

  /** The calls started and cancelled once an event is over. */
  function StartsWith(starts: seq<CallId>, e: Event): seq<CallId> { starts + if e.Started? then [e.id] else [] }

  function CancelledWith(cancelled: set<CallId>, e: Event, calls: nat): set<CallId> {
    cancelled +
      match e
      case Called(_, aborted) => if aborted then {calls} else {}
      case Aborted(id) => {id}
      case _ => {}
  }

  /** The calls made with a signal that was aborted already, or whose signal was aborted since. */
  function CancelledCalls(es: seq<Event>): set<CallId> {
    if es == [] then {}
    else CancelledWith(CancelledCalls(es[..|es| - 1]), es[|es| - 1], Calls(es[..|es| - 1]))
  }

  /** What a call's phase says about its past. */
  predicate Traced(c: Call, id: CallId, starts: seq<CallId>, cancelled: set<CallId>) {
    && (c.aborted <==> id in cancelled)
    && (c.phase == Holding(true) ==> id in starts)
    && (id in starts ==> c.phase == Holding(true) || c.phase.Settled?)
    && (c.phase.Failing? ==> c.aborted)
    && (c.phase.Settled? ==> c.aborted || id in starts)
  }

  ghost predicate AllTraced(s: State, starts: seq<CallId>, calls: nat, cancelled: set<CallId>) {
    && |s.calls| == calls
    && (forall id: nat :: id in starts || id in cancelled ==> id < calls)
    && forall id: nat :: id < calls ==> Traced(s.calls[id], id, starts, cancelled)
  }

  /** How one event may move a call on. */
  predicate Moves(a: Call, b: Call, started: bool, cancelled: bool, finished: bool) {
    && b.aborted == (a.aborted || cancelled)
    && (b.phase == Holding(true) ==> a.phase == Holding(true) || started)
    && (a.phase == Holding(true) ==> b.phase == Holding(true) || b.phase.Settled?)
    && (a.phase.Settled? ==> b.phase.Settled?)
    && (started ==> a.phase == Holding(false) && b.phase == Holding(true))
    && (a.phase.Failing? ==> b.phase.Failing? || b.phase.Settled?)
    && (b.phase.Failing? ==> a.phase.Failing? || b.aborted)
    && (b.phase.Settled? ==> a.phase.Settled? || a.phase.Failing? || finished)
    && (finished ==> a.phase == Holding(true))
  }

  lemma CallMoves(s: State, e: Event, limit: nat, id: CallId)
    requires Inv(s, limit) && Enabled(s, e) && id < |s.calls|
    ensures |Step(s, e, limit).calls| == |s.calls| + (if e.Called? then 1 else 0)
    ensures Moves(s.calls[id], Step(s, e, limit).calls[id], e == Started(id), e == Aborted(id),
      e == Finished(id))
  {
    FirstWaiterWaits(s, limit);
    hide Inv, ChainResolved, Release, Cancel, Acquire, Register, Tidy, WithPhase, Moves;
    match e
    case Called(key, aborted) => RegisterMoves(s, key, aborted, id);
    case PreviousDone(x) => PhaseMoves(s, x, Resuming(false), id);
    case Started(x) => PhaseMoves(s, x, Holding(true), id);
    case Rejected(x) => PhaseMoves(s, x, Settled, id);
    case Tidied(x) => TidyMoves(s, x, id);
    case Finished(done) => ReleaseMoves(s, done, id);
    case Aborted(x) => CancelMoves(s, x, id);
    case Resumed(x) => AcquireMoves(s, x, limit, id);
  }

  lemma RegisterMoves(s: State, key: Key, aborted: bool, id: CallId)
    requires id < |s.calls|
    ensures |Register(s, key, aborted).calls| == |s.calls| + 1
    ensures Moves(s.calls[id], Register(s, key, aborted).calls[id], false, false, false)
  {
  }

  /** The steps that only change one phase. */
  predicate PhaseStep(a: Phase, b: Phase) {
    || (a.Awaiting? && b == Resuming(false))
    || (a == Holding(false) && b == Holding(true))
    || (a.Failing? && b.Settled?)
  }

  lemma PhaseMoves(s: State, x: CallId, p: Phase, id: CallId)
    requires x < |s.calls| && id < |s.calls| && PhaseStep(s.calls[x].phase, p)
    ensures |WithPhase(s.calls, x, p)| == |s.calls|
    ensures Moves(s.calls[id], WithPhase(s.calls, x, p)[id], x == id && p == Holding(true), false, false)
  {
  }

  lemma TidyMoves(s: State, x: CallId, id: CallId)
    requires x < |s.calls| && id < |s.calls|
    ensures Tidy(s, x).calls == s.calls && Moves(s.calls[id], s.calls[id], false, false, false)
  {
  }

  lemma ReleaseMoves(s: State, done: CallId, id: CallId)
    requires done < |s.calls| && s.calls[done].phase == Holding(true) && id < |s.calls|
    requires s.waiters != [] ==> s.waiters[0] < |s.calls| && s.calls[s.waiters[0]].phase.Waiting?
    ensures |Release(s, done).calls| == |s.calls|
    ensures Moves(s.calls[id], Release(s, done).calls[id], false, false, done == id)
  {
  }

  lemma CancelMoves(s: State, x: CallId, id: CallId)
    requires x < |s.calls| && id < |s.calls|
    ensures |Cancel(s, x).calls| == |s.calls| && Moves(s.calls[id], Cancel(s, x).calls[id], false, x == id, false)
  {
    hide Remove;
  }

  lemma AcquireMoves(s: State, x: CallId, limit: nat, id: CallId)
    requires x < |s.calls| && s.calls[x].phase.Resuming? && id < |s.calls|
    ensures |Acquire(s, x, limit).calls| == |s.calls|
    ensures Moves(s.calls[id], Acquire(s, x, limit).calls[id], false, false, false)
  {
  }

  lemma MovedIsTraced(a: Call, b: Call, id: CallId, e: Event, starts: seq<CallId>, cancelled: set<CallId>, calls: nat)
    requires Traced(a, id, starts, cancelled) && id < calls
    requires Moves(a, b, e == Started(id), e == Aborted(id), e == Finished(id))
    ensures Traced(b, id, StartsWith(starts, e), CancelledWith(cancelled, e, calls))
  {
  }

  lemma NewIsTraced(s: State, e: Event, limit: nat, starts: seq<CallId>, cancelled: set<CallId>)
    requires e.Called? && |s.calls| !in starts && |s.calls| !in cancelled
    ensures |Step(s, e, limit).calls| == |s.calls| + 1
    ensures Traced(Step(s, e, limit).calls[|s.calls|], |s.calls|, StartsWith(starts, e),
      CancelledWith(cancelled, e, |s.calls|))
  {
  }

  lemma OneStepTraced(s: State, e: Event, limit: nat, starts: seq<CallId>, cancelled: set<CallId>)
    requires Inv(s, limit) && Enabled(s, e) && AllTraced(s, starts, |s.calls|, cancelled)
    ensures AllTraced(Step(s, e, limit), StartsWith(starts, e), |s.calls| + (if e.Called? then 1 else 0),
      CancelledWith(cancelled, e, |s.calls|))
  {
    var s' := Step(s, e, limit);
    var n := |s.calls|;
    IdsExist(s, e, starts, cancelled);
    hide Inv, Enabled, Step, Traced, StartsWith, CancelledWith, Moves;
    if e.Called? { NewIsTraced(s, e, limit, starts, cancelled); } else if n > 0 { CallMoves(s, e, limit, 0); }
    forall id: nat | id < n
      ensures id < |s'.calls| && Traced(s'.calls[id], id, StartsWith(starts, e), CancelledWith(cancelled, e, n))
    {
      CallMoves(s, e, limit, id);
      MovedIsTraced(s.calls[id], s'.calls[id], id, e, starts, cancelled, n);
    }
  }

  lemma IdsExist(s: State, e: Event, starts: seq<CallId>, cancelled: set<CallId>)
    requires Enabled(s, e) && forall id: nat :: id in starts || id in cancelled ==> id < |s.calls|
    ensures forall id: nat :: id in StartsWith(starts, e) || id in CancelledWith(cancelled, e, |s.calls|) ==>
      id < |s.calls| + (if e.Called? then 1 else 0)
    ensures |s.calls| == 0 ==> e.Called?
  {
    hide ChainResolved;
  }

  lemma {:induction false} RunTraced(es: seq<Event>, limit: nat)
    requires ValidRun(INITIAL, es, limit)
    ensures AllTraced(Run(INITIAL, es, limit), Starts(es), Calls(es), CancelledCalls(es))
  {
    hide Inv, Enabled, Step, AllTraced;
    if es == [] {
      NothingTraced();
    } else {
      var init := es[..|es| - 1];
      RunTraced(init, limit);
      RunKeepsInv(init, limit);
      CallsCounted(Run(INITIAL, init, limit), Starts(init), Calls(init), CancelledCalls(init));
      OneStepTraced(Run(INITIAL, init, limit), es[|es| - 1], limit, Starts(init), CancelledCalls(init));
      OneMoreEvent(es);
    }
  }

  lemma OneMoreEvent(es: seq<Event>)
    requires es != []
    ensures var init, last := es[..|es| - 1], es[|es| - 1];
      && Starts(es) == StartsWith(Starts(init), last) && Calls(es) == Calls(init) + (if last.Called? then 1 else 0)
      && CancelledCalls(es) == CancelledWith(CancelledCalls(init), last, Calls(init))
  {
  }

  lemma NothingTraced()
    ensures AllTraced(INITIAL, [], 0, {})
  {
  }

  lemma CallsCounted(s: State, starts: seq<CallId>, calls: nat, cancelled: set<CallId>)
    requires AllTraced(s, starts, calls, cancelled)
    ensures |s.calls| == calls
  {
  }

  /** Only cancelled calls are rejected, and a call that has settled otherwise had its callback started. */
  lemma OnlyCancelledFail(es: seq<Event>, limit: nat, id: CallId)
    requires ValidRun(INITIAL, es, limit) && id < Calls(es)
    ensures id < |Run(INITIAL, es, limit).calls|
    ensures var c := Run(INITIAL, es, limit).calls[id];
      && (c.aborted <==> id in CancelledCalls(es))
      && (c.phase.Failing? ==> id in CancelledCalls(es))
      && (c.phase.Settled? ==> id in CancelledCalls(es) || id in Starts(es))
  {
    RunTraced(es, limit);
    assert Traced(Run(INITIAL, es, limit).calls[id], id, Starts(es), CancelledCalls(es));
  }

  /** When no callback runs and the scheduler has no step of its own left, every call that was never cancelled has had
      its callback started. */
  lemma EveryCallIsStarted(es: seq<Event>, limit: nat, id: CallId)
    requires ValidRun(INITIAL, es, limit) && limit > 0 && id < Calls(es) && id !in CancelledCalls(es)
    requires var s := Run(INITIAL, es, limit);
             && (forall d: nat :: d < |s.calls| ==> s.calls[d].phase != Holding(true))
             && forall d: nat :: !CanMove(s, d)
    ensures id in Starts(es)
  {
    hide CanMove, ValidRun, Run, Starts, Calls, CancelledCalls;
    QuiescentMeansSettled(es, limit);
    OnlyCancelledFail(es, limit, id);
  }

  // ---------- a call cancelled in time never starts ----------

  lemma FailingStays(s: State, e: Event, limit: nat, id: CallId)
    requires Inv(s, limit) && Enabled(s, e) && id < |s.calls|
    requires s.calls[id].phase.Failing? || s.calls[id].phase.Settled?
    ensures var s' := Step(s, e, limit);
      id < |s'.calls| && (s'.calls[id].phase.Failing? || s'.calls[id].phase.Settled?) && e != Started(id)
  {
    hide Inv, Enabled, Step;
    CallMoves(s, e, limit, id);
  }

  lemma {:induction false} FailingNeverStarts(es: seq<Event>, limit: nat, n: nat, id: CallId)
    requires ValidRun(INITIAL, es, limit) && n <= |es| && ValidRun(INITIAL, es[..n], limit)
    requires var s := Run(INITIAL, es[..n], limit);
      id < |s.calls| && s.calls[id].phase.Failing?
    ensures var s := Run(INITIAL, es, limit);
      id < |s.calls| && (s.calls[id].phase.Failing? || s.calls[id].phase.Settled?) && id !in Starts(es)
    decreases |es|
  {
    hide Inv, Enabled, Step;
    if n == |es| {
      assert es[..n] == es;
      RunTraced(es, limit);
      assert Traced(Run(INITIAL, es, limit).calls[id], id, Starts(es), CancelledCalls(es));
    } else {
      var init := es[..|es| - 1];
      assert init[..n] == es[..n];
      FailingNeverStarts(init, limit, n, id);
      RunKeepsInv(init, limit);
      FailingStays(Run(INITIAL, init, limit), es[|es| - 1], limit, id);
    }
  }

  lemma CancelFails(s: State, id: CallId, limit: nat)
    requires Enabled(s, Aborted(id)) && (s.calls[id].phase.Awaiting? || s.calls[id].phase.Waiting?)
    ensures var s' := Step(s, Aborted(id), limit); id < |s'.calls| && s'.calls[id].phase.Failing?
  {
    hide Remove;
  }

  lemma CalledFails(s: State, key: Key, limit: nat)
    ensures |Step(s, Called(key, true), limit).calls| == |s.calls| + 1
    ensures Step(s, Called(key, true), limit).calls[|s.calls|].phase.Failing?
  {
  }

  lemma {:induction false} PrefixIsValid(es: seq<Event>, limit: nat, n: nat)
    requires ValidRun(INITIAL, es, limit) && n <= |es|
    ensures ValidRun(INITIAL, es[..n], limit)
    decreases |es|
  {
    if n == |es| {
      assert es[..n] == es;
    } else {
      assert es[..|es| - 1][..n] == es[..n];
      PrefixIsValid(es[..|es| - 1], limit, n);
    }
  }

  /** A call whose signal is aborted when it is made, while it waits for its predecessor or in the list of waiters never
      has its callback started. */
  lemma CancelledInTimeNeverStarts(es: seq<Event>, limit: nat, n: nat, id: CallId)
    requires ValidRun(INITIAL, es, limit) && n < |es| && ValidRun(INITIAL, es[..n], limit)
    requires var s := Run(INITIAL, es[..n], limit);
      || (es[n] == Aborted(id) && id < |s.calls| && (s.calls[id].phase.Awaiting? || s.calls[id].phase.Waiting?))
      || (es[n].Called? && es[n].aborted && id == |s.calls|)
    ensures id !in Starts(es)
  {
    PrefixIsValid(es, limit, n + 1);
    assert es[..n + 1][..n] == es[..n] && es[..n + 1][n] == es[n];
    var s := Run(INITIAL, es[..n], limit);
    assert Enabled(s, es[n]) && Run(INITIAL, es[..n + 1], limit) == Step(s, es[n], limit);
    hide Enabled, Step, ValidRun, Run, Starts;
    if es[n].Called? { CalledFails(s, es[n].key, limit); } else { CancelFails(s, id, limit); }
    FailingNeverStarts(es, limit, n + 1, id);
  }

  // ---------- waiters are woken in the order they came ----------

  ghost predicate Before(list: seq<CallId>, i: CallId, j: CallId) {
    exists a, b :: 0 <= a < b < |list| && list[a] == i && list[b] == j
  }

  lemma RemoveKeepsOrder(list: seq<CallId>, x: CallId, i: CallId, j: CallId)
    requires Before(list, i, j) && x != i && x != j
    ensures Before(Remove(list, x), i, j)
  {
    var a, b :| 0 <= a < b < |list| && list[a] == i && list[b] == j;
    if list[0] == x {
      assert list[1..][a - 1] == i && list[1..][b - 1] == j;
    } else if a == 0 {
      RemoveKeepsMember(list[1..], x, j);
      var r := Remove(list[1..], x);
      var k :| 0 <= k < |r| && r[k] == j;
      assert Remove(list, x)[0] == i && Remove(list, x)[k + 1] == j;
    } else {
      assert list[1..][a - 1] == i && list[1..][b - 1] == j;
      RemoveKeepsOrder(list[1..], x, i, j);
      var r := Remove(list[1..], x);
      var k, l :| 0 <= k < l < |r| && r[k] == i && r[l] == j;
      assert Remove(list, x)[k + 1] == i && Remove(list, x)[l + 1] == j;
    }
  }

  lemma {:induction false} RemoveKeepsMember(list: seq<CallId>, x: CallId, j: CallId)
    requires j in list && x != j
    ensures j in Remove(list, x)
  {
    if list[0] != x && list[0] != j { RemoveKeepsMember(list[1..], x, j); }
  }

  lemma RemovedIsGone(s: State, id: CallId)
    requires Listed(s)
    ensures id !in Remove(s.waiters, id)
  {
    RemoveUnique(s.waiters, id);
  }

  lemma {:induction false} RemoveUnique(list: seq<CallId>, x: CallId)
    requires forall i, j :: 0 <= i < j < |list| ==> list[i] != list[j]
    ensures x !in Remove(list, x)
  {
    if list != [] && list[0] != x { RemoveUnique(list[1..], x); }
  }

  lemma ReleasedOrder(s: State, id: CallId, limit: nat, i: CallId, j: CallId)
    requires Inv(s, limit) && id < |s.calls| && Before(s.waiters, i, j)
    ensures var after := Release(s, id).waiters; j in after && (i in after ==> Before(after, i, j))
  {
    FirstWaiterWaits(s, limit);
    hide Ordered, Bounded, NoLostWakeup;
    var a, b :| 0 <= a < b < |s.waiters| && s.waiters[a] == i && s.waiters[b] == j;
    var after := s.waiters[1..];
    assert Release(s, id).waiters == after;
    assert after[b - 1] == j;
    if a > 0 { assert after[a - 1] == i; } else { assert i !in after; }
  }

  lemma AcquiredOrder(s: State, id: CallId, limit: nat, i: CallId, j: CallId)
    requires id < |s.calls| && Before(s.waiters, i, j)
    ensures var after := Acquire(s, id, limit).waiters; j in after && Before(after, i, j)
  {
    var a, b :| 0 <= a < b < |s.waiters| && s.waiters[a] == i && s.waiters[b] == j;
    var after := Acquire(s, id, limit).waiters;
    assert s.waiters <= after;
    assert after[a] == i && after[b] == j;
  }

  lemma CancelledOrder(s: State, id: CallId, i: CallId, j: CallId)
    requires Listed(s) && id < |s.calls| && id != j && Before(s.waiters, i, j)
    ensures var after := Cancel(s, id).waiters; j in after && (i in after ==> Before(after, i, j))
  {
    if s.calls[id].phase.Waiting? {
      RemoveKeepsMember(s.waiters, id, j);
      if id == i { RemovedIsGone(s, id); } else { RemoveKeepsOrder(s.waiters, id, i, j); }
    }
  }

  /** No waiter is overtaken: of two in the list, the later one leaves it first only when it is cancelled. */
  lemma NoOvertaking(es: seq<Event>, limit: nat, e: Event, i: CallId, j: CallId)
    requires ValidRun(INITIAL, es, limit) && Enabled(Run(INITIAL, es, limit), e)
    requires Before(Run(INITIAL, es, limit).waiters, i, j) && e != Aborted(j)
    ensures var after := Step(Run(INITIAL, es, limit), e, limit).waiters;
      j in after && (i in after ==> Before(after, i, j))
  {
    RunKeepsInv(es, limit);
    var s := Run(INITIAL, es, limit);
    hide ValidRun, Run, Ordered, Bounded, NoLostWakeup, Listed, Release, Acquire, Cancel, ChainResolved;
    match e
    case Finished(id) => ReleasedOrder(s, id, limit, i, j);
    case Resumed(id) => AcquiredOrder(s, id, limit, i, j);
    case Aborted(id) => CancelledOrder(s, id, i, j);
    case _ =>
  }

  // ---------- nothing is left behind ----------

  lemma TidiesOwn(s: State, k: Key)
    requires k in s.queues && s.queues[k] < |s.calls| && s.calls[s.queues[k]].key == k
    ensures k !in Tidy(s, s.queues[k]).queues
  {
  }

  /** When every call has settled and tidying up would change nothing more, no queue is left. */
  lemma QueuesEmptied(es: seq<Event>, limit: nat)
    requires ValidRun(INITIAL, es, limit) && limit > 0
    requires var s := Run(INITIAL, es, limit);
             && (forall d: nat :: d < |s.calls| ==> s.calls[d].phase != Holding(true))
             && (forall d: nat :: !CanMove(s, d))
             && forall d: nat :: Enabled(s, Tidied(d)) ==> Step(s, Tidied(d), limit) == s
    ensures Run(INITIAL, es, limit).queues == map[]
  {
    RunKeepsInv(es, limit);
    var s := Run(INITIAL, es, limit);
    hide ValidRun, Run, CanMove, Chained, PreviousSameKey, Serial, Listed, Bounded, NoLostWakeup;
    forall k ensures k !in s.queues {
      if k in s.queues {
        var id := s.queues[k];
        SettledWhenQuiescent(s, limit, id);
        assert Enabled(s, Tidied(id));
        TidiesOwn(s, k);
      }
    }
  }
}
