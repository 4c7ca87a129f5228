/** The bounded scheduler of VM work (src/main/sandbox/vm-scheduler.ts). Each piece of code between
    two awaits is one atomic step; a caller woken but not yet resumed is part of the state. */
module VmScheduler {
  import opened Options

  type Key = nat
  type CallId = nat

  /** Where a call of `run` stands. */
  datatype Phase =
    | Awaiting                // in waitForPrevious
    | Resuming(woken: bool)   // about to check for a slot; `woken` out of the waiter list
    | Waiting                 // in the waiter list
    | Holding(started: bool)  // counted in `running`; the callback may not have been called yet
    | Failing                 // a rejection is on its way to the final clean-up
    | Settled                 // its own promise is resolved

  /** `previous` is the call whose chain this call waits for. Calls are numbered in call order. */
  datatype Call = Call(key: Key, previous: Option<CallId>, aborted: bool, phase: Phase)

  datatype State = State(calls: seq<Call>, queues: map<Key, CallId>, waiters: seq<CallId>, running: nat)

  const INITIAL := State([], map[], [], 0)

  datatype Event =
    | Called(key: Key, aborted: bool)
    | PreviousDone(id: CallId)
    | Resumed(id: CallId)
    | Started(id: CallId)
    | Finished(id: CallId)
    | Aborted(id: CallId)
    | Rejected(id: CallId)
    | Tidied(id: CallId)

  /** Whether the promise `chain` of a call is resolved: its own part and all before it. */
  predicate ChainResolved(calls: seq<Call>, id: CallId)
    requires id < |calls|
    decreases id
  {
    && calls[id].phase.Settled?
    && (calls[id].previous.Some? ==> calls[id].previous.value < id && ChainResolved(calls, calls[id].previous.value))
  }

  function WithPhase(calls: seq<Call>, id: CallId, p: Phase): seq<Call>
    requires id < |calls|
  {
    calls[id := calls[id].(phase := p)]
  }

  function Remove(s: seq<CallId>, x: CallId): seq<CallId> {
    if s == [] then [] else if s[0] == x then s[1..] else [s[0]] + Remove(s[1..], x)
  }

  predicate Enabled(s: State, e: Event) {
    if e.Called? then true
    else if e.id >= |s.calls| then false
    else
      var c := s.calls[e.id];
      match e
      case PreviousDone(id) => c.phase.Awaiting?
        && (c.previous.Some? ==> c.previous.value < id && ChainResolved(s.calls, c.previous.value))
      case Resumed(_) => c.phase.Resuming?
      case Started(_) => c.phase == Holding(false)
      case Finished(_) => c.phase == Holding(true)
      case Aborted(_) => !c.aborted
      case Rejected(_) => c.phase.Failing?
      case Tidied(_) => ChainResolved(s.calls, e.id)
  }

  function Register(s: State, key: Key, aborted: bool): State {
    var id := |s.calls|;
    var previous := if key in s.queues then Some(s.queues[key]) else None;
    s.(calls := s.calls + [Call(key, previous, aborted, if aborted then Failing else Awaiting)],
       queues := s.queues[key := id])
  }

  /** The check at the head of the loop in `acquire`. */
  function Acquire(s: State, id: CallId, limit: nat): State
    requires id < |s.calls|
  {
    if s.running < limit then s.(running := s.running + 1, calls := WithPhase(s.calls, id, Holding(false)))
    else if s.calls[id].aborted then s.(calls := WithPhase(s.calls, id, Failing))
    else s.(waiters := s.waiters + [id], calls := WithPhase(s.calls, id, Waiting))
  }

  /** The callback has settled: the slot is released, the first waiter woken. */
  function Release(s: State, id: CallId): State
    requires id < |s.calls|
  {
    var running := if s.running == 0 then 0 else s.running - 1;
    var calls := WithPhase(s.calls, id, Settled);
    if s.waiters != [] && s.waiters[0] < |calls| then
      State(WithPhase(calls, s.waiters[0], Resuming(true)), s.queues, s.waiters[1..], running)
    else
      State(calls, s.queues, s.waiters, running)
  }

  function Cancel(s: State, id: CallId): State
    requires id < |s.calls|
  {
    var s' := s.(calls := s.calls[id := s.calls[id].(aborted := true)]);
    match s.calls[id].phase
    case Awaiting => s'.(calls := WithPhase(s'.calls, id, Failing))
    case Waiting => s'.(calls := WithPhase(s'.calls, id, Failing), waiters := Remove(s.waiters, id))
    case _ => s'
  }

  function Tidy(s: State, id: CallId): State
    requires id < |s.calls|
  {
    var key := s.calls[id].key;
    if key in s.queues && s.queues[key] == id then s.(queues := s.queues - {key}) else s
  }

  function Step(s: State, e: Event, limit: nat): State
    requires Enabled(s, e)
  {
    match e
    case Called(key, aborted) => Register(s, key, aborted)
    case PreviousDone(id) => s.(calls := WithPhase(s.calls, id, Resuming(false)))
    case Resumed(id) => Acquire(s, id, limit)
    case Started(id) => s.(calls := WithPhase(s.calls, id, Holding(true)))
    case Finished(id) => Release(s, id)
    case Aborted(id) => Cancel(s, id)
    case Rejected(id) => s.(calls := WithPhase(s.calls, id, Settled))
    case Tidied(id) => Tidy(s, id)
  }

  // ---------- counting ----------

  datatype Kind = Holders | Woken

  function Counts(c: Call, k: Kind): nat {
    match k
    case Holders => if c.phase.Holding? then 1 else 0
    case Woken => if c.phase == Resuming(true) then 1 else 0
  }

  function Count(calls: seq<Call>, k: Kind): nat {
    if calls == [] then 0 else Counts(calls[0], k) + Count(calls[1..], k)
  }

  lemma {:induction false} CountUpdate(calls: seq<Call>, id: CallId, c: Call, k: Kind)
    requires id < |calls|
    ensures Count(calls[id := c], k) == Count(calls, k) - Counts(calls[id], k) + Counts(c, k)
  {
    if id == 0 {
      assert calls[id := c][1..] == calls[1..];
    } else {
      assert calls[id := c][1..] == calls[1..][id - 1 := c];
      CountUpdate(calls[1..], id - 1, c, k);
    }
  }

  lemma {:induction false} CountAppend(calls: seq<Call>, c: Call, k: Kind)
    ensures Count(calls + [c], k) == Count(calls, k) + Counts(c, k)
  {
    if calls == [] {
      assert [] + [c] == [c];
      assert Count([c], k) == Counts(c, k) + Count([c][1..], k);
    } else {
      assert (calls + [c])[1..] == calls[1..] + [c];
      CountAppend(calls[1..], c, k);
    }
  }

  lemma {:induction false} CountPositive(calls: seq<Call>, k: Kind)
    ensures Count(calls, k) > 0 <==> exists id :: 0 <= id < |calls| && Counts(calls[id], k) == 1
  {
    if calls != [] {
      CountPositive(calls[1..], k);
      if id :| 0 <= id < |calls| && Counts(calls[id], k) == 1 {
        if id > 0 { assert calls[1..][id - 1] == calls[id]; }
      }
    }
  }

  // ---------- the invariant ----------

  /** Past `waitForPrevious` and not yet settled. */
  predicate Inside(p: Phase) { p.Resuming? || p.Waiting? || p.Holding? }

  ghost predicate PriorSettled(calls: seq<Call>, id: CallId)
    requires id < |calls|
  {
    forall d :: 0 <= d < id && calls[d].key == calls[id].key ==> calls[d].phase.Settled?
  }

  /** Each call waits for the latest earlier call of its key, or for none if all have settled. */
  ghost predicate Chained(calls: seq<Call>) {
    forall d, c :: 0 <= d < c < |calls| && calls[d].key == calls[c].key ==>
      match calls[c].previous
      case None => calls[d].phase.Settled?
      case Some(p) => d <= p
  }

  ghost predicate PreviousSameKey(calls: seq<Call>) {
    forall c :: 0 <= c < |calls| && calls[c].previous.Some? ==>
      calls[c].previous.value < c && calls[calls[c].previous.value].key == calls[c].key
  }

  /** A queue's entry is the latest call of its key; without an entry all its calls have settled. */
  ghost predicate Queued(calls: seq<Call>, queues: map<Key, CallId>) {
    && (forall k :: k in queues ==> queues[k] < |calls| && calls[queues[k]].key == k)
    && (forall c :: 0 <= c < |calls| ==>
          if calls[c].key in queues then c <= queues[calls[c].key] else calls[c].phase.Settled?)
  }

  ghost predicate Serial(calls: seq<Call>) {
    forall c :: 0 <= c < |calls| && Inside(calls[c].phase) ==> PriorSettled(calls, c)
  }

  ghost predicate Listed(s: State) {
    && (forall i, j :: 0 <= i < j < |s.waiters| ==> s.waiters[i] != s.waiters[j])
    && (forall id: nat :: id in s.waiters <==> id < |s.calls| && s.calls[id].phase.Waiting?)
  }

  ghost predicate Bounded(s: State, limit: nat) {
    s.running == Count(s.calls, Holders) && s.running <= limit
  }

  /** No lost wake-up: with a waiter in the list, every slot is taken or about to be claimed. */
  ghost predicate NoLostWakeup(s: State, limit: nat) {
    s.waiters != [] ==> s.running + Count(s.calls, Woken) >= limit
  }

  ghost predicate Ordered(calls: seq<Call>, queues: map<Key, CallId>) {
    Chained(calls) && PreviousSameKey(calls) && Queued(calls, queues) && Serial(calls)
  }

  ghost predicate Inv(s: State, limit: nat) {
    Ordered(s.calls, s.queues) && Listed(s) && Bounded(s, limit) && NoLostWakeup(s, limit)
  }

  /** A resolved chain means that every call of the key so far has settled. */
  lemma {:induction false} ChainSettled(s: State, id: CallId, d: CallId)
    requires Chained(s.calls) && PreviousSameKey(s.calls) && id < |s.calls| && ChainResolved(s.calls, id)
    requires d <= id && s.calls[d].key == s.calls[id].key
    ensures s.calls[d].phase.Settled?
    decreases id
  {
    if d < id && s.calls[id].previous.Some? { ChainSettled(s, s.calls[id].previous.value, d); }
  }

  /** Order is kept by any change of one call that leaves its key and predecessor and does not
      unsettle it, provided it moves inside only when the earlier calls of its key have settled. */
  lemma UpdateKeepsOrder(calls: seq<Call>, queues: map<Key, CallId>, id: CallId, c: Call)
    requires Ordered(calls, queues) && id < |calls|
    requires c.key == calls[id].key && c.previous == calls[id].previous
    requires calls[id].phase.Settled? ==> c.phase.Settled?
    requires Inside(c.phase) ==> PriorSettled(calls, id)
    ensures Ordered(calls[id := c], queues)
  {
    SerialUpdate(calls, id, c);
    ChainedUpdate(calls, id, c);
    QueuedUpdate(calls, queues, id, c);
    hide Chained, Queued, Serial;
  }

  lemma ChainedUpdate(calls: seq<Call>, id: CallId, c: Call)
    requires Chained(calls) && id < |calls| && c.key == calls[id].key && c.previous == calls[id].previous
    requires calls[id].phase.Settled? ==> c.phase.Settled?
    ensures Chained(calls[id := c])
  {
  }

  lemma QueuedUpdate(calls: seq<Call>, queues: map<Key, CallId>, id: CallId, c: Call)
    requires Queued(calls, queues) && id < |calls| && c.key == calls[id].key
    requires calls[id].phase.Settled? ==> c.phase.Settled?
    ensures Queued(calls[id := c], queues)
  {
  }

  lemma SerialUpdate(calls: seq<Call>, id: CallId, c: Call)
    requires Serial(calls) && id < |calls|
    requires c.key == calls[id].key && (calls[id].phase.Settled? ==> c.phase.Settled?)
    requires Inside(c.phase) ==> PriorSettled(calls, id)
    ensures Serial(calls[id := c])
  {
    var updated := calls[id := c];
    forall k | 0 <= k < |updated| && Inside(updated[k].phase) ensures PriorSettled(updated, k) {
      assert PriorSettled(calls, k);
    }
  }

  lemma InsideIsFirst(s: State, id: CallId)
    requires Serial(s.calls) && id < |s.calls| && Inside(s.calls[id].phase)
    ensures PriorSettled(s.calls, id)
  {
  }

  lemma CalledKeepsOrder(calls: seq<Call>, queues: map<Key, CallId>, c: Call)
    requires Ordered(calls, queues) && !Inside(c.phase)
    requires c.previous == if c.key in queues then Some(queues[c.key]) else None
    ensures Ordered(calls + [c], queues[c.key := |calls|])
  {
    CalledKeepsChain(calls, queues, c);
    CalledKeepsQueues(calls, queues, c);
    CalledKeepsSerial(calls, c);
    hide Chained, Queued, Serial;
  }

  lemma CalledKeepsChain(calls: seq<Call>, queues: map<Key, CallId>, c: Call)
    requires Chained(calls) && Queued(calls, queues)
    requires c.previous == if c.key in queues then Some(queues[c.key]) else None
    ensures Chained(calls + [c])
  {
    var more := calls + [c];
    forall d, e | 0 <= d < e < |more| && more[d].key == more[e].key
      ensures match more[e].previous case None => more[d].phase.Settled? case Some(p) => d <= p
    {
      if e < |calls| { assert more[e] == calls[e]; }
    }
  }

  lemma CalledKeepsQueues(calls: seq<Call>, queues: map<Key, CallId>, c: Call)
    requires Queued(calls, queues)
    ensures Queued(calls + [c], queues[c.key := |calls|])
  {
    var more := calls + [c];
    forall d | 0 <= d < |more|
      ensures if more[d].key in queues[c.key := |calls|] then d <= queues[c.key := |calls|][more[d].key]
              else more[d].phase.Settled?
    {
      if d < |calls| { assert more[d] == calls[d]; }
    }
  }

  lemma CalledKeepsSerial(calls: seq<Call>, c: Call)
    requires Serial(calls) && !Inside(c.phase)
    ensures Serial(calls + [c])
  {
    var more := calls + [c];
    forall d | 0 <= d < |more| && Inside(more[d].phase) ensures PriorSettled(more, d) {
      assert more[d] == calls[d] && PriorSettled(calls, d);
    }
  }

  lemma CalledKeepsInv(s: State, key: Key, aborted: bool, limit: nat)
    requires Inv(s, limit)
    ensures Inv(Register(s, key, aborted), limit)
  {
    hide Chained, PreviousSameKey, Queued, Serial;
    var s' := Register(s, key, aborted);
    var c := s'.calls[|s.calls|];
    CountAppend(s.calls, c, Holders);
    CountAppend(s.calls, c, Woken);
    CalledKeepsOrder(s.calls, s.queues, c);
  }

  lemma PreviousDoneIsFirst(s: State, id: CallId)
    requires Ordered(s.calls, s.queues) && Enabled(s, PreviousDone(id))
    ensures PriorSettled(s.calls, id)
  {
    var c := s.calls[id];
    forall d | 0 <= d < id && s.calls[d].key == c.key ensures s.calls[d].phase.Settled? {
      if c.previous.Some? { ChainSettled(s, c.previous.value, d); }
    }
  }

  lemma PreviousDoneKeepsInv(s: State, id: CallId, limit: nat)
    requires Inv(s, limit) && Enabled(s, PreviousDone(id))
    ensures Inv(Step(s, PreviousDone(id), limit), limit)
  {
    hide Chained, PreviousSameKey, Queued, Serial, PriorSettled;
    var c := s.calls[id];
    PreviousDoneIsFirst(s, id);
    UpdateKeepsOrder(s.calls, s.queues, id, c.(phase := Resuming(false)));
    CountUpdate(s.calls, id, c.(phase := Resuming(false)), Holders);
    CountUpdate(s.calls, id, c.(phase := Resuming(false)), Woken);
  }

  lemma ResumedKeepsInv(s: State, id: CallId, limit: nat)
    requires Inv(s, limit) && Enabled(s, Resumed(id))
    ensures Inv(Step(s, Resumed(id), limit), limit)
  {
    hide Chained, PreviousSameKey, Queued, Serial;
    var c := s.calls[id];
    var s' := Acquire(s, id, limit);
    var p := s'.calls[id].phase;
    InsideIsFirst(s, id);
    UpdateKeepsOrder(s.calls, s.queues, id, c.(phase := p));
    CountUpdate(s.calls, id, c.(phase := p), Holders);
    CountUpdate(s.calls, id, c.(phase := p), Woken);
  }

  lemma StartedKeepsInv(s: State, id: CallId, limit: nat)
    requires Inv(s, limit) && Enabled(s, Started(id))
    ensures Inv(Step(s, Started(id), limit), limit)
  {
    hide Chained, PreviousSameKey, Queued, Serial;
    var c := s.calls[id];
    InsideIsFirst(s, id);
    UpdateKeepsOrder(s.calls, s.queues, id, c.(phase := Holding(true)));
    CountUpdate(s.calls, id, c.(phase := Holding(true)), Holders);
    CountUpdate(s.calls, id, c.(phase := Holding(true)), Woken);
  }

  lemma FinishedKeepsInv(s: State, id: CallId, limit: nat)
    requires Inv(s, limit) && Enabled(s, Finished(id))
    ensures Inv(Step(s, Finished(id), limit), limit)
  {
    hide Chained, PreviousSameKey, Queued, Serial, Count;
    var c := s.calls[id];
    CountPositive(s.calls, Holders);
    assert Counts(c, Holders) == 1;
    UpdateKeepsOrder(s.calls, s.queues, id, c.(phase := Settled));
    CountUpdate(s.calls, id, c.(phase := Settled), Holders);
    CountUpdate(s.calls, id, c.(phase := Settled), Woken);
    if s.waiters != [] { WakeFirst(s.(calls := WithPhase(s.calls, id, Settled), running := s.running - 1), limit); }
  }

  /** Waking the first waiter, for which a slot has been released. */
  lemma WakeFirst(s: State, limit: nat)
    requires Ordered(s.calls, s.queues) && Listed(s) && Bounded(s, limit) && s.waiters != []
    requires s.running + Count(s.calls, Woken) + 1 >= limit
    ensures s.waiters[0] < |s.calls|
    ensures Inv(s.(calls := WithPhase(s.calls, s.waiters[0], Resuming(true)), waiters := s.waiters[1..]), limit)
  {
    hide Chained, PreviousSameKey, Queued, Serial, Count;
    var w := s.waiters[0];
    WaitersAfterFirst(s);
    var d := s.calls[w];
    InsideIsFirst(s, w);
    UpdateKeepsOrder(s.calls, s.queues, w, d.(phase := Resuming(true)));
    CountUpdate(s.calls, w, d.(phase := Resuming(true)), Holders);
    CountUpdate(s.calls, w, d.(phase := Resuming(true)), Woken);
  }

  lemma WaitersAfterFirst(s: State)
    requires Listed(s) && s.waiters != []
    ensures var w := s.waiters[0];
      && w < |s.calls| && s.calls[w].phase.Waiting?
      && Listed(s.(calls := WithPhase(s.calls, w, Resuming(true)), waiters := s.waiters[1..]))
  {
    var w := s.waiters[0];
    assert w in s.waiters && s.waiters == [w] + s.waiters[1..];
    assert forall x :: x in s.waiters[1..] <==> x in s.waiters && x != w;
  }

  lemma {:induction false} RemoveMembers(s: seq<CallId>, x: CallId)
    requires forall i, j :: 0 <= i < j < |s| ==> s[i] != s[j]
    ensures forall y :: y in Remove(s, x) <==> y in s && y != x
    ensures forall i, j :: 0 <= i < j < |Remove(s, x)| ==> Remove(s, x)[i] != Remove(s, x)[j]
  {
    if s != [] {
      assert s == [s[0]] + s[1..] && s[0] !in s[1..];
      RemoveMembers(s[1..], x);
    }
  }

  lemma AbortFlagKeepsInv(s: State, id: CallId, limit: nat)
    requires Inv(s, limit) && id < |s.calls|
    ensures Inv(s.(calls := s.calls[id := s.calls[id].(aborted := true)]), limit)
  {
    hide Chained, PreviousSameKey, Queued, Serial, PriorSettled;
    var c := s.calls[id].(aborted := true);
    CountUpdate(s.calls, id, c, Holders);
    CountUpdate(s.calls, id, c, Woken);
    if Inside(c.phase) { InsideIsFirst(s, id); }
    UpdateKeepsOrder(s.calls, s.queues, id, c);
  }

  lemma AbortedKeepsInv(s: State, id: CallId, limit: nat)
    requires Inv(s, limit) && Enabled(s, Aborted(id))
    ensures Inv(Step(s, Aborted(id), limit), limit)
  {
    hide Chained, PreviousSameKey, Queued, Serial;
    AbortFlagKeepsInv(s, id, limit);
    var s1 := s.(calls := s.calls[id := s.calls[id].(aborted := true)]);
    if s.calls[id].phase.Awaiting? || s.calls[id].phase.Waiting? {
      UpdateKeepsOrder(s1.calls, s1.queues, id, s1.calls[id].(phase := Failing));
      CountUpdate(s1.calls, id, s1.calls[id].(phase := Failing), Holders);
      CountUpdate(s1.calls, id, s1.calls[id].(phase := Failing), Woken);
      RemoveMembers(s.waiters, id);
    }
  }

  lemma RejectedKeepsInv(s: State, id: CallId, limit: nat)
    requires Inv(s, limit) && Enabled(s, Rejected(id))
    ensures Inv(Step(s, Rejected(id), limit), limit)
  {
    hide Chained, PreviousSameKey, Queued, Serial;
    var c := s.calls[id];
    UpdateKeepsOrder(s.calls, s.queues, id, c.(phase := Settled));
    CountUpdate(s.calls, id, c.(phase := Settled), Holders);
    CountUpdate(s.calls, id, c.(phase := Settled), Woken);
  }

  lemma TidiedKeepsInv(s: State, id: CallId, limit: nat)
    requires Inv(s, limit) && Enabled(s, Tidied(id))
    ensures Inv(Step(s, Tidied(id), limit), limit)
  {
    var key := s.calls[id].key;
    if key in s.queues && s.queues[key] == id {
      forall c | 0 <= c < |s.calls| && s.calls[c].key == key ensures s.calls[c].phase.Settled? {
        ChainSettled(s, id, c);
      }
    }
  }

  lemma StepKeepsInv(s: State, e: Event, limit: nat)
    requires Inv(s, limit) && Enabled(s, e)
    ensures Inv(Step(s, e, limit), limit)
  {
    hide Inv, Enabled;
    match e
    case Called(key, aborted) => CalledKeepsInv(s, key, aborted, limit);
    case PreviousDone(id) => PreviousDoneKeepsInv(s, id, limit);
    case Resumed(id) => ResumedKeepsInv(s, id, limit);
    case Started(id) => StartedKeepsInv(s, id, limit);
    case Finished(id) => FinishedKeepsInv(s, id, limit);
    case Aborted(id) => AbortedKeepsInv(s, id, limit);
    case Rejected(id) => RejectedKeepsInv(s, id, limit);
    case Tidied(id) => TidiedKeepsInv(s, id, limit);
  }

  // ---------- runs ----------

  ghost predicate ValidRun(s: State, es: seq<Event>, limit: nat)
    decreases |es|, 0
  {
    es == [] || (ValidRun(s, es[..|es| - 1], limit) && Enabled(Run(s, es[..|es| - 1], limit), es[|es| - 1]))
  }

  ghost function Run(s: State, es: seq<Event>, limit: nat): State
    requires ValidRun(s, es, limit)
    decreases |es|, 1
  {
    if es == [] then s else Step(Run(s, es[..|es| - 1], limit), es[|es| - 1], limit)
  }

  /** Every interleaving of calls, cancellations and completions keeps the invariant. */
  lemma {:induction false} RunKeepsInv(es: seq<Event>, limit: nat)
    requires ValidRun(INITIAL, es, limit)
    ensures Inv(Run(INITIAL, es, limit), limit)
  {
    hide Inv, Enabled, Step;
    if es == [] {
      InitialInv(limit);
    } else {
      RunKeepsInv(es[..|es| - 1], limit);
      StepKeepsInv(Run(INITIAL, es[..|es| - 1], limit), es[|es| - 1], limit);
    }
  }

  lemma InitialInv(limit: nat)
    ensures Inv(INITIAL, limit)
  {
  }

  // ---------- what every interleaving guarantees ----------

  /** At most one call of a key is past `waitForPrevious`; so at most one callback of a key runs,
      and the slots held never exceed the limit. */
  lemma MutualExclusion(es: seq<Event>, limit: nat, c: CallId, d: CallId)
    requires ValidRun(INITIAL, es, limit)
    requires var s := Run(INITIAL, es, limit);
             c < |s.calls| && d < |s.calls| && s.calls[c].key == s.calls[d].key && Inside(s.calls[c].phase)
               && Inside(s.calls[d].phase)
    ensures c == d
  {
    RunKeepsInv(es, limit);
    var s := Run(INITIAL, es, limit);
    assert PriorSettled(s.calls, c) && PriorSettled(s.calls, d);
  }

  lemma SlotsBounded(es: seq<Event>, limit: nat)
    requires ValidRun(INITIAL, es, limit)
    ensures var s := Run(INITIAL, es, limit);
            && Count(s.calls, Holders) == s.running <= limit
            && (s.waiters != [] ==> s.running + Count(s.calls, Woken) >= limit)
  {
    hide ValidRun, Run;
    RunKeepsInv(es, limit);
  }

  /** The callbacks started, in order. */
  function Starts(es: seq<Event>): seq<CallId> {
    if es == [] then []
    else Starts(es[..|es| - 1]) + (if es[|es| - 1].Started? then [es[|es| - 1].id] else [])
  }

  lemma PhaseStable(s: State, e: Event, limit: nat, d: CallId)
    requires Enabled(s, e) && d < |s.calls| && Inv(s, limit)
    ensures d < |Step(s, e, limit).calls| && Step(s, e, limit).calls[d].key == s.calls[d].key
    ensures s.calls[d].phase.Settled? ==> Step(s, e, limit).calls[d].phase.Settled?
    ensures s.calls[d].phase == Holding(true) ==> Step(s, e, limit).calls[d].phase in {Holding(true), Settled}
  {
    FirstWaiterWaits(s, limit);
    hide Inv, Remove, ChainResolved, Release, Cancel, Acquire;
    match e
    case Finished(id) => ReleaseStable(s, id, d);
    case Aborted(id) => CancelStable(s, id, d);
    case Resumed(id) => AcquireStable(s, id, limit, d);
    case _ =>
  }

  /** A call's key stays, a settled call stays settled, and a running one runs on or has settled. */
  predicate StaysPut(a: Call, b: Call) {
    && b.key == a.key && (a.phase.Settled? ==> b.phase.Settled?)
    && (a.phase == Holding(true) ==> b.phase in {Holding(true), Settled})
  }

  lemma ReleaseStable(s: State, id: CallId, d: CallId)
    requires id < |s.calls| && s.calls[id].phase == Holding(true) && d < |s.calls|
    requires s.waiters != [] ==> s.waiters[0] < |s.calls| && s.calls[s.waiters[0]].phase.Waiting?
    ensures |Release(s, id).calls| == |s.calls| && StaysPut(s.calls[d], Release(s, id).calls[d])
  {
  }

  lemma CancelStable(s: State, id: CallId, d: CallId)
    requires id < |s.calls| && d < |s.calls|
    ensures |Cancel(s, id).calls| == |s.calls| && StaysPut(s.calls[d], Cancel(s, id).calls[d])
  {
    hide Remove;
  }

  lemma AcquireStable(s: State, id: CallId, limit: nat, d: CallId)
    requires id < |s.calls| && s.calls[id].phase.Resuming? && d < |s.calls|
    ensures |Acquire(s, id, limit).calls| == |s.calls| && StaysPut(s.calls[d], Acquire(s, id, limit).calls[d])
  {
  }

  lemma FirstWaiterWaits(s: State, limit: nat)
    requires Inv(s, limit)
    ensures s.waiters != [] ==> s.waiters[0] < |s.calls| && s.calls[s.waiters[0]].phase.Waiting?
  {
    hide Count, Chained, PreviousSameKey, Queued, Serial;
    if s.waiters != [] { assert s.waiters[0] in s.waiters; }
  }

  /** A started callback runs or has settled, and every earlier call of its key had settled before. */
  lemma {:induction false} StartedBehindSettled(es: seq<Event>, limit: nat, d: CallId)
    requires ValidRun(INITIAL, es, limit) && d in Starts(es)
    ensures var s := Run(INITIAL, es, limit);
            d < |s.calls| && s.calls[d].phase in {Holding(true), Settled} && PriorSettled(s.calls, d)
  {
    hide Inv, Step;
    var n := |es| - 1;
    var s, e := Run(INITIAL, es[..n], limit), es[n];
    RunKeepsInv(es[..n], limit);
    if d in Starts(es[..n]) {
      StartedBehindSettled(es[..n], limit, d);
      PhaseStable(s, e, limit, d);
      forall c | 0 <= c < d && s.calls[c].key == s.calls[d].key ensures Step(s, e, limit).calls[c].phase.Settled? {
        PhaseStable(s, e, limit, c);
      }
      forall c | 0 <= c < d ensures Step(s, e, limit).calls[c].key == s.calls[c].key { PhaseStable(s, e, limit, c); }
    } else {
      assert e == Started(d);
      StartsNow(s, d, limit);
    }
  }

  lemma StartsNow(s: State, d: CallId, limit: nat)
    requires Inv(s, limit) && Enabled(s, Started(d))
    ensures var s' := Step(s, Started(d), limit);
            d < |s'.calls| && s'.calls[d].phase == Holding(true) && PriorSettled(s'.calls, d)
  {
  }

  /** Callbacks of one key start in call order, each at most once; a cancelled call in between
      never lets a later one overtake an earlier one. */
  lemma {:induction false} StartsInCallOrder(es: seq<Event>, limit: nat, i: nat, j: nat)
    requires ValidRun(INITIAL, es, limit) && i < j < |Starts(es)|
    ensures var s := Run(INITIAL, es, limit);
            var c, d := Starts(es)[i], Starts(es)[j];
            c < |s.calls| && d < |s.calls| && (s.calls[c].key == s.calls[d].key ==> c < d)
  {
    hide Inv, Step, Enabled;
    var n := |es| - 1;
    var s, e := Run(INITIAL, es[..n], limit), es[n];
    RunKeepsInv(es[..n], limit);
    var c, d := Starts(es)[i], Starts(es)[j];
    assert c in Starts(es[..n]);
    StartedBehindSettled(es[..n], limit, c);
    PhaseStable(s, e, limit, c);
    if j < |Starts(es[..n])| {
      StartsInCallOrder(es[..n], limit, i, j);
      PhaseStable(s, e, limit, d);
    } else {
      LastStart(s, c, d, limit);
    }
  }

  lemma LastStart(s: State, c: CallId, d: CallId, limit: nat)
    requires Inv(s, limit) && Enabled(s, Started(d)) && c < |s.calls|
    requires s.calls[c].phase in {Holding(true), Settled} && PriorSettled(s.calls, c)
    ensures var s' := Step(s, Started(d), limit);
            d < |s'.calls| && (s'.calls[c].key == s'.calls[d].key ==> c < d)
  {
  }

  /** The call has a step of the scheduler itself to take. */
  predicate CanMove(s: State, id: CallId) {
    Enabled(s, PreviousDone(id)) || Enabled(s, Resumed(id)) || Enabled(s, Started(id)) || Enabled(s, Rejected(id))
  }

  /** Nothing is stuck: when no callback runs and no step of the scheduler itself is left to take,
      every call has settled. */
  lemma QuiescentMeansSettled(es: seq<Event>, limit: nat)
    requires ValidRun(INITIAL, es, limit) && limit > 0
    requires var s := Run(INITIAL, es, limit);
             && (forall id: nat :: id < |s.calls| ==> s.calls[id].phase != Holding(true))
             && forall id: nat :: !CanMove(s, id)
    ensures forall id :: 0 <= id < |Run(INITIAL, es, limit).calls| ==> Run(INITIAL, es, limit).calls[id].phase.Settled?
  {
    RunKeepsInv(es, limit);
    var s := Run(INITIAL, es, limit);
    hide ValidRun, Run;
    forall id | 0 <= id < |s.calls| ensures s.calls[id].phase.Settled? { SettledWhenQuiescent(s, limit, id); }
  }

  lemma NoneHeld(s: State)
    requires forall id :: 0 <= id < |s.calls| ==> !s.calls[id].phase.Holding? && !s.calls[id].phase.Resuming?
    ensures Count(s.calls, Holders) == 0 && Count(s.calls, Woken) == 0
  {
    CountPositive(s.calls, Holders);
    CountPositive(s.calls, Woken);
  }

  lemma {:induction false} SettledWhenQuiescent(s: State, limit: nat, id: CallId)
    requires Inv(s, limit) && limit > 0 && id < |s.calls|
    requires forall id: nat :: id < |s.calls| ==> s.calls[id].phase != Holding(true)
    requires forall id: nat :: !CanMove(s, id)
    ensures s.calls[id].phase.Settled? && ChainResolved(s.calls, id)
    decreases id
  {
    assert !CanMove(s, id);
    NoWaiters(s, limit);
    hide Count, Chained, Queued, Serial, Bounded, NoLostWakeup;
    if s.calls[id].previous.Some? { SettledWhenQuiescent(s, limit, s.calls[id].previous.value); }
  }

  lemma NoWaiters(s: State, limit: nat)
    requires Listed(s) && Bounded(s, limit) && NoLostWakeup(s, limit) && limit > 0
    requires forall id: nat :: id < |s.calls| ==> s.calls[id].phase != Holding(true)
    requires forall id: nat :: !CanMove(s, id)
    ensures s.waiters == [] && forall id :: 0 <= id < |s.calls| ==> !s.calls[id].phase.Waiting?
  {
    hide Count, ChainResolved;
    forall c | 0 <= c < |s.calls| ensures !s.calls[c].phase.Holding? && !s.calls[c].phase.Resuming? {
      assert !CanMove(s, c);
    }
    NoneHeld(s);
    assert s.waiters == [];
    forall id | 0 <= id < |s.calls| ensures !s.calls[id].phase.Waiting? { assert id !in s.waiters; }
  }

  // ---------- the class ----------

  /** `Math.max(1, Math.trunc(limit))`. */
  function NormalizedLimit(limit: real): (n: nat)
    ensures n >= 1 && (limit >= 1.0 ==> n as real <= limit < n as real + 1.0)
  {
    if limit < 1.0 then 1 else limit.Floor
  }

  /** The scheduler's fields, with the calls in flight; one method for each piece between awaits. */
  class Scheduler {
    var queues: map<Key, CallId>
    var waiters: seq<CallId>
    var running: nat
    var calls: seq<Call>

    function Current(): State
      reads this
    {
      State(calls, queues, waiters, running)
    }

    constructor ()
      ensures Current() == INITIAL
    {
      queues, waiters, running, calls := map[], [], 0, [];
    }

    /** `run` up to its first await. */
    method Submit(key: Key, aborted: bool) returns (id: CallId)
      modifies this
      ensures id == |old(calls)| && Current() == Step(old(Current()), Called(key, aborted), 0)
    {
      id := |calls|;
      var previous := if key in queues then Some(queues[key]) else None;
      queues := queues[key := id];
      calls := calls + [Call(key, previous, aborted, if aborted then Failing else Awaiting)];
    }

    method PassPrevious(id: CallId)
      requires Enabled(Current(), PreviousDone(id))
      modifies this`calls
      ensures Current() == Step(old(Current()), PreviousDone(id), 0)
    {
      calls := calls[id := calls[id].(phase := Resuming(false))];
    }

    /** The loop of `acquire` from one await to the next, with `waitForSlot`. */
    method TryAcquire(id: CallId, limit: real)
      requires Enabled(Current(), Resumed(id))
      modifies this
      ensures Current() == Step(old(Current()), Resumed(id), NormalizedLimit(limit))
    {
      var normalizedLimit := NormalizedLimit(limit);
      if running >= normalizedLimit {
        if calls[id].aborted {
          calls := calls[id := calls[id].(phase := Failing)];
        } else {
          waiters := waiters + [id];
          calls := calls[id := calls[id].(phase := Waiting)];
        }
      } else {
        running := running + 1;
        calls := calls[id := calls[id].(phase := Holding(false))];
      }
    }

    method StartCallback(id: CallId)
      requires Enabled(Current(), Started(id))
      modifies this`calls
      ensures Current() == Step(old(Current()), Started(id), 0)
    {
      calls := calls[id := calls[id].(phase := Holding(true))];
    }

    /** After the callback: `release`, then resolving the call's own promise. */
    method Finish(id: CallId)
      requires Enabled(Current(), Finished(id))
      requires Listed(Current())
      modifies this
      ensures Current() == Step(old(Current()), Finished(id), 0)
    {
      running := if running == 0 then 0 else running - 1;
      calls := calls[id := calls[id].(phase := Settled)];
      if |waiters| > 0 {
        var next := waiters[0];
        assert next in waiters;
        waiters := waiters[1..];
        calls := calls[next := calls[next].(phase := Resuming(true))];
      }
    }

    method Abort(id: CallId)
      requires Enabled(Current(), Aborted(id))
      modifies this
      ensures Current() == Step(old(Current()), Aborted(id), 0)
    {
      var call := calls[id];
      calls := calls[id := call.(aborted := true)];
      if call.phase.Awaiting? {
        calls := calls[id := calls[id].(phase := Failing)];
      } else if call.phase.Waiting? {
        waiters := Remove(waiters, id);
        calls := calls[id := calls[id].(phase := Failing)];
      }
    }

    method Reject(id: CallId)
      requires Enabled(Current(), Rejected(id))
      modifies this`calls
      ensures Current() == Step(old(Current()), Rejected(id), 0)
    {
      calls := calls[id := calls[id].(phase := Settled)];
    }

    /** The handler on the resolved chain. */
    method TidyQueue(id: CallId)
      requires Enabled(Current(), Tidied(id))
      modifies this`queues
      ensures Current() == Step(old(Current()), Tidied(id), 0)
    {
      var key := calls[id].key;
      if key in queues && queues[key] == id { queues := queues - {key}; }
    }
  }
}
