/** The pool of warm guest environments (src/main/sandbox/vm-environment-manager.ts). Each piece of code
    between two awaits is one atomic step; a caller woken but not yet resumed is part of the state. */
module VmEnvironmentManager {
  import VmScheduler

  type Key = nat
  type OpId = nat
  type EnvId = nat

  /** Where a call of `execute` stands. */
  datatype Phase =
    | AwaitingCapacity        // in `capacityWaiters`
    | CapacityWoken           // taken out of the list, not yet resumed
    | Evicting(victim: EnvId) // closing an idle environment, with a reservation
    | Starting                // the runtime is starting an environment, with a reservation
    | Using(env: EnvId)       // acquired
    | Discarding(env: EnvId)  // closing an environment whose guest failed
    | Releasing(env: EnvId)   // closed after a guest failure, about to release
    | Ended

  datatype Op = Op(key: Key, aborted: bool, phase: Phase)

  datatype Entry = Entry(key: Key, active: nat, lastUsedAt: int, timerArmed: bool)

  /** `entries` are all environments ever registered, in order; `closers` counts the expiries and
      closings in progress that will wake the waiters when they are done. */
  datatype State = State(
    environments: map<Key, EnvId>, entries: seq<Entry>, capacityWaiters: seq<OpId>,
    pendingStarts: set<OpId>, starting: nat, closers: nat, ops: map<OpId, Op>)

  const INITIAL := State(map[], [], [], {}, 0, 0, map[])

  datatype Event =
    | Began(id: OpId, key: Key, aborted: bool, victim: EnvId, now: int)
    | CapacityResumed(id: OpId, victim: EnvId)
    | EvictionClosed(id: OpId)
    | StartSucceeded(id: OpId, now: int)
    | StartFailed(id: OpId)
    | Executed(id: OpId, guestFailed: bool, now: int)
    | DiscardClosed(id: OpId)
    | Released(id: OpId, now: int)
    | Aborted(id: OpId)
    | Left(id: OpId)
    | Expired(env: EnvId)
    | CloseBegan
    | EntryClosed(key: Key)
    | CloserDone

  // ---------- the steps ----------

  predicate Idle(s: State, k: Key) {
    k in s.environments && s.environments[k] < |s.entries| && s.entries[s.environments[k]].active == 0
  }

  predicate HasIdle(s: State) {
    exists k :: k in s.environments && Idle(s, k)
  }

  predicate NoNewer(s: State, v: EnvId, e: EnvId)
    requires v < |s.entries| && e < |s.entries|
  {
    var used, other := s.entries[v].lastUsedAt, s.entries[e].lastUsedAt;
    used < other || (used == other && v <= e)
  }

  /** The first of the idle environments sorted by last use; ties keep registration order. */
  predicate OldestIdle(s: State, v: EnvId) {
    && v < |s.entries| && Idle(s, s.entries[v].key) && s.environments[s.entries[v].key] == v
    && forall k :: k in s.environments && Idle(s, k) ==> NoNewer(s, v, s.environments[k])
  }

  function WithOp(s: State, id: OpId, p: Phase): State
    requires id in s.ops
  {
    s.(ops := s.ops[id := s.ops[id].(phase := p)])
  }

  /** `closeEntry` stops the idle timer before it closes the environment. */
  function WithoutTimer(s: State, v: EnvId): State
    requires v < |s.entries|
  {
    s.(entries := s.entries[v := s.entries[v].(timerArmed := false)])
  }

  function Unregister(s: State, k: Key): State {
    s.(environments := s.environments - {k})
  }

  /** `releaseCapacityWaiters`. */
  function WakeAll(s: State): State {
    s.(capacityWaiters := [],
       ops := map id | id in s.ops ::
         if s.ops[id].phase.AwaitingCapacity? then s.ops[id].(phase := CapacityWoken) else s.ops[id])
  }

  /** One turn of the capacity loop of `acquire`, and the start of the runtime after it. */
  function Reserve(s: State, id: OpId, victim: EnvId, limit: nat): State
    requires id in s.ops && (HasIdle(s) ==> OldestIdle(s, victim))
  {
    if |s.environments| + s.starting >= limit then
      if HasIdle(s) then
        var s1 := WithoutTimer(Unregister(s, s.entries[victim].key), victim);
        WithOp(s1.(starting := s1.starting + 1), id, Evicting(victim))
      else if s.ops[id].aborted then WithOp(s, id, Ended)
      else WithOp(s.(capacityWaiters := s.capacityWaiters + [id]), id, AwaitingCapacity)
    else
      WithOp(s.(starting := s.starting + 1, pendingStarts := s.pendingStarts + {id}), id, Starting)
  }

  /** The four ends of a turn of the loop, written out. */
  lemma ReserveCases(s: State, id: OpId, victim: EnvId, limit: nat)
    requires id in s.ops && (HasIdle(s) ==> OldestIdle(s, victim))
    ensures var full, op := |s.environments| + s.starting >= limit, s.ops[id];
      && (full && HasIdle(s) ==>
            && victim < |s.entries|
            && Reserve(s, id, victim, limit) == s.(
                 environments := s.environments - {s.entries[victim].key}, starting := s.starting + 1,
                 entries := s.entries[victim := s.entries[victim].(timerArmed := false)],
                 ops := s.ops[id := op.(phase := Evicting(victim))]))
      && (full && !HasIdle(s) && op.aborted ==>
            Reserve(s, id, victim, limit) == s.(ops := s.ops[id := op.(phase := Ended)]))
      && (full && !HasIdle(s) && !op.aborted ==>
            Reserve(s, id, victim, limit) == s.(
              capacityWaiters := s.capacityWaiters + [id], ops := s.ops[id := op.(phase := AwaitingCapacity)]))
      && (!full ==>
            Reserve(s, id, victim, limit) == s.(starting := s.starting + 1, pendingStarts := s.pendingStarts + {id},
              ops := s.ops[id := op.(phase := Starting)]))
  {
  }

  /** `acquire` up to its first await. */
  function Acquire(s: State, id: OpId, victim: EnvId, now: int, limit: nat): State
    requires id in s.ops && (HasIdle(s) ==> OldestIdle(s, victim))
  {
    var key := s.ops[id].key;
    if s.ops[id].aborted then WithOp(s, id, Ended)
    else if key in s.environments && s.environments[key] < |s.entries| then
      var env := s.environments[key];
      var entry := s.entries[env];
      var used := entry.(active := entry.active + 1, lastUsedAt := now, timerArmed := false);
      WithOp(s.(entries := s.entries[env := used]), id, Using(env))
    else Reserve(s, id, victim, limit)
  }

  /** The start has settled: the reservation is given back and the waiters are woken. */
  function Unreserve(s: State, id: OpId): State {
    WakeAll(s.(pendingStarts := s.pendingStarts - {id}, starting := if s.starting == 0 then 0 else s.starting - 1))
  }

  function Registered(s: State, id: OpId, now: int): State
    requires id in s.ops
  {
    var s1 := Unreserve(s, id);
    var env := |s.entries|;
    var key := s.ops[id].key;
    var s2 := s1.(environments := s1.environments[key := env], entries := s1.entries + [Entry(key, 1, now, false)]);
    WithOp(s2, id, Using(env))
  }

  /** `release`, ending the operation. */
  function Release(s: State, id: OpId, env: EnvId, now: int): State
    requires id in s.ops && env < |s.entries|
  {
    var entry := s.entries[env];
    if entry.key !in s.environments then WithOp(s, id, Ended)
    else
      var active := if entry.active == 0 then 0 else entry.active - 1;
      var s1 := s.(entries := s.entries[env := entry.(active := active, lastUsedAt := now, timerArmed := active == 0)]);
      WithOp(if active == 0 then WakeAll(s1) else s1, id, Ended)
  }

  predicate Enabled(s: State, e: Event) {
    match e
    case Began(id, _, _, victim, _) => id !in s.ops && (HasIdle(s) ==> OldestIdle(s, victim))
    case CapacityResumed(id, victim) => id in s.ops && s.ops[id].phase.CapacityWoken?
      && (HasIdle(s) ==> OldestIdle(s, victim))
    case EvictionClosed(id) => id in s.ops && s.ops[id].phase.Evicting?
    case StartSucceeded(id, _) => id in s.ops && s.ops[id].phase.Starting?
    case StartFailed(id) => id in s.ops && s.ops[id].phase.Starting?
    case Executed(id, _, _) => id in s.ops && s.ops[id].phase.Using? && s.ops[id].phase.env < |s.entries|
    case DiscardClosed(id) => id in s.ops && s.ops[id].phase.Discarding?
    case Released(id, _) => id in s.ops && s.ops[id].phase.Releasing? && s.ops[id].phase.env < |s.entries|
    case Aborted(id) => id in s.ops
    case Left(id) => id in s.ops && s.ops[id].phase.Ended?
    case Expired(env) => env < |s.entries| && s.entries[env].timerArmed
    case CloseBegan => true
    case EntryClosed(key) => s.closers > 0 && key in s.environments && s.environments[key] < |s.entries|
    case CloserDone => s.closers > 0
  }

  function RemoveWaiter(s: seq<OpId>, x: OpId): seq<OpId> {
    if s == [] then [] else if s[0] == x then s[1..] else [s[0]] + RemoveWaiter(s[1..], x)
  }

  function Step(s: State, e: Event, limit: nat): State
    requires Enabled(s, e)
  {
    match e
    case Began(id, key, aborted, victim, now) => Begin(s, e, limit)
    case CapacityResumed(id, victim) => Reserve(s, id, victim, limit)
    case EvictionClosed(id) => WithOp(s.(pendingStarts := s.pendingStarts + {id}), id, Starting)
    case StartSucceeded(id, now) => Registered(s, id, now)
    case StartFailed(id) => WithOp(Unreserve(s, id), id, Ended)
    case Executed(id, guestFailed, now) => Execute(s, e)
    case DiscardClosed(id) => WithOp(WakeAll(s), id, Releasing(s.ops[id].phase.env))
    case Released(id, now) => Release(s, id, s.ops[id].phase.env, now)
    case Aborted(id) => Cancel(s, id)
    case Left(id) => s.(ops := s.ops - {id})
    case Expired(env) => Expire(s, env)
    case CloseBegan => s.(closers := s.closers + 1)
    case EntryClosed(key) => WithoutTimer(Unregister(s, key), s.environments[key])
    case CloserDone => WakeAll(s.(closers := s.closers - 1))
  }

  function Begin(s: State, e: Event, limit: nat): State
    requires e.Began? && Enabled(s, e)
  {
    var s1 := s.(ops := s.ops[e.id := Op(e.key, e.aborted, Ended)]);
    assert forall k :: Idle(s1, k) <==> Idle(s, k);
    Acquire(s1, e.id, e.victim, e.now, limit)
  }

  /** The guest has answered or failed; a failed guest's environment is discarded if still registered. */
  function Execute(s: State, e: Event): State
    requires e.Executed? && Enabled(s, e)
  {
    var env := s.ops[e.id].phase.env;
    var key := s.entries[env].key;
    if e.guestFailed && key in s.environments && s.environments[key] == env then
      WithOp(WithoutTimer(Unregister(s, key), env), e.id, Discarding(env))
    else
      Release(s, e.id, env, e.now)
  }

  function Cancel(s: State, id: OpId): State
    requires id in s.ops
  {
    var s1 := s.(ops := s.ops[id := s.ops[id].(aborted := true)]);
    if s.ops[id].phase.AwaitingCapacity? then
      WithOp(s1.(capacityWaiters := RemoveWaiter(s.capacityWaiters, id)), id, Ended)
    else s1
  }

  function Expire(s: State, env: EnvId): State
    requires env < |s.entries|
  {
    var s1 := WithoutTimer(s, env);
    var key := s.entries[env].key;
    if s.entries[env].active != 0 || key !in s.environments || s.environments[key] != env then s1
    else Unregister(s1.(closers := s1.closers + 1), key)
  }

  // ---------- the invariant ----------

  predicate Reserving(p: Phase) { p.Evicting? || p.Starting? }

  /** Using an environment or giving it back. */
  predicate OnEnvironment(p: Phase) { p.Using? || p.Discarding? || p.Releasing? }

  /** Has not acquired anything yet. */
  predicate Acquiring(p: Phase) { p.AwaitingCapacity? || p.CapacityWoken? || Reserving(p) }

  function Reservations(ops: map<OpId, Op>): set<OpId> {
    set id | id in ops && Reserving(ops[id].phase)
  }

  function StartingOps(ops: map<OpId, Op>): set<OpId> {
    set id | id in ops && ops[id].phase.Starting?
  }

  function UsersOf(ops: map<OpId, Op>, env: EnvId): set<OpId> {
    set id | id in ops && ops[id].phase == Using(env)
  }

  /** Operations that will take a turn of the capacity loop, or wake the waiters. */
  function WakingOps(ops: map<OpId, Op>): set<OpId> {
    set id | id in ops && (ops[id].phase.CapacityWoken? || ops[id].phase.Discarding?)
  }

  function ActiveKeys(environments: map<Key, EnvId>, entries: seq<Entry>): set<Key> {
    set k | k in environments && environments[k] < |entries| && entries[environments[k]].active > 0
  }

  /** What the scheduler guarantees: operations in progress have distinct keys. */
  ghost predicate DistinctKeys(ops: map<OpId, Op>) {
    forall i, j :: i in ops && j in ops && i != j ==> ops[i].key != ops[j].key
  }

  ghost predicate Capacity(s: State, limit: nat) {
    && |s.environments| + s.starting <= limit
    && s.starting == |Reservations(s.ops)|
    && s.pendingStarts == StartingOps(s.ops)
  }

  ghost predicate Waiters(waiters: seq<OpId>, ops: map<OpId, Op>) {
    && (forall i, j :: 0 <= i < j < |waiters| ==> waiters[i] != waiters[j])
    && (forall id: nat :: id in waiters <==> id in ops && ops[id].phase.AwaitingCapacity?)
  }

  /** Registered environments have their own keys. */
  ghost predicate Keyed(environments: map<Key, EnvId>, entries: seq<Entry>) {
    forall k :: k in environments ==> environments[k] < |entries| && entries[environments[k]].key == k
  }

  /** The environment an operation is on has the operation's key, and is the registered one of that
      key unless it was discarded or closed; an operation still acquiring has no environment registered. */
  ghost predicate PlacedOp(environments: map<Key, EnvId>, entries: seq<Entry>, op: Op) {
    && (OnEnvironment(op.phase) ==>
          && op.phase.env < |entries| && entries[op.phase.env].key == op.key
          && (op.key in environments ==> op.phase.Using? && environments[op.key] == op.phase.env))
    && (Acquiring(op.phase) ==> op.key !in environments)
  }

  ghost predicate Placed(environments: map<Key, EnvId>, entries: seq<Entry>, ops: map<OpId, Op>) {
    forall id :: id in ops ==> PlacedOp(environments, entries, ops[id])
  }

  /** `active` counts the operations using the environment; its idle timer is armed exactly when none does. */
  ghost predicate TrackedEntry(entries: seq<Entry>, ops: map<OpId, Op>, env: EnvId) {
    && env < |entries| && entries[env].active == |UsersOf(ops, env)|
    && (entries[env].timerArmed <==> entries[env].active == 0)
  }

  ghost predicate Tracked(environments: map<Key, EnvId>, entries: seq<Entry>, ops: map<OpId, Op>) {
    forall k :: k in environments ==> TrackedEntry(entries, ops, environments[k])
  }

  /** Something is in progress that will wake the waiters: an active environment, a start, a closing,
      or an operation that is discarding or already woken. */
  ghost predicate WakeComing(s: State) {
    ActiveKeys(s.environments, s.entries) != {} || s.starting > 0 || s.closers > 0 || WakingOps(s.ops) != {}
  }

  ghost predicate NoLostWakeup(s: State) {
    s.capacityWaiters != [] ==> WakeComing(s)
  }

  ghost predicate Inv(s: State, limit: nat) {
    && DistinctKeys(s.ops) && Capacity(s, limit) && Waiters(s.capacityWaiters, s.ops)
    && Keyed(s.environments, s.entries) && Placed(s.environments, s.entries, s.ops)
    && Tracked(s.environments, s.entries, s.ops) && NoLostWakeup(s)
  }

  // ---------- how the parts change ----------

  /** Changing one operation. */
  lemma OpUpdate(ops: map<OpId, Op>, id: OpId, op: Op)
    ensures Reservations(ops[id := op])
      == if Reserving(op.phase) then Reservations(ops) + {id} else Reservations(ops) - {id}
    ensures StartingOps(ops[id := op])
      == if op.phase.Starting? then StartingOps(ops) + {id} else StartingOps(ops) - {id}
    ensures WakingOps(ops[id := op])
      == if op.phase.CapacityWoken? || op.phase.Discarding? then WakingOps(ops) + {id} else WakingOps(ops) - {id}
  {
  }

  lemma OpMembers(ops: map<OpId, Op>, id: OpId)
    ensures id in Reservations(ops) <==> id in ops && Reserving(ops[id].phase)
    ensures id in StartingOps(ops) <==> id in ops && ops[id].phase.Starting?
    ensures id in WakingOps(ops) <==> id in ops && (ops[id].phase.CapacityWoken? || ops[id].phase.Discarding?)
  {
  }

  /** An operation that neither reserves, starts nor wakes, before and after. */
  lemma SameSets(ops: map<OpId, Op>, id: OpId, op: Op)
    requires id in ops && Reserving(op.phase) == Reserving(ops[id].phase)
    requires op.phase.Starting? == ops[id].phase.Starting?
    requires (op.phase.CapacityWoken? || op.phase.Discarding?) ==
      (ops[id].phase.CapacityWoken? || ops[id].phase.Discarding?)
    ensures Reservations(ops[id := op]) == Reservations(ops) && StartingOps(ops[id := op]) == StartingOps(ops)
    ensures WakingOps(ops[id := op]) == WakingOps(ops)
  {
  }

  lemma UsersUpdate(ops: map<OpId, Op>, id: OpId, op: Op, env: EnvId)
    ensures UsersOf(ops[id := op], env)
      == if op.phase == Using(env) then UsersOf(ops, env) + {id} else UsersOf(ops, env) - {id}
    ensures id in UsersOf(ops, env) <==> id in ops && ops[id].phase == Using(env)
  {
  }

  /** The reservation count follows one operation's phase. */
  lemma ReservationCount(ops: map<OpId, Op>, id: OpId, op: Op)
    ensures |Reservations(ops[id := op])|
            == |Reservations(ops)| - (if id in ops && Reserving(ops[id].phase) then 1 else 0)
              + (if Reserving(op.phase) then 1 else 0)
  {
    hide Reservations;
    OpUpdate(ops, id, op);
    OpMembers(ops, id);
    if id in Reservations(ops) { assert Reservations(ops) + {id} == Reservations(ops); }
  }

  /** An operation whose phase changes without entering or leaving the waiter list or an environment. */
  lemma PhaseUpdate(environments: map<Key, EnvId>, entries: seq<Entry>, waiters: seq<OpId>, ops: map<OpId, Op>,
      id: OpId, op: Op)
    requires id in ops && op.key == ops[id].key && DistinctKeys(ops)
    ensures DistinctKeys(ops[id := op])
    ensures Waiters(waiters, ops) && !ops[id].phase.AwaitingCapacity? && !op.phase.AwaitingCapacity? ==>
      Waiters(waiters, ops[id := op])
    ensures Placed(environments, entries, ops) && PlacedOp(environments, entries, op) ==>
      Placed(environments, entries, ops[id := op])
    ensures Tracked(environments, entries, ops) && !ops[id].phase.Using? && !op.phase.Using? ==>
      Tracked(environments, entries, ops[id := op])
  {
    hide UsersOf, PlacedOp;
    forall env { UsersUpdate(ops, id, op, env); }
  }

  lemma ActiveSame(environments: map<Key, EnvId>, entries: seq<Entry>, env: EnvId, entry: Entry)
    requires env < |entries| && entry.active == entries[env].active
    ensures ActiveKeys(environments, entries[env := entry]) == ActiveKeys(environments, entries)
  {
  }

  /** Taking an environment out of the map. */
  lemma UnregisterKeeps(environments: map<Key, EnvId>, entries: seq<Entry>, ops: map<OpId, Op>, k: Key)
    requires k in environments && Keyed(environments, entries)
    ensures |environments - {k}| == |environments| - 1
    ensures Keyed(environments - {k}, entries)
    ensures Placed(environments, entries, ops) ==> Placed(environments - {k}, entries, ops)
    ensures Tracked(environments, entries, ops) ==> Tracked(environments - {k}, entries, ops)
    ensures ActiveKeys(environments - {k}, entries) == ActiveKeys(environments, entries) - {k}
    ensures environments[k] < |entries| ==>
      (k in ActiveKeys(environments, entries) <==> entries[environments[k]].active > 0)
  {
  }

  /** The environment is tracked if it is registered. */
  ghost predicate TrackedIf(environments: map<Key, EnvId>, entries: seq<Entry>, ops: map<OpId, Op>, env: EnvId)
    requires env < |entries|
  {
    var key := entries[env].key;
    key in environments && environments[key] == env ==> TrackedEntry(entries, ops, env)
  }

  /** Changing the idle timer or the use of an entry that is no longer registered. */
  lemma EntryUpdateKeeps(environments: map<Key, EnvId>, entries: seq<Entry>, ops: map<OpId, Op>, env: EnvId,
      entry: Entry)
    requires env < |entries| && entry.key == entries[env].key && Keyed(environments, entries)
    ensures Keyed(environments, entries[env := entry])
    ensures Placed(environments, entries, ops) ==> Placed(environments, entries[env := entry], ops)
    ensures Tracked(environments, entries, ops) && TrackedIf(environments, entries[env := entry], ops, env) ==>
      Tracked(environments, entries[env := entry], ops)
  {
  }

  /** Waking the waiters keeps everything and leaves none. */
  lemma WakeAllKeeps(s: State)
    requires DistinctKeys(s.ops) && Placed(s.environments, s.entries, s.ops)
    ensures WakeAll(s) == s.(capacityWaiters := [], ops := WakeAll(s).ops)
    ensures DistinctKeys(WakeAll(s).ops) && Waiters([], WakeAll(s).ops)
    ensures Reservations(WakeAll(s).ops) == Reservations(s.ops) && StartingOps(WakeAll(s).ops) == StartingOps(s.ops)
    ensures Placed(s.environments, s.entries, WakeAll(s).ops)
    ensures Tracked(s.environments, s.entries, s.ops) ==> Tracked(s.environments, s.entries, WakeAll(s).ops)
  {
    hide UsersOf, Reservations, StartingOps;
    WokenSets(s);
    forall env { WokenUsers(s, env); }
  }

  lemma WokenSets(s: State)
    ensures Reservations(WakeAll(s).ops) == Reservations(s.ops) && StartingOps(WakeAll(s).ops) == StartingOps(s.ops)
  {
  }

  lemma WokenUsers(s: State, env: EnvId)
    ensures UsersOf(WakeAll(s).ops, env) == UsersOf(s.ops, env)
  {
  }

  /** Everything of the invariant that waking the waiters needs. */
  ghost predicate AlmostInv(s: State, limit: nat) {
    && DistinctKeys(s.ops) && Capacity(s, limit)
    && Keyed(s.environments, s.entries) && Placed(s.environments, s.entries, s.ops)
    && Tracked(s.environments, s.entries, s.ops)
  }

  lemma WakeAllInv(s: State, limit: nat)
    requires AlmostInv(s, limit)
    ensures Inv(WakeAll(s), limit)
  {
    hide DistinctKeys, Placed, Tracked, Keyed, Waiters, WakeAll, Reservations, StartingOps;
    WakeAllKeeps(s);
  }

  lemma WakeCommutes(s: State, id: OpId, p: Phase)
    requires id in s.ops && !p.AwaitingCapacity?
    ensures WithOp(WakeAll(s), id, p) == WakeAll(WithOp(s, id, p)) && id in WakeAll(s).ops
  {
    var a, b := WithOp(WakeAll(s), id, p), WakeAll(WithOp(s, id, p));
    assert a.ops.Keys == b.ops.Keys;
    assert forall i :: i in a.ops ==> a.ops[i] == b.ops[i];
    assert a.ops == b.ops;
  }

  lemma NonEmpty(environments: map<Key, EnvId>)
    requires |environments| > 0
    ensures exists k :: k in environments
  {
    assert environments.Keys != {};
  }

  /** Without an idle environment, a full pool is doing something that ends in a wake. */
  lemma FullPoolIsBusy(s: State, limit: nat)
    requires Keyed(s.environments, s.entries) && limit > 0 && |s.environments| + s.starting >= limit && !HasIdle(s)
    ensures s.starting > 0 || ActiveKeys(s.environments, s.entries) != {}
  {
    if s.starting == 0 {
      NonEmpty(s.environments);
      var k :| k in s.environments;
      assert !Idle(s, k);
      assert k in ActiveKeys(s.environments, s.entries);
    }
  }

  // ---------- each step keeps the invariant ----------

  /** The state in which an operation takes a turn of the capacity loop. */
  ghost predicate ReadyToReserve(s: State, id: OpId, limit: nat) {
    && limit > 0 && id in s.ops && (s.ops[id].phase.CapacityWoken? || s.ops[id].phase.Ended?)
    && AlmostInv(s, limit) && Waiters(s.capacityWaiters, s.ops)
    && s.ops[id].key !in s.environments
    && NoLostWakeup(s)
  }

  lemma EvictKeeps(s: State, id: OpId, victim: EnvId, limit: nat)
    requires ReadyToReserve(s, id, limit) && OldestIdle(s, victim)
    requires |s.environments| + s.starting >= limit && HasIdle(s)
    ensures Inv(Reserve(s, id, victim, limit), limit)
  {
    hide Reservations, StartingOps, ActiveKeys, WakingOps, UsersOf, DistinctKeys, Waiters, Placed, Tracked, Keyed;
    var key := s.entries[victim].key;
    var op := s.ops[id].(phase := Evicting(victim));
    var environments := s.environments - {key};
    var entry := s.entries[victim].(timerArmed := false);
    UnregisterKeeps(s.environments, s.entries, s.ops, key);
    EntryUpdateKeeps(environments, s.entries, s.ops, victim, entry);
    PhaseUpdate(environments, s.entries[victim := entry], s.capacityWaiters, s.ops, id, op);
    ReservationCount(s.ops, id, op);
    OpUpdate(s.ops, id, op);
    OpMembers(s.ops, id);
  }

  lemma StartKeeps(s: State, id: OpId, victim: EnvId, limit: nat)
    requires ReadyToReserve(s, id, limit) && |s.environments| + s.starting < limit
    requires HasIdle(s) ==> OldestIdle(s, victim)
    ensures Inv(Reserve(s, id, victim, limit), limit)
  {
    hide Reservations, StartingOps, ActiveKeys, WakingOps, UsersOf, DistinctKeys, Waiters, Placed, Tracked, Keyed,
      HasIdle, OldestIdle;
    var op := s.ops[id].(phase := Starting);
    PhaseUpdate(s.environments, s.entries, s.capacityWaiters, s.ops, id, op);
    ReservationCount(s.ops, id, op);
    OpUpdate(s.ops, id, op);
  }

  lemma WaitKeeps(s: State, id: OpId, victim: EnvId, limit: nat)
    requires ReadyToReserve(s, id, limit) && |s.environments| + s.starting >= limit && !HasIdle(s)
    ensures Inv(Reserve(s, id, victim, limit), limit)
  {
    hide Reservations, StartingOps, ActiveKeys, WakingOps, UsersOf, DistinctKeys, Waiters, Placed, Tracked, Keyed,
      HasIdle, OldestIdle;
    var op := s.ops[id].(phase := if s.ops[id].aborted then Ended else AwaitingCapacity);
    FullPoolIsBusy(s, limit);
    PhaseUpdate(s.environments, s.entries, s.capacityWaiters, s.ops, id, op);
    WaiterAppended(s.capacityWaiters, s.ops, id, s.ops[id].(phase := AwaitingCapacity));
    ReservationCount(s.ops, id, op);
    OpUpdate(s.ops, id, op);
    OpMembers(s.ops, id);
  }

  lemma WaiterAppended(waiters: seq<OpId>, ops: map<OpId, Op>, id: OpId, op: Op)
    requires Waiters(waiters, ops) && id in ops && !ops[id].phase.AwaitingCapacity? && op.phase.AwaitingCapacity?
    ensures Waiters(waiters + [id], ops[id := op])
  {
  }

  lemma ReserveKeepsInv(s: State, id: OpId, victim: EnvId, limit: nat)
    requires ReadyToReserve(s, id, limit) && (HasIdle(s) ==> OldestIdle(s, victim))
    ensures Inv(Reserve(s, id, victim, limit), limit)
  {
    hide Inv, AlmostInv, Waiters, NoLostWakeup, HasIdle, OldestIdle;
    if |s.environments| + s.starting < limit {
      StartKeeps(s, id, victim, limit);
    } else if HasIdle(s) {
      EvictKeeps(s, id, victim, limit);
    } else {
      WaitKeeps(s, id, victim, limit);
    }
  }

  lemma {:induction false} OldestAmong(s: State, keys: set<Key>) returns (v: EnvId)
    requires Keyed(s.environments, s.entries) && keys <= s.environments.Keys && exists k :: k in keys && Idle(s, k)
    ensures v < |s.entries| && s.entries[v].key in keys && Idle(s, s.entries[v].key)
    ensures s.environments[s.entries[v].key] == v
    ensures forall k :: k in keys && Idle(s, k) ==> NoNewer(s, v, s.environments[k])
    decreases keys
  {
    var k :| k in keys && Idle(s, k);
    v := s.environments[k];
    var rest := keys - {k};
    if exists x :: x in rest && Idle(s, x) {
      var w := OldestAmong(s, rest);
      if NoNewer(s, w, v) { v := w; }
    }
  }

  /** An idle environment can always be chosen. */
  lemma OldestExists(s: State) returns (v: EnvId)
    requires Keyed(s.environments, s.entries)
    ensures HasIdle(s) ==> OldestIdle(s, v)
  {
    v := 0;
    if HasIdle(s) {
      var k :| k in s.environments && Idle(s, k);
      v := OldestAmong(s, s.environments.Keys);
    }
  }

  /** The environment evicted is not in use. */
  lemma IdleIsUnused(s: State, limit: nat, k: Key, id: OpId)
    requires Inv(s, limit) && k in s.environments && s.environments[k] < |s.entries|
    requires s.entries[s.environments[k]].active == 0
    requires id in s.ops && OnEnvironment(s.ops[id].phase)
    ensures s.ops[id].phase.env != s.environments[k]
  {
    assert TrackedEntry(s.entries, s.ops, s.environments[k]);
    assert UsersOf(s.ops, s.environments[k]) == {};
    assert PlacedOp(s.environments, s.entries, s.ops[id]);
    assert id in UsersOf(s.ops, s.environments[k]) <==> s.ops[id].phase == Using(s.environments[k]);
  }

  lemma CapacityResumedKeepsInv(s: State, id: OpId, victim: EnvId, limit: nat)
    requires Inv(s, limit) && limit > 0 && Enabled(s, CapacityResumed(id, victim))
    ensures Inv(Step(s, CapacityResumed(id, victim), limit), limit)
  {
    hide DistinctKeys, Capacity, Waiters, Keyed, Placed, Tracked, NoLostWakeup, HasIdle, OldestIdle, Reserve;
    StillAcquiring(s, id);
    ReserveKeepsInv(s, id, victim, limit);
  }

  lemma StillAcquiring(s: State, id: OpId)
    requires Placed(s.environments, s.entries, s.ops) && id in s.ops && Acquiring(s.ops[id].phase)
    ensures s.ops[id].key !in s.environments
  {
  }

  /** A new operation, not yet past its first await. */
  lemma EnteringKeepsInv(s: State, id: OpId, key: Key, aborted: bool, limit: nat)
    requires Inv(s, limit) && id !in s.ops && forall i :: i in s.ops ==> s.ops[i].key != key
    ensures Inv(s.(ops := s.ops[id := Op(key, aborted, Ended)]), limit)
  {
    hide Reservations, StartingOps, WakingOps, ActiveKeys, Tracked, Placed, Keyed, Waiters;
    var op := Op(key, aborted, Ended);
    OpUpdate(s.ops, id, op);
    OpMembers(s.ops, id);
    ReservationCount(s.ops, id, op);
    EnteringKeepsPlaces(s, id, op);
  }

  lemma EnteringKeepsPlaces(s: State, id: OpId, op: Op)
    requires id !in s.ops && op.phase.Ended?
    ensures Waiters(s.capacityWaiters, s.ops) ==> Waiters(s.capacityWaiters, s.ops[id := op])
    ensures Placed(s.environments, s.entries, s.ops) ==> Placed(s.environments, s.entries, s.ops[id := op])
    ensures Tracked(s.environments, s.entries, s.ops) ==> Tracked(s.environments, s.entries, s.ops[id := op])
  {
    hide UsersOf;
    forall env { UsersUpdate(s.ops, id, op, env); }
  }

  function Reused(s: State, env: EnvId, now: int): Entry
    requires env < |s.entries|
  {
    s.entries[env].(active := s.entries[env].active + 1, lastUsedAt := now, timerArmed := false)
  }

  lemma RegisteredEntry(s: State, k: Key)
    requires Keyed(s.environments, s.entries) && Tracked(s.environments, s.entries, s.ops) && k in s.environments
    ensures s.environments[k] < |s.entries| && s.entries[s.environments[k]].key == k
    ensures TrackedEntry(s.entries, s.ops, s.environments[k])
  {
  }

  /** Moving an operation onto or off a registered environment, with its use count. */
  lemma UseUpdate(s: State, id: OpId, op: Op, env: EnvId, entry: Entry)
    requires Keyed(s.environments, s.entries) && Tracked(s.environments, s.entries, s.ops) && id in s.ops
    requires env < |s.entries|
    requires entry.key == s.entries[env].key && s.environments.Items >= {(entry.key, env)}
    requires !s.ops[id].phase.Using? || s.ops[id].phase == Using(env)
    requires !op.phase.Using? || op.phase == Using(env)
    requires entry.active ==
      s.entries[env].active - (if s.ops[id].phase.Using? then 1 else 0) + (if op.phase.Using? then 1 else 0)
    requires entry.timerArmed <==> entry.active == 0
    ensures Tracked(s.environments, s.entries[env := entry], s.ops[id := op])
  {
    hide UsersOf;
    assert (entry.key, env) in s.environments.Items;
    forall k | k in s.environments ensures TrackedEntry(s.entries[env := entry], s.ops[id := op], s.environments[k]) {
      RegisteredEntry(s, k);
      UsersUpdate(s.ops, id, op, s.environments[k]);
      if s.environments[k] == env && s.ops[id].phase.Using? && op.phase.Using? {
        assert UsersOf(s.ops, env) + {id} == UsersOf(s.ops, env);
      }
      if s.environments[k] != env {
        assert UsersOf(s.ops, s.environments[k]) - {id} == UsersOf(s.ops, s.environments[k]);
      }
    }
  }

  lemma ReuseKeepsInv(s: State, id: OpId, now: int, limit: nat)
    requires Inv(s, limit) && id in s.ops && s.ops[id].phase.Ended? && s.ops[id].key in s.environments
    ensures var env := s.environments[s.ops[id].key];
            env < |s.entries| && Inv(WithOp(s.(entries := s.entries[env := Reused(s, env, now)]), id, Using(env)),
              limit)
  {
    hide Reservations, StartingOps, WakingOps, ActiveKeys, UsersOf, Tracked, Placed, Keyed, Waiters;
    var key := s.ops[id].key;
    RegisteredEntry(s, key);
    var env := s.environments[key];
    var op, entry := s.ops[id].(phase := Using(env)), Reused(s, env, now);
    assert (key, env) in s.environments.Items;
    UseUpdate(s, id, op, env, entry);
    EntryUpdateKeeps(s.environments, s.entries, s.ops, env, entry);
    PhaseUpdate(s.environments, s.entries[env := entry], s.capacityWaiters, s.ops, id, op);
    ReservationCount(s.ops, id, op);
    OpUpdate(s.ops, id, op);
    OpMembers(s.ops, id);
    UseIsActive(s.environments, s.entries[env := entry], key);
  }

  lemma UseIsActive(environments: map<Key, EnvId>, entries: seq<Entry>, k: Key)
    requires k in environments && environments[k] < |entries| && entries[environments[k]].active > 0
    ensures ActiveKeys(environments, entries) != {}
  {
    assert k in ActiveKeys(environments, entries);
  }

  lemma BeganKeepsInv(s: State, e: Event, limit: nat)
    requires Inv(s, limit) && limit > 0 && e.Began? && Enabled(s, e) && forall i :: i in s.ops ==> s.ops[i].key != e.key
    ensures Inv(Step(s, e, limit), limit)
  {
    hide DistinctKeys, Capacity, Waiters, Placed, Tracked, NoLostWakeup, Reserve, OldestIdle, HasIdle;
    var s1 := s.(ops := s.ops[e.id := Op(e.key, e.aborted, Ended)]);
    EnteringKeepsInv(s, e.id, e.key, e.aborted, limit);
    IdleSame(s, s1, e.victim);
    if e.aborted {
      assert WithOp(s1, e.id, Ended) == s1;
    } else if e.key in s.environments {
      ReuseKeepsInv(s1, e.id, e.now, limit);
    } else {
      ReserveKeepsInv(s1, e.id, e.victim, limit);
    }
  }

  lemma IdleSame(s: State, s1: State, victim: EnvId)
    requires s1.environments == s.environments && s1.entries == s.entries
    ensures HasIdle(s1) == HasIdle(s) && OldestIdle(s1, victim) == OldestIdle(s, victim)
  {
  }

  lemma EvictionClosedKeepsInv(s: State, id: OpId, limit: nat)
    requires Inv(s, limit) && Enabled(s, EvictionClosed(id))
    ensures Inv(Step(s, EvictionClosed(id), limit), limit)
  {
    hide Reservations, StartingOps, WakingOps, ActiveKeys, DistinctKeys, Waiters, Placed, Tracked, Keyed;
    var op := s.ops[id].(phase := Starting);
    StillAcquiring(s, id);
    PhaseUpdate(s.environments, s.entries, s.capacityWaiters, s.ops, id, op);
    ReservationCount(s.ops, id, op);
    OpUpdate(s.ops, id, op);
    OpMembers(s.ops, id);
  }

  lemma Reserved(s: State, id: OpId, limit: nat)
    requires Capacity(s, limit) && id in s.ops && Reserving(s.ops[id].phase)
    ensures s.starting > 0
  {
    assert id in Reservations(s.ops);
  }

  lemma StartFailedKeepsInv(s: State, id: OpId, limit: nat)
    requires Inv(s, limit) && Enabled(s, StartFailed(id))
    ensures Inv(Step(s, StartFailed(id), limit), limit)
  {
    hide Reservations, StartingOps, WakingOps, ActiveKeys, DistinctKeys, Waiters, Placed, Tracked, Keyed, WakeAll, Inv;
    Unfold(s, limit);
    Reserved(s, id, limit);
    var op := s.ops[id].(phase := Ended);
    var s1 := s.(pendingStarts := s.pendingStarts - {id}, starting := s.starting - 1);
    PhaseUpdate(s.environments, s.entries, s.capacityWaiters, s.ops, id, op);
    ReservationCount(s.ops, id, op);
    OpUpdate(s.ops, id, op);
    WakeAllInv(WithOp(s1, id, Ended), limit);
    WakeCommutes(s1, id, Ended);
  }

  lemma Unfold(s: State, limit: nat)
    requires Inv(s, limit)
    ensures AlmostInv(s, limit) && Waiters(s.capacityWaiters, s.ops) && NoLostWakeup(s)
  {
  }

  /** Registering the started environment: its key has none, so nothing is overwritten. */
  lemma RegisterKeeps(s: State, id: OpId, now: int)
    requires DistinctKeys(s.ops) && Keyed(s.environments, s.entries)
    requires Placed(s.environments, s.entries, s.ops) && Tracked(s.environments, s.entries, s.ops)
    requires id in s.ops && s.ops[id].phase.Starting?
    ensures var key, env := s.ops[id].key, |s.entries|;
            var environments, entries := s.environments[key := env], s.entries + [Entry(key, 1, now, false)];
            var ops := s.ops[id := s.ops[id].(phase := Using(env))];
            && |environments| == |s.environments| + 1 && Keyed(environments, entries)
            && Placed(environments, entries, ops) && Tracked(environments, entries, ops)
  {
    var key, env := s.ops[id].key, |s.entries|;
    var environments, entries := s.environments[key := env], s.entries + [Entry(key, 1, now, false)];
    var op := s.ops[id].(phase := Using(env));
    StillAcquiring(s, id);
    RegisterPlaces(s, id, now);
    hide UsersOf, Placed, DistinctKeys, TrackedEntry;
    RegisterTracksNew(s, id, now);
    forall k | k in environments ensures TrackedEntry(entries, s.ops[id := op], environments[k]) {
      if k != key { RegisterTracksOld(s, id, now, k); }
    }
  }

  lemma RegisterTracksNew(s: State, id: OpId, now: int)
    requires Placed(s.environments, s.entries, s.ops) && id in s.ops
    ensures var key, env := s.ops[id].key, |s.entries|;
            TrackedEntry(s.entries + [Entry(key, 1, now, false)], s.ops[id := s.ops[id].(phase := Using(env))], env)
  {
    hide UsersOf, Placed;
    var op := s.ops[id].(phase := Using(|s.entries|));
    UsersUpdate(s.ops, id, op, |s.entries|);
    NoUsersYet(s, |s.entries|);
  }

  lemma RegisterTracksOld(s: State, id: OpId, now: int, k: Key)
    requires Keyed(s.environments, s.entries) && Tracked(s.environments, s.entries, s.ops)
    requires id in s.ops && s.ops[id].phase.Starting? && k in s.environments
    ensures TrackedEntry(s.entries + [Entry(s.ops[id].key, 1, now, false)],
              s.ops[id := s.ops[id].(phase := Using(|s.entries|))], s.environments[k])
  {
    RegisteredEntry(s, k);
    hide UsersOf, Tracked, Keyed;
    var env := s.environments[k];
    UsersUpdate(s.ops, id, s.ops[id].(phase := Using(|s.entries|)), env);
    assert UsersOf(s.ops, env) - {id} == UsersOf(s.ops, env);
  }

  lemma NoUsersYet(s: State, env: EnvId)
    requires Placed(s.environments, s.entries, s.ops) && env >= |s.entries|
    ensures UsersOf(s.ops, env) == {}
  {
    forall id | id in s.ops ensures s.ops[id].phase != Using(env) {
      assert PlacedOp(s.environments, s.entries, s.ops[id]);
    }
  }

  lemma RegisterPlaces(s: State, id: OpId, now: int)
    requires DistinctKeys(s.ops) && Placed(s.environments, s.entries, s.ops) && id in s.ops && s.ops[id].phase.Starting?
    ensures var key, env := s.ops[id].key, |s.entries|;
            Placed(s.environments[key := env], s.entries + [Entry(key, 1, now, false)],
              s.ops[id := s.ops[id].(phase := Using(env))])
  {
  }

  lemma StartSucceededKeepsInv(s: State, id: OpId, now: int, limit: nat)
    requires Inv(s, limit) && Enabled(s, StartSucceeded(id, now))
    ensures Inv(Step(s, StartSucceeded(id, now), limit), limit)
  {
    hide Reservations, StartingOps, WakingOps, ActiveKeys, DistinctKeys, Waiters, Placed, Tracked, Keyed, WakeAll, Inv;
    Unfold(s, limit);
    Reserved(s, id, limit);
    var key, env := s.ops[id].key, |s.entries|;
    var op := s.ops[id].(phase := Using(env));
    var s0 := s.(pendingStarts := s.pendingStarts - {id}, starting := s.starting - 1);
    var s1 := s0.(environments := s.environments[key := env], entries := s.entries + [Entry(key, 1, now, false)]);
    RegisterKeeps(s, id, now);
    PhaseUpdate(s.environments, s.entries, s.capacityWaiters, s.ops, id, op);
    ReservationCount(s.ops, id, op);
    OpUpdate(s.ops, id, op);
    WakeAllInv(WithOp(s1, id, Using(env)), limit);
    WakeCommutes(s1, id, Using(env));
    WakeIndependent(s0, s1);
  }

  lemma WakeIndependent(a: State, b: State)
    requires a.ops == b.ops
    ensures WakeAll(a) == a.(capacityWaiters := [], ops := WakeAll(b).ops)
    ensures WakeAll(b) == b.(capacityWaiters := [], ops := WakeAll(b).ops)
  {
  }

  /** An operation ends whose environment is not registered any more. */
  lemma EndKeepsInv(s: State, id: OpId, limit: nat)
    requires Inv(s, limit) && id in s.ops && OnEnvironment(s.ops[id].phase) && !s.ops[id].phase.Discarding?
    requires s.ops[id].key !in s.environments
    ensures Inv(WithOp(s, id, Ended), limit)
  {
    hide Reservations, StartingOps, WakingOps, ActiveKeys, DistinctKeys, Waiters, Placed, Tracked, Keyed;
    var op := s.ops[id].(phase := Ended);
    PhaseUpdate(s.environments, s.entries, s.capacityWaiters, s.ops, id, op);
    UnregisteredUse(s, id, op);
    SameSets(s.ops, id, op);
  }

  lemma UnregisteredUse(s: State, id: OpId, op: Op)
    requires Keyed(s.environments, s.entries) && Placed(s.environments, s.entries, s.ops)
    requires Tracked(s.environments, s.entries, s.ops)
    requires id in s.ops && OnEnvironment(s.ops[id].phase) && s.ops[id].key !in s.environments && !op.phase.Using?
    ensures Tracked(s.environments, s.entries, s.ops[id := op])
  {
    hide UsersOf;
    assert PlacedOp(s.environments, s.entries, s.ops[id]);
    forall k | k in s.environments ensures TrackedEntry(s.entries, s.ops[id := op], s.environments[k]) {
      RegisteredEntry(s, k);
      UsersUpdate(s.ops, id, op, s.environments[k]);
      assert UsersOf(s.ops, s.environments[k]) - {id} == UsersOf(s.ops, s.environments[k]);
    }
  }

  lemma UserPlace(s: State, id: OpId)
    requires Placed(s.environments, s.entries, s.ops) && id in s.ops && OnEnvironment(s.ops[id].phase)
    ensures s.ops[id].phase.env < |s.entries| && s.entries[s.ops[id].phase.env].key == s.ops[id].key
    ensures s.ops[id].key in s.environments ==>
      s.ops[id].phase.Using? && s.environments[s.ops[id].key] == s.ops[id].phase.env
  {
  }

  /** With distinct keys an environment in use is used by one operation. */
  lemma SoleUser(s: State, id: OpId, env: EnvId)
    requires DistinctKeys(s.ops) && Placed(s.environments, s.entries, s.ops) && id in s.ops
    requires s.ops[id].phase == Using(env)
    ensures UsersOf(s.ops, env) == {id} && |UsersOf(s.ops, env)| == 1
  {
  }

  lemma ReleaseKeepsInv(s: State, id: OpId, now: int, limit: nat)
    requires Inv(s, limit) && id in s.ops && s.ops[id].phase.Using? && s.ops[id].key in s.environments
    ensures s.ops[id].phase.env < |s.entries| && Inv(Release(s, id, s.ops[id].phase.env, now), limit)
  {
    hide Reservations, StartingOps, WakingOps, ActiveKeys, UsersOf, DistinctKeys, Waiters, Placed, Tracked, Keyed,
      WakeAll, Inv;
    Unfold(s, limit);
    UserPlace(s, id);
    var key, env := s.ops[id].key, s.ops[id].phase.env;
    SoleUser(s, id, env);
    RegisteredEntry(s, key);
    var op, entry := s.ops[id].(phase := Ended), s.entries[env].(active := 0, lastUsedAt := now, timerArmed := true);
    var s1 := s.(entries := s.entries[env := entry]);
    assert (key, env) in s.environments.Items;
    UseUpdate(s, id, op, env, entry);
    EntryUpdateKeeps(s.environments, s.entries, s.ops, env, entry);
    PhaseUpdate(s.environments, s.entries[env := entry], s.capacityWaiters, s.ops, id, op);
    ReservationCount(s.ops, id, op);
    OpUpdate(s.ops, id, op);
    OpMembers(s.ops, id);
    WakeAllInv(WithOp(s1, id, Ended), limit);
    WakeCommutes(s1, id, Ended);
  }

  lemma DiscardKeepsInv(s: State, id: OpId, limit: nat)
    requires Inv(s, limit) && id in s.ops && s.ops[id].phase.Using? && s.ops[id].key in s.environments
    ensures var env := s.ops[id].phase.env;
            env < |s.entries| && Inv(WithOp(WithoutTimer(Unregister(s, s.ops[id].key), env), id, Discarding(env)),
              limit)
  {
    hide Reservations, StartingOps, WakingOps, ActiveKeys, UsersOf, DistinctKeys, Waiters, Placed, Tracked, Keyed;
    UserPlace(s, id);
    DiscardKeepsPlaces(s, id);
    var key, env := s.ops[id].key, s.ops[id].phase.env;
    var op, entry := s.ops[id].(phase := Discarding(env)), s.entries[env].(timerArmed := false);
    UnregisterKeeps(s.environments, s.entries, s.ops, key);
    PhaseUpdate(s.environments - {key}, s.entries[env := entry], s.capacityWaiters, s.ops, id, op);
    ReservationCount(s.ops, id, op);
    OpUpdate(s.ops, id, op);
    OpMembers(s.ops, id);
  }

  lemma DiscardKeepsPlaces(s: State, id: OpId)
    requires Keyed(s.environments, s.entries) && Placed(s.environments, s.entries, s.ops)
    requires Tracked(s.environments, s.entries, s.ops) && DistinctKeys(s.ops)
    requires id in s.ops && s.ops[id].phase.Using? && s.ops[id].key in s.environments
    requires s.ops[id].phase.env < |s.entries|
    ensures var key, env := s.ops[id].key, s.ops[id].phase.env;
            var environments, entries := s.environments - {key}, s.entries[env := s.entries[env].(timerArmed := false)];
            var ops := s.ops[id := s.ops[id].(phase := Discarding(env))];
            Keyed(environments, entries) && Placed(environments, entries, ops) && Tracked(environments, entries, ops)
  {
    hide ActiveKeys, UsersOf, DistinctKeys, Waiters, Placed, Tracked, Keyed;
    UserPlace(s, id);
    var key, env := s.ops[id].key, s.ops[id].phase.env;
    var op, entry := s.ops[id].(phase := Discarding(env)), s.entries[env].(timerArmed := false);
    var environments, entries := s.environments - {key}, s.entries[env := entry];
    UnregisterKeeps(s.environments, s.entries, s.ops, key);
    EntryUpdateKeeps(environments, s.entries, s.ops, env, entry);
    UnregisteredUse(s.(environments := environments, entries := entries), id, op);
    PhaseUpdate(environments, entries, s.capacityWaiters, s.ops, id, op);
  }

  lemma ExecutedKeepsInv(s: State, e: Event, limit: nat)
    requires Inv(s, limit) && e.Executed? && Enabled(s, e)
    ensures Inv(Step(s, e, limit), limit)
  {
    hide DistinctKeys, Capacity, Waiters, Keyed, Placed, Tracked, NoLostWakeup, WakeAll;
    UserPlace(s, e.id);
    if s.ops[e.id].key !in s.environments {
      EndKeepsInv(s, e.id, limit);
    } else if e.guestFailed {
      DiscardKeepsInv(s, e.id, limit);
    } else {
      ReleaseKeepsInv(s, e.id, e.now, limit);
    }
  }

  lemma ReleasedKeepsInv(s: State, id: OpId, now: int, limit: nat)
    requires Inv(s, limit) && Enabled(s, Released(id, now))
    ensures Inv(Step(s, Released(id, now), limit), limit)
  {
    hide DistinctKeys, Capacity, Waiters, Keyed, Placed, Tracked, NoLostWakeup, WakeAll;
    UserPlace(s, id);
    EndKeepsInv(s, id, limit);
  }

  lemma DiscardClosedKeepsInv(s: State, id: OpId, limit: nat)
    requires Inv(s, limit) && Enabled(s, DiscardClosed(id))
    ensures Inv(Step(s, DiscardClosed(id), limit), limit)
  {
    var p := Releasing(s.ops[id].phase.env);
    ReleasingKeeps(s, id, limit);
    WakeAllInv(WithOp(s, id, p), limit);
    WakeCommutes(s, id, p);
    hide AlmostInv, WakeAll, Inv;
  }

  lemma ReleasingKeeps(s: State, id: OpId, limit: nat)
    requires Inv(s, limit) && id in s.ops && s.ops[id].phase.Discarding?
    ensures AlmostInv(WithOp(s, id, Releasing(s.ops[id].phase.env)), limit)
  {
    hide Reservations, StartingOps, WakingOps, ActiveKeys, UsersOf, DistinctKeys, Waiters, Placed, Tracked, Keyed, Inv;
    Unfold(s, limit);
    var op := s.ops[id].(phase := Releasing(s.ops[id].phase.env));
    UserPlace(s, id);
    PhaseUpdate(s.environments, s.entries, s.capacityWaiters, s.ops, id, op);
    ReservationCount(s.ops, id, op);
    OpUpdate(s.ops, id, op);
    OpMembers(s.ops, id);
  }

  lemma {:induction false} RemoveWaiterMembers(s: seq<OpId>, x: OpId)
    requires forall i, j :: 0 <= i < j < |s| ==> s[i] != s[j]
    ensures forall y :: y in RemoveWaiter(s, x) <==> y in s && y != x
    ensures forall i, j :: 0 <= i < j < |RemoveWaiter(s, x)| ==> RemoveWaiter(s, x)[i] != RemoveWaiter(s, x)[j]
  {
    if s != [] {
      assert s == [s[0]] + s[1..] && s[0] !in s[1..];
      RemoveWaiterMembers(s[1..], x);
    }
  }

  lemma WaiterRemoved(waiters: seq<OpId>, ops: map<OpId, Op>, id: OpId, op: Op)
    requires Waiters(waiters, ops) && id in ops && !op.phase.AwaitingCapacity?
    ensures Waiters(RemoveWaiter(waiters, id), ops[id := op])
    ensures RemoveWaiter(waiters, id) != [] ==> waiters != []
  {
    RemoveWaiterMembers(waiters, id);
  }

  lemma WaiterFlagged(waiters: seq<OpId>, ops: map<OpId, Op>, id: OpId, op: Op)
    requires Waiters(waiters, ops) && id in ops && op.phase == ops[id].phase
    ensures Waiters(waiters, ops[id := op])
  {
  }

  lemma FlagKeepsUsers(s: State, id: OpId, op: Op)
    requires id in s.ops && op.phase == s.ops[id].phase && Tracked(s.environments, s.entries, s.ops)
    ensures Tracked(s.environments, s.entries, s.ops[id := op])
  {
    hide UsersOf;
    forall env ensures UsersOf(s.ops[id := op], env) == UsersOf(s.ops, env) { UsersUpdate(s.ops, id, op, env); }
  }

  lemma FlagKeepsPlace(s: State, id: OpId, op: Op)
    requires id in s.ops && op.phase == s.ops[id].phase && op.key == s.ops[id].key
    requires Placed(s.environments, s.entries, s.ops)
    ensures Placed(s.environments, s.entries, s.ops[id := op])
  {
  }

  lemma AbortedWaitingKeepsInv(s: State, id: OpId, limit: nat)
    requires Inv(s, limit) && id in s.ops && s.ops[id].phase.AwaitingCapacity?
    ensures Inv(s.(ops := s.ops[id := Op(s.ops[id].key, true, Ended)],
      capacityWaiters := RemoveWaiter(s.capacityWaiters, id)), limit)
  {
    hide Reservations, StartingOps, WakingOps, ActiveKeys, UsersOf, DistinctKeys, Waiters, Placed, Tracked, Keyed,
      RemoveWaiter;
    var op := Op(s.ops[id].key, true, Ended);
    PhaseUpdate(s.environments, s.entries, s.capacityWaiters, s.ops, id, op);
    SameSets(s.ops, id, op);
    WaiterRemoved(s.capacityWaiters, s.ops, id, op);
  }

  lemma AbortedBusyKeepsInv(s: State, id: OpId, limit: nat)
    requires Inv(s, limit) && id in s.ops
    ensures Inv(s.(ops := s.ops[id := s.ops[id].(aborted := true)]), limit)
  {
    hide Reservations, StartingOps, WakingOps, ActiveKeys, UsersOf, DistinctKeys, Waiters, Placed, Tracked, Keyed,
      RemoveWaiter;
    var op := s.ops[id].(aborted := true);
    PhaseUpdate(s.environments, s.entries, s.capacityWaiters, s.ops, id, op);
    SameSets(s.ops, id, op);
    WaiterFlagged(s.capacityWaiters, s.ops, id, op);
    FlagKeepsUsers(s, id, op);
    FlagKeepsPlace(s, id, op);
  }

  lemma AbortedKeepsInv(s: State, id: OpId, limit: nat)
    requires Inv(s, limit) && Enabled(s, Aborted(id))
    ensures Inv(Step(s, Aborted(id), limit), limit)
  {
    hide Inv, RemoveWaiter;
    if s.ops[id].phase.AwaitingCapacity? {
      AbortedWaitingKeepsInv(s, id, limit);
      assert s.ops[id := s.ops[id].(aborted := true)][id := Op(s.ops[id].key, true, Ended)] ==
        s.ops[id := Op(s.ops[id].key, true, Ended)];
    } else {
      AbortedBusyKeepsInv(s, id, limit);
    }
  }

  lemma LeftKeepsInv(s: State, id: OpId, limit: nat)
    requires Inv(s, limit) && Enabled(s, Left(id))
    ensures Inv(Step(s, Left(id), limit), limit)
  {
    hide Reservations, StartingOps, WakingOps, ActiveKeys, Waiters, Placed, Tracked, Keyed;
    OpRemoved(s, id);
    LeftKeepsPlaces(s, id);
  }

  lemma OpRemoved(s: State, id: OpId)
    requires id in s.ops && s.ops[id].phase.Ended?
    ensures Reservations(s.ops - {id}) == Reservations(s.ops) && StartingOps(s.ops - {id}) == StartingOps(s.ops)
    ensures WakingOps(s.ops - {id}) == WakingOps(s.ops)
    ensures forall env :: UsersOf(s.ops - {id}, env) == UsersOf(s.ops, env)
  {
  }

  lemma LeftKeepsPlaces(s: State, id: OpId)
    requires id in s.ops && s.ops[id].phase.Ended?
    ensures Waiters(s.capacityWaiters, s.ops) ==> Waiters(s.capacityWaiters, s.ops - {id})
    ensures Placed(s.environments, s.entries, s.ops) ==> Placed(s.environments, s.entries, s.ops - {id})
    ensures Tracked(s.environments, s.entries, s.ops) ==> Tracked(s.environments, s.entries, s.ops - {id})
  {
    hide UsersOf;
    OpRemoved(s, id);
  }

  /** Closing one registered environment while a closer is at work. */
  lemma CloseKeepsInv(s: State, key: Key, limit: nat)
    requires Inv(s, limit) && key in s.environments && s.environments[key] < |s.entries|
    ensures forall closers :: closers > 0 ==>
      Inv(WithoutTimer(Unregister(s.(closers := closers), key), s.environments[key]), limit)
  {
    hide Reservations, StartingOps, WakingOps, ActiveKeys, DistinctKeys, Waiters, Placed, Tracked, Keyed;
    var env := s.environments[key];
    RegisteredEntry(s, key);
    UnregisterKeeps(s.environments, s.entries, s.ops, key);
    EntryUpdateKeeps(s.environments - {key}, s.entries, s.ops, env, s.entries[env].(timerArmed := false));
  }

  lemma ExpiredKeepsInv(s: State, env: EnvId, limit: nat)
    requires Inv(s, limit) && Enabled(s, Expired(env))
    ensures Inv(Step(s, Expired(env), limit), limit)
  {
    hide Reservations, StartingOps, WakingOps, ActiveKeys, UsersOf, DistinctKeys, Waiters, Placed, Tracked, Keyed;
    var key := s.entries[env].key;
    if key in s.environments && s.environments[key] == env {
      RegisteredEntry(s, key);
      CloseKeepsInv(s, key, limit);
      assert Expire(s, env) == WithoutTimer(Unregister(s.(closers := s.closers + 1), key), env);
    } else {
      StaleExpiryKeepsInv(s, env, limit);
    }
  }

  /** The timer of an environment that is not registered any more. */
  lemma StaleExpiryKeepsInv(s: State, env: EnvId, limit: nat)
    requires Inv(s, limit) && env < |s.entries|
    requires s.entries[env].key !in s.environments || s.environments[s.entries[env].key] != env
    ensures Inv(WithoutTimer(s, env), limit)
  {
    EntryUpdateKeeps(s.environments, s.entries, s.ops, env, s.entries[env].(timerArmed := false));
    ActiveSame(s.environments, s.entries, env, s.entries[env].(timerArmed := false));
    hide Reservations, StartingOps, WakingOps, ActiveKeys, UsersOf, DistinctKeys, Waiters, Placed, Tracked, Keyed;
  }

  lemma EntryClosedKeepsInv(s: State, key: Key, limit: nat)
    requires Inv(s, limit) && Enabled(s, EntryClosed(key))
    ensures Inv(Step(s, EntryClosed(key), limit), limit)
  {
    hide Inv;
    CloseKeepsInv(s, key, limit);
    assert s.(closers := s.closers) == s;
  }

  lemma CloserDoneKeepsInv(s: State, limit: nat)
    requires Inv(s, limit) && Enabled(s, CloserDone)
    ensures Inv(Step(s, CloserDone, limit), limit)
  {
    hide DistinctKeys, Placed, Tracked, Keyed, Waiters, WakeAll, Reservations, StartingOps;
    WakeAllInv(s.(closers := s.closers - 1), limit);
  }

  lemma CloseBeganKeepsInv(s: State, limit: nat)
    requires Inv(s, limit)
    ensures Inv(Step(s, CloseBegan, limit), limit)
  {
  }

  /** Every step keeps the invariant, provided a new operation's key is not in progress already. */
  lemma StepKeepsInv(s: State, e: Event, limit: nat)
    requires Inv(s, limit) && limit > 0 && Enabled(s, e)
    requires e.Began? ==> forall i :: i in s.ops ==> s.ops[i].key != e.key
    ensures Inv(Step(s, e, limit), limit)
  {
    hide Inv, Enabled, Step;
    match e
    case Began(id, key, aborted, victim, now) => BeganKeepsInv(s, e, limit);
    case CapacityResumed(id, victim) => CapacityResumedKeepsInv(s, id, victim, limit);
    case EvictionClosed(id) => EvictionClosedKeepsInv(s, id, limit);
    case StartSucceeded(id, now) => StartSucceededKeepsInv(s, id, now, limit);
    case StartFailed(id) => StartFailedKeepsInv(s, id, limit);
    case Executed(id, guestFailed, now) => ExecutedKeepsInv(s, e, limit);
    case DiscardClosed(id) => DiscardClosedKeepsInv(s, id, limit);
    case Released(id, now) => ReleasedKeepsInv(s, id, now, limit);
    case Aborted(id) => AbortedKeepsInv(s, id, limit);
    case Left(id) => LeftKeepsInv(s, id, limit);
    case Expired(env) => ExpiredKeepsInv(s, env, limit);
    case CloseBegan => CloseBeganKeepsInv(s, limit);
    case EntryClosed(key) => EntryClosedKeepsInv(s, key, limit);
    case CloserDone => CloserDoneKeepsInv(s, limit);
  }

  // ---------- the class ----------

  /** The manager's fields, with the operations in flight; one method for each piece between awaits. */
  class Manager {
    var environments: map<Key, EnvId>
    var entries: seq<Entry>
    var capacityWaiters: seq<OpId>
    var pendingStarts: set<OpId>
    var starting: nat
    var closers: nat
    var ops: map<OpId, Op>

    function Current(): State
      reads this
    {
      State(environments, entries, capacityWaiters, pendingStarts, starting, closers, ops)
    }

    constructor ()
      ensures Current() == INITIAL
    {
      environments, entries, capacityWaiters, pendingStarts, starting, closers, ops := map[], [], [], {}, 0, 0, map[];
    }

    /** The least recently used idle environment. */
    method FindIdle() returns (found: bool, victim: EnvId)
      requires Keyed(environments, entries)
      ensures found == HasIdle(Current()) && (found ==> OldestIdle(Current(), victim))
    {
      found, victim := false, 0;
      var rest := environments.Keys;
      while rest != {}
        invariant rest <= environments.Keys
        invariant found ==> victim < |entries| && entries[victim].key in environments
        invariant found ==> environments[entries[victim].key] == victim && entries[victim].active == 0
        invariant forall k :: k in environments && k !in rest && Idle(Current(), k) ==>
          found && NoNewer(Current(), victim, environments[k])
        decreases rest
      {
        var key :| key in rest;
        rest := rest - {key};
        var item := environments[key];
        if entries[item].active == 0 {
          if !found || entries[item].lastUsedAt < entries[victim].lastUsedAt
             || (entries[item].lastUsedAt == entries[victim].lastUsedAt && item < victim) {
            found, victim := true, item;
          }
        }
      }
      if found { assert Idle(Current(), entries[victim].key); }
    }

    /** One turn of the capacity loop, up to the next await. */
    method ReserveCapacity(id: OpId, limit: real) returns (ghost victim: EnvId)
      requires id in ops && Keyed(environments, entries)
      modifies this
      ensures HasIdle(old(Current())) ==> OldestIdle(old(Current()), victim)
      ensures Current() == Reserve(old(Current()), id, victim, VmScheduler.NormalizedLimit(limit))
    {
      hide HasIdle, OldestIdle, Keyed, Reserve;
      var normalizedLimit := VmScheduler.NormalizedLimit(limit);
      var found, idle := FindIdle();
      victim := idle;
      ReserveCases(Current(), id, victim, normalizedLimit);
      if |environments| + starting >= normalizedLimit {
        if found {
          environments := environments - {entries[idle].key};
          starting := starting + 1;
          entries := entries[idle := entries[idle].(timerArmed := false)];
          ops := ops[id := ops[id].(phase := Evicting(idle))];
        } else if ops[id].aborted {
          ops := ops[id := ops[id].(phase := Ended)];
        } else {
          capacityWaiters := capacityWaiters + [id];
          ops := ops[id := ops[id].(phase := AwaitingCapacity)];
        }
      } else {
        starting := starting + 1;
        pendingStarts := pendingStarts + {id};
        ops := ops[id := ops[id].(phase := Starting)];
      }
    }

    /** `execute`, with `acquire` up to its first await. */
    method Execute(id: OpId, key: Key, aborted: bool, limit: real, now: int) returns (ghost e: Event)
      requires id !in ops && Keyed(environments, entries)
      modifies this
      ensures e.Began? && e.id == id && e.key == key && e.aborted == aborted && Enabled(old(Current()), e)
      ensures Current() == Step(old(Current()), e, VmScheduler.NormalizedLimit(limit))
    {
      hide HasIdle, OldestIdle, Reserve;
      var found, idle := FindIdle();
      e := Began(id, key, aborted, idle, now);
      ops := ops[id := Op(key, aborted, Ended)];
      if aborted {
        assert ops == ops[id := ops[id].(phase := Ended)];
      } else if key in environments {
        var env := environments[key];
        var active := entries[env].active + 1;
        entries := entries[env := entries[env].(active := active, lastUsedAt := now, timerArmed := false)];
        ops := ops[id := ops[id].(phase := Using(env))];
      } else {
        IdleSame(old(Current()), Current(), idle);
        ghost var victim := ReserveCapacity(id, limit);
        IdleSame(old(Current()), old(Current()).(ops := old(ops)[id := Op(key, aborted, Ended)]), victim);
        e := Began(id, key, aborted, victim, now);
      }
    }

    method ResumeAfterCapacity(id: OpId, limit: real) returns (ghost e: Event)
      requires id in ops && ops[id].phase.CapacityWoken? && Keyed(environments, entries)
      modifies this
      ensures e.CapacityResumed? && e.id == id && Enabled(old(Current()), e)
      ensures Current() == Step(old(Current()), e, VmScheduler.NormalizedLimit(limit))
    {
      ghost var victim := ReserveCapacity(id, limit);
      e := CapacityResumed(id, victim);
    }

    method StartAfterEviction(id: OpId)
      requires Enabled(Current(), EvictionClosed(id))
      modifies this
      ensures Current() == Step(old(Current()), EvictionClosed(id), 0)
    {
      pendingStarts := pendingStarts + {id};
      ops := ops[id := ops[id].(phase := Starting)];
    }

    /** Wakes the waiters one by one. */
    method ReleaseCapacityWaiters()
      requires Waiters(capacityWaiters, ops)
      modifies this`capacityWaiters, this`ops
      ensures Current() == WakeAll(old(Current()))
    {
      while |capacityWaiters| > 0
        invariant Waiters(capacityWaiters, ops) && ops.Keys == old(ops).Keys
        invariant forall id :: id in ops ==>
          (ops[id] == old(ops)[id]
            || (old(ops)[id].phase.AwaitingCapacity? && ops[id] == old(ops)[id].(phase := CapacityWoken)))
        decreases |capacityWaiters|
      {
        var waiter := capacityWaiters[0];
        assert waiter in capacityWaiters;
        capacityWaiters := capacityWaiters[1..];
        ops := ops[waiter := ops[waiter].(phase := CapacityWoken)];
      }
      assert ops == WakeAll(old(Current())).ops;
    }

    /** The settled start, successful or not. */
    method SettleStart(id: OpId, started: bool, now: int)
      requires id in ops && ops[id].phase.Starting? && Waiters(capacityWaiters, ops)
      modifies this
      ensures Current() == Step(old(Current()), if started then StartSucceeded(id, now) else StartFailed(id), 0)
    {
      hide WakeAll, Waiters;
      pendingStarts := pendingStarts - {id};
      starting := if starting == 0 then 0 else starting - 1;
      WakeFields(Current(), id);
      ReleaseCapacityWaiters();
      if started {
        var key := ops[id].key;
        environments := environments[key := |entries|];
        ops := ops[id := ops[id].(phase := Using(|entries|))];
        entries := entries + [Entry(key, 1, now, false)];
      } else {
        ops := ops[id := ops[id].(phase := Ended)];
      }
    }

    method ReleaseEntry(id: OpId, env: EnvId, now: int)
      requires id in ops && !ops[id].phase.AwaitingCapacity? && env < |entries| && Waiters(capacityWaiters, ops)
      modifies this
      ensures Current() == Release(old(Current()), id, env, now)
    {
      hide WakeAll, Waiters;
      if entries[env].key in environments {
        var active := if entries[env].active == 0 then 0 else entries[env].active - 1;
        entries := entries[env := entries[env].(active := active, lastUsedAt := now, timerArmed := active == 0)];
        if active == 0 {
          WakeFields(Current(), id);
          ReleaseCapacityWaiters();
        }
      }
      ops := ops[id := ops[id].(phase := Ended)];
    }

    /** After the guest has answered or failed. */
    method FinishExecute(id: OpId, guestFailed: bool, now: int)
      requires Enabled(Current(), Executed(id, guestFailed, now)) && Waiters(capacityWaiters, ops)
      modifies this
      ensures Current() == Step(old(Current()), Executed(id, guestFailed, now), 0)
    {
      hide Release, Waiters;
      var env := ops[id].phase.env;
      var key := entries[env].key;
      if guestFailed && key in environments && environments[key] == env {
        environments := environments - {key};
        entries := entries[env := entries[env].(timerArmed := false)];
        ops := ops[id := ops[id].(phase := Discarding(env))];
      } else {
        ReleaseEntry(id, env, now);
      }
    }

    method FinishDiscard(id: OpId)
      requires Enabled(Current(), DiscardClosed(id)) && Waiters(capacityWaiters, ops)
      modifies this
      ensures Current() == Step(old(Current()), DiscardClosed(id), 0)
    {
      hide WakeAll, Waiters;
      WakeFields(Current(), id);
      ReleaseCapacityWaiters();
      ops := ops[id := ops[id].(phase := Releasing(ops[id].phase.env))];
    }

    method Abort(id: OpId)
      requires id in ops
      modifies this
      ensures Current() == Step(old(Current()), Aborted(id), 0)
    {
      var waiting := ops[id].phase.AwaitingCapacity?;
      ops := ops[id := ops[id].(aborted := true)];
      if waiting {
        capacityWaiters := RemoveWaiter(capacityWaiters, id);
        ops := ops[id := ops[id].(phase := Ended)];
      }
    }

    /** The idle timer fires. */
    method ExpireEntry(env: EnvId)
      requires Enabled(Current(), Expired(env))
      modifies this
      ensures Current() == Step(old(Current()), Expired(env), 0)
    {
      var key := entries[env].key;
      entries := entries[env := entries[env].(timerArmed := false)];
      if entries[env].active != 0 || key !in environments || environments[key] != env { return; }
      environments := environments - {key};
      closers := closers + 1;
    }

    /** An expiry, a workspace closing or `closeAll` has closed its environments. */
    method FinishClosing()
      requires Enabled(Current(), CloserDone) && Waiters(capacityWaiters, ops)
      modifies this
      ensures Current() == Step(old(Current()), CloserDone, 0)
    {
      closers := closers - 1;
      ReleaseCapacityWaiters();
    }
  }

  /** Waking changes the waiter list and the waiting operations only. */
  lemma WakeFields(s: State, id: OpId)
    requires id in s.ops && !s.ops[id].phase.AwaitingCapacity?
    ensures WakeAll(s) == s.(capacityWaiters := [], ops := WakeAll(s).ops)
    ensures id in WakeAll(s).ops && WakeAll(s).ops[id] == s.ops[id]
  {
  }
}
