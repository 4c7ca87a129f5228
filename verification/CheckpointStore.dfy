/** The checkpoint journal, its compaction and garbage collection (src/main/checkpoints/checkpoint-store.ts). */
module CheckpointStore {
  import opened Options
  import opened CheckpointTypes
  import opened CheckpointObjectStore

  const MAX_CHECKPOINTS: nat := 100
  const MAX_CHECKPOINT_AGE_MS: nat := 30 * 24 * 60 * 60 * 1_000
  const MAX_OBJECT_BYTES: nat := 512 * 1024 * 1024

  /** An identifier of a task, session or turn. */
  datatype Name = Name(text: string)

  datatype RecordType = Turn | Recovery
  datatype RecordState = Active | Ready | Undone | Conflict | Failed | InRecovery

  /** A checkpoint record; `createdAt` is the instant its ISO time stamp denotes. */
  datatype Record = Record(
    id: nat, kind: RecordType, taskId: Name, sessionId: Option<Name>, turnId: Name,
    createdAt: int, state: RecordState, mutations: seq<Mutation>, source: Option<nat>)

  /** A journal line: a record, or the unreadable rest of an interrupted write. */
  datatype Line = Whole(record: Record) | Torn

  // ---------- reading the journal ----------

  ghost predicate NewId(rs: seq<Record>, id: nat) { forall x :: x in rs ==> x.id != id }

  ghost predicate UniqueIds(rs: seq<Record>) {
    rs == [] || (NewId(rs[1..], rs[0].id) && UniqueIds(rs[1..]))
  }

  lemma {:induction false} UniqueConcat(a: seq<Record>, b: seq<Record>)
    ensures UniqueIds(a + b) <==> UniqueIds(a) && UniqueIds(b) && forall x :: x in a ==> NewId(b, x.id)
  {
    if a == [] {
      assert a + b == b;
    } else {
      assert (a + b)[1..] == a[1..] + b;
      assert a == [a[0]] + a[1..];
      UniqueConcat(a[1..], b);
    }
  }

  lemma UniqueAppend(a: seq<Record>, r: Record)
    requires UniqueIds(a) && NewId(a, r.id)
    ensures UniqueIds(a + [r])
  {
    assert UniqueIds([r]);
    UniqueConcat(a, [r]);
  }

  /** Records of the same id are the same record. */
  lemma {:induction false} UniqueIdsApart(rs: seq<Record>, x: Record, y: Record)
    requires UniqueIds(rs) && x in rs && y in rs && x.id == y.id
    ensures x == y
  {
    if x != rs[0] && y != rs[0] { UniqueIdsApart(rs[1..], x, y); }
  }

  /** Setting a key of an insertion-ordered map. */
  function Upsert(rs: seq<Record>, r: Record): seq<Record> {
    if rs == [] then [r]
    else if rs[0].id == r.id then [r] + rs[1..]
    else [rs[0]] + Upsert(rs[1..], r)
  }

  function Latest(journal: seq<Line>): seq<Record> {
    if journal == [] then []
    else
      var init := Latest(journal[..|journal| - 1]);
      match journal[|journal| - 1]
      case Whole(r) => Upsert(init, r)
      case Torn => init
  }

  /** The last line of an id, searched from the end of the journal. */
  function LastLine(journal: seq<Line>, id: nat): Option<Record> {
    if journal == [] then None
    else
      match journal[|journal| - 1]
      case Whole(r) => if r.id == id then Some(r) else LastLine(journal[..|journal| - 1], id)
      case Torn => LastLine(journal[..|journal| - 1], id)
  }

  lemma {:induction false} UpsertMembers(rs: seq<Record>, r: Record)
    requires UniqueIds(rs)
    ensures UniqueIds(Upsert(rs, r))
    ensures forall x :: x in Upsert(rs, r) <==> x == r || (x in rs && x.id != r.id)
  {
    if rs != [] {
      UpsertMembers(rs[1..], r);
      assert rs == [rs[0]] + rs[1..];
    }
  }

  /** The last record per id wins. */
  lemma {:induction false} LatestIsLastLine(journal: seq<Line>)
    ensures UniqueIds(Latest(journal))
    ensures forall r :: r in Latest(journal) <==> LastLine(journal, r.id) == Some(r)
  {
    if journal != [] {
      LatestIsLastLine(journal[..|journal| - 1]);
      match journal[|journal| - 1]
      case Whole(r) => UpsertMembers(Latest(journal[..|journal| - 1]), r);
      case Torn =>
    }
  }

  function IdsOf(rs: seq<Record>): seq<nat> { seq(|rs|, i requires 0 <= i < |rs| => rs[i].id) }

  /** The identifiers of a journal in the order of their first lines. */
  function FirstIds(journal: seq<Line>): seq<nat> {
    if journal == [] then []
    else
      var init := FirstIds(journal[..|journal| - 1]);
      match journal[|journal| - 1]
      case Whole(r) => if r.id in init then init else init + [r.id]
      case Torn => init
  }

  lemma {:induction false} UpsertKeepsPlaces(rs: seq<Record>, r: Record)
    ensures IdsOf(Upsert(rs, r)) == if r.id in IdsOf(rs) then IdsOf(rs) else IdsOf(rs) + [r.id]
  {
    if rs == [] {
      assert IdsOf([r]) == [r.id];
    } else if rs[0].id == r.id {
      assert IdsOf(rs)[0] == r.id;
      assert IdsOf([r] + rs[1..]) == IdsOf(rs);
    } else {
      UpsertKeepsPlaces(rs[1..], r);
      ConsIds(rs[0], rs[1..]);
      ConsIds(rs[0], Upsert(rs[1..], r));
      assert rs == [rs[0]] + rs[1..];
    }
  }

  lemma ConsIds(r: Record, rs: seq<Record>)
    ensures IdsOf([r] + rs) == [r.id] + IdsOf(rs)
  {
  }

  /** A record stands where the first line of its identifier put it, whatever came since. */
  lemma {:induction false} LatestOrder(journal: seq<Line>)
    ensures IdsOf(Latest(journal)) == FirstIds(journal)
  {
    hide IdsOf, Upsert;
    if journal == [] {
      NoIds();
    } else {
      var n := |journal| - 1;
      LatestOrder(journal[..n]);
      match journal[n]
      case Whole(r) => UpsertKeepsPlaces(Latest(journal[..n]), r);
      case Torn =>
    }
  }

  lemma NoIds()
    ensures IdsOf([]) == []
  {
  }

  lemma {:induction false} UpsertNew(rs: seq<Record>, r: Record)
    requires NewId(rs, r.id)
    ensures Upsert(rs, r) == rs + [r]
  {
    if rs != [] { UpsertNew(rs[1..], r); }
  }

  // ---------- the stable sort by creation time ----------

  function Rank(r: Record, newestFirst: bool): int {
    if newestFirst then -r.createdAt else r.createdAt
  }

  function Insert(r: Record, rs: seq<Record>, newestFirst: bool): seq<Record> {
    if rs == [] || Rank(r, newestFirst) <= Rank(rs[0], newestFirst) then [r] + rs
    else [rs[0]] + Insert(r, rs[1..], newestFirst)
  }

  /** The stable sort of `rs`: ties keep their order. */
  function Sort(rs: seq<Record>, newestFirst: bool): seq<Record> {
    if rs == [] then [] else Insert(rs[0], Sort(rs[1..], newestFirst), newestFirst)
  }

  ghost predicate Sorted(rs: seq<Record>, newestFirst: bool) {
    rs == [] || ((forall x :: x in rs[1..] ==> Rank(rs[0], newestFirst) <= Rank(x, newestFirst))
      && Sorted(rs[1..], newestFirst))
  }

  lemma {:induction false} InsertMembers(r: Record, rs: seq<Record>, newestFirst: bool)
    ensures |Insert(r, rs, newestFirst)| == |rs| + 1
    ensures forall x :: x in Insert(r, rs, newestFirst) <==> x == r || x in rs
  {
    if rs != [] {
      assert rs == [rs[0]] + rs[1..];
      InsertMembers(r, rs[1..], newestFirst);
    }
  }

  lemma {:induction false} InsertKeeps(r: Record, rs: seq<Record>, newestFirst: bool)
    ensures Sorted(rs, newestFirst) ==> Sorted(Insert(r, rs, newestFirst), newestFirst)
    ensures UniqueIds(rs) && NewId(rs, r.id) ==> UniqueIds(Insert(r, rs, newestFirst))
  {
    if rs != [] {
      assert rs == [rs[0]] + rs[1..];
      InsertKeeps(r, rs[1..], newestFirst);
      InsertMembers(r, rs[1..], newestFirst);
    }
  }

  /** Sorting rearranges. */
  lemma {:induction false} SortMembers(rs: seq<Record>, newestFirst: bool)
    ensures |Sort(rs, newestFirst)| == |rs|
    ensures forall x :: x in Sort(rs, newestFirst) <==> x in rs
    ensures Sorted(Sort(rs, newestFirst), newestFirst)
    ensures UniqueIds(rs) ==> UniqueIds(Sort(rs, newestFirst))
  {
    if rs != [] {
      assert rs == [rs[0]] + rs[1..];
      SortMembers(rs[1..], newestFirst);
      InsertMembers(rs[0], Sort(rs[1..], newestFirst), newestFirst);
      InsertKeeps(rs[0], Sort(rs[1..], newestFirst), newestFirst);
    }
  }

  /** Ties keep their order: the records of one instant come out as they went in. */
  lemma {:induction false} SortStable(rs: seq<Record>, newestFirst: bool, t: int)
    ensures OfInstant(Sort(rs, newestFirst), t) == OfInstant(rs, t)
  {
    if rs != [] {
      SortStable(rs[1..], newestFirst, t);
      InsertStable(rs[0], Sort(rs[1..], newestFirst), newestFirst, t);
    }
  }

  function OfInstant(rs: seq<Record>, t: int): seq<Record> {
    if rs == [] then [] else IfInstant(rs[0], t) + OfInstant(rs[1..], t)
  }

  function IfInstant(r: Record, t: int): seq<Record> { if r.createdAt == t then [r] else [] }

  lemma OfInstantCons(r: Record, rs: seq<Record>, t: int)
    ensures OfInstant([r] + rs, t) == IfInstant(r, t) + OfInstant(rs, t)
  {
    assert ([r] + rs)[1..] == rs;
  }

  lemma InsertCases(r: Record, rs: seq<Record>, newestFirst: bool)
    ensures Insert(r, rs, newestFirst) ==
      if rs == [] || Rank(r, newestFirst) <= Rank(rs[0], newestFirst) then [r] + rs
      else [rs[0]] + Insert(r, rs[1..], newestFirst)
  {
  }

  lemma DifferentInstants(a: Record, b: Record, t: int, rest: seq<Record>)
    requires a.createdAt != b.createdAt
    ensures IfInstant(a, t) + (IfInstant(b, t) + rest) == IfInstant(b, t) + (IfInstant(a, t) + rest)
  {
  }

  lemma {:induction false} InsertStable(r: Record, rs: seq<Record>, newestFirst: bool, t: int)
    ensures OfInstant(Insert(r, rs, newestFirst), t) == IfInstant(r, t) + OfInstant(rs, t)
  {
    hide *;
    InsertCases(r, rs, newestFirst);
    if rs == [] || Rank(r, newestFirst) <= Rank(rs[0], newestFirst) {
      OfInstantCons(r, rs, t);
    } else {
      assert rs == [rs[0]] + rs[1..];
      InsertStable(r, rs[1..], newestFirst, t);
      RankIsInstant(r, rs[0], newestFirst);
      OfInstantCons(rs[0], Insert(r, rs[1..], newestFirst), t);
      OfInstantCons(rs[0], rs[1..], t);
      DifferentInstants(rs[0], r, t, OfInstant(rs[1..], t));
    }
  }

  lemma RankIsInstant(a: Record, b: Record, newestFirst: bool)
    ensures Rank(a, newestFirst) == Rank(b, newestFirst) <==> a.createdAt == b.createdAt
  {
  }

  lemma {:induction false} SortSorted(rs: seq<Record>, newestFirst: bool)
    requires Sorted(rs, newestFirst)
    ensures Sort(rs, newestFirst) == rs
  {
    if rs != [] { SortSorted(rs[1..], newestFirst); }
  }

  // ---------- compaction ----------

  function Records(journal: seq<Line>): seq<Record> { Sort(Latest(journal), false) }

  function Lines(rs: seq<Record>): seq<Line> {
    seq(|rs|, i requires 0 <= i < |rs| => Whole(rs[i]))
  }

  lemma {:induction false} LatestOfLines(rs: seq<Record>)
    requires UniqueIds(rs)
    ensures Latest(Lines(rs)) == rs
  {
    if rs != [] {
      var n := |rs| - 1;
      assert Lines(rs)[..n] == Lines(rs[..n]);
      assert rs == rs[..n] + [rs[n]];
      UniqueConcat(rs[..n], [rs[n]]);
      LatestOfLines(rs[..n]);
      UpsertNew(rs[..n], rs[n]);
    }
  }

  lemma RecordsMembers(journal: seq<Line>)
    ensures UniqueIds(Records(journal)) && Sorted(Records(journal), false)
    ensures forall r :: r in Records(journal) <==> LastLine(journal, r.id) == Some(r)
  {
    LatestIsLastLine(journal);
    SortMembers(Latest(journal), false);
  }

  /** A rewritten journal is read back as what was written, in creation order. */
  lemma RewrittenRecords(rs: seq<Record>)
    requires UniqueIds(rs)
    ensures Records(Lines(Sort(rs, false))) == Sort(rs, false)
  {
    SortMembers(rs, false);
    LatestOfLines(Sort(rs, false));
    SortSorted(Sort(rs, false), false);
  }

  /** Compacting leaves the records unchanged. */
  lemma CompactKeepsRecords(journal: seq<Line>)
    ensures Records(Lines(Records(journal))) == Records(journal)
  {
    LatestIsLastLine(journal);
    RewrittenRecords(Latest(journal));
  }

  // ---------- garbage collection ----------

  predicate Unfinished(r: Record) { r.state == Active || r.state == InRecovery }

  predicate Candidate(r: Record, now: int) {
    r.kind == Turn && !Unfinished(r) && now - r.createdAt <= MAX_CHECKPOINT_AGE_MS
  }

  function UnfinishedOf(rs: seq<Record>): seq<Record> {
    if rs == [] then [] else (if Unfinished(rs[0]) then [rs[0]] else []) + UnfinishedOf(rs[1..])
  }

  function FinishedOf(rs: seq<Record>, now: int): seq<Record> {
    if rs == [] then [] else (if Candidate(rs[0], now) then [rs[0]] else []) + FinishedOf(rs[1..], now)
  }

  function Take<T>(s: seq<T>, n: nat): seq<T> { if |s| <= n then s else s[..n] }

  function Candidates(rs: seq<Record>, now: int): seq<Record> {
    Take(Sort(FinishedOf(rs, now), true), MAX_CHECKPOINTS)
  }

  /** The object hashes of a record in order, repetitions included. */
  function HashList(ms: seq<Mutation>): seq<Hash> {
    if ms == [] then []
    else
      (if ms[0].before.Some? then [ms[0].before.value.objectHash] else [])
      + (if ms[0].after.Some? then [ms[0].after.value.objectHash] else [])
      + HashList(ms[1..])
  }

  function Elements<T>(s: seq<T>): set<T> { set x | x in s }

  lemma ElementsConcat<T>(a: seq<T>, b: seq<T>)
    ensures Elements(a + b) == Elements(a) + Elements(b)
  {
  }

  lemma {:induction false} HashListElements(ms: seq<Mutation>)
    ensures Elements(HashList(ms)) == Hashes(ms)
  {
    if ms != [] { HashListElements(ms[1..]); }
  }

  function Without<T(==)>(s: seq<T>, x: set<T>): (r: seq<T>) {
    if s == [] then [] else (if s[0] in x then [] else [s[0]]) + Without(s[1..], x)
  }

  lemma {:induction false} WithoutElements<T>(s: seq<T>, x: set<T>)
    ensures Elements(Without(s, x)) == Elements(s) - x
  {
    if s != [] {
      var head := if s[0] in x then [] else [s[0]];
      assert s == [s[0]] + s[1..];
      ElementsConcat([s[0]], s[1..]);
      ElementsConcat(head, Without(s[1..], x));
      WithoutElements(s[1..], x);
    }
  }

  function SizeOf(h: Hash, sizes: map<Hash, nat>): nat { if h in sizes then sizes[h] else 0 }

  function ListBytes(hs: seq<Hash>, sizes: map<Hash, nat>): nat {
    if hs == [] then 0 else ListBytes(hs[..|hs| - 1], sizes) + SizeOf(hs[|hs| - 1], sizes)
  }

  /** The bytes of a set of distinct objects. */
  ghost function SetBytes(hs: set<Hash>, sizes: map<Hash, nat>): nat {
    if hs == {} then 0 else
    var h :| h in hs;
    SizeOf(h, sizes) + SetBytes(hs - {h}, sizes)
  }

  lemma {:induction false} SetBytesAdd(hs: set<Hash>, h: Hash, sizes: map<Hash, nat>)
    requires h !in hs
    ensures SetBytes(hs + {h}, sizes) == SetBytes(hs, sizes) + SizeOf(h, sizes)
    decreases hs
  {
    var all := hs + {h};
    var x :| x in all && SetBytes(all, sizes) == SizeOf(x, sizes) + SetBytes(all - {x}, sizes);
    if x == h {
      assert all - {h} == hs;
    } else {
      assert all - {x} == (hs - {x}) + {h};
      SetBytesAdd(hs - {x}, h, sizes);
      SetBytesAdd(hs - {x}, x, sizes);
      assert (hs - {x}) + {x} == hs;
    }
  }

  /** A list may count an object twice; the set never does. */
  lemma {:induction false} SetBytesOfList(hs: set<Hash>, list: seq<Hash>, sizes: map<Hash, nat>)
    ensures SetBytes(hs + Elements(list), sizes) <= SetBytes(hs, sizes) + ListBytes(list, sizes)
  {
    if list == [] {
      assert hs + Elements(list) == hs;
    } else {
      var init, last := list[..|list| - 1], list[|list| - 1];
      assert list == init + [last];
      SetBytesOfList(hs, init, sizes);
      assert hs + Elements(list) == (hs + Elements(init)) + {last};
      if last in hs + Elements(init) {
        assert (hs + Elements(init)) + {last} == hs + Elements(init);
      } else {
        SetBytesAdd(hs + Elements(init), last, sizes);
      }
    }
  }

  datatype Retention = Retention(kept: seq<Record>, referenced: set<Hash>, bytes: nat)

  /** One turn of the loop over the candidates. */
  function Consider(g: Retention, c: Record, unfinished: nat, sizes: map<Hash, nat>): Retention {
    var hashes := Without(HashList(c.mutations), g.referenced);
    var candidateBytes := ListBytes(hashes, sizes);
    if |g.kept| >= MAX_CHECKPOINTS + unfinished
       || (g.bytes + candidateBytes > MAX_OBJECT_BYTES && |g.kept| > unfinished) then g
    else Retention(g.kept + [c], g.referenced + Elements(hashes), g.bytes + candidateBytes)
  }

  function ConsiderAll(g: Retention, cs: seq<Record>, unfinished: nat, sizes: map<Hash, nat>): Retention {
    if cs == [] then g
    else Consider(ConsiderAll(g, cs[..|cs| - 1], unfinished, sizes), cs[|cs| - 1], unfinished, sizes)
  }

  function AllHashes(rs: seq<Record>): set<Hash> {
    if rs == [] then {} else AllHashes(rs[..|rs| - 1]) + Hashes(rs[|rs| - 1].mutations)
  }

  ghost function InitialRetention(rs: seq<Record>, sizes: map<Hash, nat>): Retention {
    var hs := AllHashes(UnfinishedOf(rs));
    Retention(UnfinishedOf(rs), hs, SetBytes(hs, sizes))
  }

  /** What garbage collection keeps of the records `rs`. */
  ghost function Retained(rs: seq<Record>, now: int, sizes: map<Hash, nat>): Retention {
    ConsiderAll(InitialRetention(rs, sizes), Candidates(rs, now), |UnfinishedOf(rs)|, sizes)
  }

  /** The retention after any number of candidates. */
  ghost predicate Retaining(g: Retention, unfinished: seq<Record>, cs: seq<Record>, sizes: map<Hash, nat>) {
    && unfinished <= g.kept
    && |g.kept| <= |unfinished| + |cs|
    && (forall r :: r in g.kept[|unfinished|..] ==> r in cs)
    && (cs != [] ==> |g.kept| > |unfinished| && g.kept[|unfinished|] == cs[0])
    && (UniqueIds(unfinished + cs) ==> UniqueIds(g.kept))
    && g.referenced == AllHashes(g.kept)
    && SetBytes(g.referenced, sizes) <= g.bytes
    && (|g.kept| >= |unfinished| + 2 ==> g.bytes <= MAX_OBJECT_BYTES)
  }

  lemma ConsiderKeepsUnique(g: Retention, unfinished: seq<Record>, cs: seq<Record>, c: Record)
    requires unfinished <= g.kept && forall r :: r in g.kept[|unfinished|..] ==> r in cs
    requires UniqueIds(unfinished + cs) ==> UniqueIds(g.kept)
    ensures UniqueIds(unfinished + (cs + [c])) ==> UniqueIds(g.kept) && UniqueIds(g.kept + [c])
  {
    hide UniqueIds;
    if UniqueIds(unfinished + (cs + [c])) {
      assert unfinished + (cs + [c]) == (unfinished + cs) + [c];
      UniqueConcat(unfinished + cs, [c]);
      assert g.kept == unfinished + g.kept[|unfinished|..];
      forall r | r in g.kept ensures r.id != c.id {
        assert r in unfinished + cs;
        assert c in [c];
      }
      UniqueAppend(g.kept, c);
    }
  }

  lemma ConsiderKeeps(g: Retention, unfinished: seq<Record>, cs: seq<Record>, c: Record, sizes: map<Hash, nat>)
    requires Retaining(g, unfinished, cs, sizes) && |cs| < MAX_CHECKPOINTS
    ensures Retaining(Consider(g, c, |unfinished|, sizes), unfinished, cs + [c], sizes)
  {
    hide UniqueIds, SetBytes, HashList, Without, ListBytes, Hashes;
    var g' := Consider(g, c, |unfinished|, sizes);
    ConsiderKeepsUnique(g, unfinished, cs, c);
    if g' != g {
      HashListElements(c.mutations);
      WithoutElements(HashList(c.mutations), g.referenced);
      SetBytesOfList(g.referenced, Without(HashList(c.mutations), g.referenced), sizes);
      assert g'.kept[..|g'.kept| - 1] == g.kept;
      assert g'.kept[|unfinished|..] == g.kept[|unfinished|..] + [c];
    }
  }

  lemma {:induction false} ConsiderAllKeeps(g: Retention, unfinished: seq<Record>, cs: seq<Record>,
      sizes: map<Hash, nat>)
    requires g == Retention(unfinished, AllHashes(unfinished), SetBytes(AllHashes(unfinished), sizes))
    requires |cs| <= MAX_CHECKPOINTS
    ensures Retaining(ConsiderAll(g, cs, |unfinished|, sizes), unfinished, cs, sizes)
  {
    hide UniqueIds, Consider, AllHashes, SetBytes, Hashes;
    if cs == [] {
      assert unfinished + [] == unfinished;
    } else {
      var n := |cs| - 1;
      ConsiderAllKeeps(g, unfinished, cs[..n], sizes);
      ConsiderKeeps(ConsiderAll(g, cs[..n], |unfinished|, sizes), unfinished, cs[..n], cs[n], sizes);
      assert cs == cs[..n] + [cs[n]];
    }
  }

  lemma {:induction false} FilterMembers(rs: seq<Record>, now: int)
    ensures forall r :: r in UnfinishedOf(rs) <==> r in rs && Unfinished(r)
    ensures forall r :: r in FinishedOf(rs, now) <==> r in rs && Candidate(r, now)
    ensures UniqueIds(rs) ==> UniqueIds(UnfinishedOf(rs)) && UniqueIds(FinishedOf(rs, now))
  {
    hide Unfinished, Candidate;
    if rs != [] {
      var rest := rs[1..];
      assert rs == [rs[0]] + rest;
      FilterMembers(rest, now);
      assert ([rs[0]] + UnfinishedOf(rest))[1..] == UnfinishedOf(rest) && [] + UnfinishedOf(rest) == UnfinishedOf(rest);
      assert ([rs[0]] + FinishedOf(rest, now))[1..] == FinishedOf(rest, now);
      assert [] + FinishedOf(rest, now) == FinishedOf(rest, now);
    }
  }

  lemma {:induction false} TakeUnique(rs: seq<Record>, n: nat)
    requires UniqueIds(rs)
    ensures UniqueIds(Take(rs, n))
  {
    if |rs| > n {
      assert rs == rs[..n] + rs[n..];
      UniqueConcat(rs[..n], rs[n..]);
    }
  }

  lemma CandidatesUnique(rs: seq<Record>, now: int)
    requires UniqueIds(rs)
    ensures UniqueIds(UnfinishedOf(rs) + Candidates(rs, now))
  {
    hide UniqueIds;
    var u, c := UnfinishedOf(rs), Candidates(rs, now);
    FilterMembers(rs, now);
    SortMembers(FinishedOf(rs, now), true);
    TakeUnique(Sort(FinishedOf(rs, now), true), MAX_CHECKPOINTS);
    forall x, y | x in u && y in c ensures y.id != x.id {
      assert y in Sort(FinishedOf(rs, now), true);
      if x.id == y.id { UniqueIdsApart(rs, x, y); }
    }
    UniqueConcat(u, c);
  }

  /** The candidates are in-age finished turns, the newest first. */
  lemma CandidatesNewest(rs: seq<Record>, now: int)
    ensures forall r :: r in Candidates(rs, now) ==> r in rs && Candidate(r, now)
    ensures (exists r :: r in rs && Candidate(r, now)) ==> Candidates(rs, now) != []
    ensures forall r :: r in rs && Candidate(r, now) && Candidates(rs, now) != [] ==>
      r.createdAt <= Candidates(rs, now)[0].createdAt
  {
    var s := Sort(FinishedOf(rs, now), true);
    FilterMembers(rs, now);
    SortMembers(FinishedOf(rs, now), true);
    forall r | r in rs && Candidate(r, now) && Candidates(rs, now) != []
      ensures r.createdAt <= Candidates(rs, now)[0].createdAt
    {
      assert r in s;
      assert s == [s[0]] + s[1..];
      assert r == s[0] || Rank(s[0], true) <= Rank(r, true);
    }
  }

  lemma CandidatesBounded(rs: seq<Record>, now: int)
    ensures |Candidates(rs, now)| <= MAX_CHECKPOINTS
  {
  }

  /** Garbage collection keeps every active and recovery record and nothing it did not read;
      of the finished turns in age it keeps the newest, at most 100, and, when it keeps two or
      more, only so many that the distinct objects referenced stay within the byte limit. */
  lemma GcRetention(rs: seq<Record>, now: int, sizes: map<Hash, nat>)
    requires UniqueIds(rs)
    ensures var g := Retained(rs, now, sizes);
            && UnfinishedOf(rs) <= g.kept && UniqueIds(g.kept)
            && var finished := g.kept[|UnfinishedOf(rs)|..];
            && (forall r :: r in rs && Unfinished(r) ==> r in g.kept)
            && (forall r :: r in finished ==> r in rs && Candidate(r, now))
            && |finished| <= MAX_CHECKPOINTS
            && ((exists r :: r in rs && Candidate(r, now)) ==>
                  finished != [] && forall r :: r in rs && Candidate(r, now) ==> r.createdAt <= finished[0].createdAt)
            && (|finished| >= 2 ==> SetBytes(AllHashes(g.kept), sizes) <= MAX_OBJECT_BYTES)
            && g.referenced == AllHashes(g.kept)
  {
    hide UniqueIds, UnfinishedOf, Candidates, Candidate, Unfinished, ConsiderAll, AllHashes, SetBytes;
    FilterMembers(rs, now);
    CandidatesUnique(rs, now);
    CandidatesNewest(rs, now);
    CandidatesBounded(rs, now);
    ConsiderAllKeeps(InitialRetention(rs, sizes), UnfinishedOf(rs), Candidates(rs, now), sizes);
  }

  lemma {:induction false} AllHashesContain(rs: seq<Record>, r: Record)
    requires r in rs
    ensures Hashes(r.mutations) <= AllHashes(rs)
  {
    var n := |rs| - 1;
    if rs[n] != r {
      assert rs == rs[..n] + [rs[n]];
      AllHashesContain(rs[..n], r);
    }
  }

  // ---------- the store ----------

  /** The journal and the objects after garbage collection. */
  ghost function GcJournal(journal: seq<Line>, o: Objects, now: int): seq<Line> {
    Lines(Sort(Retained(Records(journal), now, SizesOf(o)).kept, false))
  }

  ghost function GcObjects(journal: seq<Line>, o: Objects, now: int, stuck: set<Hash>): Objects {
    Kept(o, Retained(Records(journal), now, SizesOf(o)).referenced, stuck)
  }

  class Store {
    var journal: seq<Line>
    const objects: ObjectStore

    constructor ()
      ensures journal == [] && fresh(objects) && objects.objects == map[]
    {
      journal := [];
      objects := new ObjectStore();
    }

    method Append(record: Record)
      modifies this
      ensures journal == old(journal) + [Whole(record)]
    {
      journal := journal + [Whole(record)];
    }

    /** Fills an insertion-ordered map line by line, then sorts its values. */
    method ReadRecords() returns (records: seq<Record>)
      ensures records == Records(journal)
    {
      var latest: seq<Record> := [];
      for i := 0 to |journal|
        invariant latest == Latest(journal[..i])
      {
        assert journal[..i + 1][..i] == journal[..i];
        match journal[i]
        case Whole(record) => latest := Upsert(latest, record);
        case Torn =>
      }
      assert journal[..|journal|] == journal;
      records := Sort(latest, false);
    }

    method WriteRecords(records: seq<Record>)
      modifies this
      ensures journal == Lines(Sort(records, false))
      ensures UniqueIds(records) ==> Records(journal) == Sort(records, false)
    {
      hide Records, Lines, Sort, UniqueIds;
      journal := Lines(Sort(records, false));
      if UniqueIds(records) { RewrittenRecords(records); }
    }

    method Compact()
      modifies this
      ensures journal == Lines(Records(old(journal)))
      ensures Records(journal) == Records(old(journal))
    {
      var records := ReadRecords();
      CompactKeepsRecords(journal);
      journal := Lines(records);
    }

    method Gc(now: int, stuck: set<Hash>)
      modifies this, objects
      ensures journal == GcJournal(old(journal), old(objects.objects), now)
      ensures objects.objects == GcObjects(old(journal), old(objects.objects), now, stuck)
    {
      hide Records, Sort, UnfinishedOf, Consider, SetBytes, Kept, SizesOf, Elements, Candidates, AllHashes, Lines;
      var records := ReadRecords();
      var active := UnfinishedOf(records);
      var candidates := Candidates(records, now);
      var objectSizes := objects.Sizes();
      var referenced := AllHashes(active);
      var bytes := TotalBytes(referenced, objectSizes);
      ghost var start := Retention(active, referenced, bytes);
      var g := Retention(active, referenced, bytes);
      for i := 0 to |candidates|
        invariant g == ConsiderAll(start, candidates[..i], |active|, objectSizes)
        modifies {}
      {
        assert candidates[..i + 1][..i] == candidates[..i];
        g := ConsiderCandidate(g, candidates[i], |active|, objectSizes);
      }
      assert candidates[..|candidates|] == candidates;
      assert g == Retained(Records(journal), now, SizesOf(objects.objects));
      objects.RemoveUnreferenced(g.referenced, stuck);
      WriteRecords(g.kept);
    }
  }

  method TotalBytes(hs: set<Hash>, sizes: map<Hash, nat>) returns (total: nat)
    ensures total == SetBytes(hs, sizes)
  {
    total := 0;
    var rest := hs;
    while rest != {}
      invariant rest <= hs && total + SetBytes(rest, sizes) == SetBytes(hs, sizes)
      decreases rest
    {
      var h :| h in rest;
      SetBytesAdd(rest - {h}, h, sizes);
      assert rest - {h} + {h} == rest;
      total := total + SizeOf(h, sizes);
      rest := rest - {h};
    }
  }

  /** The bytes a candidate adds, a hash at a time. */
  method Charge(hashes: seq<Hash>, known: set<Hash>, sizes: map<Hash, nat>) returns (bytes: nat, referenced: set<Hash>)
    ensures bytes == ListBytes(hashes, sizes) && referenced == known + Elements(hashes)
  {
    bytes, referenced := 0, known;
    for i := 0 to |hashes|
      invariant bytes == ListBytes(hashes[..i], sizes)
      invariant referenced == known + Elements(hashes[..i])
    {
      assert hashes[..i + 1][..i] == hashes[..i];
      assert hashes[..i + 1] == hashes[..i] + [hashes[i]];
      bytes := bytes + SizeOf(hashes[i], sizes);
      referenced := referenced + {hashes[i]};
    }
    assert hashes[..|hashes|] == hashes;
  }

  method ConsiderCandidate(g: Retention, candidate: Record, unfinished: nat, sizes: map<Hash, nat>)
    returns (g': Retention)
    ensures g' == Consider(g, candidate, unfinished, sizes)
  {
    hide ListBytes, Elements, Without, HashList;
    var hashes := Without(HashList(candidate.mutations), g.referenced);
    var candidateBytes, referenced := Charge(hashes, g.referenced, sizes);
    if |g.kept| >= MAX_CHECKPOINTS + unfinished
       || (g.bytes + candidateBytes > MAX_OBJECT_BYTES && |g.kept| > unfinished) {
      return g;
    }
    return Retention(g.kept + [candidate], referenced, g.bytes + candidateBytes);
  }
}
