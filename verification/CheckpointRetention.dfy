/** What garbage collection may not drop (src/main/checkpoints/checkpoint-store.ts). */
module CheckpointRetention {
  import opened CheckpointObjectStore
  import opened CheckpointTypes
  import opened CheckpointStore

  /** An object counts with the bytes stored for it. */
  lemma ObjectBytes(o: Objects, h: Hash)
    requires h in o
    ensures ListBytes([h], SizesOf(o)) == |o[h]| && SetBytes({h}, SizesOf(o)) == |o[h]|
  {
    assert [h][..0] == [];
    assert {} + {h} == {h};
    SetBytesAdd({}, h, SizesOf(o));
  }

  /** Nothing else is kept: a record that is kept was read, and is unfinished or a finished turn not older than thirty
      days; the unfinished ones all are. */
  lemma KeptForAReason(rs: seq<Record>, now: int, sizes: map<Hash, nat>, r: Record)
    requires UniqueIds(rs)
    ensures r in Retained(rs, now, sizes).kept ==>
      r in rs && (|| r.state == Active || r.state == InRecovery
                  || (r.kind == Turn && now - r.createdAt <= 30 * 24 * 60 * 60 * 1_000))
    ensures r in rs && (r.state == Active || r.state == InRecovery) ==> r in Retained(rs, now, sizes).kept
  {
    hide UniqueIds, UnfinishedOf, SetBytes, AllHashes, Retained;
    GcRetention(rs, now, sizes);
    FilterMembers(rs, now);
    var g := Retained(rs, now, sizes);
    assert g.kept == UnfinishedOf(rs) + g.kept[|UnfinishedOf(rs)|..];
  }

  /** The objects of a record that the kept ones do not hold yet; one listed twice counts twice. */
  function MissingBytes(r: Record, kept: seq<Record>, sizes: map<Hash, nat>): nat {
    ListBytes(Without(HashList(r.mutations), AllHashes(kept)), sizes)
  }

  /** The bytes counted for the unfinished records and for finished turns kept one after another. */
  ghost function CountedBytes(unfinished: seq<Record>, turns: seq<Record>, sizes: map<Hash, nat>): nat {
    if turns == [] then SetBytes(AllHashes(unfinished), sizes)
    else
      var init := turns[..|turns| - 1];
      CountedBytes(unfinished, init, sizes) + MissingBytes(turns[|turns| - 1], unfinished + init, sizes)
  }

  /** With the turns kept so far, one more stays within the limit; the first is kept in any case. */
  ghost predicate Fits(unfinished: seq<Record>, turns: seq<Record>, r: Record, sizes: map<Hash, nat>) {
    || turns == []
    || CountedBytes(unfinished, turns, sizes) + MissingBytes(r, unfinished + turns, sizes) <= MAX_OBJECT_BYTES
  }

  /** The turns kept of the candidates. */
  ghost function KeptTurns(unfinished: seq<Record>, cs: seq<Record>, sizes: map<Hash, nat>): (r: seq<Record>)
    ensures |r| <= |cs|
  {
    if cs == [] then []
    else
      var newer := KeptTurns(unfinished, cs[..|cs| - 1], sizes);
      if Fits(unfinished, newer, cs[|cs| - 1], sizes) then newer + [cs[|cs| - 1]] else newer
  }

  ghost function RetentionOf(unfinished: seq<Record>, turns: seq<Record>, sizes: map<Hash, nat>): Retention {
    Retention(unfinished + turns, AllHashes(unfinished + turns), CountedBytes(unfinished, turns, sizes))
  }

  lemma AllHashesMore(rs: seq<Record>, r: Record)
    ensures AllHashes(rs + [r]) == AllHashes(rs) + Hashes(r.mutations)
  {
    hide Hashes;
    assert (rs + [r])[..|rs|] == rs;
  }

  lemma ConsideredFits(unfinished: seq<Record>, turns: seq<Record>, c: Record, sizes: map<Hash, nat>)
    requires |turns| < MAX_CHECKPOINTS
    ensures Consider(RetentionOf(unfinished, turns, sizes), c, |unfinished|, sizes)
      == RetentionOf(unfinished, if Fits(unfinished, turns, c, sizes) then turns + [c] else turns, sizes)
  {
    HashListElements(c.mutations);
    WithoutElements(HashList(c.mutations), AllHashes(unfinished + turns));
    AllHashesMore(unfinished + turns, c);
    hide HashList, Without, ListBytes, Elements, AllHashes, SetBytes, Hashes;
    assert (unfinished + turns) + [c] == unfinished + (turns + [c]);
    assert (turns + [c])[..|turns|] == turns;
  }

  /** Collection keeps a candidate exactly when it fits behind the newer ones it kept. */
  lemma {:induction false} ConsideredAll(unfinished: seq<Record>, cs: seq<Record>, sizes: map<Hash, nat>)
    requires |cs| <= MAX_CHECKPOINTS
    ensures ConsiderAll(RetentionOf(unfinished, [], sizes), cs, |unfinished|, sizes)
      == RetentionOf(unfinished, KeptTurns(unfinished, cs, sizes), sizes)
  {
    hide Consider, RetentionOf, Fits;
    if cs != [] {
      var n := |cs| - 1;
      ConsideredAll(unfinished, cs[..n], sizes);
      ConsideredFits(unfinished, KeptTurns(unfinished, cs[..n], sizes), cs[n], sizes);
    }
  }

  lemma RetainedTurns(rs: seq<Record>, now: int, sizes: map<Hash, nat>)
    ensures Retained(rs, now, sizes).kept
      == UnfinishedOf(rs) + KeptTurns(UnfinishedOf(rs), Candidates(rs, now), sizes)
  {
    hide UnfinishedOf, Candidates, KeptTurns, AllHashes, SetBytes, ConsiderAll;
    CandidatesBounded(rs, now);
    assert UnfinishedOf(rs) + [] == UnfinishedOf(rs);
    ConsideredAll(UnfinishedOf(rs), Candidates(rs, now), sizes);
  }

  // ---------- nothing is dropped that fits ----------

  /** A candidate that is dropped exceeds the limit together with newer ones that are kept. */
  lemma {:induction false} DroppedExceeds(unfinished: seq<Record>, cs: seq<Record>, sizes: map<Hash, nat>, r: Record)
      returns (newer: seq<Record>)
    requires r in cs && r !in KeptTurns(unfinished, cs, sizes) && Sorted(cs, true)
    ensures newer != [] && newer <= KeptTurns(unfinished, cs, sizes)
    ensures forall c :: c in newer ==> c in cs && c.createdAt >= r.createdAt
    ensures CountedBytes(unfinished, newer, sizes) + MissingBytes(r, unfinished + newer, sizes) > MAX_OBJECT_BYTES
  {
    hide CountedBytes, MissingBytes;
    var n := |cs| - 1;
    assert cs == cs[..n] + [cs[n]];
    SortedParts(cs[..n], cs[n]);
    if r in cs[..n] {
      newer := DroppedExceeds(unfinished, cs[..n], sizes, r);
    } else {
      newer := KeptTurns(unfinished, cs[..n], sizes);
      KeptAreCandidates(unfinished, cs[..n], sizes);
    }
  }

  lemma {:induction false} SortedParts(cs: seq<Record>, last: Record)
    requires Sorted(cs + [last], true)
    ensures Sorted(cs, true) && forall c :: c in cs ==> c.createdAt >= last.createdAt
  {
    if cs != [] {
      assert (cs + [last])[1..] == cs[1..] + [last];
      SortedParts(cs[1..], last);
      assert last in (cs + [last])[1..];
    }
  }

  lemma {:induction false} KeptAreCandidates(unfinished: seq<Record>, cs: seq<Record>, sizes: map<Hash, nat>)
    ensures forall c :: c in KeptTurns(unfinished, cs, sizes) ==> c in cs
  {
    hide Fits;
    if cs != [] { KeptAreCandidates(unfinished, cs[..|cs| - 1], sizes); }
  }

  lemma {:induction false} TakeSorted(rs: seq<Record>, n: nat)
    requires Sorted(rs, true)
    ensures Sorted(Take(rs, n), true)
    ensures forall r :: r in rs && r !in Take(rs, n) ==>
      |Take(rs, n)| == n && forall c :: c in Take(rs, n) ==> c.createdAt >= r.createdAt
  {
    if n == 0 {
    } else if rs != [] {
      assert rs == [rs[0]] + rs[1..];
      TakeSorted(rs[1..], n - 1);
      assert Take(rs, n) == [rs[0]] + Take(rs[1..], n - 1);
      assert Take(rs, n)[1..] == Take(rs[1..], n - 1);
    }
  }

  /** A finished turn in age that no candidate is older than. */
  lemma NotCandidate(rs: seq<Record>, now: int, r: Record)
    requires r in rs && r.kind == Turn && r.state != Active && r.state != InRecovery
    requires now - r.createdAt <= 30 * 24 * 60 * 60 * 1_000
    ensures Sorted(Candidates(rs, now), true)
    ensures r !in Candidates(rs, now) ==>
      |Candidates(rs, now)| == 100 && forall c :: c in Candidates(rs, now) ==> c.createdAt >= r.createdAt
  {
    FilterMembers(rs, now);
    SortMembers(FinishedOf(rs, now), true);
    hide Sort, FinishedOf, Sorted, Take;
    TakeSorted(Sort(FinishedOf(rs, now), true), MAX_CHECKPOINTS);
  }

  /** Retention is maximal. A finished turn not older than thirty days is dropped only if there are a hundred others not
      older than it, or if its objects would take what is counted for newer kept turns over the limit. */
  lemma DroppedForAReason(rs: seq<Record>, now: int, sizes: map<Hash, nat>, r: Record)
    requires r in rs && r.kind == Turn && r.state != Active && r.state != InRecovery
    requires now - r.createdAt <= 30 * 24 * 60 * 60 * 1_000 && r !in Retained(rs, now, sizes).kept
    ensures var cs, u := Candidates(rs, now), UnfinishedOf(rs);
      || (|cs| == 100 && r !in cs && forall c :: c in cs ==> c.createdAt >= r.createdAt)
      || exists newer: seq<Record> :: newer != [] && u + newer <= Retained(rs, now, sizes).kept
           && (forall c :: c in newer ==> c.createdAt >= r.createdAt)
           && CountedBytes(u, newer, sizes) + MissingBytes(r, u + newer, sizes) > 512 * 1024 * 1024
  {
    hide Retained, Candidates, UnfinishedOf, KeptTurns, CountedBytes, MissingBytes, Sorted;
    NotCandidate(rs, now, r);
    RetainedTurns(rs, now, sizes);
    var cs, u := Candidates(rs, now), UnfinishedOf(rs);
    if r in cs {
      var newer := DroppedExceeds(u, cs, sizes, r);
      assert u + newer <= u + KeptTurns(u, cs, sizes);
    }
  }

  // ---------- what fits together is all kept ----------

  /** The bytes the turns list, objects shared between them counted for each. */
  function ListedBytes(rs: seq<Record>, sizes: map<Hash, nat>): nat {
    if rs == [] then 0 else ListBytes(HashList(rs[0].mutations), sizes) + ListedBytes(rs[1..], sizes)
  }

  lemma {:induction false} ListedConcat(a: seq<Record>, b: seq<Record>, sizes: map<Hash, nat>)
    ensures ListedBytes(a + b, sizes) == ListedBytes(a, sizes) + ListedBytes(b, sizes)
  {
    hide ListBytes, HashList;
    if a == [] {
      assert a + b == b;
    } else {
      assert (a + b)[1..] == a[1..] + b;
      ListedConcat(a[1..], b, sizes);
    }
  }

  lemma {:induction false} ListedInserted(r: Record, rs: seq<Record>, newestFirst: bool, sizes: map<Hash, nat>)
    ensures ListedBytes(Insert(r, rs, newestFirst), sizes) ==
      ListBytes(HashList(r.mutations), sizes) + ListedBytes(rs, sizes)
  {
    hide ListBytes, HashList, Rank;
    InsertCases(r, rs, newestFirst);
    if rs == [] || Rank(r, newestFirst) <= Rank(rs[0], newestFirst) {
      assert ([r] + rs)[1..] == rs;
    } else {
      ListedInserted(r, rs[1..], newestFirst, sizes);
      assert ([rs[0]] + Insert(r, rs[1..], newestFirst))[1..] == Insert(r, rs[1..], newestFirst);
    }
  }

  lemma {:induction false} ListedSorted(rs: seq<Record>, newestFirst: bool, sizes: map<Hash, nat>)
    ensures ListedBytes(Sort(rs, newestFirst), sizes) == ListedBytes(rs, sizes)
  {
    hide ListBytes, HashList, Insert;
    if rs != [] {
      ListedSorted(rs[1..], newestFirst, sizes);
      ListedInserted(rs[0], Sort(rs[1..], newestFirst), newestFirst, sizes);
    }
  }

  lemma {:induction false} BytesConcat(a: seq<Hash>, b: seq<Hash>, sizes: map<Hash, nat>)
    ensures ListBytes(a + b, sizes) == ListBytes(a, sizes) + ListBytes(b, sizes)
  {
    if b == [] {
      assert a + b == a;
    } else {
      assert (a + b)[..|a + b| - 1] == a + b[..|b| - 1];
      BytesConcat(a, b[..|b| - 1], sizes);
    }
  }

  lemma {:induction false} WithoutIsLess(hs: seq<Hash>, x: set<Hash>, sizes: map<Hash, nat>)
    ensures ListBytes(Without(hs, x), sizes) <= ListBytes(hs, sizes)
  {
    hide ListBytes, SizeOf;
    if hs != [] {
      var head := if hs[0] in x then [] else [hs[0]];
      assert hs == [hs[0]] + hs[1..];
      BytesConcat([hs[0]], hs[1..], sizes);
      BytesConcat(head, Without(hs[1..], x), sizes);
      WithoutIsLess(hs[1..], x, sizes);
      NoBytes(sizes);
    }
  }

  lemma NoBytes(sizes: map<Hash, nat>)
    ensures ListBytes([], sizes) == 0
  {
  }

  lemma {:induction false} FittingAreKept(unfinished: seq<Record>, cs: seq<Record>, sizes: map<Hash, nat>)
    requires SetBytes(AllHashes(unfinished), sizes) + ListedBytes(cs, sizes) <= MAX_OBJECT_BYTES
    ensures KeptTurns(unfinished, cs, sizes) == cs
    ensures CountedBytes(unfinished, cs, sizes) <= SetBytes(AllHashes(unfinished), sizes) + ListedBytes(cs, sizes)
  {
    hide ListBytes, HashList, Without, AllHashes, SetBytes;
    if cs != [] {
      var n := |cs| - 1;
      var init, last := cs[..n], cs[n];
      assert cs == init + [last];
      ListedConcat(init, [last], sizes);
      assert ListedBytes([last], sizes) == ListBytes(HashList(last.mutations), sizes) + ListedBytes([last][1..], sizes);
      FittingAreKept(unfinished, init, sizes);
      WithoutIsLess(HashList(last.mutations), AllHashes(unfinished + init), sizes);
    }
  }

  /** When there are at most a hundred finished turns in age, and what they list fits the limit along with the
      unfinished records, every one of them is kept. */
  lemma FittingTurnsAreKept(rs: seq<Record>, now: int, sizes: map<Hash, nat>, r: Record)
    requires |FinishedOf(rs, now)| <= 100
    requires SetBytes(AllHashes(UnfinishedOf(rs)), sizes) + ListedBytes(FinishedOf(rs, now), sizes) <= 512 * 1024 * 1024
    requires r in rs && r.kind == Turn && r.state != Active && r.state != InRecovery
    requires now - r.createdAt <= 30 * 24 * 60 * 60 * 1_000
    ensures r in Retained(rs, now, sizes).kept
  {
    FilterMembers(rs, now);
    SortMembers(FinishedOf(rs, now), true);
    ListedSorted(FinishedOf(rs, now), true, sizes);
    hide Sort, FinishedOf, UnfinishedOf, KeptTurns, AllHashes, SetBytes, ListedBytes, Retained, Sorted;
    FittingAreKept(UnfinishedOf(rs), Candidates(rs, now), sizes);
    RetainedTurns(rs, now, sizes);
  }
}
