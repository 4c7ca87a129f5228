/** Entities of the checkpoint component (src/main/checkpoints/checkpoint-types.ts). */
module CheckpointTypes {
  import opened ByteStrings
  import opened Options

  /** A path relative to the workspace root. */
  datatype Path = Path(text: string)

  datatype EntryKind = File | Symlink

  /** A path's content as a scan reads it. */
  datatype WorkspaceEntry = WorkspaceEntry(kind: EntryKind, bytes: Bytes)

  /** The digest of a kind and its bytes; the constructor makes the hash injective. */
  datatype Hash = Sha256(kind: EntryKind, bytes: Bytes)

  datatype CheckpointEntry = CheckpointEntry(kind: EntryKind, hash: Hash, objectHash: Hash, size: nat)

  datatype MutationKind = Created | Modified | Deleted | Renamed

  datatype Mutation = Mutation(
    sequence: nat, kind: MutationKind, path: Path, fromPath: Option<Path>,
    before: Option<CheckpointEntry>, after: Option<CheckpointEntry>)

  type Workspace = map<Path, WorkspaceEntry>
  type Objects = map<Hash, Bytes>

  function At(ws: Workspace, p: Path): Option<WorkspaceEntry> {
    if p in ws then Some(ws[p]) else None
  }

  /** `ws` with path `p` holding `e`; `None` means that the path is absent. */
  function With(ws: Workspace, p: Path, e: Option<WorkspaceEntry>): Workspace {
    if e.Some? then ws[p := e.value] else ws - {p}
  }

  function HashObject(kind: EntryKind, bytes: Bytes): Hash { Sha256(kind, bytes) }

  /** The journalled form of a workspace entry. */
  function EntryOf(e: WorkspaceEntry): CheckpointEntry {
    var h := HashObject(e.kind, e.bytes);
    CheckpointEntry(e.kind, h, h, |e.bytes|)
  }

  function EntryAt(ws: Workspace, p: Path): Option<CheckpointEntry> {
    if p in ws then Some(EntryOf(ws[p])) else None
  }

  /** What restoring a journalled entry writes. */
  function Content(e: Option<CheckpointEntry>): Option<WorkspaceEntry> {
    if e.Some? then Some(WorkspaceEntry(e.value.kind, e.value.objectHash.bytes)) else None
  }

  predicate Matches(actual: Option<WorkspaceEntry>, expected: Option<CheckpointEntry>) {
    if actual.None? then expected.None?
    else
      && expected.Some?
      && actual.value.kind == expected.value.kind
      && HashObject(actual.value.kind, actual.value.bytes) == expected.value.hash
  }

  predicate SameWorkspaceEntry(left: WorkspaceEntry, right: WorkspaceEntry) {
    left.kind == right.kind && HashObject(left.kind, left.bytes) == HashObject(right.kind, right.bytes)
  }

  function Journalled(e: Option<WorkspaceEntry>): Option<CheckpointEntry> {
    if e.Some? then Some(EntryOf(e.value)) else None
  }

  /** A path matches what was journalled for it exactly when it holds the same entry; that entry is what restoring
      writes, and two entries are taken for the same exactly when they are. */
  lemma MatchesMeansSame(actual: Option<WorkspaceEntry>, was: Option<WorkspaceEntry>)
    ensures Matches(actual, Journalled(was)) <==> actual == was
    ensures Content(Journalled(was)) == was
    ensures actual.Some? && was.Some? ==> (SameWorkspaceEntry(actual.value, was.value) <==> actual == was)
  {
  }

  // ---------- what a mutation says about each path ----------

  function TouchedBy(m: Mutation): set<Path> {
    {m.path} + (if m.fromPath.Some? then {m.fromPath.value} else {})
  }

  function BeforeAt(m: Mutation, p: Path): Option<CheckpointEntry> {
    if m.fromPath.None? || m.fromPath == Some(p) then m.before else None
  }

  function AfterAt(m: Mutation, p: Path): Option<CheckpointEntry> {
    if m.fromPath == Some(p) then None else m.after
  }

  function Touched(ms: seq<Mutation>): set<Path> {
    if ms == [] then {} else TouchedBy(ms[0]) + Touched(ms[1..])
  }

  lemma {:induction false} TouchedIff(ms: seq<Mutation>, p: Path)
    ensures p in Touched(ms) <==> exists i :: 0 <= i < |ms| && p in TouchedBy(ms[i])
  {
    if ms != [] {
      TouchedIff(ms[1..], p);
      if i :| 0 <= i < |ms| && p in TouchedBy(ms[i]) {
        if i > 0 { assert p in TouchedBy(ms[1..][i - 1]); }
      }
      if i :| 0 <= i < |ms[1..]| && p in TouchedBy(ms[1..][i]) { assert p in TouchedBy(ms[i + 1]); }
    }
  }

  lemma {:induction false} TouchedConcat(a: seq<Mutation>, b: seq<Mutation>)
    ensures Touched(a + b) == Touched(a) + Touched(b)
  {
    if a == [] {
      assert a + b == b;
    } else {
      assert (a + b)[1..] == a[1..] + b;
      TouchedConcat(a[1..], b);
    }
  }

  // ---------- objects ----------

  function EntryHash(e: Option<CheckpointEntry>): set<Hash> {
    if e.Some? then {e.value.objectHash} else {}
  }

  /** The objects a record needs: both sides of every mutation. */
  function Hashes(ms: seq<Mutation>): set<Hash> {
    if ms == [] then {} else EntryHash(ms[0].before) + EntryHash(ms[0].after) + Hashes(ms[1..])
  }

  lemma {:induction false} HashesConcat(a: seq<Mutation>, b: seq<Mutation>)
    ensures Hashes(a + b) == Hashes(a) + Hashes(b)
  {
    if a == [] {
      assert a + b == b;
    } else {
      assert (a + b)[1..] == a[1..] + b;
      HashesConcat(a[1..], b);
    }
  }

  lemma {:induction false} HashesContain(ms: seq<Mutation>, i: nat)
    requires i < |ms|
    ensures EntryHash(ms[i].before) + EntryHash(ms[i].after) <= Hashes(ms)
  {
    if i > 0 { HashesContain(ms[1..], i - 1); }
  }

  /** Every stored object holds the bytes its name is the digest of. */
  ghost predicate Sound(o: Objects) {
    forall h :: h in o ==> o[h] == h.bytes
  }

  /** Storing objects that may already be there. */
  function PutAll(o: Objects, hs: set<Hash>): Objects {
    o + map h | h in hs - o.Keys :: h.bytes
  }

  lemma PutAllTwice(o: Objects, a: set<Hash>, b: set<Hash>)
    ensures PutAll(PutAll(o, a), b) == PutAll(o, a + b)
  {
  }

  lemma PutAllThrice(o: Objects, a: set<Hash>, b: set<Hash>, c: set<Hash>)
    ensures PutAll(PutAll(PutAll(o, a), b), c) == PutAll(o, a + b + c)
  {
    PutAllTwice(o, a, b);
    PutAllTwice(o, a + b, c);
  }

  lemma PutNothing(o: Objects)
    ensures PutAll(o, {}) == o
  {
  }
}
