/** Attachments uploaded in chunks by a remote client (src/main/remote-control/remote-control-service.ts). */
module RemoteUpload {
  import opened ByteStrings
  import opened Options

  const CHUNK_BYTES: nat := 48 * 1024
  const MAX_BYTES: nat := 10 * 1024 * 1024
  const TTL_MS: int := 5 * 60_000
  const MAX_UPLOADS: nat := 2

  datatype UploadError =
    | TooManyUploads | TooLarge | WrongChunkCount | NotFound | WrongIndex | ChunkTooLarge
    | BeyondSize | DifferentContents | Incomplete | Archived

  type Chunks = map<nat, seq<Byte>>

  datatype Upload = Upload(task: nat, sizeBytes: nat, chunkCount: nat, chunks: Chunks, receivedBytes: nat,
                           expiresAt: int, completion: Option<seq<Byte>>)

  // ---------- one upload ----------

  /** The chunks a file of a size is cut into: the last may be shorter. */
  function ChunkCount(size: nat): nat { (size + CHUNK_BYTES - 1) / CHUNK_BYTES }

  /** The bytes stored for the first `n` indices. */
  function StoredBytes(chunks: Chunks, n: nat): nat {
    if n == 0 then 0 else StoredBytes(chunks, n - 1) + (if n - 1 in chunks then |chunks[n - 1]| else 0)
  }

  ghost predicate ValidUpload(u: Upload) {
    && 0 < u.sizeBytes <= MAX_BYTES && u.chunkCount == ChunkCount(u.sizeBytes)
    && (forall i :: i in u.chunks ==> i < u.chunkCount && |u.chunks[i]| <= CHUNK_BYTES)
    && u.receivedBytes == StoredBytes(u.chunks, u.chunkCount) <= u.sizeBytes
    && (u.completion.Some? ==> Complete(u) && u.completion.value == Assembled(u.chunks, u.chunkCount))
  }

  /** Every index is there, and the bytes add up. */
  ghost predicate Complete(u: Upload) {
    (forall i: nat :: i < u.chunkCount ==> i in u.chunks) && StoredBytes(u.chunks, u.chunkCount) == u.sizeBytes
  }

  function Assembled(chunks: Chunks, n: nat): seq<Byte> {
    if n == 0 then [] else Assembled(chunks, n - 1) + (if n - 1 in chunks then chunks[n - 1] else [])
  }

  /** What a delivered chunk does to its upload. */
  function Accept(u: Upload, index: nat, bytes: seq<Byte>, now: int): Result<Upload, UploadError> {
    if index >= u.chunkCount then Err(WrongIndex)
    else if |bytes| > CHUNK_BYTES then Err(ChunkTooLarge)
    else if index !in u.chunks then
      if u.receivedBytes + |bytes| > u.sizeBytes then Err(BeyondSize)
      else
        var received := u.receivedBytes + |bytes|;
        Ok(u.(chunks := u.chunks[index := bytes], receivedBytes := received, expiresAt := now + TTL_MS))
    else if u.chunks[index] != bytes then Err(DifferentContents)
    else Ok(u.(expiresAt := now + TTL_MS))
  }

  lemma {:induction false} StoredOneMore(chunks: Chunks, index: nat, bytes: seq<Byte>, n: nat)
    requires index !in chunks
    ensures StoredBytes(chunks[index := bytes], n) == StoredBytes(chunks, n) + if index < n then |bytes| else 0
  {
    if n > 0 { StoredOneMore(chunks, index, bytes, n - 1); }
  }

  /** Accepting a chunk keeps the count of bytes exact and within the declared size. */
  lemma AcceptKeepsValid(u: Upload, index: nat, bytes: seq<Byte>, now: int)
    requires ValidUpload(u) && Accept(u, index, bytes, now).Ok?
    ensures ValidUpload(Accept(u, index, bytes, now).value)
  {
    if index !in u.chunks { StoredOneMore(u.chunks, index, bytes, u.chunkCount); }
  }

  /** A chunk that was stored is never changed, a new one is stored whole, and the upload lives on for five minutes. */
  lemma AcceptKeepsStored(u: Upload, index: nat, bytes: seq<Byte>, now: int)
    requires Accept(u, index, bytes, now).Ok?
    ensures var after := Accept(u, index, bytes, now).value;
      && (forall i :: i in u.chunks ==> i in after.chunks && after.chunks[i] == u.chunks[i])
      && after.chunks.Keys == u.chunks.Keys + {index} && after.chunks[index] == bytes
      && after.expiresAt == now + 5 * 60_000
      && after.task == u.task && after.sizeBytes == u.sizeBytes && after.completion == u.completion
  {
  }

  /** A chunk is refused exactly when its index is beyond the last, it is too long for a chunk, or, where nothing is
      stored, for the file, or it is not what is stored. */
  lemma RefusedIff(u: Upload, index: nat, bytes: seq<Byte>, now: int)
    requires ValidUpload(u)
    ensures Accept(u, index, bytes, now).Err? <==>
      || index >= u.chunkCount
      || |bytes| > 48 * 1024
      || (index in u.chunks && u.chunks[index] != bytes)
      || (index !in u.chunks && StoredBytes(u.chunks, u.chunkCount) + |bytes| > u.sizeBytes)
  {
  }

  function Below(n: nat): (r: set<nat>)
    ensures forall i: nat :: i in r <==> i < n
    ensures |r| == n
  {
    if n == 0 then {} else Below(n - 1) + {n - 1}
  }

  lemma IndicesBelow(chunks: Chunks, n: nat)
    requires forall i :: i in chunks ==> i < n
    ensures |chunks| == n <==> forall i: nat :: i < n ==> i in chunks
  {
    assert chunks.Keys <= Below(n);
    assert |chunks.Keys| == |chunks|;
    SubsetSize(chunks.Keys, Below(n));
    assert (forall i: nat :: i < n ==> i in chunks) ==> chunks.Keys == Below(n);
  }

  lemma {:induction false} SubsetSize<T>(a: set<T>, b: set<T>)
    requires a <= b
    ensures |a| <= |b| && (|a| == |b| ==> a == b)
  {
    assert b == a + (b - a);
    assert |b| == |a| + |b - a|;
  }

  /** The check made on completion is that every index is there and the bytes add up. */
  lemma CompletionCheck(u: Upload)
    requires ValidUpload(u)
    ensures |u.chunks| == u.chunkCount && u.receivedBytes == u.sizeBytes <==> Complete(u)
  {
    IndicesBelow(u.chunks, u.chunkCount);
  }

  // ---------- the chunks of one file ----------

  function Smaller(a: nat, b: nat): nat { if a < b then a else b }

  /** The bytes of a file an index stands for. */
  function Piece(file: seq<Byte>, i: nat): seq<Byte>
    requires i < ChunkCount(|file|)
  {
    file[i * CHUNK_BYTES..Smaller((i + 1) * CHUNK_BYTES, |file|)]
  }

  ghost predicate PiecesOf(chunks: Chunks, file: seq<Byte>) {
    forall i :: i in chunks ==> i < ChunkCount(|file|) && chunks[i] == Piece(file, i)
  }

  /** The bytes of a file below an index. */
  function UpTo(file: seq<Byte>, n: nat): (r: nat)
    ensures r <= |file|
  {
    Smaller(n * CHUNK_BYTES, |file|)
  }

  lemma PieceLength(file: seq<Byte>, i: nat)
    requires i < ChunkCount(|file|)
    ensures UpTo(file, i + 1) == UpTo(file, i) + |Piece(file, i)| && |Piece(file, i)| > 0
    ensures file[..UpTo(file, i + 1)] == file[..UpTo(file, i)] + Piece(file, i)
  {
  }

  lemma WholeFile(file: seq<Byte>)
    ensures UpTo(file, 0) == 0 && UpTo(file, ChunkCount(|file|)) == |file|
  {
  }

  lemma NothingYet(chunks: Chunks)
    ensures StoredBytes(chunks, 0) == 0 && Assembled(chunks, 0) == []
  {
  }

  lemma OneIndexMore(chunks: Chunks, n: nat)
    ensures StoredBytes(chunks, n + 1) == StoredBytes(chunks, n) + if n in chunks then |chunks[n]| else 0
    ensures n in chunks ==> Assembled(chunks, n + 1) == Assembled(chunks, n) + chunks[n]
  {
  }

  lemma {:induction false} PiecesStored(chunks: Chunks, file: seq<Byte>, n: nat)
    requires PiecesOf(chunks, file) && n <= ChunkCount(|file|)
    ensures StoredBytes(chunks, n) <= UpTo(file, n)
    ensures StoredBytes(chunks, n) == UpTo(file, n) <==> forall i: nat :: i < n ==> i in chunks
    ensures (forall i: nat :: i < n ==> i in chunks) ==> Assembled(chunks, n) == file[..UpTo(file, n)]
  {
    hide StoredBytes, Assembled, Piece, ChunkCount, UpTo;
    if n == 0 {
      NothingYet(chunks);
      WholeFile(file);
    } else {
      PiecesStored(chunks, file, n - 1);
      PieceLength(file, n - 1);
      OneIndexMore(chunks, n - 1);
    }
  }

  /** When every delivered chunk is the file's piece, the bytes add up exactly when all pieces have
      come, and then they are the file. */
  lemma PiecesMakeTheFile(u: Upload, file: seq<Byte>)
    requires ValidUpload(u) && PiecesOf(u.chunks, file) && u.sizeBytes == |file|
    ensures Complete(u) <==> forall i: nat :: i < u.chunkCount ==> i in u.chunks
    ensures Complete(u) <==> u.receivedBytes == u.sizeBytes
    ensures Complete(u) ==> Assembled(u.chunks, u.chunkCount) == file
  {
    hide StoredBytes, Assembled, Piece, PiecesOf, ChunkCount, UpTo;
    PiecesStored(u.chunks, file, u.chunkCount);
    WholeFile(file);
  }

  /** A piece of the file is never refused, in whatever order and however often it comes. */
  lemma PieceIsAccepted(u: Upload, file: seq<Byte>, i: nat, now: int)
    requires ValidUpload(u) && PiecesOf(u.chunks, file) && u.sizeBytes == |file| && i < ChunkCount(|file|)
    ensures var r := Accept(u, i, Piece(file, i), now);
      r.Ok? && r.value.chunks == u.chunks[i := Piece(file, i)]
      && ValidUpload(r.value) && PiecesOf(r.value.chunks, file) && r.value.sizeBytes == |file|
  {
    hide StoredBytes, Assembled, Piece, ChunkCount, UpTo, Complete;
    var piece := Piece(file, i);
    PieceFits(file, i);
    WholeFile(file);
    if i !in u.chunks {
      StoredOneMore(u.chunks, i, piece, u.chunkCount);
      PiecesStored(u.chunks[i := piece], file, u.chunkCount);
    } else {
      assert u.chunks[i := piece] == u.chunks;
    }
    AcceptKeepsValid(u, i, piece, now);
  }

  lemma PieceFits(file: seq<Byte>, i: nat)
    requires i < ChunkCount(|file|)
    ensures |Piece(file, i)| <= CHUNK_BYTES
  {
  }

  /** The upload after the pieces with the given indices were delivered, in that order. */
  function AfterPieces(u: Upload, file: seq<Byte>, indices: seq<nat>, now: int): Upload
    requires forall k :: 0 <= k < |indices| ==> indices[k] < ChunkCount(|file|)
    decreases |indices|
  {
    if indices == [] then u
    else
      var before := AfterPieces(u, file, indices[..|indices| - 1], now);
      var r := Accept(before, indices[|indices| - 1], Piece(file, indices[|indices| - 1]), now);
      if r.Ok? then r.value else before
  }

  function Started(task: nat, size: nat, now: int): Upload {
    Upload(task, size, ChunkCount(size), map[], 0, now + TTL_MS, None)
  }

  lemma {:induction false} NothingStored(n: nat)
    ensures StoredBytes(map[], n) == 0
  {
    if n > 0 { NothingStored(n - 1); }
  }

  lemma StartedIsValid(task: nat, size: nat, now: int)
    requires 0 < size <= MAX_BYTES
    ensures ValidUpload(Started(task, size, now))
  {
    NothingStored(ChunkCount(size));
  }

  lemma {:induction false} PiecesCollected(task: nat, file: seq<Byte>, indices: seq<nat>, now: int)
    requires 0 < |file| <= MAX_BYTES && forall k :: 0 <= k < |indices| ==> indices[k] < ChunkCount(|file|)
    ensures var u := AfterPieces(Started(task, |file|, now), file, indices, now);
      && ValidUpload(u) && PiecesOf(u.chunks, file) && u.sizeBytes == |file|
      && forall i: nat :: i in u.chunks <==> i in indices
  {
    hide ValidUpload, PiecesOf, Accept, Piece, ChunkCount;
    if indices == [] {
      StartedIsValid(task, |file|, now);
      NoPieces(file);
    } else {
      var before, last := indices[..|indices| - 1], indices[|indices| - 1];
      PiecesCollected(task, file, before, now);
      PieceIsAccepted(AfterPieces(Started(task, |file|, now), file, before, now), file, last, now);
      assert indices == before + [last];
    }
  }

  lemma NoPieces(file: seq<Byte>)
    ensures PiecesOf(map[], file)
  {
  }

  /** Any order and duplication of the file's pieces completes exactly when each has come, with the file. */
  lemma UploadAssemblesFile(task: nat, file: seq<Byte>, indices: seq<nat>, now: int)
    requires 0 < |file| <= MAX_BYTES && forall k :: 0 <= k < |indices| ==> indices[k] < ChunkCount(|file|)
    ensures var u := AfterPieces(Started(task, |file|, now), file, indices, now);
      && (Complete(u) <==> forall i: nat :: i < ChunkCount(|file|) ==> i in indices)
      && (Complete(u) ==> Assembled(u.chunks, u.chunkCount) == file)
  {
    PiecesCollected(task, file, indices, now);
    PiecesMakeTheFile(AfterPieces(Started(task, |file|, now), file, indices, now), file);
    hide AfterPieces, Complete, Assembled, PiecesOf;
  }

  // ---------- the uploads of a session ----------

  /** The uploads that have not expired. */
  function Current(uploads: map<nat, Upload>, now: int): map<nat, Upload> {
    map id | id in uploads && uploads[id].expiresAt > now :: uploads[id]
  }

  /** An upload that was started, or accepted a chunk, is there for exactly five minutes. */
  lemma LivesFiveMinutes(uploads: map<nat, Upload>, id: nat, u: Upload, index: nat, bytes: seq<Byte>, task: nat,
      size: nat, at: int, now: int)
    ensures id in Current(uploads[id := Started(task, size, at)], now) <==> now < at + 5 * 60_000
    ensures Accept(u, index, bytes, at).Ok? ==>
      (id in Current(uploads[id := Accept(u, index, bytes, at).value], now) <==> now < at + 5 * 60_000)
    ensures forall x :: x in Current(uploads, now) ==> x in uploads && Current(uploads, now)[x] == uploads[x]
  {
  }

  class Session {
    var uploads: map<nat, Upload>
    var uploadStartReservations: nat

    constructor ()
      ensures Valid() && uploads == map[] && uploadStartReservations == 0
    {
      uploads, uploadStartReservations := map[], 0;
    }

    ghost predicate Valid()
      reads this
    {
      && (forall id :: id in uploads ==> ValidUpload(uploads[id]))
      && |uploads| + uploadStartReservations <= MAX_UPLOADS
    }

    method CleanupExpiredUploads(now: int)
      requires Valid()
      modifies `uploads
      ensures Valid() && uploads == Current(old(uploads), now)
    {
      hide ValidUpload;
      ghost var before := uploads;
      var ids := uploads.Keys;
      while ids != {}
        invariant ids <= uploads.Keys <= before.Keys
        invariant forall id :: id in uploads ==> uploads[id] == before[id]
        invariant forall id :: id in before && id !in ids ==> (id in uploads <==> before[id].expiresAt > now)
        invariant Valid()
      {
        var id :| id in ids;
        ids := ids - {id};
        if uploads[id].expiresAt <= now {
          uploads := uploads - {id};
        }
      }
    }

    /** The part of starting an upload before the task is looked up: it reserves one of the places. */
    method StartAttachment(sizeBytes: nat, chunkCount: nat, now: int) returns (r: Result<(), UploadError>)
      requires Valid() && sizeBytes > 0
      modifies this
      ensures Valid() && uploads == Current(old(uploads), now)
      ensures uploadStartReservations == old(uploadStartReservations) + (if r.Ok? then 1 else 0)
      ensures r ==
        if |uploads| + old(uploadStartReservations) >= MAX_UPLOADS then Err(TooManyUploads)
        else if sizeBytes > MAX_BYTES then Err(TooLarge)
        else if chunkCount != ChunkCount(sizeBytes) then Err(WrongChunkCount)
        else Ok(())
    {
      CleanupExpiredUploads(now);
      if |uploads| + uploadStartReservations >= 2 { return Err(TooManyUploads); }
      if sizeBytes > MAX_BYTES { return Err(TooLarge); }
      if chunkCount != ChunkCount(sizeBytes) { return Err(WrongChunkCount); }
      uploadStartReservations := uploadStartReservations + 1;
      return Ok(());
    }

    /** The part after it: the place becomes an upload, or is given back. */
    method StartFound(id: nat, task: Option<nat>, archived: bool, sizeBytes: nat, now: int)
      returns (r: Result<nat, UploadError>)
      requires Valid() && uploadStartReservations > 0 && id !in uploads && 0 < sizeBytes <= MAX_BYTES
      modifies this
      ensures Valid() && uploadStartReservations == old(uploadStartReservations) - 1
      ensures r.Ok? <==> task.Some? && !archived
      ensures uploads == if r.Ok? then old(uploads)[id := Started(task.value, sizeBytes, now)] else old(uploads)
    {
      uploadStartReservations := uploadStartReservations - 1;
      if task.None? { return Err(NotFound); }
      if archived { return Err(UploadError.Archived); }
      StartedIsValid(task.value, sizeBytes, now);
      uploads := uploads[id := Upload(task.value, sizeBytes, ChunkCount(sizeBytes), map[], 0, now + TTL_MS, None)];
      return Ok(id);
    }

    method ReceiveAttachmentChunk(id: nat, index: nat, bytes: seq<Byte>, now: int) returns (r: Result<nat, UploadError>)
      requires Valid()
      modifies `uploads
      ensures Valid()
      ensures var current := Current(old(uploads), now);
        if id !in current then r == Err(NotFound) && uploads == current
        else match Accept(current[id], index, bytes, now)
          case Err(e) => r == Err(e) && uploads == current
          case Ok(u) => r == Ok(u.receivedBytes) && uploads == current[id := u]
    {
      hide ValidUpload, Current;
      CleanupExpiredUploads(now);
      if id !in uploads { return Err(NotFound); }
      var upload := uploads[id];
      if index >= upload.chunkCount { return Err(WrongIndex); }
      if |bytes| > CHUNK_BYTES { return Err(ChunkTooLarge); }
      if index !in upload.chunks {
        if upload.receivedBytes + |bytes| > upload.sizeBytes { return Err(BeyondSize); }
        upload := upload.(chunks := upload.chunks[index := bytes], receivedBytes := upload.receivedBytes + |bytes|);
      } else if upload.chunks[index] != bytes {
        return Err(DifferentContents);
      }
      AcceptKeepsValid(uploads[id], index, bytes, now);
      uploads := uploads[id := upload.(expiresAt := now + TTL_MS)];
      return Ok(upload.receivedBytes);
    }

    /** Completing hands on the assembled bytes, and again hands on the same ones until the upload is
        removed. */
    method CompleteAttachment(id: nat, now: int) returns (r: Result<Bytes, UploadError>)
      requires Valid()
      modifies `uploads
      ensures Valid()
      ensures var current := Current(old(uploads), now);
        if id !in current then r == Err(NotFound) && uploads == current
        else if !Complete(current[id]) then r == Err(Incomplete) && uploads == current
        else (r == Ok(Assembled(current[id].chunks, current[id].chunkCount))
          && uploads == current[id := current[id].(completion := Some(r.value))])
    {
      hide StoredBytes, Assembled;
      CleanupExpiredUploads(now);
      if id !in uploads { return Err(NotFound); }
      var upload := uploads[id];
      if upload.completion.Some? {
        assert uploads[id := upload] == uploads;
        return Ok(upload.completion.value);
      }
      CompletionCheck(upload);
      if |upload.chunks| != upload.chunkCount || upload.receivedBytes != upload.sizeBytes { return Err(Incomplete); }
      var bytes: seq<Byte> := [];
      NothingYet(upload.chunks);
      for index := 0 to upload.chunkCount
        invariant bytes == Assembled(upload.chunks, index)
        invariant uploads == Current(old(uploads), now) && Valid()
      {
        OneIndexMore(upload.chunks, index);
        bytes := bytes + upload.chunks[index];
      }
      uploads := uploads[id := upload.(completion := Some(bytes))];
      return Ok(bytes);
    }

    /** The artifact was stored, or the client gave the upload up. */
    method Remove(id: nat)
      requires Valid()
      modifies `uploads
      ensures Valid() && uploads == old(uploads) - {id}
    {
      if id in uploads {
        hide ValidUpload;
        uploads := uploads - {id};
      } else {
        assert uploads - {id} == uploads;
      }
    }
  }

}
