/** The content-addressed object directory (src/main/checkpoints/checkpoint-object-store.ts). */
module CheckpointObjectStore {
  import opened ByteStrings
  import opened Options
  import opened CheckpointTypes

  class ObjectStore {
    var objects: Objects

    constructor ()
      ensures objects == map[]
    {
      objects := map[];
    }

    method Put(kind: EntryKind, bytes: Bytes) returns (hash: Hash, size: nat)
      modifies this
      ensures hash == HashObject(kind, bytes) && size == |bytes|
      ensures objects == PutAll(old(objects), {hash}) && hash in objects
      ensures Sound(old(objects)) ==> Sound(objects) && objects[hash] == bytes
    {
      hash, size := HashObject(kind, bytes), |bytes|;
      if hash !in objects { objects := objects[hash := bytes]; }
    }

    /** `None` stands for the read error of a missing object. In a directory whose objects are what their
        names say, the bytes returned for a name digest to it, so they are the bytes that were put. */
    method Read(hash: Hash) returns (bytes: Option<Bytes>)
      ensures bytes.None? <==> hash !in objects
      ensures bytes.Some? ==> (hash, bytes.value) in objects.Items
      ensures bytes.Some? && Sound(objects) ==> hash == HashObject(hash.kind, bytes.value)
      ensures forall kind, stored :: Sound(objects) && hash == HashObject(kind, stored) && hash in objects ==>
        bytes == Some(stored)
    {
      bytes := if hash in objects then Some(objects[hash]) else None;
    }

    /** Deletes what is not referenced; `stuck` are the files whose deletion fails, which the
        source ignores. */
    method RemoveUnreferenced(referenced: set<Hash>, stuck: set<Hash>)
      modifies this
      ensures objects == Kept(old(objects), referenced, stuck)
      ensures Sound(old(objects)) ==> Sound(objects)
    {
      var names := objects.Keys;
      while names != {}
        invariant names <= old(objects).Keys
        invariant objects
          == map h | h in old(objects) && (h in names || h in referenced || h in stuck) :: old(objects)[h]
        decreases names
      {
        var name :| name in names;
        names := names - {name};
        if name !in referenced && name !in stuck { objects := objects - {name}; }
      }
    }

    method Sizes() returns (sizes: map<Hash, nat>)
      ensures sizes == SizesOf(objects)
    {
      sizes := map[];
      var names := objects.Keys;
      while names != {}
        invariant names <= objects.Keys
        invariant sizes == map h | h in objects && h !in names :: |objects[h]|
        decreases names
      {
        var name :| name in names;
        names := names - {name};
        sizes := sizes[name := |objects[name]|];
      }
    }

    /** The journalled entry for a scanned one, with its object stored. */
    method EntryFromWorkspace(value: WorkspaceEntry) returns (entry: CheckpointEntry)
      modifies this
      ensures entry == EntryOf(value)
      ensures objects == PutAll(old(objects), EntryHash(Some(entry)))
    {
      var objectHash, size := Put(value.kind, value.bytes);
      entry := CheckpointEntry(value.kind, HashObject(value.kind, value.bytes), objectHash, size);
    }
  }

  function Kept(o: Objects, referenced: set<Hash>, stuck: set<Hash>): Objects {
    map h | h in o && (h in referenced || h in stuck) :: o[h]
  }

  function SizesOf(o: Objects): map<Hash, nat> {
    map h | h in o :: |o[h]|
  }
}
