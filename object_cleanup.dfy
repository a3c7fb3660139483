/** The chunk loops the object-store backends (S3 and MinIO) share in a
    finalize: they read chunk objects 0 .. total_chunks - 1, where a read
    can fail for a chunk that is there (access denied, throttling), and
    afterwards delete them one at a time, ignoring any delete that fails. */
module ObjectCleanup {
  import opened StorageKeys
  import opened Blobs

  /** The chunk keys among the first `n` whose delete did not fail. */
  function DeletedChunks(fileId: Id, userId: Id, n: nat, fails: set<int>): (keys: set<string>)
    ensures forall i :: 0 <= i < n && i !in fails ==> ChunkKey(fileId, i, userId) in keys
  {
    set i | 0 <= i < n && i !in fails :: ChunkKey(fileId, i, userId)
  }

  /** A deleted key is one of this file's chunk keys, below `n`, that did
      not fail. */
  lemma DeletedChunksExactly(fileId: Id, userId: Id, n: nat, fails: set<int>, key: string)
    requires key in DeletedChunks(fileId, userId, n, fails)
    ensures exists i :: 0 <= i < n && i !in fails && key == ChunkKey(fileId, i, userId)
  {
  }

  lemma DeletedChunksStep(fileId: Id, userId: Id, n: nat, fails: set<int>)
    ensures DeletedChunks(fileId, userId, n + 1, fails)
            == DeletedChunks(fileId, userId, n, fails) + (if n in fails then {} else {ChunkKey(fileId, n, userId)})
  {
  }

  lemma NothingDeletedYet(fileId: Id, userId: Id, fails: set<int>, store: Store)
    ensures RemoveKeys(store, DeletedChunks(fileId, userId, 0, fails)) == store
  {
    assert DeletedChunks(fileId, userId, 0, fails) == {};
  }

  /** No chunk delete ever touches a stored file. */
  lemma DeletedChunksAvoidFiles(fileId: Id, userId: Id, n: nat, fails: set<int>, f: Id, u: Id)
    ensures FileKey(f, u) !in DeletedChunks(fileId, userId, n, fails)
  {
    if FileKey(f, u) in DeletedChunks(fileId, userId, n, fails) {
      var i :| 0 <= i < n && i !in fails && FileKey(f, u) == ChunkKey(fileId, i, userId);
      ChunkKeyNotFileKey(fileId, i, userId, f, u);
    }
  }

  /** Deleting one more key. */
  lemma RemoveKeysStep(store: Store, keys: set<string>, k: string)
    ensures RemoveKeys(store, keys + {k}) == RemoveKeys(store, keys) - {k}
  {
  }

  /** Writing a key that is not deleted commutes with the deletes. */
  lemma RemoveKeysUpdate(store: Store, keys: set<string>, k: string, content: Bytes)
    requires k !in keys
    ensures RemoveKeys(store[k := content], keys) == RemoveKeys(store, keys)[k := content]
  {
  }

  /** The keys of the chunks, by number, whose read fails even when the
      object is there. */
  function FailedReads(fileId: Id, userId: Id, fails: set<int>): (keys: set<string>)
    ensures forall i :: i in fails ==> ChunkKey(fileId, i, userId) in keys
  {
    set i | i in fails :: ChunkKey(fileId, i, userId)
  }

  /** What the chunk-reading loop can read: the store without the chunks
      whose read fails. */
  function Readable(store: Store, fileId: Id, userId: Id, fails: set<int>): Store
  {
    RemoveKeys(store, FailedReads(fileId, userId, fails))
  }

  /** Chunk i can be read exactly when it is stored and its read does not fail. */
  lemma ReadableChunk(store: Store, fileId: Id, userId: Id, fails: set<int>, i: int)
    ensures ChunkKey(fileId, i, userId) in Readable(store, fileId, userId, fails)
            <==> ChunkKey(fileId, i, userId) in store && i !in fails
  {
    if ChunkKey(fileId, i, userId) in FailedReads(fileId, userId, fails) {
      var j :| j in fails && ChunkKey(fileId, j, userId) == ChunkKey(fileId, i, userId);
      ChunkKeyInjective(fileId, j, userId, fileId, i, userId);
    }
  }

  /** With no failing read, everything stored can be read. */
  lemma ReadableWithoutFailures(store: Store, fileId: Id, userId: Id)
    ensures Readable(store, fileId, userId, {}) == store
  {
    assert FailedReads(fileId, userId, {}) == {};
  }

  /** What can be read reads back as stored. */
  lemma {:induction false} GatherRemoveKeys(store: Store, dropped: set<string>, keys: seq<string>)
    requires AllPresent(RemoveKeys(store, dropped), keys)
    ensures AllPresent(store, keys)
    ensures Gather(RemoveKeys(store, dropped), keys) == Gather(store, keys)
  {
    if keys != [] {
      var init := keys[..|keys| - 1];
      assert AllPresent(RemoveKeys(store, dropped), init) by {
        forall i | 0 <= i < |init| ensures init[i] in RemoveKeys(store, dropped) {
          assert init[i] == keys[i];
        }
      }
      GatherRemoveKeys(store, dropped, init);
    }
  }
}
