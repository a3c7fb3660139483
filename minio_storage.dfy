/** The MinIO backend (backend/storage/minio_storage.py). The bucket is a
    map from object name to content. An `S3Error` the backend catches can
    come from an absent object, which the map shows, or from any other
    cause (access denied, throttling) on an object that is there; the
    latter is an input saying that the call fails. */
module MinIOStorageModel {
  import opened Wrappers
  import opened Text
  import opened StorageKeys
  import opened Blobs
  import opened ObjectCleanup

  datatype MinIOError =
    | BucketCheckFailed
    | ChunkReadFailed(chunkNumber: nat)
    | FileNotFound(key: string)

  /** The object methods do not consult `bucketExists`: the factory keeps
      a backend only once its `EnsureBucket` passed, so the bucket is there
      when they run. A bucket removed later makes `put_object` raise, a
      failure the backend does not catch and the model leaves out. */
  class MinIOStorage {
    /** `settings.minio_bucket`. */
    const bucket: string
    var bucketExists: bool
    var objects: Store

    /** `__init__` up to the bucket check; `EnsureBucket` is its second half. */
    constructor (bucketName: string, present: bool, existing: Store)
      ensures bucket == bucketName && bucketExists == present && objects == existing
    {
      bucket := bucketName;
      bucketExists := present;
      objects := existing;
    }

    /** `_ensure_bucket`: `bucket_exists`, then `make_bucket` when it says
        no; an error from either call (`clientError`) is raised and leaves
        the bucket as it was. */
    method EnsureBucket(clientError: bool) returns (o: Outcome<MinIOError>)
      modifies this
      ensures objects == old(objects)
      ensures o == (if clientError then Fail(BucketCheckFailed) else Pass)
      ensures bucketExists == (old(bucketExists) || !clientError)
    {
      if clientError {
        return Fail(BucketCheckFailed);
      }
      if !bucketExists {
        bucketExists := true;
      }
      return Pass;
    }

    /** `upload_chunk`: `put_object` of the chunk's bytes, with their length
        as the declared length, under the chunk name, which is returned. */
    method UploadChunk(fileId: Id, chunkNumber: int, chunkData: Bytes, userId: Id) returns (key: string)
      modifies this
      ensures key == ChunkKey(fileId, chunkNumber, userId)
      ensures objects == old(objects)[key := chunkData]
      ensures bucketExists == old(bucketExists)
    {
      key := ChunkKey(fileId, chunkNumber, userId);
      objects := objects[key := chunkData];
    }

    /** `finalize_upload`: chunks 0 .. total_chunks - 1 are read into one
        buffer; a chunk that cannot be read (absent, or its read fails:
        `readFails` holds those chunk numbers) raises "Failed to read chunk
        n" before anything is written. Otherwise the buffer is put under the
        file key and then each of those chunks is deleted, a delete that
        fails (`deleteFails` holds its chunk numbers) being ignored. The
        declared length of the final put is the buffer's size. Chunks
        numbered at or beyond total_chunks are not deleted. */
    method FinalizeUpload(fileId: Id, totalChunks: int, userId: Id, readFails: set<int>, deleteFails: set<int>)
      returns (r: Result<string, MinIOError>)
      modifies this
      ensures bucketExists == old(bucketExists)
      ensures var chunks := ChunkKeys(fileId, userId, if totalChunks < 0 then 0 else totalChunks);
              var readable := Readable(old(objects), fileId, userId, readFails);
              if AllPresent(readable, chunks) then
                && AllPresent(old(objects), chunks)
                && r == Success(FileKey(fileId, userId))
                && objects == RemoveKeys(old(objects), DeletedChunks(fileId, userId, |chunks|, deleteFails))
                                [FileKey(fileId, userId) := Gather(old(objects), chunks)]
              else
                && r == Failure(ChunkReadFailed(FirstMissing(readable, chunks)))
                && objects == old(objects)
    {
      var n: nat := if totalChunks < 0 then 0 else totalChunks;
      var finalKey := FileKey(fileId, userId);
      var combined := CombineChunks(fileId, n, userId, readFails);
      if combined.Failure? {
        return Failure(combined.error);
      }
      ghost var before := objects;
      objects := objects[finalKey := combined.value];
      RemoveChunks(fileId, n, userId, deleteFails);
      DeletedChunksAvoidFiles(fileId, userId, n, deleteFails, fileId, userId);
      RemoveKeysUpdate(before, DeletedChunks(fileId, userId, n, deleteFails), finalKey, combined.value);
      return Success(finalKey);
    }

    /** The read half of `finalize_upload`: chunks 0 .. n - 1 read into one
        buffer in order, stopping at the first one that is absent or whose
        `get_object` fails (its number is in `readFails`). */
    method CombineChunks(fileId: Id, n: nat, userId: Id, readFails: set<int>) returns (r: Result<Bytes, MinIOError>)
      ensures var chunks := ChunkKeys(fileId, userId, n);
              var readable := Readable(objects, fileId, userId, readFails);
              if AllPresent(readable, chunks) then AllPresent(objects, chunks) && r == Success(Gather(objects, chunks))
              else r == Failure(ChunkReadFailed(FirstMissing(readable, chunks)))
    {
      ghost var chunks := ChunkKeys(fileId, userId, n);
      ghost var readable := Readable(objects, fileId, userId, readFails);
      var combined: Bytes := [];
      var i := 0;
      while i < n
        invariant 0 <= i <= n
        invariant AllPresent(readable, chunks[..i])
        invariant combined == Gather(readable, chunks[..i])
      {
        var key := ChunkKey(fileId, i, userId);
        ReadableChunk(objects, fileId, userId, readFails, i);
        if key !in objects || i in readFails {
          FirstMissingAt(readable, chunks, i);
          return Failure(ChunkReadFailed(i));
        }
        GatherSnoc(readable, chunks, i);
        combined := combined + objects[key];
        i := i + 1;
      }
      assert chunks[..n] == chunks;
      GatherRemoveKeys(objects, FailedReads(fileId, userId, readFails), chunks);
      return Success(combined);
    }

    /** The clean-up half of `finalize_upload`: chunks 0 .. n - 1 deleted one
        by one, those in `deleteFails` surviving their failed delete. */
    method RemoveChunks(fileId: Id, n: nat, userId: Id, deleteFails: set<int>)
      modifies this
      ensures bucketExists == old(bucketExists)
      ensures objects == RemoveKeys(old(objects), DeletedChunks(fileId, userId, n, deleteFails))
    {
      NothingDeletedYet(fileId, userId, deleteFails, objects);
      var j := 0;
      while j < n
        invariant 0 <= j <= n
        invariant bucketExists == old(bucketExists)
        invariant objects == RemoveKeys(old(objects), DeletedChunks(fileId, userId, j, deleteFails))
      {
        ghost var done := DeletedChunks(fileId, userId, j, deleteFails);
        ghost var next := DeletedChunks(fileId, userId, j + 1, deleteFails);
        DeletedChunksStep(fileId, userId, j, deleteFails);
        if j !in deleteFails {
          var key := ChunkKey(fileId, j, userId);
          RemoveKeysStep(old(objects), done, key);
          objects := objects - {key};
        }
        assert objects == RemoveKeys(old(objects), next);
        j := j + 1;
      }
    }

    /** `download_file`: "File not found" when `get_object` fails, because
        the object is absent or for another reason (`clientError`), else the
        response in 64 KiB reads. */
    method DownloadFile(fileId: Id, userId: Id, clientError: bool) returns (r: Result<seq<Bytes>, MinIOError>)
      ensures FileKey(fileId, userId) !in objects || clientError ==> r == Failure(FileNotFound(FileKey(fileId, userId)))
      ensures FileKey(fileId, userId) in objects && !clientError ==>
                r.Success? && IsReadStream(r.value, objects[FileKey(fileId, userId)])
    {
      var key := FileKey(fileId, userId);
      if key !in objects || clientError {
        return Failure(FileNotFound(key));
      }
      var pieces := ReadInPieces(objects[key]);
      return Success(pieces);
    }

    /** `delete_file`: `remove_object` succeeds whether or not the object
        exists, so the result is True unless the call fails (`clientError`). */
    method DeleteFile(fileId: Id, userId: Id, clientError: bool) returns (ok: bool)
      modifies this
      ensures ok == !clientError
      ensures objects == if ok then old(objects) - {FileKey(fileId, userId)} else old(objects)
      ensures bucketExists == old(bucketExists)
    {
      if clientError {
        return false;
      }
      objects := objects - {FileKey(fileId, userId)};
      return true;
    }

    /** `get_file_size`: the size from `stat_object`, or "File not found"
        when the call fails: the object is absent, or `clientError`. */
    method GetFileSize(fileId: Id, userId: Id, clientError: bool) returns (r: Result<nat, MinIOError>)
      ensures r.Success? <==> FileKey(fileId, userId) in objects && !clientError
      ensures r.Success? ==> r.value == |objects[FileKey(fileId, userId)]|
      ensures r.Failure? ==> r.error == FileNotFound(FileKey(fileId, userId))
    {
      var key := FileKey(fileId, userId);
      if key !in objects || clientError {
        return Failure(FileNotFound(key));
      }
      return Success(|objects[key]|);
    }

    /** `file_exists`: True iff `stat_object` succeeds: the object is there
        and the call does not fail otherwise. */
    method FileExists(fileId: Id, userId: Id, clientError: bool) returns (b: bool)
      ensures b <==> FileKey(fileId, userId) in objects && !clientError
    {
      b := FileKey(fileId, userId) in objects && !clientError;
    }

    /** `copy_file`: `copy_object` from a `CopySource` in the same bucket.
        It fails, giving False, when the source is absent, when source and
        destination are the same name (a copy onto itself that changes
        nothing is refused), or on any other client error. */
    method CopyFile(sourceFileId: Id, destFileId: Id, userId: Id, clientError: bool) returns (ok: bool)
      modifies this
      ensures ok == (FileKey(sourceFileId, userId) in old(objects) && sourceFileId != destFileId && !clientError)
      ensures objects == if ok then old(objects)[FileKey(destFileId, userId) := old(objects)[FileKey(sourceFileId, userId)]]
                         else old(objects)
      ensures bucketExists == old(bucketExists)
    {
      var source := FileKey(sourceFileId, userId);
      var dest := FileKey(destFileId, userId);
      if source !in objects {
        return false;
      }
      if sourceFileId == destFileId || clientError {
        return false;
      }
      objects := objects[dest := objects[source]];
      return true;
    }
  }
}
