/** The local filesystem backend (backend/storage/local_storage.py). The
    tree under `storage_path` is a map from full file path to content;
    directories exist implicitly. */
module LocalStorageModel {
  import opened Wrappers
  import opened Text
  import opened StorageKeys
  import opened Blobs

  datatype LocalError =
    | ChunkNotFound(chunkNumber: nat)
    | FileNotFound(fileId: Id)

  /** The text of the exception the backend raises. */
  function Message(e: LocalError): string
  {
    match e
    case ChunkNotFound(k) => "Chunk " + IntToString(k) + " not found"
    case FileNotFound(f) => "File not found: " + f
  }

  /** The path under the storage root at which a storage key lives. */
  function Under(root: string, key: string): string
  {
    root + "/" + key
  }

  lemma UnderInjective(root: string, k1: string, k2: string)
    requires Under(root, k1) == Under(root, k2)
    ensures k1 == k2
  {
    assert k1 == Under(root, k1)[|root| + 1..];
    assert k2 == Under(root, k2)[|root| + 1..];
  }

  lemma UnderPrefix(root: string, p: string, k: string)
    ensures Under(root, p) <= Under(root, k) <==> p <= k
  {
    var rp, rk := Under(root, p), Under(root, k);
    if rp <= rk {
      assert p == rp[|root| + 1..];
      assert k[..|p|] == rk[|root| + 1..|rp|];
    }
    if p <= k {
      assert rk[..|rp|] == root + "/" + k[..|p|];
    }
  }

  /** Writing a file outside a directory commutes with deleting the directory. */
  lemma RemoveUnderUpdate(store: Store, prefix: string, key: string, content: Bytes)
    requires !(prefix <= key)
    ensures RemoveUnder(store[key := content], prefix) == RemoveUnder(store, prefix)[key := content]
  {
  }

  /** Where a failing `shutil.copy2` stops: before the destination is
      opened, or after `written` bytes of the source reached it (the
      destination is opened with truncation and filled block by block;
      a failure copying the metadata comes after all of the bytes). */
  datatype CopyFault = NoCopyFault | FailsBeforeOpen | FailsAfterWriting(written: nat)

  /** What a copy of `data` that stops after `n` bytes leaves behind: a
      prefix of the data, of length `n` or all of it. */
  function PartialCopy(data: Bytes, n: nat): (r: Bytes)
    ensures r <= data
    ensures |r| == if n < |data| then n else |data|
  {
    if n < |data| then data[..n] else data
  }

  class LocalStorage {
    /** `settings.storage_path`. */
    const root: string
    /** Every file under the root, by full path. */
    var files: Store

    /** `__init__`: the root directory is created if missing; whatever is
        already stored under it stays. */
    constructor (storagePath: string, existing: Store)
      ensures root == storagePath && files == existing
    {
      root := storagePath;
      files := existing;
    }

    /** `_get_file_path`: `{root}/users/{user_id}/files/{file_id}`. */
    function FilePath(fileId: Id, userId: Id): string
    {
      Under(root, FileKey(fileId, userId))
    }

    /** `_get_chunk_path`: `{root}/users/{user_id}/chunks/{file_id}/{n:06d}`. */
    function ChunkPath(fileId: Id, chunkNumber: int, userId: Id): string
    {
      Under(root, ChunkKey(fileId, chunkNumber, userId))
    }

    /** The directory holding every chunk of one file, as a path prefix. */
    function ChunkDir(fileId: Id, userId: Id): string
    {
      Under(root, ChunkPrefix(fileId, userId))
    }

    function ChunkPaths(fileId: Id, userId: Id, count: nat): (paths: seq<string>)
      ensures |paths| == count
      ensures forall i :: 0 <= i < count ==> paths[i] == ChunkPath(fileId, i, userId)
    {
      seq(count, i requires 0 <= i < count => ChunkPath(fileId, i, userId))
    }

    /** The path layout: distinct files and distinct chunks get distinct
        paths, no chunk path is a file path, and a file's chunk directory
        holds exactly that file's chunks and no stored file. */
    lemma PathLayout(f: Id, n: int, u: Id, f': Id, n': int, u': Id)
      ensures ChunkPath(f, n, u) == ChunkPath(f', n', u') ==> f == f' && n == n' && u == u'
      ensures FilePath(f, u) == FilePath(f', u') ==> f == f' && u == u'
      ensures ChunkPath(f, n, u) != FilePath(f', u')
      ensures ChunkDir(f, u) <= ChunkPath(f', n', u') <==> f == f' && u == u'
      ensures !(ChunkDir(f, u) <= FilePath(f', u'))
    {
      if ChunkPath(f, n, u) == ChunkPath(f', n', u') {
        UnderInjective(root, ChunkKey(f, n, u), ChunkKey(f', n', u'));
        ChunkKeyInjective(f, n, u, f', n', u');
      }
      if FilePath(f, u) == FilePath(f', u') {
        UnderInjective(root, FileKey(f, u), FileKey(f', u'));
        FileKeyInjective(f, u, f', u');
      }
      if ChunkPath(f, n, u) == FilePath(f', u') {
        UnderInjective(root, ChunkKey(f, n, u), FileKey(f', u'));
        ChunkKeyNotFileKey(f, n, u, f', u');
      }
      UnderPrefix(root, ChunkPrefix(f, u), ChunkKey(f', n', u'));
      ChunkPrefixSelects(f, u, f', n', u');
      UnderPrefix(root, ChunkPrefix(f, u), FileKey(f', u'));
      FileKeyOutsideChunkPrefix(f, u, f', u');
    }

    /** `upload_chunk`: the chunk file is (over)written with exactly the
        chunk's bytes; its path is returned. */
    method UploadChunk(fileId: Id, chunkNumber: int, chunkData: Bytes, userId: Id) returns (path: string)
      modifies this
      ensures path == ChunkPath(fileId, chunkNumber, userId)
      ensures files == old(files)[path := chunkData]
    {
      path := ChunkPath(fileId, chunkNumber, userId);
      files := files[path := chunkData];
    }

    /** `finalize_upload`. The final file is opened for writing (emptied)
        first, then chunks 0 .. total_chunks - 1 are appended in order. A
        missing chunk stops the loop with the file already holding the
        chunks before it, and the chunk directory is kept. On success the
        whole chunk directory is deleted, chunks beyond the total included;
        a failure to delete it (`cleanupFails`) is only reported, not
        raised. */
    method FinalizeUpload(fileId: Id, totalChunks: int, userId: Id, cleanupFails: bool)
      returns (r: Result<string, LocalError>)
      modifies this
      ensures var chunks := ChunkPaths(fileId, userId, if totalChunks < 0 then 0 else totalChunks);
              var final := FilePath(fileId, userId);
              if AllPresent(old(files), chunks) then
                && r == Success(final)
                && files == (if cleanupFails then old(files)
                             else RemoveUnder(old(files), ChunkDir(fileId, userId)))[final := Gather(old(files), chunks)]
              else
                var k := FirstMissing(old(files), chunks);
                && r == Failure(ChunkNotFound(k))
                && files == old(files)[final := Gather(old(files), chunks[..k])]
    {
      var n: nat := if totalChunks < 0 then 0 else totalChunks;
      var final := FilePath(fileId, userId);
      ghost var chunks := ChunkPaths(fileId, userId, n);
      ghost var before := files;
      files := files[final := []];
      var i := 0;
      while i < n
        invariant 0 <= i <= n
        invariant AllPresent(before, chunks[..i])
        invariant files == before[final := Gather(before, chunks[..i])]
      {
        var path := ChunkPath(fileId, i, userId);
        ChunkPathIsNotFilePath(fileId, i, userId);
        if path !in files {
          FirstMissingAt(before, chunks, i);
          return Failure(ChunkNotFound(i));
        }
        assert chunks[i] == path && path in before;
        GatherSnoc(before, chunks, i);
        files := files[final := files[final] + files[path]];
        i := i + 1;
      }
      assert chunks[..n] == chunks;
      if !cleanupFails {
        ChunkDirAvoidsFilePath(fileId, userId);
        RemoveUnderUpdate(before, ChunkDir(fileId, userId), final, files[final]);
        files := RemoveUnder(files, ChunkDir(fileId, userId));
      }
      return Success(final);
    }

    lemma ChunkPathIsNotFilePath(f: Id, n: int, u: Id)
      ensures ChunkPath(f, n, u) != FilePath(f, u)
    {
      PathLayout(f, n, u, f, 0, u);
    }

    lemma ChunkDirAvoidsFilePath(f: Id, u: Id)
      ensures !(ChunkDir(f, u) <= FilePath(f, u))
    {
      PathLayout(f, 0, u, f, 0, u);
    }

    /** `download_file`: raises when the file is absent; otherwise yields
        the file in 64 KiB reads. */
    method DownloadFile(fileId: Id, userId: Id) returns (r: Result<seq<Bytes>, LocalError>)
      ensures FilePath(fileId, userId) !in files ==> r == Failure(FileNotFound(fileId))
      ensures FilePath(fileId, userId) in files ==>
                r.Success? && IsReadStream(r.value, files[FilePath(fileId, userId)])
    {
      var path := FilePath(fileId, userId);
      if path !in files {
        return Failure(FileNotFound(fileId));
      }
      var pieces := ReadInPieces(files[path]);
      return Success(pieces);
    }

    /** `delete_file`: True exactly when the file existed and was removed;
        an OS error on removal (`removeFails`) is caught and gives False. */
    method DeleteFile(fileId: Id, userId: Id, removeFails: bool) returns (deleted: bool)
      modifies this
      ensures deleted == (FilePath(fileId, userId) in old(files) && !removeFails)
      ensures files == if deleted then old(files) - {FilePath(fileId, userId)} else old(files)
    {
      var path := FilePath(fileId, userId);
      if path in files && !removeFails {
        files := files - {path};
        return true;
      }
      return false;
    }

    /** `get_file_size`: the file's length in bytes, or an error when absent. */
    method GetFileSize(fileId: Id, userId: Id) returns (r: Result<nat, LocalError>)
      ensures FilePath(fileId, userId) in files <==> r.Success?
      ensures r.Success? ==> r.value == |files[FilePath(fileId, userId)]|
      ensures r.Failure? ==> r.error == FileNotFound(fileId)
    {
      var path := FilePath(fileId, userId);
      if path !in files {
        return Failure(FileNotFound(fileId));
      }
      return Success(|files[path]|);
    }

    /** `file_exists`. */
    method FileExists(fileId: Id, userId: Id) returns (b: bool)
      ensures b <==> FilePath(fileId, userId) in files
    {
      b := FilePath(fileId, userId) in files;
    }

    /** `copy_file`: False, with nothing changed, when the source is absent.
        `shutil.copy2` onto the same path raises `SameFileError` before
        opening anything, which is caught, so copying a file onto itself
        also gives False. Any other copy error is caught too (`fault`); one
        that strikes after the destination was opened leaves there what had
        been written. Otherwise the destination holds the source's bytes. */
    method CopyFile(sourceFileId: Id, destFileId: Id, userId: Id, fault: CopyFault) returns (ok: bool)
      modifies this
      ensures ok == (FilePath(sourceFileId, userId) in old(files) && sourceFileId != destFileId && fault.NoCopyFault?)
      ensures var source, dest := FilePath(sourceFileId, userId), FilePath(destFileId, userId);
              files == if ok then old(files)[dest := old(files)[source]]
                       else if source in old(files) && sourceFileId != destFileId && fault.FailsAfterWriting?
                       then old(files)[dest := PartialCopy(old(files)[source], fault.written)]
                       else old(files)
    {
      var source := FilePath(sourceFileId, userId);
      var dest := FilePath(destFileId, userId);
      if source !in files {
        return false;
      }
      PathLayout(sourceFileId, 0, userId, destFileId, 0, userId);
      if source == dest {
        return false;
      }
      match fault {
        case NoCopyFault =>
          files := files[dest := files[source]];
          ok := true;
        case FailsBeforeOpen =>
          ok := false;
        case FailsAfterWriting(n) =>
          files := files[dest := PartialCopy(files[source], n)];
          ok := false;
      }
    }
  }
}
