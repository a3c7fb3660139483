/** The storage backend factory (backend/storage/factory.py): a
    process-wide singleton, chosen by name, case-insensitively, on first
    use. What the backends find when they start (a bucket or not, stored
    objects, faults of the bucket check) is an input. */
module Factory {
  import opened Wrappers
  import opened Text
  import opened Blobs
  import opened Config
  import opened LocalStorageModel
  import opened S3StorageModel
  import opened MinIOStorageModel

  datatype BackendKind = S3Kind | MinIOKind | LocalKind

  /** A constructed backend. */
  datatype Backend =
    | S3Backend(s3: S3Storage)
    | MinIOBackend(minio: MinIOStorage)
    | LocalBackend(local: LocalStorage)

  function KindOf(b: Backend): BackendKind
  {
    match b
    case S3Backend(_) => S3Kind
    case MinIOBackend(_) => MinIOKind
    case LocalBackend(_) => LocalKind
  }

  /** The backend a configured name selects, by its lower-cased form. */
  function Dispatch(name: string): (k: Option<BackendKind>)
    ensures k == Some(S3Kind) <==> Lower(name) == "s3"
    ensures k == Some(MinIOKind) <==> Lower(name) == "minio"
    ensures k == Some(LocalKind) <==> Lower(name) == "local"
    ensures k == None <==> Lower(name) !in ["s3", "minio", "local"]
  {
    var backendType := Lower(name);
    if backendType == "s3" then Some(S3Kind)
    else if backendType == "minio" then Some(MinIOKind)
    else if backendType == "local" then Some(LocalKind)
    else None
  }

  /** Names that differ only in letter case select the same backend. */
  lemma DispatchIgnoresCase(name: string)
    ensures Dispatch(Lower(name)) == Dispatch(name)
  {
    LowerIdempotent(name);
  }

  /** The state the chosen backend meets when it is constructed. */
  datatype World = World(
    bucketPresent: bool,
    objects: Store,
    localFiles: Store,
    s3HeadFault: Option<string>,
    s3CreateFails: bool,
    minioFault: bool)

  /** Why `get_storage_backend` raised. */
  datatype FactoryError =
    | UnknownBackend(message: string)
    | S3InitFailed(s3Error: S3StorageModel.S3Error)
    | MinIOInitFailed(minioError: MinIOStorageModel.MinIOError)

  function UnknownBackendMessage(name: string): string
  {
    "Unknown storage backend: " + Lower(name) + ". Valid options are: s3, minio, local"
  }

  /** Whether the S3 backend's bucket check lets construction finish. */
  predicate S3Starts(w: World) {
    match HeadBucketCode(w.bucketPresent, w.s3HeadFault)
    case None => true
    case Some(code) => code == "404" && !w.s3CreateFails
  }

  class StorageFactory {
    /** `_storage_backend`. */
    var instance: Option<Backend>

    constructor ()
      ensures instance == None
    {
      instance := None;
    }

    /** `get_storage_backend`: a set instance is returned as it is, without
        looking at the settings. Otherwise the lower-cased name chooses the
        backend; an unknown name raises ValueError, and a backend whose
        construction raises is not kept, so in both cases the singleton
        stays unset. A successful call always returns the singleton. */
    method GetStorageBackend(s: Settings, w: World) returns (r: Result<Backend, FactoryError>)
      modifies this
      ensures old(instance).Some? ==> r == Success(old(instance).value) && instance == old(instance)
      ensures old(instance).None? ==>
                match Dispatch(s.storageBackend)
                case None => r == Failure(UnknownBackend(UnknownBackendMessage(s.storageBackend)))
                case Some(kind) =>
                  && (r.Success? ==> KindOf(r.value) == kind)
                  && (r.Success? <==> match kind
                                      case S3Kind => S3Starts(w)
                                      case MinIOKind => !w.minioFault
                                      case LocalKind => true)
      ensures r.Success? ==> instance == Some(r.value)
      ensures r.Failure? ==> instance == None
    {
      if instance.Some? {
        return Success(instance.value);
      }
      var backendType := Dispatch(s.storageBackend);
      if backendType == Some(S3Kind) {
        var store := new S3Storage(s.s3Bucket, w.bucketPresent, w.objects);
        var ready := store.EnsureBucket(w.s3HeadFault, w.s3CreateFails);
        if ready.Fail? {
          return Failure(S3InitFailed(ready.error));
        }
        instance := Some(S3Backend(store));
      } else if backendType == Some(MinIOKind) {
        var store := new MinIOStorage(s.minioBucket, w.bucketPresent, w.objects);
        var ready := store.EnsureBucket(w.minioFault);
        if ready.Fail? {
          return Failure(MinIOInitFailed(ready.error));
        }
        instance := Some(MinIOBackend(store));
      } else if backendType == Some(LocalKind) {
        var store := new LocalStorage(s.storagePath, w.localFiles);
        instance := Some(LocalBackend(store));
      } else {
        return Failure(UnknownBackend(UnknownBackendMessage(s.storageBackend)));
      }
      return Success(instance.value);
    }

    /** `reset_storage_backend`: the next call chooses again. */
    method ResetStorageBackend()
      modifies this
      ensures instance == None
    {
      instance := None;
    }
  }
}
