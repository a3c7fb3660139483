# FileGuard backend, modelled in Dafny

FileGuard stores end-to-end encrypted files. The browser encrypts every
chunk; the Python backend only sees opaque ciphertext. This project models
the backend logic that handles those bytes and the records around them:

- **Settings** (`backend/core/config.py`): URL assembly for PostgreSQL,
  Redis and Celery; the comma-separated CORS and extension lists; MB-to-byte
  sizes; the `app_env` and `log_level` validators; the production safety
  checks of `model_post_init`. Pydantic runs every field validator and
  reports all their errors together, and only then runs post-init. `Config.Load` does the same.
- **Storage keys** (`backend/storage/base.py`): `users/{user}/files/{file}`
  and `users/{user}/chunks/{file}/{n:06d}`. Python's `{n:06d}` formatting is
  written out, negative numbers included.
- **Three storage backends** (`local_storage.py`, `s3_storage.py`,
  `minio_storage.py`): each is a class whose store is a map from path or
  object key to bytes. Chunked upload, finalisation by in-order
  concatenation, chunk clean-up, 64 KiB streaming download, delete, size,
  exists and copy are methods proved against that map.
  - Local finalisation empties the final file first and appends chunk by
    chunk. A missing chunk therefore leaves a partial file and keeps the
    chunk directory.
  - S3 and MinIO read every chunk before writing, so a missing chunk changes nothing.
  - On success, Local removes the whole chunk directory. S3 and MinIO delete only chunks `0..n-1`, each delete's failure ignored.
- **Clean-up sweep** (`backend/tasks/cleanup.py`): the selection of failed
  uploads and stale pending ones, the delete-and-count loop, the batched
  commit and the system audit entry. Every fault the Celery task catches is modelled.
- **Antivirus** (`backend/tasks/antivirus.py`): the classification of
  clamd's `instream` reply, the scanner's enabled guard, and the Celery task's
  status transitions (`scanning`, then the final status), together with the infected-file audit entry and the retry on failure.
- **Storage factory** (`backend/storage/factory.py`): the process-wide
  singleton, with case-insensitive dispatch, memoisation and reset.

Outside services are inputs:
- the filesystem, the S3 bucket and the MinIO bucket are maps;
- an object-store call can fail on an object that is there (access denied, throttling), so each caught client failure is a boolean or a set of failing chunk numbers, while an absent object is read off the map;
- the clamd socket's answers are given values;
- storage deletion in the sweep is an oracle from row to outcome;
- the clock is an integer `now` in seconds.

Where the code and its descriptions disagree, the model follows the code.
The `storage_backend` field is described as "s3 or minio"
(`backend/core/config.py:110`), but the factory also accepts `local`, and so does `Factory.Dispatch`.

Files:
- `wrappers.dfy`: Option, Result, Outcome.
- `text.dfy`: Python string helpers (`str(int)`, `{:06d}`, `split`, `strip`, `lower`, `upper`).
- `config.dfy`, `storage_keys.dfy`.
- `blobs.dfy`: byte stores, concatenation, the read loop.
- `object_cleanup.dfy`: the chunk keys a finalisation deletes.
- `local_storage.dfy`, `s3_storage.dfy`, `minio_storage.dfy`, `factory.dfy`.
- `records.dfy`: rows and the database session.
- `cleanup.dfy`, `antivirus.dfy`.

## Model

| member | source | states |
|---|---|---|
| Text.ParseNatToString | backend/storage/base.py:164 | reading the decimal digits of `str(n)` gives back n |
| Text.IntToStringRoundTrip | backend/storage/local_storage.py:76-77 | `str(i)` of any int, as in "Chunk k not found", is a signed decimal that parses back to i |
| Text.FormatInt06RoundTrip | backend/storage/base.py:164 | `{n:06d}` of any int, negative included, is a signed decimal that parses back to n |
| Text.FormatInt06Width | backend/storage/base.py:164 | for 0 <= n < 1,000,000, `{n:06d}` is exactly six digits |
| Text.ZeroFillParse | backend/storage/base.py:164 | zero-padding a digit string to any width keeps it all digits and keeps its value |
| Text.SplitJoin | backend/core/config.py:148 | joining the pieces of `split(",")` with the separator gives back the input |
| Text.JoinSplit | backend/core/config.py:148 | splitting a join of separator-free pieces gives back the pieces |
| Text.SplitLength | backend/core/config.py:148 | `split(",")` has one more piece than the input has commas |
| Text.StripPadded | backend/core/config.py:148 | `strip` removes exactly the surrounding whitespace of a padded word |
| Text.StripIdempotent | backend/core/config.py:148 | stripping twice is stripping once |
| Text.StripTrimmed | backend/core/config.py:148 | a word with no surrounding whitespace is left as it is by `strip` |
| Text.LowerIdempotent | backend/storage/factory.py:28 | lower-casing twice is lower-casing once |
| Text.UpperIdempotent | backend/core/config.py:245-252 | upper-casing twice is upper-casing once |
| Text.Lower | backend/core/config.py:178 | same length; no upper-case letter remains; each upper-case letter becomes its lower-case partner and every other character is kept |
| StorageKeys.FileKey | backend/storage/base.py:146-152 | definition: `users/{user_id}/files/{file_id}` |
| StorageKeys.ChunkKey | backend/storage/base.py:154-164 | definition: `users/{user_id}/chunks/{file_id}/` followed by the chunk number written as `{n:06d}` |
| StorageKeys.ChunkPrefix | backend/storage/base.py:154-164 | definition: the chunk key without its number, `users/{user_id}/chunks/{file_id}/`, under which every chunk key of that file lies |
| StorageKeys.ChunkKeys | backend/storage/base.py:154-164 | the i-th of the n keys is the chunk key of chunk i |
| StorageKeys.ChunkKeyLastSegment | backend/storage/base.py:154-164 | a chunk key is the chunk prefix plus a '/'-free signed decimal that parses back to the chunk number; below a million it is exactly six zero-padded digits |
| StorageKeys.ChunkKeyInjective | backend/storage/base.py:164 | distinct (file, chunk number, user) triples give distinct chunk keys |
| StorageKeys.FileKeyInjective | backend/storage/base.py:147-152 | distinct (file, user) pairs give distinct file keys |
| StorageKeys.ChunkKeyNotFileKey | backend/storage/base.py:146-164 | no chunk key is a file key |
| StorageKeys.ChunkPrefixSelects | backend/storage/base.py:164 | a chunk key starts with `users/{u}/chunks/{f}/` exactly when it belongs to file f of user u |
| StorageKeys.FileKeyOutsideChunkPrefix | backend/storage/base.py:146-164 | no file key lies under any chunk prefix |
| Blobs.ReadInPieces | backend/storage/local_storage.py:103-109 | the read loop yields non-empty pieces of at most 64 KiB, all full but the last, that concatenate to the data |
| Blobs.ReadStreamIsPieces | backend/storage/s3_storage.py:130-138 | any such stream is the reference cutting of the data into 64 KiB pieces |
| Blobs.FirstMissing | backend/storage/s3_storage.py:85-91 | the first chunk that cannot be read: it is absent and all before it are present |
| Blobs.FirstMissingAt | backend/storage/local_storage.py:72-77 | a loop that meets an absent key at i, after present ones, stops at the first missing key |
| Blobs.RemoveUnder | backend/storage/local_storage.py:84-87 | removing a directory drops exactly the paths under it and keeps every other file's content |
| Blobs.RemoveKeys | backend/storage/s3_storage.py:101-107 | removing a key set drops exactly those keys and keeps every other object's content |
| ObjectCleanup.DeletedChunks | backend/storage/s3_storage.py:101-107 | the chunk keys of every index below n whose delete does not fail |
| ObjectCleanup.DeletedChunksExactly | backend/storage/minio_storage.py:95-101 | a deleted key is the chunk key of an index below n whose delete does not fail, and nothing else |
| ObjectCleanup.DeletedChunksAvoidFiles | backend/storage/s3_storage.py:93-107 | the chunk deletions never touch a file key, so the final object survives them |
| ObjectCleanup.FailedReads | backend/storage/s3_storage.py:85-91 | the chunk keys of the chunk numbers whose `get_object` fails |
| ObjectCleanup.Readable | backend/storage/minio_storage.py:75-83 | definition: the store as the chunk-reading loop sees it, without the chunks whose read fails |
| ObjectCleanup.ReadableChunk | backend/storage/s3_storage.py:85-91 | chunk i can be read exactly when it is stored and its read does not fail |
| ObjectCleanup.ReadableWithoutFailures | backend/storage/minio_storage.py:75-83 | with no failing read, the loop sees the whole store |
| ObjectCleanup.GatherRemoveKeys | backend/storage/s3_storage.py:85-89 | chunks that can be read are stored, and read back with their stored bytes |
| LocalStorageModel.LocalStorage.FilePath | backend/storage/local_storage.py:29-33 | definition: the file key under the storage root, `{storage_path}/users/{user_id}/files/{file_id}` |
| LocalStorageModel.LocalStorage.ChunkPath | backend/storage/local_storage.py:35-44 | definition: the chunk key under the storage root, ending in the six-digit chunk number |
| LocalStorageModel.LocalStorage.ChunkDir | backend/storage/local_storage.py:42 | definition: the chunk prefix under the storage root; a path lies in `chunks_dir` exactly when it starts with it |
| LocalStorageModel.UnderInjective | backend/storage/local_storage.py:29-44 | distinct keys under the storage root are distinct paths |
| LocalStorageModel.LocalStorage.PathLayout | backend/storage/local_storage.py:29-44 | chunk paths and file paths are injective and disjoint; a chunk directory holds exactly its file's chunks and no stored file |
| LocalStorageModel.LocalStorage.UploadChunk | backend/storage/local_storage.py:46-59 | the chunk path holds exactly the chunk's bytes and is returned; no other path changes |
| LocalStorageModel.LocalStorage.FinalizeUpload | backend/storage/local_storage.py:61-89 | all chunks present: the final file is their in-order concatenation and the whole chunk directory is gone unless its removal fails. Chunk k missing: "Chunk k not found", with the final file holding chunks 0..k-1 and the chunks kept |
| LocalStorageModel.LocalStorage.DownloadFile | backend/storage/local_storage.py:91-109 | a missing file raises; otherwise the pieces are a 64 KiB read stream of the file |
| LocalStorageModel.LocalStorage.DeleteFile | backend/storage/local_storage.py:111-126 | True exactly when the file existed and its removal did not fail, and then only that file is gone; otherwise nothing changes |
| LocalStorageModel.LocalStorage.GetFileSize | backend/storage/local_storage.py:128-139 | the file's byte length, or "File not found" when it is absent |
| LocalStorageModel.LocalStorage.FileExists | backend/storage/local_storage.py:141-148 | True exactly when the file is stored |
| LocalStorageModel.LocalStorage.CopyFile | backend/storage/local_storage.py:150-168 | True exactly when the source exists, differs from the destination and the copy does not fail; then the destination holds the source's bytes. A copy that fails after opening the destination leaves there the bytes written so far; every other failure changes nothing |
| LocalStorageModel.PartialCopy | backend/storage/local_storage.py:164 | what a `copy2` that stops after n bytes leaves at the destination: a prefix of the source of length n, or all of it when n reaches its length |
| S3StorageModel.S3Storage.EnsureBucket | backend/storage/s3_storage.py:35-50 | a bucket that answers is kept; code "404" creates it unless creation fails; any other code is raised; objects never change |
| S3StorageModel.S3Storage.UploadChunk | backend/storage/s3_storage.py:52-70 | the chunk key holds exactly the chunk's bytes and is returned; no other object changes |
| S3StorageModel.S3Storage.CombineChunks | backend/storage/s3_storage.py:79-91 | when every chunk 0..n-1 is stored and its read does not fail, their in-order concatenation; otherwise "Failed to read chunk k" for the first k that is absent or whose read fails |
| S3StorageModel.S3Storage.RemoveChunks | backend/storage/s3_storage.py:101-107 | exactly the chunk keys 0..n-1 whose delete does not fail are removed |
| S3StorageModel.S3Storage.FinalizeUpload | backend/storage/s3_storage.py:72-111 | all chunks readable: the file key holds their in-order concatenation (empty for zero chunks), chunks 0..n-1 are deleted except failing deletes, and the file key is returned. A chunk absent or failing to read: "Failed to read chunk k" for the first one, and nothing changes |
| S3StorageModel.S3Storage.DownloadFile | backend/storage/s3_storage.py:113-140 | "File not found" for a missing key or a failing `get_object`; otherwise a 64 KiB read stream of the object |
| S3StorageModel.S3Storage.DeleteFile | backend/storage/s3_storage.py:142-158 | True whenever the client does not fail, whether or not the object existed; then the key is absent |
| S3StorageModel.S3Storage.GetFileSize | backend/storage/s3_storage.py:160-175 | the object's byte length exactly when it is stored and `head_object` does not fail; otherwise "File not found" |
| S3StorageModel.S3Storage.FileExists | backend/storage/s3_storage.py:177-192 | True exactly when the object is there and the call does not fail |
| S3StorageModel.S3Storage.CopyFile | backend/storage/s3_storage.py:194-220 | True exactly when the source exists, the keys differ and the client does not fail; then the destination holds the source's bytes |
| MinIOStorageModel.MinIOStorage.EnsureBucket | backend/storage/minio_storage.py:29-37 | the bucket exists afterwards unless the call fails, and then the error is raised; objects never change |
| MinIOStorageModel.MinIOStorage.UploadChunk | backend/storage/minio_storage.py:39-60 | the chunk key holds exactly the chunk's bytes and is returned |
| MinIOStorageModel.MinIOStorage.CombineChunks | backend/storage/minio_storage.py:71-83 | when every chunk 0..n-1 is stored and its read does not fail, their in-order concatenation; otherwise "Failed to read chunk k" for the first k that is absent or whose read fails |
| MinIOStorageModel.MinIOStorage.RemoveChunks | backend/storage/minio_storage.py:95-101 | exactly the chunk keys 0..n-1 whose removal does not fail are removed |
| MinIOStorageModel.MinIOStorage.FinalizeUpload | backend/storage/minio_storage.py:62-105 | as for S3: the in-order concatenation is written, then chunks 0..n-1 are removed; a chunk absent or failing to read gives "Failed to read chunk k" for the first one and changes nothing |
| MinIOStorageModel.MinIOStorage.DownloadFile | backend/storage/minio_storage.py:107-133 | "File not found" for a missing object or a failing `get_object`; otherwise a 64 KiB read stream |
| MinIOStorageModel.MinIOStorage.DeleteFile | backend/storage/minio_storage.py:135-151 | True whenever the client does not fail; then the object is absent |
| MinIOStorageModel.MinIOStorage.GetFileSize | backend/storage/minio_storage.py:153-168 | the stat size exactly when the object is stored and `stat_object` does not fail; otherwise "File not found" |
| MinIOStorageModel.MinIOStorage.FileExists | backend/storage/minio_storage.py:170-185 | True exactly when the stat succeeds |
| MinIOStorageModel.MinIOStorage.CopyFile | backend/storage/minio_storage.py:187-210 | True exactly when the source exists, the names differ and the client does not fail; then the destination holds the source's bytes |
| Config.DatabaseUrl | backend/core/config.py:70-76 | definition: `postgresql://{user}:{password}@{server}:{port}/{db}`, the port in decimal |
| Config.DatabaseUrlInjective | backend/core/config.py:70-76 | when user and server hold no ':' and the password no '@', the URL determines all five parts |
| Config.DatabaseUrlShape | backend/core/config.py:70-76 | the URL is "postgresql://" followed by user, ":", password, "@", server, ":", port and "/" database |
| Config.DatabaseUrlAmbiguous | backend/core/config.py:70-76 | with an '@' in the password, two different settings give the same URL |
| Config.RedisUrl | backend/core/config.py:86-91 | definition: `redis://:{password}@{host}:{port}/{db}` when the password is truthy, otherwise `redis://{host}:{port}/{db}` |
| Config.RedisUrlCarriesPassword | backend/core/config.py:86-91 | for a host without '@', the URL has an '@' exactly when the password is truthy, and then carries ":password@" after "redis://" |
| Config.CeleryBrokerUrl | backend/core/config.py:97-100 | the configured broker URL when non-empty, else the Redis URL |
| Config.CeleryResultBackend | backend/core/config.py:102-105 | the configured result backend when non-empty, else the Redis URL |
| Config.CommaList | backend/core/config.py:145-153 | one item per comma-separated piece, in order, each the stripped piece |
| Config.CommaListJoin | backend/core/config.py:145-153 | joining stripped, comma-free items with commas and listing them gives back the items |
| Config.CorsOriginsList | backend/core/config.py:145-148 | commas + 1 origins, each stripped |
| Config.CorsMethodsList | backend/core/config.py:150-153 | commas + 1 methods, each stripped |
| Config.AllowedExtensionsList | backend/core/config.py:173-178 | empty exactly when the setting is "*"; otherwise each piece stripped and lower-cased |
| Config.AllowedExtensionsStable | backend/core/config.py:173-178 | the listed extensions are already stripped and lower-case |
| Config.MaxFileSizeBytes | backend/core/config.py:163-166 | a whole number of MiB, equal to the setting in MB |
| Config.MaxChunkSizeBytes | backend/core/config.py:168-171 | a whole number of MiB, equal to the setting in MB |
| Config.ValidateEnvironment | backend/core/config.py:236-243 | accepted exactly when the lower-cased value is allowed, and then returns it; otherwise the error message |
| Config.ValidateEnvironmentIdempotent | backend/core/config.py:236-243 | validating an accepted value again gives the same value |
| Config.ValidateEnvironmentIgnoresCase | backend/core/config.py:236-243 | values equal up to case validate alike |
| Config.ValidateLogLevel | backend/core/config.py:245-252 | accepted exactly when the upper-cased value is allowed, and then returns it; otherwise the error message |
| Config.ValidateLogLevelIdempotent | backend/core/config.py:245-252 | validating an accepted level again gives the same level |
| Config.IsDevelopment | backend/core/config.py:254-257 | definition: the environment is exactly "development" |
| Config.IsProduction | backend/core/config.py:259-262 | definition: the environment is exactly "production" |
| Config.ModelPostInit | backend/core/config.py:254-278 | passes exactly when not in production or the settings are production-safe; each failed check raises its own message, in order |
| Config.Load | backend/core/config.py:236-278 | succeeds exactly when both validators accept and, for a production environment, the post-init checks pass; then it holds the normalised values |
| Config.LoadIdempotent | backend/core/config.py:236-278 | loading loaded settings again gives the same settings |
| Config.ProductionNeedsSecret | backend/core/config.py:264-270 | a production configuration with the default secret key is refused |
| Config.DefaultsLoad | backend/core/config.py:27-234 | the defaults load unchanged, as a development configuration |
| Records.FindFile | backend/tasks/antivirus.py:87-89 | the position of the first row with the id, or none when no row has it |
| Records.RemoveRecords | backend/tasks/cleanup.py:68 | the rows not staged for deletion, and only those |
| Cleanup.Cutoff | backend/tasks/cleanup.py:33 | definition: the clock minus `days` days of 86400 seconds |
| Cleanup.Selected | backend/tasks/cleanup.py:36-39 | definition: the upload status is "failed", or it is "pending" and the creation time is set and strictly before the cutoff |
| Cleanup.Select | backend/tasks/cleanup.py:33-39 | exactly the rows that are "failed", or "pending" with a creation time strictly before the cutoff; a pending row whose nullable `created_at` is NULL is not selected |
| Cleanup.Survivors | backend/tasks/cleanup.py:36-68 | exactly the rows that are not both selected and reported deleted |
| Cleanup.RemoveDoomed | backend/tasks/cleanup.py:50-68 | removing the rows whose delete returned True leaves the survivors |
| Cleanup.RemoveDeleted | backend/tasks/cleanup.py:50-68 | committing the staged rows (selected, delete returned True) leaves exactly the survivors |
| Cleanup.SurvivorsKeep | backend/tasks/cleanup.py:36-39 | a row the query does not select is never removed |
| Cleanup.SurvivorsCount | backend/tasks/cleanup.py:43-68 | survivors plus deleted rows make up the table |
| Cleanup.DeleteSelected | backend/tasks/cleanup.py:43-66 | every selected row is tried once; the rows whose delete returned True are staged and counted deleted, every other row (False or an exception) counts one failure, so deleted + failed = rows |
| Cleanup.CleanupOldFiles | backend/tasks/cleanup.py:18-98 | `days` defaults to 90; deleted + failed = selected rows; only rows whose delete returned True are removed; the audit entry has no user, "system_cleanup" and the returned counts; an outer error returns 'error' with the counts reached |
| Antivirus.ScanStream | backend/tasks/antivirus.py:40-65 | clean exactly for 'OK', infected with the detail as virus name exactly for 'FOUND'; a missing result or stream entry, or an exception, is an error |
| Antivirus.TupleRepr | backend/tasks/antivirus.py:59 | definition: `str()` of clamd's (status, detail) tuple, `('tag', 'detail')` or `('tag', None)` |
| Antivirus.ScanStreamRoundTrip | backend/tasks/antivirus.py:54-57 | clamd's OK and FOUND replies classify to clean and to infected with that name |
| Antivirus.OpenScanner | backend/tasks/antivirus.py:21-24 | the scanner opens exactly when ClamAV is enabled |
| Antivirus.StatusName | backend/tasks/antivirus.py:143-169 | the status is one of clean, infected, error |
| Antivirus.RunVerdict | backend/tasks/antivirus.py:98-141 | definition: skipped when ClamAV is off; "ClamAV is not responding" when the ping is not PONG; the download's error when it fails; otherwise clamd's classification of the concatenated pieces |
| Antivirus.FinalResult | backend/tasks/antivirus.py:143-192 | definition: the `av_scan_result` written for each verdict: "ClamAV disabled", "No threats detected", "Virus found: {name}" (`None` when clamd gave no name, since `virus_name` is always set), the scan's error message, or "Scan failed: {error}" |
| Antivirus.FinalStatusMeaning | backend/tasks/antivirus.py:98-198 | the final status is skipped exactly when scanning is off, infected exactly for FOUND, clean exactly for OK, and error for any failure |
| Antivirus.ReadAll | backend/tasks/antivirus.py:130-138 | the downloaded pieces, concatenated |
| Antivirus.RunScan | backend/tasks/antivirus.py:98-141 | the scan's verdict: skipped when ClamAV is off, a failure when ping is not PONG or the download fails, otherwise the classification of the downloaded bytes |
| Antivirus.RecordVerdict | backend/tasks/antivirus.py:143-198 | the row gets the final status and result, the status log gains that status, the infected audit is added exactly for an infected verdict, and the Celery task retries exactly for a failure |
| Antivirus.ScanFileTask | backend/tasks/antivirus.py:68-201 | a missing row retries with nothing changed; otherwise the status goes to 'scanning' and then the final status, the infected audit is added exactly for an infected result, and a failure retries with "Scan failed: ..." stored |
| Factory.Dispatch | backend/storage/factory.py:28-43 | s3, minio or local exactly when the lower-cased name is that word; nothing otherwise |
| Factory.DispatchIgnoresCase | backend/storage/factory.py:28 | a name and its lower-cased form select the same backend |
| Factory.StorageFactory.GetStorageBackend | backend/storage/factory.py:16-45 | a set singleton is returned unchanged; otherwise the chosen backend is built and kept, an unknown name or a failed construction leaves it unset, and success always returns the singleton |
| Factory.StorageFactory.ResetStorageBackend | backend/storage/factory.py:48-51 | the singleton is unset, so the next call chooses again |

## Left out

- Client-side envelope encryption (key derivation, key wrapping, chunk cipher): it runs in the browser, not in this backend. The backend keeps its outputs as opaque columns, which `Records.FileMetadata` omits.
- boto3, minio, aiofiles, shutil, clamd, SQLAlchemy and Celery are not modelled as such. Stores are maps, and the failures the code catches are inputs.
- Failures the code does not catch are not modelled: a failing `put_object`, an OS error while writing a chunk.
- Antivirus.ScanFileTask: a failing database commit is caught by the outer handler, which marks the row as errored where it can and retries; the model takes every commit of the scan to succeed.
- Directories are implicit path prefixes; `mkdir`, permissions and path normalisation (`..`, symlinks) are not modelled.
- LocalStorageModel.LocalStorage.FinalizeUpload: a failing `rmtree` is modelled as removing nothing, though it may have removed part of the directory.
- Blobs.ReadInPieces: every read returns a full 64 KiB unless less remains. A short read mid-file would make smaller pieces that still concatenate to the file.
- MinIOStorageModel.MinIOStorage.UploadChunk: the declared `length` passed to `put_object` is not separate state. It always equals the length of the data written.
- MinIOStorageModel.MinIOStorage.FinalizeUpload: the declared length of the final object is not separate state either.
- S3StorageModel.S3Storage.EnsureBucket: which error code `head_bucket` returns for a present bucket is an input.
- `asyncio`: `to_thread`, event loops and async generators. Downloads return the sequence of pieces in order.
- The clock is an integer input in seconds. `datetime` arithmetic is subtraction of `days * 86400`; `isoformat` of the cutoff is not modelled (the audit entry holds the number).
- Text.Lower: `strip`, `lower` and `upper` act on ASCII whitespace and letters only; Unicode case mapping and whitespace are not modelled.
- Celery scheduling: retry countdown, `max_retries` and time limits are not modelled. A retry is a `Retry` outcome.
- `uuid.UUID` parsing of the Celery task arguments: ids are strings without '/', and a malformed id is not modelled.
- Antivirus.TupleRepr: the quoting of `str(tuple)` for an unknown clamd verdict does not escape quotes inside the strings.
- Antivirus.ScanStream: a `stream` entry holding an empty tuple (an `IndexError` on `[0]`) is not modelled; entries always have a tag.
- Logging and `print` output.
- `Config.Settings` holds only the fields the modelled code reads; loading from the environment and `.env` is not modelled, and values arrive already typed.
- Web routers, schemas, the placeholder `backend/tasks.py`, notifications and `models_extended.py` are not part of this model.
