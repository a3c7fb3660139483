/** The object keys every storage backend uses (backend/storage/base.py):
    one key per stored file and one per uploaded chunk. */
module StorageKeys {
  import opened Text

  /** The text of a `uuid.UUID`: hexadecimal digits and dashes, so it never
      holds a '/'. */
  type Id = s: string | '/' !in s

  /** The `users/{user_id}/{rest}` path both key forms share. */
  function UserPath(userId: Id, rest: string): string
  {
    "users/" + userId + "/" + rest
  }

  /** `_get_file_key`: `users/{user_id}/files/{file_id}`. */
  function FileKey(fileId: Id, userId: Id): string
  {
    UserPath(userId, "files/" + fileId)
  }

  /** `_get_chunk_key`: `users/{user_id}/chunks/{file_id}/{chunk_number:06d}`. */
  function ChunkKey(fileId: Id, chunkNumber: int, userId: Id): string
  {
    UserPath(userId, "chunks/" + fileId + "/" + FormatInt06(chunkNumber))
  }

  /** The directory-like prefix shared by all chunk keys of one file. */
  function ChunkPrefix(fileId: Id, userId: Id): string
  {
    UserPath(userId, "chunks/" + fileId + "/")
  }

  /** The keys of chunks `0 .. count - 1`, in upload order. */
  function ChunkKeys(fileId: Id, userId: Id, count: nat): (keys: seq<string>)
    ensures |keys| == count
    ensures forall i :: 0 <= i < count ==> keys[i] == ChunkKey(fileId, i, userId)
  {
    seq(count, i requires 0 <= i < count => ChunkKey(fileId, i, userId))
  }

  /** Equal user paths have equal user segments and equal remainders. */
  lemma UserSegment(u: Id, x: string, u': Id, y: string)
    requires UserPath(u, x) == UserPath(u', y)
    ensures u == u' && x == y
  {
    assert UserPath(u, x)[6..] == u + ['/'] + x;
    assert UserPath(u', y)[6..] == u' + ['/'] + y;
    SplitAtFirst(u, x, u', y, '/');
  }

  lemma UserPathAppend(u: Id, x: string, y: string)
    ensures UserPath(u, x) + y == UserPath(u, x + y)
  {
  }

  lemma ChunksTail(f: Id, rest: string)
    ensures ("chunks/" + f + "/" + rest)[7..] == f + ['/'] + rest
  {
  }

  lemma ChunkKeyShape(f: Id, n: int, u: Id)
    ensures ChunkKey(f, n, u) == ChunkPrefix(f, u) + FormatInt06(n)
  {
    UserPathAppend(u, "chunks/" + f + "/", FormatInt06(n));
  }

  /** Every chunk key of a file lies under that file's chunk prefix, and its
      last segment is the chunk number: below a million exactly six digits,
      zero-padded, that read back as the number; in general a signed decimal
      without '/' that reads back as the number. */
  lemma ChunkKeyLastSegment(f: Id, n: int, u: Id)
    ensures var d := FormatInt06(n);
      && ChunkKey(f, n, u) == ChunkPrefix(f, u) + d
      && '/' !in d
      && IsSignedDecimal(d) && ParseSigned(d) == n
      && (0 <= n < 1000000 ==> |d| == 6 && AllDigits(d) && ParseNat(d) == n)
  {
    var d := FormatInt06(n);
    ChunkKeyShape(f, n, u);
    FormatInt06RoundTrip(n);
    SignedDecimalChars(d);
    if 0 <= n < 1000000 {
      FormatInt06Width(n);
    }
  }

  /** Distinct (file, chunk number, user) triples never share a chunk key. */
  lemma ChunkKeyInjective(f: Id, n: int, u: Id, f': Id, n': int, u': Id)
    requires ChunkKey(f, n, u) == ChunkKey(f', n', u')
    ensures f == f' && n == n' && u == u'
  {
    var d, d' := FormatInt06(n), FormatInt06(n');
    var x := "chunks/" + f + "/" + d;
    var x' := "chunks/" + f' + "/" + d';
    UserSegment(u, x, u', x');
    ChunksTail(f, d);
    ChunksTail(f', d');
    SplitAtFirst(f, d, f', d', '/');
    FormatInt06RoundTrip(n);
    FormatInt06RoundTrip(n');
  }

  /** Distinct (file, user) pairs never share a file key. */
  lemma FileKeyInjective(f: Id, u: Id, f': Id, u': Id)
    requires FileKey(f, u) == FileKey(f', u')
    ensures f == f' && u == u'
  {
    UserSegment(u, "files/" + f, u', "files/" + f');
    assert f == ("files/" + f)[6..];
    assert f' == ("files/" + f')[6..];
  }

  /** A chunk-shaped key and a file-shaped key differ: after the user
      segment one continues with "chunks/", the other with "files/". */
  lemma ChunkShapeIsNotFileShape(u: Id, f: Id, rest: string, u': Id, f': Id)
    ensures UserPath(u, "chunks/" + f + "/" + rest) != UserPath(u', "files/" + f')
  {
    var x, y := "chunks/" + f + "/" + rest, "files/" + f';
    assert x[0] == 'c' && y[0] == 'f';
    if UserPath(u, x) == UserPath(u', y) {
      UserSegment(u, x, u', y);
    }
  }

  /** No file key lies under any chunk prefix, so no file key is a chunk key. */
  lemma FileKeyOutsideChunkPrefix(f: Id, u: Id, f': Id, u': Id)
    ensures !(ChunkPrefix(f, u) <= FileKey(f', u'))
  {
    var p, k := ChunkPrefix(f, u), FileKey(f', u');
    if p <= k {
      var rest := k[|p|..];
      assert k == p + rest;
      UserPathAppend(u, "chunks/" + f + "/", rest);
      ChunkShapeIsNotFileShape(u, f, rest, u', f');
    }
  }

  lemma ChunkKeyNotFileKey(f: Id, n: int, u: Id, f': Id, u': Id)
    ensures ChunkKey(f, n, u) != FileKey(f', u')
  {
    ChunkKeyShape(f, n, u);
    FileKeyOutsideChunkPrefix(f, u, f', u');
  }

  /** A chunk prefix covers exactly the chunks of its own file. */
  lemma ChunkPrefixSelects(f: Id, u: Id, f': Id, n: int, u': Id)
    ensures ChunkPrefix(f, u) <= ChunkKey(f', n, u') <==> f == f' && u == u'
  {
    var p, k := ChunkPrefix(f, u), ChunkKey(f', n, u');
    var d := FormatInt06(n);
    ChunkKeyShape(f', n, u');
    if p <= k {
      var rest := k[|p|..];
      var x := "chunks/" + f + "/" + rest;
      var x' := "chunks/" + f' + "/" + d;
      assert k == p + rest;
      UserPathAppend(u, "chunks/" + f + "/", rest);
      UserSegment(u, x, u', x');
      ChunksTail(f, rest);
      ChunksTail(f', d);
      SplitAtFirst(f, rest, f', d, '/');
    }
  }
}
