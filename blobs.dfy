/** Byte strings and key-to-bytes stores: the common ground of the local
    filesystem, S3 and MinIO storage backends. */
module Blobs {

  newtype byte = x: int | 0 <= x < 256

  type Bytes = seq<byte>

  /** A bucket, or a directory tree: object key (or file path) to content. */
  type Store = map<string, Bytes>

  /** Every backend streams a stored object back in reads of 64 KiB. */
  const ReadSize: nat := 64 * 1024

  /** The pieces concatenated in order. */
  function Flatten(pieces: seq<Bytes>): Bytes
  {
    if pieces == [] then [] else Flatten(pieces[..|pieces| - 1]) + pieces[|pieces| - 1]
  }

  lemma {:induction false} FlattenCons(pieces: seq<Bytes>)
    requires pieces != []
    ensures Flatten(pieces) == pieces[0] + Flatten(pieces[1..])
  {
    if |pieces| > 1 {
      var init := pieces[..|pieces| - 1];
      FlattenCons(init);
      assert init[1..] == pieces[1..][..|pieces[1..]| - 1];
    } else {
      assert pieces[1..] == [];
    }
  }

  predicate AllPresent(store: Store, keys: seq<string>) {
    forall i :: 0 <= i < |keys| ==> keys[i] in store
  }

  /** The objects under `keys`, concatenated in the order of `keys`. */
  function Gather(store: Store, keys: seq<string>): Bytes
    requires AllPresent(store, keys)
  {
    if keys == [] then [] else Gather(store, keys[..|keys| - 1]) + store[keys[|keys| - 1]]
  }

  lemma GatherSnoc(store: Store, keys: seq<string>, i: nat)
    requires i < |keys| && AllPresent(store, keys[..i]) && keys[i] in store
    ensures AllPresent(store, keys[..i + 1])
    ensures Gather(store, keys[..i + 1]) == Gather(store, keys[..i]) + store[keys[i]]
  {
    assert keys[..i + 1][..i] == keys[..i];
  }

  /** The position of the first key with nothing stored under it. */
  function FirstMissing(store: Store, keys: seq<string>): (k: nat)
    requires !AllPresent(store, keys)
    ensures k < |keys| && keys[k] !in store
    ensures AllPresent(store, keys[..k])
  {
    if keys[0] !in store then 0 else 1 + FirstMissing(store, keys[1..])
  }

  /** A key found missing after all earlier keys were present is the first
      missing one. */
  lemma {:induction false} FirstMissingAt(store: Store, keys: seq<string>, i: nat)
    requires i < |keys| && AllPresent(store, keys[..i]) && keys[i] !in store
    ensures !AllPresent(store, keys) && FirstMissing(store, keys) == i
  {
    if i > 0 {
      assert keys[0] == keys[..i][0];
      assert keys[1..][..i - 1] == keys[..i][1..];
      FirstMissingAt(store, keys[1..], i - 1);
    }
  }

  /** The store with every entry whose key starts with `prefix` removed:
      what deleting a whole directory does. */
  function RemoveUnder(store: Store, prefix: string): (r: Store)
    ensures forall k :: k in r <==> k in store && !(prefix <= k)
    ensures forall k :: k in r ==> r[k] == store[k]
  {
    map k | k in store && !(prefix <= k) :: store[k]
  }

  /** The store with the entries under `keys` deleted. */
  function RemoveKeys(store: Store, keys: set<string>): (r: Store)
    ensures forall k :: k in r <==> k in store && k !in keys
    ensures forall k :: k in r ==> r[k] == store[k]
  {
    map k | k in store && k !in keys :: store[k]
  }

  // ------------------------------------------------------------------
  // Streaming an object back: `while True: piece = read(ReadSize) ...`
  // ------------------------------------------------------------------

  /** `pieces` is what the read loop yields for `data`: non-empty pieces of
      at most ReadSize bytes, all but the last exactly ReadSize, that
      concatenate to `data`. */
  predicate IsReadStream(pieces: seq<Bytes>, data: Bytes) {
    && Flatten(pieces) == data
    && (forall i :: 0 <= i < |pieces| ==> 0 < |pieces[i]| <= ReadSize)
    && (forall i :: 0 <= i < |pieces| - 1 ==> |pieces[i]| == ReadSize)
  }

  /** An independent reference: cut `data` into ReadSize pieces from the front. */
  function Pieces(data: Bytes): seq<Bytes>
    decreases |data|
  {
    if data == [] then []
    else if |data| <= ReadSize then [data]
    else [data[..ReadSize]] + Pieces(data[ReadSize..])
  }

  /** The read loop reads 64 KiB at a time until a read comes back empty;
      each read returns ReadSize bytes unless fewer remain. */
  method ReadInPieces(data: Bytes) returns (pieces: seq<Bytes>)
    ensures IsReadStream(pieces, data)
  {
    pieces := [];
    var pos := 0;
    while pos < |data|
      invariant 0 <= pos <= |data|
      invariant Flatten(pieces) == data[..pos]
      invariant forall i :: 0 <= i < |pieces| ==> 0 < |pieces[i]| <= ReadSize
      invariant forall i :: 0 <= i < |pieces| ==> |pieces[i]| == ReadSize || (i == |pieces| - 1 && pos == |data|)
    {
      var end := if |data| - pos < ReadSize then |data| else pos + ReadSize;
      var piece := data[pos..end];
      assert (pieces + [piece])[..|pieces|] == pieces;
      assert data[..end] == data[..pos] + piece;
      pieces := pieces + [piece];
      pos := end;
    }
    assert data[..pos] == data;
  }

  lemma {:induction false} FlattenNonEmpty(pieces: seq<Bytes>)
    requires pieces != [] && |pieces[|pieces| - 1]| > 0
    ensures |Flatten(pieces)| >= |pieces[|pieces| - 1]|
  {
  }

  /** The read stream of an object is unique: it is exactly the reference
      cut into ReadSize pieces. */
  lemma {:induction false} ReadStreamIsPieces(pieces: seq<Bytes>, data: Bytes)
    requires IsReadStream(pieces, data)
    ensures pieces == Pieces(data)
    decreases |pieces|
  {
    if pieces != [] {
      FlattenCons(pieces);
      var rest := pieces[1..];
      assert data == pieces[0] + Flatten(rest);
      if |pieces| == 1 {
        assert rest == [];
        assert data == pieces[0];
      } else {
        assert |pieces[0]| == ReadSize;
        assert |rest[|rest| - 1]| > 0;
        FlattenNonEmpty(rest);
        assert |data| > ReadSize;
        assert data[..ReadSize] == pieces[0];
        assert data[ReadSize..] == Flatten(rest);
        assert forall i :: 0 <= i < |rest| ==> rest[i] == pieces[i + 1];
        ReadStreamIsPieces(rest, data[ReadSize..]);
      }
    }
  }
}
