/** The block split of `File.uploadData` (src/file/file.ts): the data is cut
    into `ceil(n / blockSize)` consecutive slices, each slice is uploaded, and
    a block record is appended to the manifest in index order. */
module Chunking {

  type Byte = bv8
  type Bytes = seq<Byte>

  /** An opaque content address returned by the store for an upload. */
  type Reference = string

  /** One entry of the block manifest. */
  datatype Block = Block(name: string, size: nat, compressedSize: nat, reference: Reference)

  function Min(a: int, b: int): int {
    if a <= b then a else b
  }

  /** `Uint8Array.prototype.slice(start, end)` for non-negative arguments:
      both ends are clamped to the length, and an empty range gives an
      empty array. */
  function Slice(data: Bytes, start: nat, end: nat): Bytes {
    var lo, hi := Min(start, |data|), Min(end, |data|);
    if lo <= hi then data[lo..hi] else []
  }

  /** `Math.ceil(n / blockSize)` on integers: the least `q` with
      `q * blockSize >= n`. */
  function BlockCount(n: nat, blockSize: nat): (q: nat)
    requires blockSize > 0
    ensures q * blockSize >= n
    ensures q == 0 || (q - 1) * blockSize < n
  {
    var q := (n + blockSize - 1) / blockSize;
    assert q * blockSize + (n + blockSize - 1) % blockSize == n + blockSize - 1;
    assert (q - 1) * blockSize == q * blockSize - blockSize;
    q
  }

  /** The slice the loop uploads at index `i`. */
  function Chunk(data: Bytes, blockSize: nat, i: nat): Bytes {
    Slice(data, i * blockSize, (i + 1) * blockSize)
  }

  /** All slices the loop uploads, in index order. */
  function Chunks(data: Bytes, blockSize: nat): (cs: seq<Bytes>)
    requires blockSize > 0
    ensures |cs| == BlockCount(|data|, blockSize)
  {
    seq(BlockCount(|data|, blockSize), i requires 0 <= i => Chunk(data, blockSize, i))
  }

  /** Concatenation of a sequence of byte strings, in order. */
  function Flatten(parts: seq<Bytes>): Bytes {
    if |parts| == 0 then [] else Flatten(parts[..|parts| - 1]) + parts[|parts| - 1]
  }

  /** The manifest the loop builds: block `i` is named by the generator,
      records the slice's length twice, and carries the slice's upload
      reference. */
  function Manifest(data: Bytes, blockSize: nat, upload: Bytes -> Reference, blockName: nat -> string): (m: seq<Block>)
    requires blockSize > 0
  {
    var cs := Chunks(data, blockSize);
    seq(|cs|, i requires 0 <= i < |cs| => Block(blockName(i), |cs[i]|, |cs[i]|, upload(cs[i])))
  }

  /** Sum of the `size` fields of a manifest. */
  function TotalSize(blocks: seq<Block>): nat {
    if |blocks| == 0 then 0 else TotalSize(blocks[..|blocks| - 1]) + blocks[|blocks| - 1].size
  }

  // ---------------------------------------------------------------------

  lemma MulMono(a: nat, c: nat, b: nat)
    requires a <= c
    ensures a * b <= c * b
  {
    assert c * b - a * b == (c - a) * b;
  }

  /** Slice `i` is the range `[i*b, min((i+1)*b, n))` of the data; it is
      never empty, and it is a full block unless it is the last. */
  lemma ChunkShape(data: Bytes, blockSize: nat, i: nat)
    requires blockSize > 0 && i < BlockCount(|data|, blockSize)
    ensures i * blockSize < |data|
    ensures Chunk(data, blockSize, i) == data[i * blockSize..Min((i + 1) * blockSize, |data|)]
    ensures |Chunk(data, blockSize, i)| > 0
    ensures i < BlockCount(|data|, blockSize) - 1 ==> |Chunk(data, blockSize, i)| == blockSize
    ensures i == BlockCount(|data|, blockSize) - 1 ==>
      |Chunk(data, blockSize, i)| == |data| - i * blockSize
  {
    var q := BlockCount(|data|, blockSize);
    MulMono(i, q - 1, blockSize);
    assert (i + 1) * blockSize == i * blockSize + blockSize;
    if i < q - 1 {
      MulMono(i + 1, q - 1, blockSize);
    }
  }

  /** Empty data has no blocks; non-empty data has at least one. */
  lemma EmptyDataNoBlocks(data: Bytes, blockSize: nat)
    requires blockSize > 0
    ensures |Chunks(data, blockSize)| == 0 <==> |data| == 0
  {
  }

  lemma {:induction false} FlattenPrefix(data: Bytes, blockSize: nat, k: nat)
    requires blockSize > 0 && k <= BlockCount(|data|, blockSize)
    ensures Flatten(Chunks(data, blockSize)[..k]) == data[..Min(k * blockSize, |data|)]
  {
    if k > 0 {
      var cs := Chunks(data, blockSize);
      var n := |data|;
      var j, hi := (k - 1) * blockSize, Min(k * blockSize, n);
      FlattenPrefix(data, blockSize, k - 1);
      ChunkShape(data, blockSize, k - 1);
      assert j + blockSize == k * blockSize;
      assert Min(j, n) == j && j <= hi;
      assert Flatten(cs[..k - 1]) == data[..j];
      assert cs[k - 1] == data[j..hi];
      assert cs[..k][..k - 1] == cs[..k - 1];
      assert Flatten(cs[..k]) == Flatten(cs[..k - 1]) + cs[k - 1];
      assert data[..hi] == data[..j] + data[j..hi];
    }
  }

  /** Concatenating the slices in index order gives back the data. */
  lemma ChunksReassemble(data: Bytes, blockSize: nat)
    requires blockSize > 0
    ensures Flatten(Chunks(data, blockSize)) == data
  {
    var cs := Chunks(data, blockSize);
    FlattenPrefix(data, blockSize, |cs|);
    assert cs[..|cs|] == cs;
  }

  lemma {:induction false} TotalSizeFlatten(blocks: seq<Block>, parts: seq<Bytes>)
    requires |blocks| == |parts|
    requires forall i :: 0 <= i < |blocks| ==> blocks[i].size == |parts[i]|
    ensures TotalSize(blocks) == |Flatten(parts)|
  {
    if |blocks| > 0 {
      TotalSizeFlatten(blocks[..|blocks| - 1], parts[..|parts| - 1]);
    }
  }

  /** The manifest has one block per slice, in index order; each block's
      `size` and `compressedSize` are its slice's length; all blocks but the
      last hold exactly `blockSize` bytes and the last is non-empty; the
      sizes add up to the data length. */
  lemma ManifestShape(data: Bytes, blockSize: nat, upload: Bytes -> Reference, blockName: nat -> string)
    requires blockSize > 0
    ensures var m := Manifest(data, blockSize, upload, blockName);
      && |m| == BlockCount(|data|, blockSize)
      && (forall i :: 0 <= i < |m| ==>
            && m[i].name == blockName(i)
            && m[i].size == m[i].compressedSize
            && m[i].size == |Chunk(data, blockSize, i)|
            && m[i].reference == upload(Chunk(data, blockSize, i))
            && m[i].size > 0
            && (i < |m| - 1 ==> m[i].size == blockSize))
      && TotalSize(m) == |data|
  {
    var m := Manifest(data, blockSize, upload, blockName);
    forall i | 0 <= i < |m|
      ensures m[i].name == blockName(i) && m[i].size == m[i].compressedSize
      ensures m[i].size == |Chunk(data, blockSize, i)|
      ensures m[i].reference == upload(Chunk(data, blockSize, i))
      ensures m[i].size > 0 && (i < |m| - 1 ==> m[i].size == blockSize)
    {
      ManifestBlock(data, blockSize, upload, blockName, i);
    }
    ManifestTotal(data, blockSize, upload, blockName);
  }

  lemma ManifestBlock(data: Bytes, blockSize: nat, upload: Bytes -> Reference, blockName: nat -> string, i: nat)
    requires blockSize > 0 && i < BlockCount(|data|, blockSize)
    ensures var b := Manifest(data, blockSize, upload, blockName)[i];
      && b.name == blockName(i) && b.size == b.compressedSize
      && b.size == |Chunk(data, blockSize, i)|
      && b.reference == upload(Chunk(data, blockSize, i))
      && b.size > 0 && (i < BlockCount(|data|, blockSize) - 1 ==> b.size == blockSize)
  {
    var cs := Chunks(data, blockSize);
    assert cs[i] == Chunk(data, blockSize, i);
    assert Manifest(data, blockSize, upload, blockName)[i] == Block(blockName(i), |cs[i]|, |cs[i]|, upload(cs[i]));
    ChunkShape(data, blockSize, i);
  }

  lemma ManifestTotal(data: Bytes, blockSize: nat, upload: Bytes -> Reference, blockName: nat -> string)
    requires blockSize > 0
    ensures TotalSize(Manifest(data, blockSize, upload, blockName)) == |data|
  {
    var m := Manifest(data, blockSize, upload, blockName);
    var cs := Chunks(data, blockSize);
    assert forall i :: 0 <= i < |m| ==> m[i].size == |cs[i]|;
    TotalSizeFlatten(m, cs);
    ChunksReassemble(data, blockSize);
  }

  /** The loop of `uploadData`: for each index in order, slice, upload,
      and append the block record. Returns the manifest and the slices in
      the order they were uploaded. */
  method UploadBlocks(data: Bytes, blockSize: nat, upload: Bytes -> Reference, blockName: nat -> string)
    returns (blocks: seq<Block>, uploaded: seq<Bytes>)
    requires blockSize > 0
    ensures blocks == Manifest(data, blockSize, upload, blockName)
    ensures uploaded == Chunks(data, blockSize)
    ensures Flatten(uploaded) == data
  {
    var blocksCount := BlockCount(|data|, blockSize);
    blocks, uploaded := [], [];
    var i := 0;
    while i < blocksCount
      invariant 0 <= i <= blocksCount
      invariant uploaded == Chunks(data, blockSize)[..i]
      invariant blocks == Manifest(data, blockSize, upload, blockName)[..i]
    {
      var currentBlock := Slice(data, i * blockSize, (i + 1) * blockSize);
      var reference := upload(currentBlock);
      uploaded := uploaded + [currentBlock];
      blocks := blocks + [Block(blockName(i), |currentBlock|, |currentBlock|, reference)];
      i := i + 1;
    }
    ChunksReassemble(data, blockSize);
  }
}
