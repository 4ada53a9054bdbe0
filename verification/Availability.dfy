/**
 Erasure-coded bodies (crates/meshmine-body/src/availability.rs): splitting a
 body into shards with Merkle proofs, checking single shards, and rebuilding
 the body. The Reed-Solomon code is a parameter with its usual contract.
 */
module Availability {
  import opened Wrappers
  import opened Arith
  import opened Bytes
  import opened Merkle

  const U16_LIMIT: nat := 0x1_0000
  const U32_LIMIT: nat := 0x1_0000_0000

  datatype Error =
    | InvalidParameters(data: nat, parity: nat)
    | PackageTooLarge
    | ReedSolomon
    | ShardOutOfRange(index: nat)
    | InvalidShardLength(index: nat)
    | DuplicateShard(index: nat)
    | InvalidShardProof(index: nat)
    | InsufficientShards
    | InvalidReconstructedSize

  datatype Result<T> = Ok(value: T) | Err(error: Error)

  datatype Descriptor = Descriptor(body: Digest, originalSize: nat, data: nat, parity: nat, shardSize: nat,
                                   root: Digest)
  datatype StoredShard = StoredShard(index: nat, bytes: seq<Byte>, proof: ShardProof)
  datatype EncodedBody = EncodedBody(descriptor: Descriptor, shards: seq<StoredShard>)

  // ---- The erasure code ----

  type Block = seq<Byte>

  datatype ErasureCode = ErasureCode(encode: seq<Block> -> seq<Block>,
                                     rebuild: seq<Option<Block>> -> Option<seq<Block>>)

  predicate Blocks(blocks: seq<Block>, count: nat, size: nat) {
    |blocks| == count && forall i :: 0 <= i < count ==> |blocks[i]| == size
  }

  function CountSome<T>(slots: seq<Option<T>>): nat {
    if slots == [] then 0 else CountSome(slots[..|slots| - 1]) + (if slots[|slots| - 1].Some? then 1 else 0)
  }

  /** The filled slots agree with the blocks. */
  predicate Agrees(slots: seq<Option<Block>>, blocks: seq<Block>) {
    |slots| == |blocks| && forall i :: 0 <= i < |slots| && slots[i].Some? ==> slots[i].value == blocks[i]
  }

  /** A systematic code that recovers everything from any `data` blocks. */
  ghost predicate IsErasureCode(code: ErasureCode, data: nat, parity: nat, size: nat) {
    && (forall blocks :: Blocks(blocks, data, size) ==>
          Blocks(code.encode(blocks), data + parity, size) && code.encode(blocks)[..data] == blocks)
    && (forall blocks, slots :: Blocks(blocks, data, size) && Agrees(slots, code.encode(blocks))
                                 && CountSome(slots) >= data ==>
          code.rebuild(slots) == Some(code.encode(blocks)))
  }

  // ---- Layout ----

  function ByteAt(body: Block, n: nat): Byte { if n < |body| then body[n] else 0 }

  function ShardSize(length: nat, data: nat): nat
    requires data > 0
  {
    ((if length == 0 then 1 else length) + data - 1) / data
  }

  lemma ShardSizeCovers(length: nat, data: nat)
    requires data > 0
    ensures 0 < ShardSize(length, data) && length <= data * ShardSize(length, data)
  {
    var n := if length == 0 then 1 else length;
    var q := ShardSize(length, data);
    assert n + data - 1 == data * q + (n + data - 1) % data;
    Positive(n, data);
  }

  predicate Holds(length: nat, data: nat, size: nat) { length <= data * size }

  /** Shards of this size are not empty and hold the body, and no smaller ones do. */
  ghost predicate Smallest(size: nat, length: nat, data: nat) {
    0 < size && Holds(length, data, size) && forall s: nat :: 0 < s && Holds(length, data, s) ==> size <= s
  }

  lemma ShardSizeSmallest(length: nat, data: nat)
    requires data > 0
    ensures Smallest(ShardSize(length, data), length, data)
  {
    ShardSizeCovers(length, data);
    forall s: nat | 0 < s && Holds(length, data, s) ensures ShardSize(length, data) <= s {
      ShardSizeMinimal(length, data, s);
    }
  }

  lemma ShardSizeMinimal(length: nat, data: nat, size: nat)
    requires data > 0 && size > 0 && length <= data * size
    ensures ShardSize(length, data) <= size
  {
    var n := if length == 0 then 1 else length;
    MulMonotone(1, size, data);
    assert n + data - 1 < data * size + data;
    DivBounds(n + data - 1, data, 0, size + 1);
  }

  lemma Positive(n: nat, data: nat)
    requires n > 0 && data > 0
    ensures (n + data - 1) / data > 0
  {
    MulMonotone(1, data, n);
    DivBounds(n + data - 1, data, 1, n + 1);
  }

  function Row(body: Block, i: nat, size: nat): (r: Block)
    ensures |r| == size && forall j :: 0 <= j < size ==> r[j] == ByteAt(body, i * size + j)
  {
    seq<Byte>(size, j requires 0 <= j < size => ByteAt(body, i * size + j))
  }

  function Rows(body: Block, data: nat, size: nat): (r: seq<Block>)
    ensures Blocks(r, data, size) && forall i :: 0 <= i < data ==> r[i] == Row(body, i, size)
  {
    seq(data, i requires 0 <= i < data => Row(body, i, size))
  }

  function Flatten(blocks: seq<Block>): Block {
    if blocks == [] then [] else Flatten(blocks[..|blocks| - 1]) + blocks[|blocks| - 1]
  }

  /** The first bytes of the body are the first rows, concatenated. */
  lemma {:induction false} FlattenRows(body: Block, k: nat, size: nat)
    ensures |Flatten(Rows(body, k, size))| == k * size
    ensures forall n :: 0 <= n < k * size ==> Flatten(Rows(body, k, size))[n] == ByteAt(body, n)
  {
    var rows := Rows(body, k, size);
    if k > 0 {
      FlattenRows(body, k - 1, size);
      assert rows[..k - 1] == Rows(body, k - 1, size);
      assert k * size == (k - 1) * size + size;
      var front := Flatten(rows[..k - 1]);
      forall n | 0 <= n < k * size ensures (front + rows[k - 1])[n] == ByteAt(body, n) {
        if n >= (k - 1) * size {
          assert n == (k - 1) * size + (n - (k - 1) * size);
        }
      }
    }
  }

  lemma RowsHoldBody(body: Block, data: nat)
    requires data > 0
    ensures var all := Flatten(Rows(body, data, ShardSize(|body|, data)));
            |body| <= |all| && all[..|body|] == body
  {
    FlattenRows(body, data, ShardSize(|body|, data));
    ShardSizeCovers(|body|, data);
  }

  // ---- Descriptors and shards ----

  function ShardLeaf(body: Digest, index: nat, bytes: Block): Digest { Shard(body, index, bytes) }

  function LeavesOf(body: Digest, blocks: seq<Block>): (r: seq<Digest>)
    ensures |r| == |blocks| && forall i :: 0 <= i < |r| ==> r[i] == Shard(body, i, blocks[i])
  {
    seq(|blocks|, i requires 0 <= i < |blocks| => ShardLeaf(body, i, blocks[i]))
  }

  /** The descriptor's root commits to these blocks. */
  predicate Commits(d: Descriptor, blocks: seq<Block>) {
    && d.data > 0 && d.data + d.parity < U16_LIMIT && Blocks(blocks, d.data + d.parity, d.shardSize)
    && d.root == Root(LeavesOf(d.body, blocks))
  }

  function HonestShard(d: Descriptor, blocks: seq<Block>, i: nat): StoredShard
    requires i < |blocks|
  {
    StoredShard(i, blocks[i], ShardProof(i, |blocks|, Path(Hashed(LeavesOf(d.body, blocks)), i)))
  }

  predicate Genuine(d: Descriptor, blocks: seq<Block>, shard: StoredShard) {
    shard.index < |blocks| && shard == HonestShard(d, blocks, shard.index)
  }

  predicate ShardVerifies(d: Descriptor, shard: StoredShard) {
    && shard.proof.shardIndex == shard.index
    && d.data + d.parity < U16_LIMIT && shard.proof.totalShards == d.data + d.parity
    && Proves(ShardLeaf(d.body, shard.index, shard.bytes), shard.proof, d.root)
  }

  /** Exactly the shards that were made verify: same index, same bytes, same proof. */
  lemma VerifiesIffGenuine(d: Descriptor, blocks: seq<Block>, shard: StoredShard)
    requires Commits(d, blocks)
    ensures ShardVerifies(d, shard) <==> Genuine(d, blocks, shard)
  {
    var leaves := LeavesOf(d.body, blocks);
    if ShardVerifies(d, shard) {
      ProofBinds(leaves, ShardLeaf(d.body, shard.index, shard.bytes), shard.proof);
      var i := Place(shard.proof.shardIndex, Height(|leaves|));
      assert leaves[i] == Shard(d.body, i, blocks[i]);
    }
    if Genuine(d, blocks, shard) {
      ProofComplete(leaves, shard.index);
    }
  }

  method VerifyShard(d: Descriptor, shard: StoredShard) returns (ok: bool)
    ensures ok == ShardVerifies(d, shard)
  {
    if shard.proof.shardIndex != shard.index {
      return false;
    }
    if d.data + d.parity >= U16_LIMIT {
      return false;
    }
    if shard.proof.totalShards != d.data + d.parity {
      return false;
    }
    ok := VerifyProof(ShardLeaf(d.body, shard.index, shard.bytes), shard.proof, d.root);
  }

  // ---- Encoding ----

  /** Copies the body into the data rows of a zeroed grid. */
  method FillRows(body: Block, data: nat, size: nat) returns (rows: seq<Block>)
    requires size > 0 && |body| <= data * size
    ensures rows == Rows(body, data, size)
  {
    var grid := FillGrid(body, data, size);
    rows := [];
    for i := 0 to data
      invariant rows == Rows(body, data, size)[..i]
    {
      var row := seq(size, j requires 0 <= j < size reads grid => grid[i, j]);
      assert row == Row(body, i, size);
      rows := rows + [row];
    }
  }

  method FillGrid(body: Block, data: nat, size: nat) returns (grid: array2<Byte>)
    requires size > 0 && |body| <= data * size
    ensures fresh(grid) && grid.Length0 == data && grid.Length1 == size
    ensures forall i, j :: 0 <= i < data && 0 <= j < size ==> grid[i, j] == CellAfter(body, |body|, i, j, size)
  {
    grid := new Byte[data, size]((i, j) => 0);
    for n := 0 to |body|
      invariant forall i, j :: 0 <= i < data && 0 <= j < size ==> grid[i, j] == CellAfter(body, n, i, j, size)
    {
      var row, column := n / size, n % size;
      RowInRange(n, size, data);
      forall i, j | 0 <= i < data && 0 <= j < size
        ensures CellAfter(body, n + 1, i, j, size) == if i == row && j == column then body[n]
                else CellAfter(body, n, i, j, size)
      {
        CellStep(body, n, i, j, size);
      }
      grid[row, column] := body[n];
    }
  }

  function Position(i: nat, j: nat, size: nat): nat { i * size + j }

  /** Row i, column j once the first n bytes are in place. */
  function CellAfter(body: Block, n: nat, i: nat, j: nat, size: nat): Byte
    requires n <= |body|
  {
    if Position(i, j, size) < n then body[Position(i, j, size)] else 0
  }

  lemma CellStep(body: Block, n: nat, i: nat, j: nat, size: nat)
    requires n < |body| && size > 0 && j < size
    ensures CellAfter(body, n + 1, i, j, size)
         == if i == n / size && j == n % size then body[n] else CellAfter(body, n, i, j, size)
  {
    SameCell(n, size, i, j);
  }

  lemma RowInRange(n: nat, size: nat, data: nat)
    requires size > 0 && n < data * size
    ensures n / size < data
  {
    DivBounds(n, size, 0, data);
  }

  lemma SameCell(n: nat, size: nat, i: nat, j: nat)
    requires size > 0 && j < size
    ensures i * size + j == n <==> i == n / size && j == n % size
  {
    if i * size + j == n {
      DivModUnique(n, size, i, j);
    }
  }

  predicate ValidCounts(data: nat, parity: nat) { data > 0 && parity > 0 && data + parity < U16_LIMIT }

  /** Each error happens exactly in its case; otherwise the shards hold the body and all of them verify. */
  method EncodeBody(code: Option<ErasureCode>, id: Digest, body: Block, data: nat, parity: nat)
    returns (r: Result<EncodedBody>)
    requires data < U16_LIMIT && parity < U16_LIMIT
    requires data > 0 && code.Some? ==> IsErasureCode(code.value, data, parity, ShardSize(|body|, data))
    ensures r == Err(InvalidParameters(data, parity)) <==> !ValidCounts(data, parity)
    ensures r == Err(PackageTooLarge) <==> ValidCounts(data, parity) && |body| >= U32_LIMIT
    ensures r == Err(ReedSolomon) <==> ValidCounts(data, parity) && |body| < U32_LIMIT && code.None?
    ensures r.Ok? <==> ValidCounts(data, parity) && |body| < U32_LIMIT && code.Some?
    ensures r.Ok? ==>
              var d, blocks := r.value.descriptor, code.value.encode(Rows(body, data, ShardSize(|body|, data)));
              && d.body == id && d.data == data && d.parity == parity && d.originalSize == |body|
              && d.shardSize == ShardSize(|body|, data) && Commits(d, blocks)
              && Smallest(d.shardSize, |body|, data)
              && |r.value.shards| == |blocks|
              && forall i :: 0 <= i < |blocks| ==> r.value.shards[i] == HonestShard(d, blocks, i)
  {
    if data == 0 || parity == 0 {
      return Err(InvalidParameters(data, parity));
    }
    var total := data + parity;
    if total >= U16_LIMIT {
      return Err(InvalidParameters(data, parity));
    }
    if |body| >= U32_LIMIT {
      return Err(PackageTooLarge);
    }
    var size := ShardSize(|body|, data);
    ShardSizeSmallest(|body|, data);
    ShardSizeCovers(|body|, data);
    SizeIsU32(|body|, data);
    if size >= U32_LIMIT {
      return Err(PackageTooLarge);
    }
    var rows := FillRows(body, data, size);
    if code.None? {
      return Err(ReedSolomon);
    }
    var blocks := code.value.encode(rows);
    var leaves := LeavesOf(id, blocks);
    var root := MerkleRoot(leaves);
    var d := Descriptor(id, |body|, data, parity, size, root);
    var shards := [];
    for i := 0 to |blocks|
      invariant |shards| == i && forall j :: 0 <= j < i ==> shards[j] == HonestShard(d, blocks, j)
    {
      var proof := CreateProof(leaves, i);
      shards := shards + [StoredShard(i, blocks[i], proof)];
    }
    r := Ok(EncodedBody(d, shards));
  }

  lemma SizeIsU32(length: nat, data: nat)
    requires data > 0 && length < U32_LIMIT
    ensures ShardSize(length, data) < U32_LIMIT
  {
    var n := if length == 0 then 1 else length;
    assert n + data - 1 < (n + 1) * data by {
      MulMonotone(1, data, n);
    }
    DivBounds(n + data - 1, data, 0, n + 1);
  }

  // ---- Rebuilding ----

  predicate Distinct(shards: seq<StoredShard>) {
    forall i, j :: 0 <= i < j < |shards| ==> shards[i].index != shards[j].index
  }

  predicate AllGenuine(d: Descriptor, blocks: seq<Block>, shards: seq<StoredShard>) {
    forall i :: 0 <= i < |shards| ==> Genuine(d, blocks, shards[i])
  }

  lemma {:induction false} CountSomeFill<T>(slots: seq<Option<T>>, k: nat, value: T)
    requires k < |slots| && slots[k].None?
    ensures CountSome(slots[k := Some(value)]) == CountSome(slots) + 1
  {
    var n := |slots| - 1;
    var filled := slots[k := Some(value)];
    if k < n {
      CountSomeFill(slots[..n], k, value);
      assert filled[..n] == slots[..n][k := Some(value)];
    } else {
      assert filled[..n] == slots[..n];
    }
  }

  lemma {:induction false} CountSomeNone<T>(slots: seq<Option<T>>)
    requires forall i :: 0 <= i < |slots| ==> slots[i].None?
    ensures CountSome(slots) == 0
  {
    if slots != [] {
      CountSomeNone(slots[..|slots| - 1]);
    }
  }

  predicate Seen(supplied: seq<StoredShard>, k: nat) { exists m :: 0 <= m < |supplied| && supplied[m].index == k }

  /** The slots after the given shards were accepted. */
  predicate Collected(d: Descriptor, blocks: seq<Block>, supplied: seq<StoredShard>, slots: seq<Option<Block>>) {
    && Agrees(slots, blocks) && CountSome(slots) == |supplied|
    && AllGenuine(d, blocks, supplied) && Distinct(supplied)
    && forall k :: 0 <= k < |slots| ==> (slots[k].Some? <==> Seen(supplied, k))
  }

  lemma CollectStep(
      d: Descriptor, blocks: seq<Block>, supplied: seq<StoredShard>, slots: seq<Option<Block>>, shard: StoredShard)
    requires Collected(d, blocks, supplied, slots) && Genuine(d, blocks, shard) && slots[shard.index].None?
    ensures Collected(d, blocks, supplied + [shard], slots[shard.index := Some(shard.bytes)])
  {
    CountSomeFill(slots, shard.index, shard.bytes);
    forall m | 0 <= m < |supplied| ensures supplied[m].index != shard.index {
      assert Genuine(d, blocks, supplied[m]);
      assert supplied[m].index == shard.index ==> Seen(supplied, shard.index);
    }
    SeenStep(supplied, shard, slots);
  }

  lemma SeenStep(supplied: seq<StoredShard>, shard: StoredShard, slots: seq<Option<Block>>)
    requires shard.index < |slots| && forall k :: 0 <= k < |slots| ==> (slots[k].Some? <==> Seen(supplied, k))
    ensures var filled := slots[shard.index := Some(shard.bytes)];
            forall k :: 0 <= k < |filled| ==> (filled[k].Some? <==> Seen(supplied + [shard], k))
  {
    var longer := supplied + [shard];
    forall k | 0 <= k < |slots| ensures Seen(longer, k) <==> Seen(supplied, k) || k == shard.index {
      if Seen(supplied, k) {
        var m :| 0 <= m < |supplied| && supplied[m].index == k;
        assert longer[m].index == k;
      }
      if k == shard.index {
        assert longer[|supplied|].index == k;
      }
    }
  }

  /** A repeated or forged shard anywhere spoils the whole list. */
  lemma SpoiltList(d: Descriptor, blocks: seq<Block>, supplied: seq<StoredShard>, n: nat)
    requires n < |supplied| && (!Genuine(d, blocks, supplied[n]) || Seen(supplied[..n], supplied[n].index))
    ensures !(AllGenuine(d, blocks, supplied) && Distinct(supplied))
  {
    if Seen(supplied[..n], supplied[n].index) {
      var m :| 0 <= m < n && supplied[..n][m].index == supplied[n].index;
      assert supplied[m].index == supplied[n].index;
    }
  }

  method CollectShards(d: Descriptor, supplied: seq<StoredShard>, ghost blocks: seq<Block>)
    returns (r: Result<seq<Option<Block>>>)
    requires Commits(d, blocks)
    ensures r.Ok? <==> AllGenuine(d, blocks, supplied) && Distinct(supplied)
    ensures r.Ok? ==> Agrees(r.value, blocks) && CountSome(r.value) == |supplied|
  {
    var total := d.data + d.parity;
    var slots: seq<Option<Block>> := seq(total, _ => None);
    CountSomeNone(slots);
    for n := 0 to |supplied|
      invariant Collected(d, blocks, supplied[..n], slots)
    {
      var shard := supplied[n];
      if shard.index >= total {
        SpoiltList(d, blocks, supplied, n);
        return Err(ShardOutOfRange(shard.index));
      }
      if |shard.bytes| != d.shardSize {
        SpoiltList(d, blocks, supplied, n);
        return Err(InvalidShardLength(shard.index));
      }
      if slots[shard.index].Some? {
        SpoiltList(d, blocks, supplied, n);
        return Err(DuplicateShard(shard.index));
      }
      var ok := VerifyShard(d, shard);
      VerifiesIffGenuine(d, blocks, shard);
      if !ok {
        SpoiltList(d, blocks, supplied, n);
        return Err(InvalidShardProof(shard.index));
      }
      CollectStep(d, blocks, supplied[..n], slots, shard);
      assert supplied[..n + 1] == supplied[..n] + [shard];
      slots := slots[shard.index := Some(shard.bytes)];
    }
    assert supplied[..|supplied|] == supplied;
    r := Ok(slots);
  }

  /**
   Rebuilding succeeds exactly when enough distinct genuine shards are supplied,
   and then returns the original body; forged, altered or repeated shards are refused.
   */
  method ReconstructBody(code: Option<ErasureCode>, d: Descriptor, supplied: seq<StoredShard>,
                         ghost body: Block, ghost blocks: seq<Block>)
    returns (r: Result<Block>)
    requires Commits(d, blocks) && d.originalSize == |body| && d.shardSize == ShardSize(|body|, d.data)
    requires code.Some? ==> IsErasureCode(code.value, d.data, d.parity, d.shardSize)
    requires code.Some? ==> blocks == code.value.encode(Rows(body, d.data, d.shardSize))
    ensures r.Ok? <==> code.Some? && AllGenuine(d, blocks, supplied) && Distinct(supplied) && |supplied| >= d.data
    ensures r.Ok? ==> r.value == body
  {
    ghost var rows := Rows(body, d.data, d.shardSize);
    assert Blocks(rows, d.data, d.shardSize);
    var collected := CollectShards(d, supplied, blocks);
    if collected.Err? {
      return Err(collected.error);
    }
    if CountSome(collected.value) < d.data {
      return Err(InsufficientShards);
    }
    if code.None? {
      return Err(ReedSolomon);
    }
    var rebuilt := code.value.rebuild(collected.value);
    assert rebuilt == Some(blocks);
    if rebuilt.None? {
      return Err(ReedSolomon);
    }
    var all: Block := [];
    for i := 0 to d.data
      invariant all == Flatten(rows[..i])
    {
      assert blocks[..d.data] == rows;
      assert blocks[i] == rows[i];
      assert rows[..i + 1][..i] == rows[..i];
      all := all + rebuilt.value[i];
    }
    assert rows[..d.data] == rows;
    RowsHoldBody(body, d.data);
    if d.originalSize > |all| {
      return Err(InvalidReconstructedSize);
    }
    r := Ok(all[..d.originalSize]);
  }
}
