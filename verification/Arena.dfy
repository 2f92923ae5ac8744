/** The arena all tree nodes come from. */
module Arena {
  /** Bytes handed out: the block, the offset in it, and how many. */
  datatype Region = Region(block: nat, offset: nat, size: nat)

  /** Blocks oldest first; only the newest is allocated from. */
  datatype Block = Block(used: nat, cap: nat)

  const UNIT: nat := 16
  const BLOCK_SIZE: nat := 4096

  /** The next multiple of 16. */
  function RoundUp(n: nat): (r: nat)
    ensures n <= r < n + UNIT && r % UNIT == 0
  {
    (n + 15) / 16 * 16
  }

  /** Takes from the newest block if it has room, else from a new one. */
  function Alloc(blocks: seq<Block>, n: nat): (seq<Block>, Region) {
    var size := RoundUp(n);
    var k := |blocks|;
    if k == 0 || blocks[k - 1].used + size > blocks[k - 1].cap then
      (blocks + [Block(size, if size > BLOCK_SIZE then size else BLOCK_SIZE)], Region(k, 0, size))
    else
      (blocks[k - 1 := Block(blocks[k - 1].used + size, blocks[k - 1].cap)], Region(k - 1, blocks[k - 1].used, size))
  }

  /** The regions of a whole run of requests. */
  function AllocAll(blocks: seq<Block>, sizes: seq<nat>): (r: (seq<Block>, seq<Region>))
    ensures |r.1| == |sizes|
    decreases |sizes|
  {
    if sizes == [] then (blocks, []) else
      var (b1, region) := Alloc(blocks, sizes[0]);
      var (b2, regions) := AllocAll(b1, sizes[1..]);
      (b2, [region] + regions)
  }

  predicate Sound(blocks: seq<Block>) {
    forall i :: 0 <= i < |blocks| ==> blocks[i].used <= blocks[i].cap && blocks[i].used % UNIT == 0
  }

  /** Bytes in use stay in use, and blocks stay where they are. */
  predicate Grows(a: seq<Block>, b: seq<Block>) {
    |a| <= |b| && forall i :: 0 <= i < |a| ==> a[i].used <= b[i].used && a[i].cap == b[i].cap
  }

  /** The region lies within the used part of its block. */
  predicate Within(r: Region, blocks: seq<Block>) {
    r.block < |blocks| && r.offset + r.size <= blocks[r.block].used
  }

  /** The region was free before. */
  predicate Unused(r: Region, blocks: seq<Block>) {
    r.block >= |blocks| || r.offset >= blocks[r.block].used
  }

  predicate Disjoint(r: Region, s: Region) {
    r.block != s.block || r.offset + r.size <= s.offset || s.offset + s.size <= r.offset
  }

  /** A request of `n` bytes met: inside the used part of a block, aligned, and of bytes free before. */
  predicate Serves(r: Region, n: nat, before: seq<Block>, after: seq<Block>) {
    Within(r, after) && after[r.block].used <= after[r.block].cap && Unused(r, before)
    && r.offset % UNIT == 0 && n <= r.size < n + UNIT
  }

  lemma AllocFresh(blocks: seq<Block>, n: nat)
    requires Sound(blocks)
    ensures var (b, r) := Alloc(blocks, n);
            Sound(b) && Grows(blocks, b) && Serves(r, n, blocks, b)
  {
  }

  /** Later growth does not disturb a region, and regions of later requests were free even earlier. */
  lemma ServesOn(r: Region, n: nat, a: seq<Block>, b: seq<Block>, c: seq<Block>)
    requires Grows(a, b) && Grows(b, c) && Sound(c)
    ensures Grows(a, c)
    ensures Serves(r, n, a, b) ==> Serves(r, n, a, c)
    ensures Serves(r, n, b, c) ==> Serves(r, n, a, c)
  {
  }

  lemma OldAndNew(r: Region, n: nat, s: Region, m: nat, a: seq<Block>, b: seq<Block>, c: seq<Block>)
    requires Serves(r, n, a, b) && Serves(s, m, b, c)
    ensures Disjoint(r, s)
  {
  }

  /**
   However many requests are made, every region is large enough, aligned, inside its block,
   outside what was in use before, and disjoint from every other region.
   */
  lemma {:induction false} RunIsSafe(blocks: seq<Block>, sizes: seq<nat>)
    requires Sound(blocks)
    ensures
      var (b, rs) := AllocAll(blocks, sizes);
      Sound(b) && Grows(blocks, b)
      && (forall i :: 0 <= i < |rs| ==> Serves(rs[i], sizes[i], blocks, b))
      && forall i, j :: 0 <= i < j < |rs| ==> Disjoint(rs[i], rs[j])
    decreases |sizes|
  {
    hide Alloc, Serves, Sound, Grows, Disjoint;
    if sizes == [] {
      GrowsSame(blocks);
    } else {
      var (b1, r) := Alloc(blocks, sizes[0]);
      AllocFresh(blocks, sizes[0]);
      RunIsSafe(b1, sizes[1..]);
      var (b, rs) := AllocAll(b1, sizes[1..]);
      ServesOn(r, sizes[0], blocks, b1, b);
      forall j | 0 <= j < |rs| ensures Disjoint(r, rs[j]) && Serves(rs[j], sizes[j + 1], blocks, b) {
        assert Serves(rs[j], sizes[1..][j], b1, b);
        OldAndNew(r, sizes[0], rs[j], sizes[j + 1], blocks, b1, b);
        ServesOn(rs[j], sizes[j + 1], blocks, b1, b);
      }
    }
  }

  // ----- no bytes are wasted -----

  function BytesUsed(blocks: seq<Block>): nat {
    if blocks == [] then 0 else BytesUsed(blocks[..|blocks| - 1]) + blocks[|blocks| - 1].used
  }

  function BytesAsked(sizes: seq<nat>): nat
    decreases |sizes|
  {
    if sizes == [] then 0 else RoundUp(sizes[0]) + BytesAsked(sizes[1..])
  }

  /** A new block is opened only for a request the newest one has no room for, and is as large as it must be. */
  predicate Tight(r: Region, before: seq<Block>, after: seq<Block>) {
    r.block < |after|
    && (r.block > 0 && r.block >= |before| && r.offset == 0 ==>
          after[r.block].cap == (if r.size > BLOCK_SIZE then r.size else BLOCK_SIZE)
          && after[r.block - 1].used + r.size > after[r.block - 1].cap)
  }

  lemma {:induction false} UsedUpdate(blocks: seq<Block>, b: Block)
    requires blocks != []
    ensures BytesUsed(blocks[|blocks| - 1 := b]) == BytesUsed(blocks) - blocks[|blocks| - 1].used + b.used
    ensures BytesUsed(blocks + [b]) == BytesUsed(blocks) + b.used
  {
    var k := |blocks| - 1;
    assert blocks[k := b][..k] == blocks[..k] && (blocks + [b])[..|blocks|] == blocks;
  }

  lemma AllocTight(blocks: seq<Block>, n: nat)
    requires Sound(blocks)
    ensures
      var (b, r) := Alloc(blocks, n);
      r.block == |b| - 1 && Tight(r, blocks, b) && BytesUsed(b) == BytesUsed(blocks) + RoundUp(n)
  {
    if blocks == [] { assert BytesUsed([]) == 0; } else {
      var (b, r) := Alloc(blocks, n);
      UsedUpdate(blocks, b[|b| - 1]);
    }
  }

  /** Only the newest block is allocated from. */
  lemma {:induction false} OldBlocksStay(blocks: seq<Block>, sizes: seq<nat>)
    ensures
      var b := AllocAll(blocks, sizes).0;
      |blocks| <= |b| && forall i :: 0 <= i < |blocks| - 1 ==> b[i] == blocks[i]
    ensures forall i :: 0 <= i < |blocks| ==> AllocAll(blocks, sizes).0[i].cap == blocks[i].cap
    decreases |sizes|
  {
    if sizes != [] { OldBlocksStay(Alloc(blocks, sizes[0]).0, sizes[1..]); }
  }

  /** Over a whole run the bytes in use grow by exactly the rounded requests, and no block is left while it has room. */
  lemma {:induction false} RunIsTight(blocks: seq<Block>, sizes: seq<nat>)
    requires Sound(blocks)
    ensures
      var (b, rs) := AllocAll(blocks, sizes);
      BytesUsed(b) == BytesUsed(blocks) + BytesAsked(sizes)
      && forall i :: 0 <= i < |rs| ==> Tight(rs[i], blocks, b)
    decreases |sizes|
  {
    hide Alloc, BytesUsed, RoundUp, Sound;
    if sizes != [] {
      var (b1, r) := Alloc(blocks, sizes[0]);
      AllocFresh(blocks, sizes[0]);
      AllocTight(blocks, sizes[0]);
      RunIsTight(b1, sizes[1..]);
      OldBlocksStay(b1, sizes[1..]);
      var (b, rs) := AllocAll(b1, sizes[1..]);
      RunIsSafe(b1, sizes[1..]);
      FirstFills(r, sizes[0], blocks, b1);
      forall i | 0 <= i < |rs| ensures Tight(rs[i], blocks, b) {
        assert Tight(rs[i], b1, b) && Serves(rs[i], sizes[1..][i], b1, b);
      }
    }
  }

  /** A request that opens a block other than the first takes bytes of it. */
  lemma FirstFills(r: Region, n: nat, a: seq<Block>, b: seq<Block>)
    requires Sound(a) && (b, r) == Alloc(a, n)
    ensures |a| <= |b| <= |a| + 1 && r.block == |b| - 1 && (|b| > |a| > 0 ==> b[r.block].used > 0)
  {
  }

  lemma GrowsSame(blocks: seq<Block>)
    ensures Grows(blocks, blocks)
  {
  }

  /** The block list as it is changed in place. */
  class Pool {
    var blocks: seq<Block>

    constructor ()
      ensures blocks == []
    {
      blocks := [];
    }

    method Take(n: nat) returns (r: Region)
      modifies this
      ensures (blocks, r) == Alloc(old(blocks), n)
    {
      var size := RoundUp(n);
      if |blocks| == 0 || blocks[|blocks| - 1].used + size > blocks[|blocks| - 1].cap {
        var cap := if size > BLOCK_SIZE then size else BLOCK_SIZE;
        blocks := blocks + [Block(0, cap)];
      }
      var k := |blocks| - 1;
      var head := blocks[k];
      assert k == |old(blocks)| ==> blocks[k := Block(size, head.cap)] == old(blocks) + [Block(size, head.cap)];
      r := Region(k, head.used, size);
      blocks := blocks[k := Block(head.used + size, head.cap)];
    }
  }
}
