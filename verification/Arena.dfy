/** The arena allocator and the growable buffer built on it. */
module ArenaImpl {
  import opened Words

  /** A chunk of arena memory: its capacity as recorded, and the length of its occupied prefix. */
  datatype Chunk = Chunk(mem: array<byte>, cap: word, used: word)

  /** A block handed out: an offset range in one chunk. */
  datatype Block = Block(chunk: nat, off: nat, size: nat)

  const ARENA_DEFAULT_CHUNK: word := 4096

  /** The size of zb_arena_chunk_t, which precedes the bytes of a chunk. */
  const CHUNK_HEADER: word := 24

  /** An empty request is taken for one byte. */
  function Wanted(size: word): word
  {
    if size == 0 then 1 else size
  }

  /** Sizes are rounded up to a multiple of 8. The result covers the request exactly if the
      sum does not wrap. */
  function Rounded(size: word): (r: word)
    ensures r % 8 == 0
    ensures size + 7 < SIZE_LIMIT ==> Wanted(size) <= r < Wanted(size) + 8
    ensures Wanted(size) <= r <==> size + 7 < SIZE_LIMIT
  {
    SizeAdd(Wanted(size), 7) / 8 * 8
  }

  /** The largest request is granted nothing. */
  lemma RoundedWraps()
    ensures Rounded(ALL_ONES) == 0
  {}

  ghost predicate ArenaOk(mems: set<array<byte>>, chunks: seq<Chunk>, blocks: seq<Block>)
  {
    && (forall i :: 0 <= i < |chunks| ==> ChunkOk(mems, chunks[i]))
    && (forall i, j :: 0 <= i < j < |chunks| ==> chunks[i].mem != chunks[j].mem)
    && (forall k :: 0 <= k < |blocks| ==> BlockOk(chunks, blocks[k]))
    && (forall k, l :: 0 <= k < l < |blocks| ==> Before(blocks[k], blocks[l]))
  }

  ghost predicate ChunkOk(mems: set<array<byte>>, c: Chunk)
  {
    c.mem in mems && c.used <= c.cap == c.mem.Length && c.used % 8 == 0 && CHUNK_HEADER + c.cap < SIZE_LIMIT
  }

  /** A block is 8-aligned and lies inside the used part of its chunk. */
  ghost predicate BlockOk(chunks: seq<Chunk>, b: Block)
  {
    b.chunk < |chunks| && b.off % 8 == 0 && b.size > 0 && b.off + b.size <= chunks[b.chunk].used
  }

  /** Blocks are disjoint: within a chunk, later ones lie further on. */
  ghost predicate Before(a: Block, b: Block)
  {
    a.chunk == b.chunk ==> a.off + a.size <= b.off
  }

  /** The newest chunk gives the memory if it has room left; otherwise one chunk is added, as
      large as the default or the request. */
  ghost predicate TakenFrom(before: seq<Chunk>, after: seq<Chunk>, rounded: word, default: word, mem: array<byte>, off: word)
  {
    var last := |before| - 1;
    if last >= 0 && before[last].used + rounded <= before[last].cap then
      |after| == |before| && mem == before[last].mem && off == before[last].used
    else
      |after| == |before| + 1 && before == after[..|before|] && mem == after[|before|].mem && off == 0 &&
      mem.Length == Max(default, rounded)
  }

  /** The chunks once the last one has given away `rounded` bytes more. */
  function Bumped(chunks: seq<Chunk>, rounded: word): seq<Chunk>
    requires |chunks| > 0
  {
    var c := chunks[|chunks| - 1];
    chunks[|chunks| - 1 := Chunk(c.mem, c.cap, SizeAdd(c.used, rounded))]
  }

  lemma BumpKeeps(mems: set<array<byte>>, chunks: seq<Chunk>, blocks: seq<Block>, rounded: word)
    requires ArenaOk(mems, chunks, blocks) && |chunks| > 0 && rounded > 0 && rounded % 8 == 0
    requires chunks[|chunks| - 1].used + rounded <= chunks[|chunks| - 1].cap
    ensures forall k :: 0 <= k < |blocks| ==> BlockOk(chunks, blocks[k])
    ensures ArenaOk(mems, Bumped(chunks, rounded), blocks + [Block(|chunks| - 1, chunks[|chunks| - 1].used, rounded)])
  {
    var last := |chunks| - 1;
    var c, b, next := chunks[last], Block(last, chunks[last].used, rounded), Bumped(chunks, rounded);
    assert ChunkOk(mems, c);
    assert ChunkOk(mems, next[last]);
    forall k | 0 <= k < |blocks| ensures BlockOk(next, blocks[k]) && Before(blocks[k], b) {
      assert BlockOk(chunks, blocks[k]);
    }
  }

  class Arena {
    /** The chunk list, oldest first: its head in the runtime is the last one here. */
    var chunks: seq<Chunk>
    const defaultChunk: word
    /** Every block handed out so far, in order. */
    ghost var blocks: seq<Block>
    /** The memory of all chunks. */
    ghost var mems: set<array<byte>>

    ghost predicate Valid()
      reads this
    {
      ArenaOk(mems, chunks, blocks)
    }

    ghost function Bytes(k: nat): (s: seq<byte>)
      requires Valid() && k < |blocks|
      reads this, mems
      ensures |s| == blocks[k].size
    {
      var b := blocks[k];
      assert BlockOk(chunks, b);
      chunks[b.chunk].mem[b.off..b.off + b.size]
    }

    /** Pointer `mem + off` is the start of block `k`. */
    ghost predicate Points(mem: array<byte>, off: nat, k: nat)
      requires Valid()
      reads this
    {
      k < |blocks| && off == blocks[k].off && mem == Home(k)
    }

    /** No chunk is larger than an object can be, as any real allocation guarantees. */
    ghost predicate Addressable()
      reads this
    {
      defaultChunk <= MAX_OBJECT - CHUNK_HEADER && forall i :: 0 <= i < |chunks| ==> chunks[i].cap <= MAX_OBJECT - CHUNK_HEADER
    }

    /** The capacity of a new chunk. */
    function NewCap(rounded: word): word
    {
      var cap := if defaultChunk != 0 then defaultChunk else ARENA_DEFAULT_CHUNK;
      if cap < rounded then rounded else cap
    }

    predicate NeedsChunk(rounded: word)
      reads this
    {
      |chunks| == 0 || SizeAdd(chunks[|chunks| - 1].used, rounded) > chunks[|chunks| - 1].cap
    }

    /** None of the sums of an allocation wraps: request and rounding, used and rounded
        size, header and capacity. */
    predicate SumsFit(size: word)
      reads this
    {
      && size + 7 < SIZE_LIMIT
      && (|chunks| > 0 ==> chunks[|chunks| - 1].used + Rounded(size) < SIZE_LIMIT)
      && (NeedsChunk(Rounded(size)) ==> CHUNK_HEADER + NewCap(Rounded(size)) < SIZE_LIMIT)
    }

    /** zb_arena_init */
    constructor ()
      ensures Valid() && Addressable() && blocks == [] && mems == {}
      ensures fresh(this)
    {
      chunks, defaultChunk, blocks, mems := [], ARENA_DEFAULT_CHUNK, [], {};
    }

    /** zb_arena_alloc. If no sum wraps, the new block covers the request and follows every
        block of its chunk; no memory changes and no block moves. If one wraps, the memory
        handed out is too short for the request. A chunk is added only if the newest one has
        no room left, and is as large as the default or the request. */
    method Alloc(size: word) returns (mem: array<byte>, off: word)
      requires Valid()
      modifies this
      ensures off + Wanted(size) <= mem.Length <==> old(SumsFit(size))
      ensures old(SumsFit(size)) ==>
        Valid() && mems >= old(mems) && fresh(mems - old(mems)) &&
        |blocks| == |old(blocks)| + 1 && blocks[..|old(blocks)|] == old(blocks) &&
        Points(mem, off, |old(blocks)|) && blocks[|old(blocks)|].size == Rounded(size) &&
        forall k :: 0 <= k < |old(blocks)| ==> Bytes(k) == old(Bytes(k)) && Home(k) == old(Home(k))
      ensures old(SumsFit(size)) ==> TakenFrom(old(chunks), chunks, Rounded(size), if defaultChunk == 0 then 4096 else defaultChunk, mem, off)
      ensures old(Addressable()) && size <= MAX_OBJECT / 2 ==> old(SumsFit(size)) && Addressable()
    {
      hide Rounded, BlockOk, Before;
      var rounded := Rounded(size);
      ghost var fits := SumsFit(size);
      if |chunks| == 0 || SizeAdd(chunks[|chunks| - 1].used, rounded) > chunks[|chunks| - 1].cap {
        var cap := if defaultChunk != 0 then defaultChunk else ARENA_DEFAULT_CHUNK;
        if cap < rounded { cap := rounded; }
        AddChunk(cap);
      }
      mem, off := Bump(rounded, fits);
    }

    /** The memory block `k` lies in. */
    ghost function Home(k: nat): array<byte>
      requires Valid() && k < |blocks|
      reads this
    {
      assert BlockOk(chunks, blocks[k]);
      chunks[blocks[k].chunk].mem
    }

    /** The new chunk of zb_arena_alloc; behind a header whose sum with the capacity wraps
        there is no memory at all. */
    method AddChunk(cap: word)
      requires Valid()
      modifies this
      ensures |chunks| == |old(chunks)| + 1 && chunks[..|old(chunks)|] == old(chunks) && blocks == old(blocks)
      ensures var c := chunks[|chunks| - 1];
              c.cap == cap && c.used == 0 && c.mem.Length == if CHUNK_HEADER + cap < SIZE_LIMIT then cap else 0
      ensures mems >= old(mems) && fresh(mems - old(mems))
      ensures CHUNK_HEADER + cap < SIZE_LIMIT ==>
        Valid() && forall k :: 0 <= k < |blocks| ==> Bytes(k) == old(Bytes(k)) && Home(k) == old(Home(k))
    {
      assert forall k :: 0 <= k < |blocks| ==> BlockOk(chunks, blocks[k]);
      var nc := new byte[if CHUNK_HEADER + cap < SIZE_LIMIT then cap else 0];
      chunks, mems := chunks + [Chunk(nc, cap, 0)], mems + {nc};
    }

    /** The bump step of zb_arena_alloc. */
    method Bump(rounded: word, ghost fits: bool) returns (mem: array<byte>, off: word)
      requires |chunks| > 0
      requires fits ==>
        var c := chunks[|chunks| - 1]; Valid() && rounded > 0 && rounded % 8 == 0 && c.used + rounded <= c.cap
      modifies this
      ensures mem == old(chunks)[|old(chunks)| - 1].mem && off == old(chunks)[|old(chunks)| - 1].used
      ensures mems == old(mems) && chunks == Bumped(old(chunks), rounded)
      ensures fits ==>
        Valid() && |blocks| == |old(blocks)| + 1 && blocks[..|old(blocks)|] == old(blocks) &&
        Points(mem, off, |old(blocks)|) && blocks[|old(blocks)|].size == rounded &&
        forall k :: 0 <= k < |old(blocks)| ==> Bytes(k) == old(Bytes(k)) && Home(k) == old(Home(k))
    {
      hide ArenaOk;
      var last := |chunks| - 1;
      var c := chunks[last];
      mem, off := c.mem, c.used;
      if fits { BumpKeeps(mems, chunks, blocks, rounded); }
      assert fits ==> forall k :: 0 <= k < |blocks| ==> BlockOk(chunks, blocks[k]) && old(Home(k)) == chunks[blocks[k].chunk].mem;
      blocks := blocks + [Block(last, off, rounded)];
      chunks := Bumped(chunks, rounded);
    }

    /** The first `n` bytes of block `k`. */
    method Load(mem: array<byte>, off: word, ghost k: nat, n: word) returns (s: seq<byte>)
      requires Valid() && Points(mem, off, k) && n <= blocks[k].size
      ensures s == Bytes(k)[..n]
    {
      assert BlockOk(chunks, blocks[k]);
      s := mem[off..off + n];
    }

    /** Stores `src` inside block `k` (the memcpy calls of the runtime). */
    method Store(mem: array<byte>, off: word, ghost k: nat, at: word, src: seq<byte>)
      requires Valid() && Points(mem, off, k) && at + |src| <= blocks[k].size
      modifies mems
      ensures Valid()
      ensures Bytes(k) == old(Bytes(k))[..at] + src + old(Bytes(k))[at + |src|..]
      ensures forall j :: 0 <= j < |blocks| && j != k ==> Bytes(j) == old(Bytes(j))
    {
      assert BlockOk(chunks, blocks[k]);
      ghost var b, size := Bytes(k), blocks[k].size;
      assert b == mem[off..off + size];
      forall i | 0 <= i < |src| { mem[off + at + i] := src[i]; }
      assert Bytes(k) == mem[off..off + size];
      assert forall i :: 0 <= i < size ==> Bytes(k)[i] == (b[..at] + src + b[at + |src|..])[i];
      forall j | 0 <= j < |blocks| && j != k ensures Bytes(j) == old(Bytes(j)) {
        assert BlockOk(chunks, blocks[j]);
        assert if j < k then Before(blocks[j], blocks[k]) else Before(blocks[k], blocks[j]);
      }
    }
  }

  // ---- Growing buffers -----------------------------------------------------

  /** `k` doublings of a capacity as `size_t` computes them. */
  function Doublings(cap: word, k: nat): word
  {
    if k == 0 then cap else var c := Doublings(cap, k - 1); SizeAdd(c, c)
  }

  ghost predicate DoublingOf(cap: word, newCap: word)
  {
    exists k: nat :: Doublings(cap, k) == newCap
  }

  lemma {:induction false} DoublingsOf64(k: nat)
    ensures Doublings(64, k) == if k <= 57 then Pow2(k + 6) else 0
  {
    hide Pow2;
    Pow2Values();
    SmallPowers();
    if k > 0 {
      DoublingsOf64(k - 1);
      TwicePow2(k + 5);
      if k <= 57 { Pow2Mono(k + 5, 62); }
    }
  }

  lemma TwicePow2(k: nat)
    ensures Pow2(k + 1) == 2 * Pow2(k)
  {}

  lemma SmallPowers()
    ensures Pow2(6) == 64 && Pow2(63) == 0x8000_0000_0000_0000 && Pow2(62) == 0x4000_0000_0000_0000
  {
    hide Pow2;
    Pow2Values();
    TwicePow2(6);
    TwicePow2(62);
    TwicePow2(63);
  }

  /** The growth loop of a fresh buffer ends exactly for needs up to 2^63: beyond, the
      capacity wraps to zero and stays there. */
  lemma GrowthEndsIff(need: word)
    ensures (exists k: nat :: Doublings(64, k) >= need) <==> need <= 0x8000_0000_0000_0000
  {
    hide Pow2;
    SmallPowers();
    DoublingsOf64(57);
    if exists k: nat :: Doublings(64, k) >= need {
      var k: nat :| Doublings(64, k) >= need;
      DoublingsOf64(k);
      if k <= 57 { Pow2Mono(k + 6, 63); }
    }
  }

  /** The growth loop of zb_buf_reserve: double until `need` fits. */
  method Doubled(cap: word, need: word) returns (newCap: word)
    requires cap < need <= MAX_BUFFER
    ensures need <= newCap && 2 * cap <= newCap && (newCap == 64 || newCap < 2 * need)
    ensures DoublingOf(if cap == 0 then 64 else cap, newCap)
  {
    newCap := if cap != 0 then cap else 64;
    ghost var k: nat := 0;
    while newCap < need
      invariant newCap == Doublings(if cap == 0 then 64 else cap, k)
      invariant 0 < newCap && (newCap == 64 || newCap == cap || newCap < 2 * need)
      invariant cap == 0 || newCap == cap || 2 * cap <= newCap
      decreases need - newCap
    {
      newCap := SizeAdd(newCap, newCap);
      k := k + 1;
    }
  }

  /** A growable byte buffer. Old storage stays in the arena when it grows. */
  class Buf {
    const arena: Arena
    var data: array?<byte>
    var off: word
    var len: word
    var cap: word
    /** Which block of the arena is the current storage. */
    ghost var block: nat
    /** All the storage this buffer has ever asked the arena for. */
    ghost var requested: nat

    ghost predicate Valid()
      reads this, arena
    {
      && arena.Valid() && arena.Addressable() && len <= cap && len <= MAX_BUFFER
      && (cap > 0 ==> data != null && arena.Points(data, off, block) && cap <= arena.blocks[block].size)
      && requested <= 2 * cap && (cap == 0 || cap == 64 || cap < 2 * len)
    }

    ghost function Contents(): (s: seq<byte>)
      requires Valid()
      reads this, arena, arena.mems
      ensures |s| == len
    {
      if cap == 0 then [] else arena.Bytes(block)[..len]
    }

    /** A view is a prefix of a block that no append may touch any more: any block
        of the arena, but of the current storage only the part already filled. */
    ghost predicate IsView(k: nat, n: nat)
      requires Valid()
      reads this, arena
    {
      k < |arena.blocks| && n <= arena.blocks[k].size && (cap > 0 && k == block ==> n <= len)
    }

    ghost function ViewBytes(k: nat, n: nat): seq<byte>
      requires Valid() && IsView(k, n)
      reads this, arena, arena.mems
    {
      arena.Bytes(k)[..n]
    }

    /** zb_buf_init */
    constructor (a: Arena)
      requires a.Valid() && a.Addressable()
      ensures Valid() && arena == a && Contents() == [] && requested == 0
    {
      arena := a;
      data, off, len, cap, block, requested := null, 0, 0, 0, 0, 0;
    }

    /** zb_buf_to_bytes */
    method ToBytes() returns (s: seq<byte>)
      requires Valid()
      ensures s == Contents()
    {
      if cap == 0 { return []; }
      s := arena.Load(data, off, block, len);
    }

    /** zb_buf_reserve */
    method Reserve(additional: word)
      requires Valid() && len + additional <= MAX_BUFFER
      modifies this, arena, arena.mems
      ensures arena.Valid() && arena.Addressable() && len == old(len) && len + additional <= cap
      ensures cap > 0 ==> data != null && arena.Points(data, off, block) && cap <= arena.blocks[block].size
      ensures cap > 0 ==> arena.Bytes(block)[..len] == old(Contents())
      ensures requested <= 2 * cap && (cap == 0 || cap == 64 || cap < 2 * (len + additional))
      ensures |old(arena.blocks)| <= |arena.blocks| && arena.blocks[..|old(arena.blocks)|] == old(arena.blocks)
      ensures forall k :: 0 <= k < |old(arena.blocks)| ==> arena.Bytes(k) == old(arena.Bytes(k))
      ensures (cap == old(cap) && block == old(block)) || |old(arena.blocks)| <= block
      ensures arena.mems >= old(arena.mems) && fresh(arena.mems - old(arena.mems))
    {
      hide Arena.Valid, Arena.Bytes;
      var need := SizeAdd(len, additional);
      if need <= cap { return; }
      var newCap := Doubled(cap, need);
      Regrow(newCap);
    }

    /** The reallocation step of zb_buf_reserve. */
    method Regrow(newCap: word)
      requires Valid() && len <= newCap < 2 * MAX_BUFFER && newCap > 0
      modifies this, arena, arena.mems
      ensures arena.Valid() && arena.Addressable() && len == old(len) && cap == newCap && requested == old(requested) + newCap
      ensures data != null && arena.Points(data, off, block) && cap <= arena.blocks[block].size
      ensures arena.Bytes(block)[..len] == old(Contents())
      ensures |arena.blocks| == |old(arena.blocks)| + 1 && arena.blocks[..|old(arena.blocks)|] == old(arena.blocks)
      ensures forall k :: 0 <= k < |old(arena.blocks)| ==> arena.Bytes(k) == old(arena.Bytes(k))
      ensures block == |old(arena.blocks)|
      ensures arena.mems >= old(arena.mems) && fresh(arena.mems - old(arena.mems))
    {
      hide Arena.Valid, Arena.Bytes, Rounded, Arena.SumsFit, Arena.Addressable, TakenFrom;
      ghost var before := |arena.blocks|;
      var nd, noff := arena.Alloc(newCap);
      if len != 0 {
        var kept := arena.Load(data, off, block, len);
        arena.Store(nd, noff, before, 0, kept);
      }
      data, off, cap, block, requested := nd, noff, newCap, before, requested + newCap;
    }

    /** zb_buf_append. No view changes, here or in any other buffer of the arena;
        and the storage ever requested is linear in the length. */
    method Append(src: seq<byte>)
      requires Valid() && len + |src| <= MAX_BUFFER
      modifies this, arena, arena.mems
      ensures Valid() && len == old(len) + |src| && Contents() == old(Contents()) + src
      ensures forall k, n :: old(IsView(k, n)) ==> IsView(k, n) && ViewBytes(k, n) == old(ViewBytes(k, n))
      ensures requested <= Max(128, 4 * len)
      ensures arena.mems >= old(arena.mems) && fresh(arena.mems - old(arena.mems))
    {
      hide Arena.Valid, Arena.Bytes;
      Reserve(|src|);
      if |src| > 0 {
        arena.Store(data, off, block, len, src);
      }
      len := len + |src|;
    }
  }

  function Max(a: int, b: int): (m: int)
    ensures m >= a && m >= b && (m == a || m == b)
  {
    if a < b then b else a
  }
}
