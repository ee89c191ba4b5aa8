/** The writing half of the C runtime: a growable buffer behind a bit accumulator. */
module WriterImpl {
  import opened Words
  import opened BitSeq
  import opened Codec
  import opened ArenaImpl

  class Writer {
    const buf: Buf
    var bits: word
    var bitsLeft: nat
    var bitsLe: bool

    ghost predicate Valid()
      reads this, buf, buf.arena
    {
      buf.Valid() && bitsLeft < 8 && bits < Pow2(bitsLeft)
    }

    ghost function State(): (w: WState)
      requires Valid()
      reads this, buf, buf.arena, buf.arena.mems
      ensures WriterOk(w) && |w.buf| == buf.len
    {
      WState(buf.Contents(), Spell(bits, bitsLeft, bitsLe), bitsLe)
    }

    /** There is room in the buffer for `n` more bytes. */
    predicate Roomy(n: nat)
      reads this, buf
    {
      buf.len + n <= MAX_BUFFER
    }

    /** zb_writer_init */
    constructor (a: Arena)
      requires a.Valid() && a.Addressable()
      ensures Valid() && State() == W0 && buf.arena == a && fresh(buf)
    {
      buf := new Buf(a);
      bits, bitsLeft, bitsLe := 0, 0, false;
    }

    /** zb_writer_align_to_byte */
    method AlignToByte()
      requires Valid() && Roomy(1)
      modifies this, buf, buf.arena, buf.arena.mems
      ensures Valid() && State() == Align(old(State()))
      ensures buf.arena.mems >= old(buf.arena.mems) && fresh(buf.arena.mems - old(buf.arena.mems))
    {
      hide Spell, And, Buf.Valid, Buf.Contents, Pack, Zeros, Pow2;
      if bitsLeft == 0 { return; }
      AlignedByte(bits, bitsLeft, bitsLe);
      if bitsLe {
        buf.Append([And(bits, 0xff)]);
        bits, bitsLeft, bitsLe := 0, 0, false;
      } else {
        var shift := 8 - bitsLeft;
        buf.Append([And(Shl(bits, shift), 0xff)]);
        bits, bitsLeft := 0, 0;
      }
    }

    /** zb_write_bits_be */
    method WriteBitsBe(n0: int, v0: word) returns (r: Result<()>)
      requires Valid() && Roomy(9)
      modifies this, buf, buf.arena, buf.arena.mems
      ensures Valid() && (r, State()) == WriteBits(old(State()), false, n0, v0)
      ensures buf.arena.mems >= old(buf.arena.mems) && fresh(buf.arena.mems - old(buf.arena.mems))
    {
      hide Spell, And, Or, Up, High, Low, Shl, Shr, Mask, Expand, Pack, Pow2, Buf.Valid, Buf.Contents, Emitting;
      ghost var w0 := State();
      if n0 < 0 || n0 > 64 { return Err(Overflow); }
      if bitsLe { AlignToByte(); }
      bitsLe := false;
      var n, v := n0, And(v0, Mask(n0));
      ghost var w1 := State();
      ghost var goal := Goal(w1, Spell(v, n, false));
      AndMask(v0, n);
      EmitStarts(goal, w1, bits, bitsLeft, Spell(v, n, false));
      while n > 0
        invariant Valid() && !bitsLe && 0 <= n <= n0
        invariant 8 * buf.len + bitsLeft + n == 8 * |w1.buf| + |w1.pend| + n0
        invariant buf.arena.mems >= old(buf.arena.mems) && fresh(buf.arena.mems - old(buf.arena.mems))
        invariant Emitting(goal, false, buf.Contents(), bits, bitsLeft, Spell(v, n, false))
      {
        var chunk := n;
        if bitsLeft + chunk > 56 { chunk := 56 - bitsLeft; }
        var cv := And(Shr(v, n - chunk), Mask(chunk));
        EmitChunkBe(goal, buf.Contents(), bits, bitsLeft, v, n, chunk);
        bits := Or(Shl(bits, chunk), cv);
        bitsLeft := bitsLeft + chunk;
        n := n - chunk;
        FlushBe(goal, Spell(v, n, false));
      }
      EmitDone(goal, w1, Spell(And(v0, Mask(n0)), n0, false), buf.Contents(), bits, bitsLeft, Spell(v, n, false));
      return Ok(());
    }

    /** zb_write_bits_le */
    method WriteBitsLe(n: int, v0: word) returns (r: Result<()>)
      requires Valid() && Roomy(9)
      modifies this, buf, buf.arena, buf.arena.mems
      ensures Valid() && (r, State()) == WriteBits(old(State()), true, n, v0)
      ensures buf.arena.mems >= old(buf.arena.mems) && fresh(buf.arena.mems - old(buf.arena.mems))
    {
      hide Spell, And, Or, Up, High, Low, Shl, Shr, Mask, Expand, Pack, Pow2, Buf.Valid, Buf.Contents, Emitting, Kept;
      if n < 0 || n > 64 { return Err(Overflow); }
      if !bitsLe && bitsLeft != 0 { AlignToByte(); }
      bitsLe := true;
      var v := And(v0, Mask(n));
      ghost var w1 := State();
      ghost var s := Spell(Kept(v0, n, true, bitsLeft), n, true);
      ghost var goal := Goal(w1, s);
      EmitStarts(goal, w1, bits, bitsLeft, s);
      EmitAllLe(goal, buf.Contents(), bits, bitsLeft, v0, n);
      bits := Or(bits, Shl(v, bitsLeft));
      bitsLeft := bitsLeft + n;
      FlushLe(goal);
      EmitDone(goal, w1, s, buf.Contents(), bits, bitsLeft, []);
      return Ok(());
    }

    /** The inner loop of zb_write_bits_be: whole bytes leave the accumulator. */
    method FlushBe(ghost goal: bits, ghost rest: bits)
      requires buf.Valid() && !bitsLe && bitsLeft <= 56 && 8 * buf.len + bitsLeft <= 8 * MAX_BUFFER
      requires Emitting(goal, false, buf.Contents(), bits, bitsLeft, rest)
      modifies this, buf, buf.arena, buf.arena.mems
      ensures Valid() && !bitsLe && 8 * buf.len + bitsLeft == old(8 * buf.len + bitsLeft)
      ensures Emitting(goal, false, buf.Contents(), bits, bitsLeft, rest)
      ensures buf.arena.mems >= old(buf.arena.mems) && fresh(buf.arena.mems - old(buf.arena.mems))
    {
      hide And, Shr, Mask, Pow2, Buf.Valid, Buf.Contents, Emitting;
      while bitsLeft >= 8
        invariant buf.Valid() && !bitsLe && bitsLeft <= 56
        invariant 8 * buf.len + bitsLeft == old(8 * buf.len + bitsLeft)
        invariant buf.arena.mems >= old(buf.arena.mems) && fresh(buf.arena.mems - old(buf.arena.mems))
        invariant Emitting(goal, false, buf.Contents(), bits, bitsLeft, rest)
      {
        var shift := bitsLeft - 8;
        var out := And(Shr(bits, shift), 0xff);
        EmitByteBe(goal, buf.Contents(), bits, bitsLeft, rest);
        buf.Append([out]);
        bitsLeft := bitsLeft - 8;
        bits := And(bits, if bitsLeft == 0 then 0 else Mask(bitsLeft));
      }
      EmittingBound(goal, false, buf.Contents(), bits, bitsLeft, rest);
    }

    /** The loop of zb_write_bits_le. */
    method FlushLe(ghost goal: bits)
      requires buf.Valid() && bitsLe && 8 * buf.len + bitsLeft <= 8 * MAX_BUFFER
      requires Emitting(goal, true, buf.Contents(), bits, bitsLeft, [])
      modifies this, buf, buf.arena, buf.arena.mems
      ensures Valid() && bitsLe
      ensures Emitting(goal, true, buf.Contents(), bits, bitsLeft, [])
      ensures buf.arena.mems >= old(buf.arena.mems) && fresh(buf.arena.mems - old(buf.arena.mems))
    {
      hide And, Shr, Pow2, Buf.Valid, Buf.Contents, Emitting;
      while bitsLeft >= 8
        invariant buf.Valid() && bitsLe && 8 * buf.len + bitsLeft <= 8 * MAX_BUFFER
        invariant buf.arena.mems >= old(buf.arena.mems) && fresh(buf.arena.mems - old(buf.arena.mems))
        invariant Emitting(goal, true, buf.Contents(), bits, bitsLeft, [])
      {
        var out := And(bits, 0xff);
        EmitByteLe(goal, buf.Contents(), bits, bitsLeft);
        buf.Append([out]);
        bits := Shr(bits, 8);
        bitsLeft := bitsLeft - 8;
      }
      EmittingBound(goal, true, buf.Contents(), bits, bitsLeft, []);
    }

    /** zb_write_bytes and zb_write_bytes_raw (and zb_write_u1, zb_write_s1 for one byte) */
    method WriteBytes(bs: seq<byte>)
      requires Valid() && Roomy(|bs| + 1)
      modifies this, buf, buf.arena, buf.arena.mems
      ensures Valid() && State() == WriteRaw(old(State()), bs)
      ensures buf.arena.mems >= old(buf.arena.mems) && fresh(buf.arena.mems - old(buf.arena.mems))
    {
      hide Spell, Buf.Valid, Buf.Contents, Pack, Zeros, Pow2;
      AlignToByte();
      buf.Append(bs);
    }

    /** ZB_DEFINE_WRITE_INT; one-byte integers have no byte order. */
    method WriteInt(v: int, size: nat, be: bool)
      requires Valid() && 1 <= size <= 8 && Roomy(size + 1)
      requires -0x8000_0000_0000_0000 <= v < 0x1_0000_0000_0000_0000
      modifies this, buf, buf.arena, buf.arena.mems
      ensures Valid() && State() == WriteRaw(old(State()), IntBytes(ToWord(v), size, be))
      ensures buf.arena.mems >= old(buf.arena.mems) && fresh(buf.arena.mems - old(buf.arena.mems))
    {
      var bytes := SplitWord(ToWord(v), size, be);
      WriteBytes(bytes);
    }

    /** zb_writer_finalize */
    method Finalize() returns (bytes: seq<byte>)
      requires Valid() && Roomy(1)
      modifies this, buf, buf.arena, buf.arena.mems
      ensures Valid() && State() == Align(old(State())) && bytes == State().buf
      ensures buf.arena.mems >= old(buf.arena.mems) && fresh(buf.arena.mems - old(buf.arena.mems))
    {
      AlignToByte();
      bytes := buf.ToBytes();
    }
  }

  /** The byte loop of ZB_DEFINE_WRITE_INT: low byte first, filled from the front or from the back. */
  method SplitWord(u0: word, size: nat, be: bool) returns (bytes: seq<byte>)
    requires size <= 8
    ensures bytes == IntBytes(u0, size, be)
  {
    hide Spell, Expand, Pack, And, Shr, High, Low, Pow2;
    var u, i := u0, 0;
    bytes := [];
    ghost var goal := Spell(u0, 8 * size, !be);
    SplitStarts(be);
    while i < size
      invariant 0 <= i <= size
      invariant goal == (if be then Spell(u, 8 * (size - i), false) + Expand(bytes, false)
                         else Expand(bytes, true) + Spell(u, 8 * (size - i), true))
    {
      SplitStep(u, 8 * (size - i - 1), bytes, be);
      var b := And(u, 0xff);
      bytes := if be then [b] + bytes else bytes + [b];
      u := Shr(u, 8);
      i := i + 1;
    }
    SplitEnds(u, be);
    assert goal == Expand(bytes, !be);
    PackOfExpand(bytes, !be);
  }

  lemma SplitStarts(be: bool)
    ensures Expand([], !be) == []
  {}

  lemma SplitEnds(u: nat, be: bool)
    ensures Spell(u, 0, !be) == []
  {}

  lemma SplitStep(u: word, m: nat, bytes: seq<byte>, be: bool)
    ensures And(u, 0xff) < 256
    ensures var b: byte := And(u, 0xff);
            if be then Spell(u, m + 8, false) + Expand(bytes, false) ==
                       Spell(Shr(u, 8), m, false) + Expand([b] + bytes, false)
            else Expand(bytes, true) + Spell(u, m + 8, true) == Expand(bytes + [b], true) + Spell(Shr(u, 8), m, true)
  {
    hide Spell, Expand, And, Shr, High, Low, Pow2;
    var b := LowByte(u);
    var top := High(u, 8);
    if be {
      SpellSplit(u, m, 8);
      ExpandConcat([b], bytes, false);
      Regroup([], Spell(top, m, false), Spell(b, 8, false), Expand(bytes, false));
    } else {
      SpellSplit(u, 8, m);
      ExpandConcat(bytes, [b], true);
      Regroup(Expand(bytes, true), [], Spell(b, 8, true), Spell(top, m, true));
    }
  }

  lemma LowByte(u: word) returns (b: byte)
    ensures And(u, 0xff) == b == Low(u, 8) && Shr(u, 8) == High(u, 8)
    ensures Expand([b], false) == Spell(b, 8, false) && Expand([b], true) == Spell(b, 8, true)
  {
    Pow2Values();
    AndMaskNat(u, 8);
    b := Low(u, 8);
    ExpandOne(b, false);
    ExpandOne(b, true);
  }

  /** The bits that must be in the buffer once `s` is written, in one row. */
  ghost function Goal(w: WState, s: bits): bits
  {
    Expand(w.buf, w.le) + w.pend + s
  }

  /** Mid-write: the buffer, the accumulator and the bits still to come. */
  ghost predicate Emitting(goal: bits, le: bool, buf: seq<byte>, bits: nat, left: nat, rest: bits)
  {
    bits < Pow2(left) && Expand(buf, le) + Spell(bits, left, le) + rest == goal
  }

  lemma EmittingBound(goal: bits, le: bool, buf: seq<byte>, bits: nat, left: nat, rest: bits)
    requires Emitting(goal, le, buf, bits, left, rest)
    ensures bits < Pow2(left)
  {}

  lemma EmitStarts(goal: bits, w: WState, bits: nat, left: nat, s: bits)
    requires goal == Goal(w, s) && bits < Pow2(left) && w.pend == Spell(bits, left, w.le)
    ensures Emitting(goal, w.le, w.buf, bits, left, s)
  {}

  lemma {:induction false} SpellZero(n: nat, le: bool)
    ensures Spell(0, n, le) == Zeros(n)
  {
    if n > 0 { SpellZero(n - 1, le); }
  }

  /** The byte that completes `left` pending bits. */
  lemma AlignedByte(bits: word, left: nat, le: bool)
    requires 0 < left < 8 && bits < Pow2(left)
    ensures var b := if le then And(bits, 0xff) else And(Shl(bits, 8 - left), 0xff);
            b < 256 && [b as byte] == Pack(Spell(bits, left, le) + Zeros(8 - left), le)
    ensures Spell(bits, left, le) != [] && Spell(0, 0, le) == [] && Pow2(0) == 1
  {
    hide Spell, And, Shl, Up, Low, High, Pack, Zeros;
    Pow2Values();
    AlignedShapes(bits, left, le);
    SpellZero(8 - left, le);
    var k := 8 - left;
    if le {
      AndMaskNat(bits, 8);
      Pow2Mono(left, 8);
      LowSmall(bits, 8);
      LowSmall(bits, left);
      SpellSplit(bits, left, k);
      PackOne(bits, le);
    } else {
      ShlExact(bits, left, k);
      UpBound(bits, left, k);
      AndMaskNat(Up(bits, k), 8);
      LowSmall(Up(bits, k), 8);
      SpellJoinBe(bits, left, 0, k);
      PackOne(Up(bits, k), le);
    }
  }

  lemma AlignedShapes(bits: nat, left: nat, le: bool)
    ensures left > 0 ==> Spell(bits, left, le) != []
    ensures Spell(0, 0, le) == [] && Pow2(0) == 1
  {}

  lemma PackOne(b: byte, le: bool)
    ensures Pack(Spell(b, 8, le), le) == [b]
  {
    SpellByte(b, le);
    var s := Spell(b, 8, le);
    assert s[..8] == s && s[8..] == [];
  }

  /** Moving the next `chunk` bits of `v` into the accumulator. */
  lemma EmitChunkBe(goal: bits, buf: seq<byte>, bits: word, left: nat, v: word, n: nat, chunk: nat)
    requires Emitting(goal, false, buf, bits, left, Spell(v, n, false))
    requires chunk <= n <= 64 && left + chunk <= 56
    ensures Emitting(goal, false, buf, Or(Shl(bits, chunk), And(Shr(v, n - chunk), Mask(chunk))), left + chunk,
                     Spell(v, n - chunk, false))
    ensures Or(Shl(bits, chunk), And(Shr(v, n - chunk), Mask(chunk))) < 0x1_0000_0000_0000_0000
  {
    hide Spell, Expand, Up, High, Low, Or, And, Mask, Pow2;
    var top := Shr(v, n - chunk);
    AndMask(top, chunk);
    var cv := Low(top, chunk);
    ShlExact(bits, left, chunk);
    OrDisjoint(bits, cv, chunk);
    UpBound(bits, left, chunk);
    Pow2Mono(left + chunk, 64);
    Pow2Values();
    SpellJoinBe(bits, left, cv, chunk);
    SpellSplit(v, chunk, n - chunk);
    SpellLow(top, chunk, false);
    SpellLow(v, n - chunk, false);
    Regroup(Expand(buf, false), Spell(bits, left, false), Spell(cv, chunk, false), Spell(v, n - chunk, false));
  }

  lemma Regroup(a: bits, b: bits, c: bits, d: bits)
    ensures a + b + (c + d) == a + (b + c) + d
  {}

  /** Moving the first eight accumulated bits into the buffer. */
  lemma EmitByteBe(goal: bits, buf: seq<byte>, bits: word, left: nat, rest: bits)
    requires Emitting(goal, false, buf, bits, left, rest) && 8 <= left <= 64
    ensures And(Shr(bits, left - 8), 0xff) < 256
    ensures Emitting(goal, false, buf + [And(Shr(bits, left - 8), 0xff) as byte],
                     And(bits, if left == 8 then 0 else Mask(left - 8)), left - 8, rest)
  {
    hide Spell, Expand, Up, High, Low, Or, And, Pow2;
    Pow2Values();
    var top, low := High(bits, left - 8), Low(bits, left - 8);
    HighBound(bits, 8, left - 8);
    AndMaskNat(top, 8);
    LowSmall(top, 8);
    AndMask(bits, left - 8);
    SpellSplit(bits, 8, left - 8);
    ExpandConcat(buf, [top], false);
    ExpandOne(top, false);
    Regroup(Expand(buf, false), [], Spell(top, 8, false), Spell(low, left - 8, false));
  }

  /** A little-endian write puts the whole value above the pending bits at once;
      what does not fit the accumulator is lost. */
  lemma EmitAllLe(goal: bits, buf: seq<byte>, bits: word, left: nat, v: word, n: nat)
    requires left < 8 && n <= 64
    requires Emitting(goal, true, buf, bits, left, Spell(Kept(v, n, true, left), n, true))
    ensures Emitting(goal, true, buf, Or(bits, Shl(And(v, Mask(n)), left)), left + n, [])
    ensures Or(bits, Shl(And(v, Mask(n)), left)) < 0x1_0000_0000_0000_0000
  {
    hide Spell, Expand, Up, High, Low, Or, And, Mask, Pow2;
    AndMask(v, n);
    var masked, room, kept := Low(v, n), 64 - left, Kept(v, n, true, left);
    ShlTruncates(masked, left);
    if n <= room {
      Pow2Mono(n, room);
      LowSmall(masked, room);
    } else {
      LowLow(v, room, n);
    }
    assert Shl(masked, left) == Up(kept, left);
    OrDisjoint(kept, bits, left);
    UpBound(kept, n, left);
    UpBound(kept, room, left);
    Pow2Values();
    SpellJoinLe(bits, left, kept, n);
    Regroup(Expand(buf, true), [], Spell(bits, left, true), Spell(kept, n, true));
  }

  lemma EmitByteLe(goal: bits, buf: seq<byte>, bits: word, left: nat)
    requires Emitting(goal, true, buf, bits, left, []) && 8 <= left
    ensures And(bits, 0xff) < 256
    ensures Emitting(goal, true, buf + [And(bits, 0xff) as byte], Shr(bits, 8), left - 8, [])
  {
    hide Spell, Expand, Up, High, Low, Or, And, Pow2;
    Pow2Values();
    var low := Low(bits, 8);
    AndMaskNat(bits, 8);
    HighBound(bits, left - 8, 8);
    SpellSplit(bits, 8, left - 8);
    ExpandConcat(buf, [low], true);
    ExpandOne(low, true);
    Regroup(Expand(buf, true), [], Spell(low, 8, true), Spell(High(bits, 8), left - 8, true));
  }

  lemma EmitDone(goal: bits, w: WState, s: bits, buf: seq<byte>, bits: nat, left: nat, rest: bits)
    requires WriterOk(w) && goal == Goal(w, s) && left < 8 && rest == []
    requires Emitting(goal, w.le, buf, bits, left, rest)
    ensures PutBits(w, s) == WState(buf, Spell(bits, left, w.le), w.le)
  {
    hide Spell, Expand, Pack, Pow2;
    assert Expand(w.buf, w.le) + w.pend + s == Expand(w.buf, w.le) + (w.pend + s);
    Flushed(w.buf, w.pend + s, buf, Spell(bits, left, w.le), w.le);
  }

  /** Whole bytes in the buffer and fewer than eight bits outside it: the split is unique. */
  lemma Flushed(buf0: seq<byte>, t: bits, buf: seq<byte>, pend: bits, le: bool)
    requires |pend| < 8 && Expand(buf, le) + pend == Expand(buf0, le) + t
    ensures var k := |t| - |t| % 8; buf == buf0 + Pack(t[..k], le) && pend == t[k..]
  {
    hide Expand, Pack, Pow2;
    var k := |t| - |t| % 8;
    var all, front := Expand(buf, le) + pend, Expand(buf0, le);
    assert 8 * |buf| + |pend| == 8 * |buf0| + |t|;
    assert |pend| == |t| % 8 && 8 * |buf| == 8 * |buf0| + k;
    assert t == t[..k] + t[k..];
    assert all == front + t[..k] + t[k..];
    assert all[..8 * |buf|] == Expand(buf, le) == front + t[..k];
    ExpandOfPack(t[..k], le);
    ExpandConcat(buf0, Pack(t[..k], le), le);
    PackOfExpand(buf, le);
    PackOfExpand(buf0 + Pack(t[..k], le), le);
  }
}
