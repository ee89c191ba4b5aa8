/** The reading half of the C runtime: an in-memory window with a bit accumulator. */
module StreamImpl {
  import opened Words
  import opened BitSeq
  import opened Codec

  class Stream {
    const mem: array<byte>
    const base: word
    const limit: word
    var pos: word
    var bits: word
    var bitsLeft: nat
    var bitsLe: bool

    ghost predicate Valid()
      reads this
    {
      base + limit <= mem.Length <= MAX_OBJECT && pos <= limit && bitsLeft < 8 && bits < Pow2(bitsLeft)
    }

    ghost function Contents(): seq<byte>
      requires base + limit <= mem.Length
      reads mem
    {
      mem[base..base + limit]
    }

    ghost function State(): (r: RState)
      requires Valid()
      reads this, mem
      ensures ReaderOk(r)
    {
      RState(Contents(), pos, Spell(bits, bitsLeft, bitsLe), bitsLe)
    }

    /** zb_stream_init_mem */
    constructor (data: array<byte>)
      requires data.Length <= MAX_OBJECT
      ensures Valid() && mem == data && base == 0 && limit == data.Length
      ensures State() == RState(data[..], 0, [], false)
    {
      mem, base, limit := data, 0, data.Length;
      pos, bits, bitsLeft, bitsLe := 0, 0, 0, false;
    }

    /** zb_stream_read_raw_keep_bits, for the one byte the bit readers ask for */
    method ReadByteKeepBits() returns (r: Result<byte>)
      requires Valid()
      modifies this`pos
      ensures Valid()
      ensures old(pos) < limit ==> pos == old(pos) + 1 && r == Ok(Contents()[old(pos)])
      ensures old(pos) == limit ==> pos == old(pos) && r == Err(Eof)
    {
      if pos + 1 > limit { return Err(Eof); }
      r := Ok(mem[base + pos]);
      pos := pos + 1;
    }

    /** The part of zb_read_bits_be for a read that the pending bits cover. */
    method PendingBitsBe(n: nat, ghost r0: RState) returns (out: word)
      requires Valid() && n <= bitsLeft && !bitsLe && ReaderOk(r0) && r0.data == Contents()
      requires Collecting(r0, false, 0, 0, Spell(bits, bitsLeft, false), pos)
      modifies this`bits, this`bitsLeft
      ensures Valid() && (Ok(out), State()) == ReadBits(r0, false, n)
    {
      hide Spell, Value, Expand, Or, And, Up, High, Low, Pow2, Mask, Shl, Shr, ReadBits, View, Collecting;
      var shift := bitsLeft - n;
      out := And(Shr(bits, shift), Mask(n));
      TakePendingBe(r0, bits, bitsLeft, n, pos);
      bitsLeft := shift;
      if bitsLeft == 0 {
        bits := 0;
      } else {
        bits := And(bits, Mask(bitsLeft));
      }
      ReadDone(r0, false, n, out, bits, bitsLeft, pos);
    }

    /** zb_read_bits_be */
    method ReadBitsBe(n: int) returns (r: Result<word>)
      requires Valid()
      modifies this
      ensures Valid()
      ensures (r, State()) == ReadBits(old(State()), false, n)
    {
      hide Spell, Value, Expand, Or, And, Up, High, Low, Pow2, Mask, Shl, Shr, ReadBits, View, Collecting;
      ghost var r0 := State();
      ReadStarts(r0, false, n);
      if n < 0 || n > 64 { return Err(Overflow); }
      if bitsLe { bits, bitsLeft := 0, 0; }
      bitsLe := false;
      var result: word, collected := 0, 0;
      if bitsLeft >= n {
        result := PendingBitsBe(n, r0);
        return Ok(result);
      }
      if bitsLeft > 0 {
        TakePendingBe(r0, bits, bitsLeft, bitsLeft, pos);
        result := And(bits, Mask(bitsLeft));
        collected := bitsLeft;
        bits, bitsLeft := 0, 0;
      }
      while collected + 8 <= n
        invariant Valid() && bits == 0 && bitsLeft == 0 && !bitsLe
        invariant 0 <= collected <= n && r0.data == Contents()
        invariant Collecting(r0, false, result, collected, [], pos)
      {
        var b := ReadByteKeepBits();
        if b.Err? {
          ReadFails(r0, false, n, result, collected);
          return Err(Eof);
        }
        TakeBe(r0, result, collected, pos - 1, 8);
        result := Or(Shl(result, 8), b.value);
        collected := collected + 8;
      }
      if collected < n {
        var b := ReadByteKeepBits();
        if b.Err? {
          ReadFails(r0, false, n, result, collected);
          return Err(Eof);
        }
        var need := n - collected;
        TakeBe(r0, result, collected, pos - 1, need);
        result := Or(Shl(result, need), Shr(b.value, 8 - need));
        bits := And(b.value, Mask(8 - need));
        bitsLeft := 8 - need;
        ReadDone(r0, false, n, result, bits, bitsLeft, pos);
      } else {
        ReadDone(r0, false, n, result, bits, bitsLeft, pos);
      }
      return Ok(result);
    }

    /** zb_read_bits_le */
    method ReadBitsLe(n: int) returns (r: Result<word>)
      requires Valid()
      modifies this
      ensures Valid()
      ensures (r, State()) == ReadBits(old(State()), true, n)
    {
      hide Spell, Value, Expand, Or, And, Up, High, Low, Pow2, Mask, Shl, Shr, ReadBits, View, Collecting;
      ghost var r0 := State();
      ReadStarts(r0, true, n);
      if n < 0 || n > 64 { return Err(Overflow); }
      if !bitsLe { bits, bitsLeft := 0, 0; }
      bitsLe := true;
      var result: word, collected := 0, 0;
      var take := if bitsLeft < n then bitsLeft else n;
      if take > 0 {
        TakePendingLe(r0, bits, bitsLeft, take, pos);
        result := And(bits, Mask(take));
        bits := Shr(bits, take);
        bitsLeft := bitsLeft - take;
        collected := take;
      }
      while collected < n
        invariant Valid() && bitsLe && r0.data == Contents()
        invariant 0 <= collected <= n && (collected < n ==> bitsLeft == 0)
        invariant Collecting(r0, true, result, collected, Spell(bits, bitsLeft, true), pos)
      {
        var b := ReadByteKeepBits();
        if b.Err? {
          ReadFails(r0, true, n, result, collected);
          return Err(Eof);
        }
        var wanted := n - collected;
        if wanted >= 8 {
          TakeLe(r0, result, collected, pos - 1, 8);
          result := Or(result, Shl(b.value, collected));
          collected := collected + 8;
        } else {
          TakeLe(r0, result, collected, pos - 1, wanted);
          result := Or(result, Shl(And(b.value, Mask(wanted)), collected));
          bits := Shr(b.value, wanted);
          bitsLeft := 8 - wanted;
          collected := n;
        }
      }
      ReadDone(r0, true, n, result, bits, bitsLeft, pos);
      return Ok(result);
    }

    /** zb_stream_read_raw. Nothing is copied from beyond the window exactly if the sum of
        position and length does not wrap. */
    method ReadRawBytes(n: word) returns (r: Result<seq<byte>>)
      requires Valid()
      modifies this
      ensures Valid()
      ensures (r, State()) == ReadRaw(old(State()), n)
      ensures r == Err(Stray) <==> old(pos) + n >= SIZE_LIMIT
    {
      bits, bitsLeft := 0, 0;
      assert Spell(0, 0, bitsLe) == [];
      if n == 0 {
        assert Contents()[pos..pos + n] == [];
        return Ok([]);
      }
      if SizeAdd(pos, n) > limit { return Err(Eof); }
      if pos + n > limit { return Err(Stray); } // the runtime copies here
      assert Contents()[pos..pos + n] == mem[base + pos..base + pos + n];
      r := Ok(mem[base + pos..base + pos + n]);
      pos := pos + n;
    }

    /** ZB_DEFINE_READ_INT (and zb_read_u1, zb_read_s1 for one byte) */
    method ReadInt(size: nat, be: bool, signed: bool) returns (r: Result<int>)
      requires Valid() && 1 <= size <= 8
      modifies this
      ensures Valid()
      ensures (r, State()) == Codec.ReadInt(old(State()), size, be, signed)
    {
      var raw := ReadRawBytes(size);
      if raw.Err? { return Err(raw.error); }
      var v := JoinBytes(raw.value, be);
      r := Ok(FromWord(v, size, signed));
    }

    /** zb_stream_align_to_byte */
    method AlignToByte()
      requires Valid()
      modifies this`bits, this`bitsLeft
      ensures Valid() && State() == old(State()).(pend := [])
    {
      bits, bitsLeft := 0, 0;
    }

    /** zb_stream_seek: only positions inside the window are accepted. */
    method Seek(to: word) returns (r: Result<()>)
      requires Valid()
      modifies this
      ensures Valid()
      ensures to > limit ==> r == Err(Eof) && State() == old(State())
      ensures to <= limit ==> r == Ok(()) && State() == old(State()).(pos := to, pend := [])
    {
      if to > limit { return Err(Eof); }
      pos, bits, bitsLeft := to, 0, 0;
      r := Ok(());
    }

    /** zb_stream_eof */
    predicate AtEof()
      requires Valid()
      reads this, mem
      ensures AtEof() <==> View(State(), bitsLe) == []
    {
      pos >= limit && bitsLeft == 0
    }

    ghost function Place(): Extent
      reads this
    {
      Extent(base, limit)
    }

    /** zb_stream_substream: a window on the same memory. If the sums fit `size_t` it is the
        clamped slice of the parent; otherwise it is not inside the parent. */
    method Substream(off: word, len: word) returns (out: Stream)
      requires Valid()
      ensures fresh(out) && out.mem == mem && unchanged(this)
      ensures out.Place() == Sub(Place(), off, len)
      ensures Inside(out.Place(), Place()) <==> SumsFit(Place(), off, len)
      ensures SumsFit(Place(), off, len) ==>
        out.Valid() && out.State() == RState(Window(Contents(), off, len), 0, [], false)
    {
      var b, l := SizeAdd(base, off), len;
      if b > SizeAdd(base, limit) { b := SizeAdd(base, limit); }
      if SizeAdd(b, l) > SizeAdd(base, limit) { l := SizeAdd(base, limit) - b; }
      SubInsideIff(Place(), off, len);
      if SumsFit(Place(), off, len) { SubIsWindow(mem[..], Place(), off, len); }
      out := new Stream.Over(mem, b, l);
    }

    constructor Over(data: array<byte>, start: word, len: word)
      requires data.Length <= MAX_OBJECT
      ensures mem == data && base == start && limit == len
      ensures start + len <= data.Length ==>
        Valid() && State() == RState(data[start..start + len], 0, [], false)
    {
      mem, base, limit := data, start, len;
      pos, bits, bitsLeft, bitsLe := 0, 0, 0, false;
    }

    /** The reading of a structure of a given size: a window from the current position, and
        the position moved behind it, where the sum as computed does not pass the limit. If
        no sum wraps, either the window has exactly that size or the read fails; if the sum
        of position and length wraps, the position moves backwards. */
    method ConsumeWindow(len: word) returns (out: Stream, r: Result<()>)
      requires Valid()
      modifies this
      ensures Valid() && fresh(out) && out.Place() == old(Sub(Place(), pos, len))
      ensures r.Ok? <==> SizeAdd(old(pos), len) <= limit
      ensures r.Ok? ==> pos == SizeAdd(old(pos), len)
      ensures base + old(pos) + len < SIZE_LIMIT ==>
        out.Valid() && (r.Ok? <==> old(pos) + len <= limit) &&
        (r.Ok? ==> out.State() == RState(Contents()[old(pos)..old(pos) + len], 0, [], false) && pos == old(pos) + len)
      ensures old(pos) + len >= SIZE_LIMIT ==> r.Ok? && pos < old(pos)
      ensures r.Err? ==> State() == old(State())
    {
      var start := pos;
      out := Substream(start, len);
      r := Seek(SizeAdd(start, len));
    }
  }

  /** The byte loop of ZB_DEFINE_READ_INT. */
  method JoinBytes(bytes: seq<byte>, be: bool) returns (v: word)
    requires |bytes| <= 8
    ensures v == BytesInt(bytes, be)
  {
    hide Spell, Expand, Or, Shl, Up, Pow2;
    v := 0;
    JoinStarts();
    if be {
      var i := 0;
      while i < |bytes|
        invariant 0 <= i <= |bytes| && v < Pow2(8 * i)
        invariant Spell(v, 8 * i, false) == Expand(bytes[..i], false)
      {
        JoinStep(v, 8 * i, bytes[i], true);
        ExpandConcat(bytes[..i], [bytes[i]], false);
        assert bytes[..i] + [bytes[i]] == bytes[..i + 1];
        v := Or(Shl(v, 8), bytes[i]);
        i := i + 1;
      }
      assert bytes[..i] == bytes;
    } else {
      var i := |bytes|;
      while i > 0
        invariant 0 <= i <= |bytes| && v < Pow2(8 * (|bytes| - i))
        invariant Spell(v, 8 * (|bytes| - i), true) == Expand(bytes[i..], true)
      {
        i := i - 1;
        JoinStep(v, 8 * (|bytes| - i - 1), bytes[i], false);
        ExpandConcat([bytes[i]], bytes[i + 1..], true);
        assert [bytes[i]] + bytes[i + 1..] == bytes[i..];
        v := Or(Shl(v, 8), bytes[i]);
      }
    }
    ValueOfSpellExact(v, 8 * |bytes|, !be);
  }

  lemma JoinStarts()
    ensures Pow2(0) == 1 && Spell(0, 0, true) == Spell(0, 0, false) == []
    ensures Expand([], true) == Expand([], false) == []
  {}

  lemma JoinStep(v: word, n: nat, b: byte, be: bool)
    requires v < Pow2(n) && n + 8 <= 64
    ensures var u := Or(Shl(v, 8), b);
            u < Pow2(n + 8) && u < 0x1_0000_0000_0000_0000 &&
            Spell(u, n + 8, !be) == (if be then Spell(v, n, false) + Expand([b], false) else Expand([b], true) + Spell(v, n, true))
  {
    hide Spell, Expand, Or, Shl, Up, Pow2;
    Pow2Values();
    ShlExact(v, n, 8);
    OrDisjoint(v, b, 8);
    UpBound(v, n, 8);
    Pow2Mono(n + 8, 64);
    ExpandOne(b, !be);
    if be { SpellJoinBe(v, n, b, 8); } else { SpellJoinLe(b, 8, v, n); }
  }

  /** Mid-read: `v` spells the `n` bits taken from the view of `r`; `pend` and the
      bytes from `pos` on are still in front. */
  ghost predicate Collecting(r: RState, le: bool, v: nat, n: nat, pend: bits, pos: nat)
    requires ReaderOk(r)
  {
    pos <= |r.data| && v < Pow2(n) &&
    View(r, le) == Spell(v, n, le) + pend + Expand(r.data[pos..], le)
  }

  lemma ReadStarts(r: RState, le: bool, n: int)
    requires ReaderOk(r)
    ensures n < 0 || n > 64 ==> ReadBits(r, le, n) == (Err(Overflow), r)
    ensures r.le == le ==> Collecting(r, le, 0, 0, r.pend, r.pos)
    ensures r.le != le ==> Collecting(r, le, 0, 0, Spell(0, 0, le), r.pos)
    ensures Spell(0, 0, le) == [] && Pow2(0) == 1
  {}

  /** Taking the top `need` bits of the byte at `pos` below the bits collected. */
  lemma TakeBe(r: RState, v: word, n: nat, pos: nat, need: nat)
    requires ReaderOk(r) && Collecting(r, false, v, n, [], pos) && pos < |r.data|
    requires 1 <= need <= 8 && n + need <= 64
    ensures var b := r.data[pos];
            var pend := Spell(And(b, Mask(8 - need)), 8 - need, false);
            Collecting(r, false, Or(Shl(v, need), Shr(b, 8 - need)), n + need, pend, pos + 1) &&
            And(b, Mask(8 - need)) < Pow2(8 - need)
    ensures need == 8 ==> Shr(r.data[pos], 0) == r.data[pos]
    ensures Or(Shl(v, need), Shr(r.data[pos], 8 - need)) < 0x1_0000_0000_0000_0000
  {
    hide Spell, Expand, Or, And, Up, Pow2;
    var b := r.data[pos];
    JoinBe(v, n, b, need);
    Pow2Mono(n + need, 64);
    Pow2Values();
    Reassociate(View(r, false), Spell(v, n, false), b, Or(Shl(v, need), Shr(b, 8 - need)), n + need,
                And(b, Mask(8 - need)), 8 - need, r.data, pos, false);
  }

  lemma JoinBe(v: word, n: nat, b: byte, need: nat)
    requires v < Pow2(n) && 1 <= need <= 8 && n + need <= 64
    ensures var u := Or(Shl(v, need), Shr(b, 8 - need));
            u < Pow2(n + need) &&
            Spell(v, n, false) + Spell(b, 8, false) ==
            Spell(u, n + need, false) + Spell(And(b, Mask(8 - need)), 8 - need, false)
    ensures And(b, Mask(8 - need)) < Pow2(8 - need)
  {
    hide Spell, Or, And, Up, Mask, Pow2;
    Pow2Values();
    var top := Shr(b, 8 - need);
    ShlExact(v, n, need);
    HighBound(b, need, 8 - need);
    OrDisjoint(v, top, need);
    UpBound(v, n, need);
    SpellJoinBe(v, n, top, need);
    SpellSplit(b, need, 8 - need);
    AndMask(b, 8 - need);
  }

  /** Taking the low `need` bits of the byte at `pos` above the bits collected. */
  lemma TakeLe(r: RState, v: word, n: nat, pos: nat, need: nat)
    requires ReaderOk(r) && Collecting(r, true, v, n, [], pos) && pos < |r.data|
    requires 1 <= need <= 8 && n + need <= 64
    ensures var b := r.data[pos];
            Collecting(r, true, Or(v, Shl(And(b, Mask(need)), n)), n + need, Spell(Shr(b, need), 8 - need, true), pos + 1) &&
            Shr(b, need) < Pow2(8 - need)
    ensures need == 8 ==> And(r.data[pos], Mask(8)) == r.data[pos]
    ensures Or(v, Shl(And(r.data[pos], Mask(need)), n)) < 0x1_0000_0000_0000_0000
  {
    hide Spell, Expand, Or, And, Up, Shl, Mask, High, Low, Pow2;
    var b := r.data[pos];
    JoinLe(v, n, b, need);
    Pow2Mono(n + need, 64);
    Pow2Values();
    AndMask(b, need);
    if need == 8 { LowSmall(b, 8); }
    Reassociate(View(r, true), Spell(v, n, true), b, Or(v, Shl(And(b, Mask(need)), n)), n + need,
                Shr(b, need), 8 - need, r.data, pos, true);
  }

  lemma JoinLe(v: word, n: nat, b: byte, need: nat)
    requires v < Pow2(n) && 1 <= need <= 8 && n + need <= 64
    ensures var u := Or(v, Shl(And(b, Mask(need)), n));
            u < Pow2(n + need) &&
            Spell(v, n, true) + Spell(b, 8, true) == Spell(u, n + need, true) + Spell(Shr(b, need), 8 - need, true)
    ensures Shr(b, need) < Pow2(8 - need)
  {
    hide Spell, Or, And, Up, Mask, Pow2;
    Pow2Values();
    AndMask(b, need);
    var low := Low(b, need);
    ShlExact(low, need, n);
    HighBound(b, 8 - need, need);
    OrDisjoint(low, v, n);
    UpBound(low, need, n);
    SpellJoinLe(v, n, low, need);
    SpellSplit(b, need, 8 - need);
  }

  lemma Reassociate(view: bits, front: bits, b: byte, u: nat, m: nat, p: nat, k: nat, data: seq<byte>, pos: nat, le: bool)
    requires pos < |data| && b == data[pos]
    requires view == front + [] + Expand(data[pos..], le)
    requires front + Spell(b, 8, le) == Spell(u, m, le) + Spell(p, k, le)
    ensures view == Spell(u, m, le) + Spell(p, k, le) + Expand(data[pos + 1..], le)
  {
    hide Spell, Expand;
    var tail := Expand(data[pos + 1..], le);
    ExpandHead(data, pos, le);
    assert front + [] == front;
    assert front + (Spell(b, 8, le) + tail) == front + Spell(b, 8, le) + tail;
  }

  lemma ExpandHead(data: seq<byte>, pos: nat, le: bool)
    requires pos < |data|
    ensures Expand(data[pos..], le) == Spell(data[pos], 8, le) + Expand(data[pos + 1..], le)
  {
    assert data[pos..][1..] == data[pos + 1..];
  }

  /** Taking the first `n` of the pending bits. */
  lemma TakePendingBe(r: RState, bits: word, left: nat, n: nat, pos: nat)
    requires ReaderOk(r) && n <= left < 8 && bits < Pow2(left)
    requires Collecting(r, false, 0, 0, Spell(bits, left, false), pos)
    ensures var p := And(bits, Mask(left - n));
            Collecting(r, false, And(Shr(bits, left - n), Mask(n)), n, Spell(p, left - n, false), pos) &&
            p < Pow2(left - n)
    ensures n == left ==> Shr(bits, 0) == bits && And(bits, Mask(0)) == 0
  {
    hide Spell, And, Expand, Mask, Pow2;
    HighBound(bits, n, left - n);
    AndMask(Shr(bits, left - n), n);
    LowSmall(Shr(bits, left - n), n);
    SpellSplit(bits, n, left - n);
    AndMask(bits, left - n);
  }

  lemma TakePendingLe(r: RState, bits: word, left: nat, n: nat, pos: nat)
    requires ReaderOk(r) && n <= left < 8 && bits < Pow2(left)
    requires Collecting(r, true, 0, 0, Spell(bits, left, true), pos)
    ensures Collecting(r, true, And(bits, Mask(n)), n, Spell(Shr(bits, n), left - n, true), pos)
    ensures Shr(bits, n) < Pow2(left - n)
  {
    hide Spell, And, Expand, Mask, Pow2;
    HighBound(bits, left - n, n);
    AndMask(bits, n);
    SpellSplit(bits, n, left - n);
  }

  /** With all data consumed and bits still missing, the read fails. */
  lemma ReadFails(r: RState, le: bool, n: nat, v: nat, collected: nat)
    requires ReaderOk(r) && collected < n <= 64 && Collecting(r, le, v, collected, [], |r.data|)
    ensures ReadBits(r, le, n) == (Err(Eof), RState(r.data, |r.data|, [], le))
  {}

  /** The read is finished once `n` bits are collected. */
  lemma ReadDone(r: RState, le: bool, n: nat, v: nat, bits: nat, left: nat, pos: nat)
    requires ReaderOk(r) && n <= 64 && left < 8
    requires Collecting(r, le, v, n, Spell(bits, left, le), pos)
    ensures ReadBits(r, le, n) == (Ok(v), RState(r.data, pos, Spell(bits, left, le), le))
  {
    ValueOfSpellExact(v, n, le);
    CutView(r, le, Spell(v, n, le), Spell(bits, left, le), pos);
  }

  lemma CutView(r: RState, le: bool, taken: bits, pend: bits, pos: nat)
    requires ReaderOk(r) && |taken| <= 64 && |pend| < 8 && pos <= |r.data|
    requires View(r, le) == taken + pend + Expand(r.data[pos..], le)
    ensures ReadBits(r, le, |taken|) == (Ok(Value(taken, le)), RState(r.data, pos, pend, le))
  {
    hide Spell, Expand, Value, View;
    var view, tail := View(r, le), Expand(r.data[pos..], le);
    CutInThree(view, taken, pend, tail);
    var rest := view[|taken|..];
    assert |rest| == 8 * (|r.data| - pos) + |pend|;
    assert |rest| / 8 == |r.data| - pos && |rest| % 8 == |pend|;
  }

  lemma CutInThree(s: bits, a: bits, b: bits, c: bits)
    requires s == a + b + c
    ensures s[..|a|] == a && s[|a|..] == b + c && s[|a|..][..|b|] == b
  {}
}
