/** The bit and byte codec of the C runtime as transitions on bit sequences:
    the reference that the accumulator code of `Stream` and `Writer` refines. */
module Codec {
  import opened Words
  import opened BitSeq

  /** `Stray` marks a copy from beyond the window, which C leaves undefined. */
  datatype Error = Eof | Overflow | Stray
  datatype Result<+T> = Ok(value: T) | Err(error: Error)

  // ---- Reading -----------------------------------------------------------

  /** `pend` holds the bits of byte `pos - 1` not yet handed out, in reading order. */
  datatype RState = RState(data: seq<byte>, pos: nat, pend: bits, le: bool)

  ghost predicate ReaderOk(r: RState)
  {
    r.pos <= |r.data| <= MAX_OBJECT && |r.pend| < 8
  }

  /** The bits a bit read in order `le` still has in front of it; pending bits
      of the other order are dropped. */
  function View(r: RState, le: bool): bits
    requires ReaderOk(r)
  {
    (if r.le == le then r.pend else []) + Expand(r.data[r.pos..], le)
  }

  /** A bit read takes the next `n` bits of the view, or fails at the end of the data. */
  function ReadBits(r: RState, le: bool, n: int): (res: (Result<nat>, RState))
    requires ReaderOk(r)
    ensures ReaderOk(res.1) && res.1.data == r.data
  {
    if n < 0 || n > 64 then (Err(Overflow), r)
    else
      var v := View(r, le);
      if |v| < n then (Err(Eof), RState(r.data, |r.data|, [], le))
      else (Ok(Value(v[..n], le)), Positioned(r.data, v[n..], le))
  }

  /** The reader state whose view is `rest`. */
  function Positioned(data: seq<byte>, rest: bits, le: bool): (r: RState)
    requires |rest| / 8 <= |data| <= MAX_OBJECT
    ensures ReaderOk(r)
  {
    RState(data, |data| - |rest| / 8, rest[..|rest| % 8], le)
  }

  /** Byte-aligned reads first drop the pending bits. A length that makes the sum of position
      and length wrap passes for one inside the window. */
  function ReadRaw(r: RState, n: nat): (res: (Result<seq<byte>>, RState))
    requires ReaderOk(r)
    ensures ReaderOk(res.1) && res.1.data == r.data
  {
    if r.pos + n >= SIZE_LIMIT then (Err(Stray), r.(pend := []))
    else if r.pos + n > |r.data| then (Err(Eof), r.(pend := []))
    else (Ok(r.data[r.pos..r.pos + n]), r.(pend := [], pos := r.pos + n))
  }

  /** With one byte read, the largest length strays, however short the data. */
  lemma LargestReadStrays(data: seq<byte>, le: bool)
    requires 1 <= |data| <= MAX_OBJECT
    ensures ReadRaw(RState(data, 1, [], le), ALL_ONES).0 == Err(Stray)
  {}

  /** When a bit read fails, and what it leaves: an illegal width changes nothing, too few
      bits end the stream, both orders alike. */
  lemma BitReadFails(r: RState, le: bool, n: int)
    requires ReaderOk(r)
    ensures var left := 8 * (|r.data| - r.pos) + if r.le == le then |r.pend| else 0;
            var (x, r') := ReadBits(r, le, n);
            if n < 0 || n > 64 then x == Err(Overflow) && r' == r
            else if n > left then x == Err(Eof) && r' == RState(r.data, |r.data|, [], le)
            else x.Ok? && r'.le == le && 8 * (|r.data| - r'.pos) + |r'.pend| == left - n
  {
    hide Spell, Expand, Value;
  }

  /** A raw read takes whole bytes or none, and drops the pending bits either way. */
  lemma RawReadFails(r: RState, n: nat)
    requires ReaderOk(r)
    ensures var (x, r') := ReadRaw(r, n);
            if n > |r.data| - r.pos then
              x == Err(if r.pos + n > ALL_ONES then Stray else Eof) && r' == RState(r.data, r.pos, [], r.le)
            else x.Ok? && |x.value| == n && r' == RState(r.data, r.pos + n, [], r.le) &&
                 forall i :: 0 <= i < n ==> x.value[i] == r.data[r.pos + i]
  {}

  // ---- Writing -----------------------------------------------------------

  datatype WState = WState(buf: seq<byte>, pend: bits, le: bool)

  ghost predicate WriterOk(w: WState)
  {
    |w.pend| < 8
  }

  const W0 := WState([], [], false)

  function Zeros(n: nat): (s: bits)
    ensures |s| == n
  {
    seq(n, i => false)
  }

  /** A partial byte is completed with zero bits at its unread end. */
  function Align(w: WState): (w': WState)
    requires WriterOk(w)
    ensures WriterOk(w') && w'.pend == []
  {
    if w.pend == [] then w
    else WState(w.buf + Pack(w.pend + Zeros(8 - |w.pend|), w.le), [], false)
  }

  /** The completed byte as a number: its missing low or high bits are zero. */
  lemma AlignedValue(w: WState)
    requires WriterOk(w) && w.pend != []
    ensures var v := Value(w.pend, w.le);
            |Align(w).buf| == |w.buf| + 1 && Align(w).buf[..|w.buf|] == w.buf &&
            Align(w).buf[|w.buf|] == if w.le then v else v * Pow2(8 - |w.pend|)
  {
    hide Value, Pow2, Up, Pack;
    var k := 8 - |w.pend|;
    var t := w.pend + Zeros(k);
    PackedByte(t, w.le, 0);
    assert t[8 * 0..8 * 0 + 8] == t;
    assert |Pack(t, w.le)| == 1;
    ZerosValue(k, w.le);
    if w.le { ValueJoinLe(w.pend, Zeros(k)); } else { ValueJoinBe(w.pend, Zeros(k)); }
    UpIsTimes(Value(w.pend, w.le), k);
    UpIsTimes(0, |w.pend|);
  }

  lemma {:induction false} ZerosValue(k: nat, le: bool)
    ensures Value(Zeros(k), le) == 0
  {
    if k > 0 {
      ZerosValue(k - 1, le);
      assert Zeros(k)[1..] == Zeros(k - 1) == Zeros(k)[..k - 1];
    }
  }

  /** A bit write in the other order aligns first. */
  function Switch(w: WState, le: bool): (w': WState)
    requires WriterOk(w)
    ensures WriterOk(w') && w'.le == le
  {
    (if w.le == le then w else Align(w)).(le := le)
  }

  /** Whole bytes move to the buffer, the rest stays pending. */
  function PutBits(w: WState, s: bits): (w': WState)
    requires WriterOk(w)
    ensures WriterOk(w') && w'.le == w.le
  {
    var t := w.pend + s;
    var k := |t| - |t| % 8;
    WState(w.buf + Pack(t[..k], w.le), t[k..], w.le)
  }

  /** What the writer keeps of a value: a big-endian write keeps the `n` low bits,
      a little-endian write also loses the bits that its accumulator cannot hold
      above the `pending` bits already in it. */
  function Kept(v: word, n: nat, le: bool, pending: nat): (k: nat)
    requires n <= 64 && pending < 8
    ensures k < Pow2(n)
  {
    if le && pending + n > 64 then
      Pow2Mono(64 - pending, n);
      Low(v, 64 - pending)
    else Low(v, n)
  }

  function WriteBits(w: WState, le: bool, n: int, v: word): (res: (Result<()>, WState))
    requires WriterOk(w)
    ensures WriterOk(res.1)
  {
    if n < 0 || n > 64 then (Err(Overflow), w)
    else
      var w1 := Switch(w, le);
      (Ok(()), PutBits(w1, Spell(Kept(v, n, le, |w1.pend|), n, le)))
  }

  /** An illegal width is refused without any effect, and no other write of bits is. */
  lemma BitWriteFails(w: WState, le: bool, n: int, v: word)
    requires WriterOk(w)
    ensures if n < 0 || n > 64 then WriteBits(w, le, n, v) == (Err(Overflow), w) else WriteBits(w, le, n, v).0 == Ok(())
  {}

  /** The width that is left for a value: in little-endian order the accumulator holds the
      pending bits too. */
  function Room(pending: nat, le: bool, n: nat): nat
  {
    if le && pending <= 64 && n > 64 - pending then 64 - pending else n
  }

  /** A value too large for its room is written as its remainder. */
  lemma RemainderWritten(w: WState, le: bool, n: nat, v: word)
    requires WriterOk(w) && n <= 64
    ensures var rem := v % Pow2(Room(if w.le == le then |w.pend| else 0, le, n));
            0 <= rem <= v && WriteBits(w, le, n, v) == WriteBits(w, le, n, rem)
  {
    hide Pow2, Low, Spell, Pack, PutBits;
    var m := Room(if w.le == le then |w.pend| else 0, le, n);
    LowIsMod(v, m);
    LowLow(v, m, m);
  }

  function WriteRaw(w: WState, bs: seq<byte>): (w': WState)
    requires WriterOk(w)
    ensures WriterOk(w') && w'.pend == []
  {
    var w1 := Align(w);
    w1.(buf := w1.buf + bs)
  }

  // ---- Fixed-size integers -----------------------------------------------

  /** The conversion of an integer argument to `uint64_t`. */
  function ToWord(v: int): word
    requires -0x8000_0000_0000_0000 <= v < 0x1_0000_0000_0000_0000
  {
    if v < 0 then v + 0x1_0000_0000_0000_0000 else v
  }

  ghost predicate FitsInt(v: int, size: nat, signed: bool)
    requires size > 0
  {
    if signed then -(Pow2(8 * size - 1) as int) <= v < Pow2(8 * size - 1) else 0 <= v < Pow2(8 * size)
  }

  /** The conversion of the low `8 * size` bits back to the integer type. */
  function FromWord(u: nat, size: nat, signed: bool): int
    requires size > 0
  {
    if signed && u >= Pow2(8 * size - 1) then u - (Pow2(8 * size) as int) else u
  }

  /** An integer of `size` bytes is a byte-aligned field of `8 * size` bits. */
  function IntBytes(u: word, size: nat, be: bool): (bs: seq<byte>)
    ensures |bs| == size
  {
    Pack(Spell(u, 8 * size, !be), !be)
  }

  /** Byte `i` of an integer: the most significant byte comes first or last. */
  lemma {:induction false} ByteOfInt(u: word, size: nat, be: bool, i: nat)
    requires i < size
    ensures IntBytes(u, size, be)[i] == u / Pow2(8 * if be then size - 1 - i else i) % 256
  {
    hide Pow2, Spell, Pack, Value, Low, High;
    Pow2Values();
    var k := 8 * if be then size - 1 - i else i;
    var s := Spell(u, 8 * size, !be);
    PackedByte(s, !be, i);
    if be {
      SpellSplit(u, 8 * (i + 1), k);
      SpellSplit(High(u, k), 8 * i, 8);
    } else {
      SpellSplit(u, k, 8 * size - k);
      SpellSplit(High(u, k), 8, 8 * size - k - 8);
    }
    var b := Low(High(u, k), 8);
    assert s[8 * i..8 * i + 8] == Spell(b, 8, !be);
    ValueOfSpell(b, 8, !be);
    LowSmall(b, 8);
    LowIsMod(u, k);
    LowIsMod(High(u, k), 8);
  }

  lemma {:induction false} PackedByte(s: bits, le: bool, i: nat)
    requires 8 * i + 8 <= |s|
    ensures Pack(s, le)[i] == Value(s[8 * i..8 * i + 8], le)
  {
    hide Value;
    if i > 0 {
      PackedByte(s[8..], le, i - 1);
      assert s[8..][8 * (i - 1)..8 * (i - 1) + 8] == s[8 * i..8 * i + 8];
    }
  }

  function BytesInt(bs: seq<byte>, be: bool): nat
  {
    Value(Expand(bs, !be), !be)
  }

  function ReadInt(r: RState, size: nat, be: bool, signed: bool): (res: (Result<int>, RState))
    requires ReaderOk(r) && size > 0
    ensures ReaderOk(res.1) && res.1.data == r.data
  {
    var (raw, r') := ReadRaw(r, size);
    match raw
    case Ok(bs) => (Ok(FromWord(BytesInt(bs, be), size, signed)), r')
    case Err(e) => (Err(e), r')
  }

  // ---- Windows -----------------------------------------------------------

  function Clamp(n: nat, bound: nat): (m: nat)
    ensures m <= n && m <= bound && (m == n || m == bound)
  {
    if n > bound then bound else n
  }

  /** The part of `data` from `off`, at most `len` long, that lies inside `data`. */
  function Window(data: seq<byte>, off: nat, len: nat): (w: seq<byte>)
    ensures |w| <= len
  {
    var from := Clamp(off, |data|);
    data[from..Clamp(from + len, |data|)]
  }

  /** Its bytes, one by one: as many as asked for and available. */
  lemma WindowBytes(data: seq<byte>, off: nat, len: nat)
    ensures var w := Window(data, off, len);
            |w| == (if off >= |data| then 0 else if len <= |data| - off then len else |data| - off) &&
            forall i :: 0 <= i < |w| ==> w[i] == data[off + i]
  {}

  /** A window of a window is a window of the root. */
  lemma WindowOfWindow(data: seq<byte>, off: nat, len: nat, off': nat, len': nat)
    ensures Window(Window(data, off, len), off', len') ==
            Window(data, off + off', Clamp(len', if off' > len then 0 else len - off'))
  {
    var from := Clamp(off, |data|);
    var to := Clamp(from + len, |data|);
    var w := data[from..to];
    var from' := Clamp(off', |w|);
    SliceOfSlice(data, from, to, from', Clamp(from' + len', |w|));
  }

  /** Offset and length of a window. */
  datatype Range = Range(off: nat, len: nat)

  function Windows(data: seq<byte>, ws: seq<Range>): seq<byte>
    decreases |ws|
  {
    if ws == [] then data else Windows(Window(data, ws[0].off, ws[0].len), ws[1..])
  }

  /** The one range that nested ranges come to. */
  function Joint(ws: seq<Range>): Range
    requires ws != []
  {
    if |ws| == 1 then ws[0]
    else
      var w, j := ws[0], Joint(ws[1..]);
      Range(w.off + j.off, Clamp(j.len, if j.off > w.len then 0 else w.len - j.off))
  }

  /** Windows nested to any depth are one clamped window of the root. */
  lemma {:induction false} NestedWindows(data: seq<byte>, ws: seq<Range>)
    requires ws != []
    ensures Windows(data, ws) == Window(data, Joint(ws).off, Joint(ws).len)
    decreases |ws|
  {
    hide Window;
    if |ws| > 1 {
      var j := Joint(ws[1..]);
      NestedWindows(Window(data, ws[0].off, ws[0].len), ws[1..]);
      WindowOfWindow(data, ws[0].off, ws[0].len, j.off, j.len);
    } else {
      assert Windows(Window(data, ws[0].off, ws[0].len), []) == Window(data, ws[0].off, ws[0].len);
    }
  }

  lemma SliceOfSlice(s: seq<byte>, i: nat, j: nat, a: nat, b: nat)
    requires i <= j <= |s| && a <= b <= j - i
    ensures s[i..j][a..b] == s[i + a..i + b]
  {
    var inner, outer := s[i..j][a..b], s[i + a..i + b];
    assert |inner| == |outer|;
    assert forall k :: 0 <= k < |inner| ==> inner[k] == outer[k];
  }

  // ---- Windows as the runtime computes them --------------------------------

  /** The base and limit of a stream on some memory. */
  datatype Extent = Extent(base: word, limit: word)

  /** zb_stream_substream, sums as `size_t` makes them. */
  function Sub(e: Extent, off: word, len: word): Extent
  {
    var end := SizeAdd(e.base, e.limit);
    var b := if SizeAdd(e.base, off) > end then end else SizeAdd(e.base, off);
    Extent(b, if SizeAdd(b, len) > end then end - b else len)
  }

  ghost predicate Inside(w: Extent, e: Extent)
  {
    e.base <= w.base && w.base + w.limit <= e.base + e.limit
  }

  /** Neither sum wraps: base and offset, clamped base and length. */
  predicate SumsFit(e: Extent, off: word, len: word)
  {
    e.base + off < SIZE_LIMIT && Clamp(e.base + off, e.base + e.limit) + len < SIZE_LIMIT
  }

  /** A window stays inside its parent exactly when its sums do not wrap. */
  lemma SubInsideIff(e: Extent, off: word, len: word)
    requires e.base + e.limit < SIZE_LIMIT
    ensures Inside(Sub(e, off, len), e) <==> SumsFit(e, off, len)
  {}

  /** ... and then it holds the clamped slice. */
  lemma SubIsWindow(mem: seq<byte>, e: Extent, off: word, len: word)
    requires e.base + e.limit <= |mem| < SIZE_LIMIT && SumsFit(e, off, len)
    ensures var w := Sub(e, off, len);
            w.base + w.limit <= |mem| &&
            mem[w.base..w.base + w.limit] == Window(mem[e.base..e.base + e.limit], off, len)
  {
    var from := Clamp(off, e.limit);
    SliceOfSlice(mem, e.base, e.base + e.limit, from, Clamp(from + len, e.limit));
  }

  /** Behind a first byte, the largest length is not clamped at all. */
  lemma WrappedWindow()
    ensures var e := Extent(1, 10);
            Sub(e, 0, ALL_ONES) == Extent(1, ALL_ONES) && !Inside(Sub(e, 0, ALL_ONES), e)
  {}

  type SizeRange = r: Range | r.off < SIZE_LIMIT && r.len < SIZE_LIMIT witness Range(0, 0)

  function SubAll(e: Extent, ws: seq<SizeRange>): Extent
    decreases |ws|
  {
    if ws == [] then e else SubAll(Sub(e, ws[0].off, ws[0].len), ws[1..])
  }

  predicate AllSumsFit(e: Extent, ws: seq<SizeRange>)
    decreases |ws|
  {
    ws == [] || (SumsFit(e, ws[0].off, ws[0].len) && AllSumsFit(Sub(e, ws[0].off, ws[0].len), ws[1..]))
  }

  /** Each window lies inside the one before it. */
  ghost predicate EachInside(e: Extent, ws: seq<SizeRange>)
    decreases |ws|
  {
    ws == [] ||
    (Inside(Sub(e, ws[0].off, ws[0].len), e) && EachInside(Sub(e, ws[0].off, ws[0].len), ws[1..]))
  }

  /** To any depth: every window is inside its parent exactly when no sum wraps, and then the
      last is inside the root and holds the nested clamped slices. */
  lemma {:induction false} SubAllInsideIff(mem: seq<byte>, e: Extent, ws: seq<SizeRange>)
    requires e.base + e.limit <= |mem| < SIZE_LIMIT
    ensures EachInside(e, ws) <==> AllSumsFit(e, ws)
    ensures AllSumsFit(e, ws) ==>
      var w := SubAll(e, ws);
      Inside(w, e) && mem[w.base..w.base + w.limit] == Windows(mem[e.base..e.base + e.limit], ws)
    decreases |ws|
  {
    hide Sub, SumsFit, Window;
    if ws != [] {
      var off, len := ws[0].off, ws[0].len;
      SubInsideIff(e, off, len);
      if SumsFit(e, off, len) {
        SubIsWindow(mem, e, off, len);
        SubAllInsideIff(mem, Sub(e, off, len), ws[1..]);
      }
    }
  }
}
