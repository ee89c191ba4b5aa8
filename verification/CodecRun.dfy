/** Whole sequences of fields on the writer and stream objects themselves. */
module CodecRun {
  import opened Words
  import opened BitSeq
  import opened Codec
  import opened RoundTrip
  import opened ArenaImpl
  import opened StreamImpl
  import opened WriterImpl
  import opened BitAlign
  import opened Fidelity

  // ---- One field ----------------------------------------------------------

  method WriteField(w: Writer, s: Shape, v: Val)
    requires w.Valid() && Writable(s, v) && w.Roomy(Cost(s))
    modifies w, w.buf, w.buf.arena, w.buf.arena.mems
    ensures w.Valid() && w.State() == WriteOp(old(w.State()), s, v)
    ensures w.buf.arena.mems >= old(w.buf.arena.mems) && fresh(w.buf.arena.mems - old(w.buf.arena.mems))
  {
    hide Spell, Pow2, Buf.Valid, Buf.Contents, PutBits, Switch, Kept, Align, IntBytes, Writer.State;
    match s {
      case BitField(le, n) =>
        if le { var _ := w.WriteBitsLe(n, v.v); } else { var _ := w.WriteBitsBe(n, v.v); }
      case IntField(size, be, signed) =>
        FitsWord(v.v, size, signed);
        w.WriteInt(v.v, size, be);
      case ByteField(_) =>
        w.WriteBytes(v.bs);
    }
  }

  method ReadField(s: Stream, shape: Shape) returns (r: Result<Val>)
    requires s.Valid() && ShapeOk(shape)
    modifies s
    ensures s.Valid() && (r, s.State()) == ReadOp(old(s.State()), shape)
  {
    hide Spell, Pow2, ReadBits, ReadRaw, Codec.ReadInt, Stream.State;
    match shape {
      case BitField(le, n) =>
        var x;
        if le { x := s.ReadBitsLe(n); } else { x := s.ReadBitsBe(n); }
        r := match x case Ok(v) => Ok(Num(v)) case Err(e) => Err(e);
      case IntField(size, be, signed) =>
        var x := s.ReadInt(size, be, signed);
        r := match x case Ok(v) => Ok(Num(v)) case Err(e) => Err(e);
      case ByteField(len) =>
        var x := s.ReadRawBytes(len);
        r := match x case Ok(bs) => Ok(Raw(bs)) case Err(e) => Err(e);
    }
  }

  // ---- A sequence of fields -----------------------------------------------

  lemma {:induction false} WriteSnoc(w: WState, ss: seq<Shape>, vs: seq<Val>, i: nat)
    requires WriterOk(w) && AllWritable(ss, vs) && i < |ss|
    ensures Write(w, ss[..i + 1], vs[..i + 1]) == WriteOp(Write(w, ss[..i], vs[..i]), ss[i], vs[i])
    decreases i
  {
    hide WriteOp, Writable;
    if i > 0 {
      assert ss[1..][..i] == ss[..i + 1][1..] && vs[1..][..i] == vs[..i + 1][1..];
      assert ss[1..][..i - 1] == ss[..i][1..] && vs[1..][..i - 1] == vs[..i][1..];
      WriteSnoc(WriteOp(w, ss[0], vs[0]), ss[1..], vs[1..], i - 1);
    } else {
      assert ss[..1][1..] == [] && vs[..1][1..] == [];
    }
  }

  method WriteAll(w: Writer, ss: seq<Shape>, vs: seq<Val>)
    requires w.Valid() && AllWritable(ss, vs) && w.Roomy(TotalCost(ss))
    modifies w, w.buf, w.buf.arena, w.buf.arena.mems
    ensures w.Valid() && w.State() == Write(old(w.State()), ss, vs)
    ensures w.buf.arena.mems >= old(w.buf.arena.mems) && fresh(w.buf.arena.mems - old(w.buf.arena.mems))
  {
    hide Writable, WriteOp, Writer.Valid, Writer.State, Cost;
    ghost var w0 := w.State();
    assert ss[0..] == ss;
    for i := 0 to |ss|
      invariant w.Roomy(TotalCost(ss[i..]))
      invariant w.Valid() && w.State() == Write(w0, ss[..i], vs[..i])
      invariant w.buf.arena.mems >= old(w.buf.arena.mems) && fresh(w.buf.arena.mems - old(w.buf.arena.mems))
    {
      WriteSnoc(w0, ss, vs, i);
      assert ss[i..][0] == ss[i] && ss[i..][1..] == ss[i + 1..];
      WriteOpGrows(w.State(), ss[i], vs[i]);
      WriteField(w, ss[i], vs[i]);
    }
    assert ss[..|ss|] == ss && vs[..|vs|] == vs;
  }

  /** Reads stop at the first failure. */
  method ReadAll(s: Stream, ss: seq<Shape>) returns (r: Result<seq<Val>>)
    requires s.Valid() && ShapesOk(ss)
    modifies s
    ensures s.Valid() && (r, s.State()) == Read(old(s.State()), ss)
  {
    hide ShapeOk, ReadOp, Stream.Valid, Stream.State;
    ghost var r0 := s.State();
    var vals: seq<Val> := [];
    assert ss[0..] == ss;
    ContinueNone(vals, Read(r0, ss));
    for i := 0 to |ss|
      invariant s.Valid()
      invariant Read(r0, ss) == Continued(vals, Read(s.State(), ss[i..]))
    {
      var v := ReadField(s, ss[i]);
      assert ss[i..][0] == ss[i] && ss[i..][1..] == ss[i + 1..];
      if v.Err? { return Err(v.error); }
      Continue(vals, v.value, Read(s.State(), ss[i + 1..]));
      vals := vals + [v.value];
    }
    assert ss[|ss|..] == [] && vals + [] == vals;
    return Ok(vals);
  }

  /** A result with the values read before it. */
  ghost function Continued(vals: seq<Val>, r: (Result<seq<Val>>, RState)): (Result<seq<Val>>, RState)
  {
    match r.0
    case Ok(vs) => (Ok(vals + vs), r.1)
    case Err(e) => r
  }

  lemma ContinueNone(vals: seq<Val>, r: (Result<seq<Val>>, RState))
    requires vals == []
    ensures Continued(vals, r) == r
  {
    if r.0.Ok? { assert vals + r.0.value == r.0.value; }
  }

  lemma Continue(vals: seq<Val>, v: Val, r: (Result<seq<Val>>, RState))
    ensures Continued(vals, match r.0 case Ok(vs) => (Ok([v] + vs), r.1) case Err(e) => (Err(e), r.1)) == Continued(vals + [v], r)
  {
    if r.0.Ok? { assert vals + ([v] + r.0.value) == vals + [v] + r.0.value; }
  }

  /** The round trip of the generated tests, on the objects: write all fields into a fresh
      writer, finalize, open a stream on the bytes, read the same shapes. */
  method WriteThenRead(ss: seq<Shape>, vs: seq<Val>) returns (back: Result<seq<Val>>, atEnd: bool)
    requires AllWritable(ss, vs) && TotalCost(ss) < MAX_BUFFER
    ensures back == Ok(vs) <==> AllHaveRoom(Phase(0, false), ss, vs)
    ensures ValuesFit(ss, vs) && WidthsFit(Phase(0, false), ss) ==> back == Ok(vs)
    ensures back.Ok? && atEnd
  {
    hide Write, Read, Writable, AllHaveRoom, Align, KeptVals, WidthsFit, ValuesFit;
    var arena := new Arena();
    var w := new Writer(arena);
    WriteAll(w, ss, vs);
    WriteGrows(W0, ss, vs);
    var bytes := w.Finalize();
    EncodeSize(ss, vs);
    assert bytes == Encode(ss, vs);
    var data := new byte[|bytes|](i requires 0 <= i < |bytes| => bytes[i]);
    assert data[..] == bytes;
    var s := new Stream(data);
    ShapesOfWritable(ss, vs);
    back := ReadAll(s, ss);
    atEnd := s.pos == s.limit;
    ReadBack(ss, vs);
    RoundTripIff(ss, vs);
    if ValuesFit(ss, vs) && WidthsFit(Phase(0, false), ss) { MixedRoundTrip(ss, vs); }
  }

  lemma ShapesOfWritable(ss: seq<Shape>, vs: seq<Val>)
    requires AllWritable(ss, vs)
    ensures ShapesOk(ss)
  {}

  // ---- A structure ----------------------------------------------------------

  /** The code generated for a structure, on the objects: read fields and slots, write them
      back, take the writer's bytes without finalizing. Nothing is lost exactly if every
      little-endian field had room for its value. */
  method ReadThenWrite(attrs: seq<Attr>, bitEndianLe: bool, data: array<byte>)
    returns (vals: Result<seq<Val>>, out: seq<byte>, bitsLeft: nat, consumed: nat)
    requires Unconditional(attrs) && TurnsOnBoundaries(attrs, |attrs|)
    requires data.Length <= MAX_OBJECT && TotalCost(FullLayout(attrs, bitEndianLe)) <= MAX_BUFFER
    ensures vals == Read(Start(data[..]), FullLayout(attrs, bitEndianLe)).0 && consumed <= data.Length
    ensures vals.Ok? ==>
      AllWritable(FullLayout(attrs, bitEndianLe), vals.value) &&
      (bitsLeft == 0 && out == data[..consumed] <==> AllHaveRoom(P0, FullLayout(attrs, bitEndianLe), vals.value)) &&
      (WidthsFit(P0, FullLayout(attrs, bitEndianLe)) ==> bitsLeft == 0 && out == data[..consumed])
  {
    hide Read, Write, AllHaveRoom, WidthsFit, FullLayout, Writable, TotalCost, ShapeOk, TurnsOnBoundaries, Unconditional;
    var ops := Interleave(attrs, bitEndianLe);
    var s := new Stream(data);
    vals := ReadAll(s, ops);
    out, bitsLeft, consumed := [], 0, s.pos;
    if vals.Err? { return; }
    ByteExact(attrs, bitEndianLe, data[..]);
    var arena := new Arena();
    var w := new Writer(arena);
    WriteAll(w, ops, vals.value);
    out := w.buf.ToBytes();
    bitsLeft := w.bitsLeft;
    if WidthsFit(P0, ops) { ByteExactWhenWidthsFit(attrs, bitEndianLe, data[..]); }
  }

  // ---- Windows ------------------------------------------------------------

  /** Any sequence of reads gives the same values, errors and positions on a window of a
      stream and on a stream over a copy of the same bytes, as soon as the window is inside
      the stream, which is exactly when its sums fit. */
  method WindowOrCopy(parent: Stream, off: word, len: word, ss: seq<Shape>)
    returns (inside: bool, inWindow: Result<seq<Val>>, inCopy: Result<seq<Val>>, window: Stream, copy: Stream)
    requires parent.Valid() && ShapesOk(ss)
    ensures inside <==> SumsFit(parent.Place(), off, len)
    ensures inside <==> Inside(window.Place(), parent.Place())
    ensures inside ==>
      inWindow == inCopy && window.Valid() && copy.Valid() &&
      window.State() == copy.State() && window.pos == copy.pos && window.limit == copy.limit &&
      window.Contents() == Window(parent.Contents(), off, len)
  {
    hide Read, ReadOp, ShapeOk, Spell, Pow2, SumsFit, Window, Sub;
    inside := SumsFit(Extent(parent.base, parent.limit), off, len);
    window := parent.Substream(off, len);
    if !inside { return false, Ok([]), Ok([]), window, window; }
    ghost var bytes := window.Contents();
    var n := window.limit;
    var from := window.base;
    var mem := window.mem;
    var data := new byte[n](i requires 0 <= i < n && from + n <= mem.Length reads mem => mem[from + i]);
    assert data[..] == bytes;
    copy := new Stream(data);
    inWindow := ReadAll(window, ss);
    inCopy := ReadAll(copy, ss);
  }

  // ---- Splitting a bit read -----------------------------------------------

  /** The reader positioned behind some bits of its view sees the rest of it. */
  lemma ViewOfRest(r: RState, le: bool, n: nat)
    requires ReaderOk(r) && n <= |View(r, le)|
    ensures |View(r, le)[n..]| / 8 <= |r.data|
    ensures View(Positioned(r.data, View(r, le)[n..], le), le) == View(r, le)[n..]
  {
    hide Spell, Expand;
    var v := View(r, le);
    var rest := v[n..];
    var k := |rest| / 8;
    var tail := r.data[r.pos..];
    assert |v| < 8 + 8 * |tail| && k <= |tail|;
    ExpandDrop(tail, |tail| - k, le);
    assert tail[|tail| - k..] == r.data[|r.data| - k..];
    assert rest == rest[..|rest| % 8] + rest[|rest| % 8..];
    assert rest[|rest| % 8..] == Expand(tail, le)[8 * (|tail| - k)..];
  }

  /** Reading `a` bits and then `b` bits agrees with one read of `a + b` bits: the parts are
      joined in the order of reading, and the reader ends in the same state. */
  lemma BitReadsJoin(r: RState, le: bool, a: nat, b: nat)
    requires ReaderOk(r) && a + b <= 64
    ensures var (x, r1) := ReadBits(r, le, a);
            var (y, r2) := ReadBits(r1, le, b);
            var (z, r3) := ReadBits(r, le, a + b);
            r3 == r2 && (z.Ok? <==> x.Ok? && y.Ok?) &&
            (z.Ok? ==> z.value == if le then y.value * Pow2(a) + x.value else x.value * Pow2(b) + y.value)
  {
    hide Spell, Expand, Value, View, Positioned, Up, Pow2;
    var v := View(r, le);
    var r1 := ReadBits(r, le, a).1;
    if |v| >= a {
      ViewOfRest(r, le, a);
      if |v| >= a + b {
        assert v[..a + b] == v[..a] + v[a..][..b];
        assert v[a..][b..] == v[a + b..];
        ValueJoinBe(v[..a], v[a..][..b]);
        ValueJoinLe(v[..a], v[a..][..b]);
        UpIsTimes(Value(v[..a], le), b);
        UpIsTimes(Value(v[a..][..b], le), a);
      }
    } else {
      ExhaustedStays(r1, le, b);
    }
  }

  /** On a byte boundary an unsigned integer of `size` bytes is a bit field of `8 * size`
      bits in the bit order that goes with its byte order. */
  lemma IntIsBitField(r: RState, size: nat, be: bool)
    requires ReaderOk(r) && r.pend == [] && 1 <= size <= 8
    ensures var (x, r1) := Codec.ReadInt(r, size, be, false);
            var (y, r2) := ReadBits(r, !be, 8 * size);
            (x.Ok? <==> y.Ok?) && (x.Ok? ==> x.value == y.value && r1.pos == r2.pos && r1.pend == r2.pend == [])
  {
    hide Spell, Expand, Value;
    var tail := r.data[r.pos..];
    assert View(r, !be) == Expand(tail, !be);
    if r.pos + size <= |r.data| {
      assert tail[..size] == r.data[r.pos..r.pos + size];
      ExpandDrop(tail, size, !be);
    }
  }

  lemma ExhaustedStays(r: RState, le: bool, n: nat)
    requires r == RState(r.data, |r.data|, [], le) && ReaderOk(r) && n <= 64
    ensures View(r, le) == [] && ReadBits(r, le, n).1 == r
    ensures ReadBits(r, le, n).0.Ok? <==> n == 0
  {}
}
