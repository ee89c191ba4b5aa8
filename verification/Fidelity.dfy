/** Bytes to fields to bytes: what a structure reads, it writes back unchanged. */
module Fidelity {
  import opened Words
  import opened BitSeq
  import opened Codec
  import opened RoundTrip
  import opened BitAlign

  /** A value returned by a read is a legal argument of the write of the same shape. */
  lemma ReadIsWritable(r: RState, s: Shape)
    requires ReaderOk(r) && ShapeOk(s) && ReadOp(r, s).0.Ok?
    ensures Writable(s, ReadOp(r, s).0.value)
    ensures s.BitField? ==> ReadOp(r, s).0.value.v < Pow2(s.n)
  {
    hide Spell, Expand, Value, Pow2, View, Positioned;
    match s {
      case BitField(le, n) =>
        ValueBound(View(r, le)[..n], le);
        Pow2Mono(n, 64);
        Pow2Values();
      case IntField(size, be, signed) =>
        ValueBound(Expand(r.data[r.pos..r.pos + size], !be), !be);
        Pow2Step(8 * size - 1);
      case ByteField(_) =>
    }
  }

  lemma IntBytesOfBytes(bs: seq<byte>, size: nat, be: bool, signed: bool)
    requires size in {1, 2, 4, 8} && |bs| == size
    ensures FitsInt(FromWord(BytesInt(bs, be), size, signed), size, signed)
    ensures var v := FromWord(BytesInt(bs, be), size, signed);
            -0x8000_0000_0000_0000 <= v < 0x1_0000_0000_0000_0000 && IntBytes(ToWord(v), size, be) == bs
  {
    hide Pow2, Spell, Expand, Pack, Value, Low;
    var n, x := 8 * size, Expand(bs, !be);
    var u := Value(x, !be);
    ValueBound(x, !be);
    Pow2Step(n - 1);
    var v := FromWord(u, size, signed);
    FitsWord(v, size, signed);
    LowOfWord(v, n);
    SpellLow(ToWord(v), n, !be);
    SpellOfValue(x, !be);
    PackOfExpand(bs, !be);
  }

  /** Reading a field and writing it keeps reader and writer in step, provided nothing
      pending is skipped and the value has room. */
  lemma StepForth(r: RState, w: WState, s: Shape, all: seq<byte>)
    requires Sync(r, w, all) && ShapeOk(s) && Seamless(PhaseOf(w), s) && ReadOp(r, s).0.Ok?
    requires Writable(s, ReadOp(r, s).0.value) && HasRoom(PhaseOf(w), s, ReadOp(r, s).0.value)
    ensures Sync(ReadOp(r, s).1, WriteOp(w, s, ReadOp(r, s).0.value), all)
  {
    hide Spell, Expand, Pack, Value, Pow2, PutBits, View, Low, Sync, Kept;
    SyncParts(r, w, all);
    var v := ReadOp(r, s).0.value;
    match s {
      case BitField(le, n) =>
        var w1 := Switch(w, le);
        RoomIffKept(w, s, v);
        if w.pend == [] { SyncPrefix(r, w, 0, all); }
        SyncView(r, w, le, all);
        var field := View(r, le)[..n];
        SpellOfValue(field, le);
        SyncBits(r, w1, field, all);
      case IntField(size, be, signed) =>
        SyncPrefix(r, w, size, all);
        IntBytesOfBytes(r.data[r.pos..r.pos + size], size, be, signed);
        SyncRaw(r, w, r.data[r.pos..r.pos + size], all);
      case ByteField(len) =>
        SyncPrefix(r, w, len, all);
        SyncRaw(r, w, v.bs, all);
    }
  }

  lemma SyncPrefix(r: RState, w: WState, n: nat, all: seq<byte>)
    requires Sync(r, w, all) && w.pend == []
    ensures Align(w) == w && w.buf <= all && r.pos == |w.buf|
    ensures r.pos + n <= |all| ==> w.buf + all[r.pos..r.pos + n] <= all
  {
    hide Spell, Expand;
    SyncAligned(r, w, all);
    if r.pos + n <= |all| { assert all[..r.pos + n] == w.buf + all[r.pos..r.pos + n]; }
  }

  lemma {:induction false} ReadsAreWritable(r: RState, ss: seq<Shape>)
    requires ReaderOk(r) && ShapesOk(ss) && Read(r, ss).0.Ok?
    ensures AllWritable(ss, Read(r, ss).0.value) && ValuesFit(ss, Read(r, ss).0.value)
    decreases |ss|
  {
    hide ReadOp, Writable, ShapeOk, Pow2;
    if ss != [] {
      ReadIsWritable(r, ss[0]);
      ReadsAreWritable(ReadOp(r, ss[0]).1, ss[1..]);
      var vs := Read(r, ss).0.value;
      assert vs[0] == ReadOp(r, ss[0]).0.value && vs[1..] == Read(ReadOp(r, ss[0]).1, ss[1..]).0.value;
      assert forall i :: 1 <= i < |ss| ==> ss[i] == ss[1..][i - 1] && vs[i] == vs[1..][i - 1];
    }
  }

  lemma {:induction false} WriteBackFrom(r: RState, w: WState, ss: seq<Shape>, all: seq<byte>)
    requires Sync(r, w, all) && ShapesOk(ss) && Read(r, ss).0.Ok?
    requires AllWritable(ss, Read(r, ss).0.value)
    requires AllSeamless(PhaseOf(w), ss) && AllHaveRoom(PhaseOf(w), ss, Read(r, ss).0.value)
    ensures Sync(Read(r, ss).1, Write(w, ss, Read(r, ss).0.value), all)
    decreases |ss|
  {
    hide ReadOp, WriteOp, ShapeOk, Sync, HasRoom, Seamless, PhaseAfter;
    SyncParts(r, w, all);
    if ss != [] {
      var vs := Read(r, ss).0.value;
      var (x, r1) := ReadOp(r, ss[0]);
      assert vs[0] == x.value && vs[1..] == Read(r1, ss[1..]).0.value;
      StepForth(r, w, ss[0], all);
      PhaseStep(w, ss[0], vs[0]);
      WriteBackFrom(r1, WriteOp(w, ss[0], vs[0]), ss[1..], all);
    }
  }

  /** Byte-exact fidelity. If a structure of unconditional attributes reads `vs` from `data`,
      then writing `vs` gives back exactly the bytes consumed, with no bit left in the
      writer's accumulator -- if and only if every little-endian field had room for its value. */
  lemma ByteExact(attrs: seq<Attr>, le: bool, data: seq<byte>)
    requires Unconditional(attrs) && TurnsOnBoundaries(attrs, |attrs|) && |data| <= MAX_OBJECT && Read(Start(data), FullLayout(attrs, le)).0.Ok?
    ensures var ss := FullLayout(attrs, le);
            var (x, r) := Read(Start(data), ss);
            AllWritable(ss, x.value) && ValuesFit(ss, x.value) &&
            var w := Write(W0, ss, x.value);
            (w.pend == [] && w.buf == data[..r.pos]) <==> AllHaveRoom(P0, ss, x.value)
  {
    hide Read, Write, AllHaveRoom, AllSeamless, PhaseAfterAll, FullLayout, Writable, Expand, Spell, KeptVals;
    var ss := FullLayout(attrs, le);
    var (x, r) := Read(Start(data), ss);
    var vs := x.value;
    ReadsAreWritable(Start(data), ss);
    FullLayoutSeamless(attrs, le);
    var w := Write(W0, ss, vs);
    AlignedSync(Start(data), W0, data);
    if AllHaveRoom(P0, ss, vs) {
      WriteBackFrom(Start(data), W0, ss, data);
      PhaseOfWrite(W0, ss, vs);
      SyncAligned(r, w, data);
    }
    if w.pend == [] && w.buf == data[..r.pos] {
      PrefixBits(w.buf, data, w.le);
      ReadBackFrom(Start(data), W0, ss, vs, data);
      RoomIffKeptAll(W0, ss, vs);
    }
  }

  /** In particular whenever the widths fit, which any little-endian field of at most 57 bits does. */
  lemma ByteExactWhenWidthsFit(attrs: seq<Attr>, le: bool, data: seq<byte>)
    requires Unconditional(attrs) && TurnsOnBoundaries(attrs, |attrs|) && |data| <= MAX_OBJECT && Read(Start(data), FullLayout(attrs, le)).0.Ok?
    requires WidthsFit(P0, FullLayout(attrs, le))
    ensures var ss := FullLayout(attrs, le);
            var (x, r) := Read(Start(data), ss);
            AllWritable(ss, x.value) &&
            var w := Write(W0, ss, x.value); w.pend == [] && w.buf == data[..r.pos]
  {
    hide Read, Write, AllHaveRoom, WidthsFit, FullLayout, Writable;
    ByteExact(attrs, le, data);
    FittingWidthsHaveRoom(P0, FullLayout(attrs, le), Read(Start(data), FullLayout(attrs, le)).0.value);
  }

  // ---- The condition on bit orders is exact --------------------------------

  /** Writing the values read from `data` gives back exactly the bytes consumed. */
  ghost predicate GivesBack(attrs: seq<Attr>, le: bool, data: seq<byte>)
    requires Unconditional(attrs) && |data| <= MAX_OBJECT
  {
    var ss := FullLayout(attrs, le);
    var (x, r) := Read(Start(data), ss);
    x.Ok? ==>
      AllWritable(ss, x.value) && var w := Write(W0, ss, x.value); w.pend == [] && w.buf == data[..r.pos]
  }

  /** A byte completed with zero bits is not all ones. */
  lemma AlignLeavesZero(w: WState)
    requires WriterOk(w) && w.pend != []
    ensures |Align(w).buf| == |w.buf| + 1 && Align(w).buf[|w.buf|] != 255
  {
    hide Spell, Value;
    var t := w.pend + Zeros(8 - |w.pend|);
    assert t[..8] == t;
    SpellOfValue(t, w.le);
    OnesSpelled(w.le);
    assert !t[7];
  }

  lemma OnesSpelled(le: bool)
    ensures Spell(255, 8, le)[7]
  {
    SpellStep(255, 8, le);
    SpellStep(127, 7, le);
    SpellStep(63, 6, le);
    SpellStep(31, 5, le);
    SpellStep(15, 4, le);
    SpellStep(7, 3, le);
    SpellStep(3, 2, le);
    SpellStep(1, 1, le);
  }

  /** Where bits are skipped, zeros are written: such output is no part of a string of ones. */
  lemma {:induction false} SeamShows(w: WState, ss: seq<Shape>, vs: seq<Val>, all: seq<byte>)
    requires WriterOk(w) && AllWritable(ss, vs) && !AllSeamless(PhaseOf(w), ss)
    requires forall i :: 0 <= i < |all| ==> all[i] == 255
    ensures !Matches(Write(w, ss, vs), all)
    decreases |ss|
  {
    hide WriteOp, Writable, Matches, PhaseAfter, Switch, Align;
    var w1 := WriteOp(w, ss[0], vs[0]);
    if Matches(Write(w, ss, vs), all) {
      if Seamless(PhaseOf(w), ss[0]) {
        PhaseStep(w, ss[0], vs[0]);
        SeamShows(w1, ss[1..], vs[1..], all);
      } else {
        MatchesAll(w1, ss[1..], vs[1..], all);
        MatchesBefore(w, ss[0], vs[0], all);
        if ss[0].BitField? { MatchesSwitch(w, ss[0].le, all); }
        AlignLeavesZero(w);
      }
    }
  }

  lemma {:induction false} LongDataSuffices(r: RState, ss: seq<Shape>)
    requires ReaderOk(r) && ShapesOk(ss) && r.pos + TotalCost(ss) <= |r.data|
    ensures Read(r, ss).0.Ok?
    decreases |ss|
  {
    hide ReadOp, ShapeOk;
    if ss != [] {
      OneReadSucceeds(r, ss[0]);
      LongDataSuffices(ReadOp(r, ss[0]).1, ss[1..]);
    }
  }

  lemma OneReadSucceeds(r: RState, s: Shape)
    requires ReaderOk(r) && ShapeOk(s) && r.pos + Cost(s) <= |r.data|
    ensures ReadOp(r, s).0.Ok? && ReadOp(r, s).1.pos <= r.pos + Cost(s)
  {
    hide Spell, Expand, Value, FromWord, BytesInt;
  }

  /** A structure of unconditional attributes whose widths fit is given back from any data
      exactly if its runs of bit fields turn their bit order on byte boundaries. */
  lemma ExactIffTurnsOnBoundaries(attrs: seq<Attr>, le: bool)
    requires Unconditional(attrs) && WidthsFit(P0, FullLayout(attrs, le)) && TotalCost(FullLayout(attrs, le)) <= MAX_OBJECT
    ensures (forall data: seq<byte> | |data| <= MAX_OBJECT :: GivesBack(attrs, le, data)) <==> TurnsOnBoundaries(attrs, |attrs|)
  {
    hide Read, Write, AllSeamless, WidthsFit, FullLayout, Writable, TurnsOnBoundaries;
    var ss := FullLayout(attrs, le);
    FullLayoutSeamless(attrs, le);
    if TurnsOnBoundaries(attrs, |attrs|) {
      forall data: seq<byte> | |data| <= MAX_OBJECT ensures GivesBack(attrs, le, data) {
        if Read(Start(data), ss).0.Ok? { ByteExactWhenWidthsFit(attrs, le, data); }
      }
    } else {
      var ones: seq<byte> := seq(TotalCost(ss), i => 255);
      LongDataSuffices(Start(ones), ss);
      var (x, r) := Read(Start(ones), ss);
      ReadsAreWritable(Start(ones), ss);
      SeamShows(W0, ss, x.value, ones);
      var w := Write(W0, ss, x.value);
      if w.pend == [] && w.buf == ones[..r.pos] {
        PrefixBits(w.buf, ones, w.le);
        assert false;
      }
      assert !GivesBack(attrs, le, ones);
    }
  }

  /** Three big-endian bits followed by five
      little-endian ones make eight, so no slot is kept, and yet bits are skipped. */
  lemma MixedRunLosesBits()
    ensures var attrs := [Attr(BitField(false, 3), false), Attr(BitField(true, 5), false)];
            var ss := FullLayout(attrs, false);
            ss == [BitField(false, 3), BitField(true, 5)] &&
            var r := Read(Start([255, 255]), ss);
            r.0.Ok? && AllWritable(ss, r.0.value) && Write(W0, ss, r.0.value).pend != []
  {
    hide ReadOp, Write, WriteOp, Pow2, Writable;
    var attrs := [Attr(BitField(false, 3), false), Attr(BitField(true, 5), false)];
    assert RunBits(attrs, 1) == 3 && RunBits(attrs, 2) == 8;
    assert Layout(attrs, 1, false) == [BitField(false, 3)];
    assert Layout(attrs, 2, false) == [BitField(false, 3), BitField(true, 5)];
    var ss := [BitField(false, 3), BitField(true, 5)];
    assert FullLayout(attrs, false) == ss;
    assert ss[1..] == [BitField(true, 5)] && ss[1..][1..] == [];
    var r0 := Start([255, 255]);
    ReadsEnough(r0, false, 3);
    var r1 := ReadOp(r0, ss[0]).1;
    ReadsEnough(r1, true, 5);
    assert Read(r1, ss[1..]).0.Ok?;
    ReadsAreWritable(r0, ss);
    PhaseOfWrite(W0, ss, Read(r0, ss).0.value);
  }

  lemma ReadsEnough(r: RState, le: bool, n: nat)
    requires ReaderOk(r) && n <= 8 && r.pos < |r.data|
    ensures ReadOp(r, BitField(le, n)).0.Ok? && ReadOp(r, BitField(le, n)).1.pos <= r.pos + 1
  {
    hide Spell, Expand, Value;
  }

  lemma {:induction false} PhaseOfWrite(w: WState, ss: seq<Shape>, vs: seq<Val>)
    requires WriterOk(w) && AllWritable(ss, vs)
    ensures PhaseOf(Write(w, ss, vs)) == PhaseAfterAll(PhaseOf(w), ss)
    decreases |ss|
  {
    hide WriteOp, PhaseAfter, Writable;
    if ss != [] {
      PhaseStep(w, ss[0], vs[0]);
      PhaseOfWrite(WriteOp(w, ss[0], vs[0]), ss[1..], vs[1..]);
    }
  }
}
