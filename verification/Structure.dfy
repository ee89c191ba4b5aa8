/** Whole structures, with byte strings in fields of a fixed size among their fields. */
module Structure {
  import opened Words
  import opened Codec
  import opened RoundTrip
  import opened BitAlign
  import opened Fidelity
  import opened FixedField
  import opened StreamImpl
  import opened WriterImpl
  import CodecRun

  /** A field of a structure. A sized one is terminated, padded, or both; the generated code
      keeps a raw copy of it (`copied`), or writes it with zb_write_bytes_limit. */
  datatype Field =
    | Plain(shape: Shape)
    | Sized(size: nat, term: int, pad: int, incl: bool, copied: bool)

  /** A value, and the raw copy beside it, if there is one. */
  datatype Content = Content(val: Val, copy: seq<byte>)

  /** The shape of the bytes a field takes in the stream. */
  function Lowered(f: Field): Shape
  {
    if f.Plain? then f.shape else ByteField(f.size)
  }

  function LoweredAll(fs: seq<Field>): (ss: seq<Shape>)
    ensures |ss| == |fs| && forall i :: 0 <= i < |fs| ==> ss[i] == Lowered(fs[i])
  {
    seq(|fs|, i requires 0 <= i < |fs| => Lowered(fs[i]))
  }

  ghost predicate Fits(f: Field, c: Content)
  {
    ShapeOk(Lowered(f)) && if f.Plain? then Writable(f.shape, c.val) else c.val.Raw?
  }

  ghost predicate AllFit(fs: seq<Field>, cs: seq<Content>)
  {
    |fs| == |cs| && forall i :: 0 <= i < |fs| ==> Fits(fs[i], cs[i])
  }

  /** What a field puts into the stream. */
  function Stored(f: Field, c: Content): (v: Val)
    requires Fits(f, c)
    ensures Writable(Lowered(f), v)
  {
    if f.Plain? then c.val
    else if f.copied then Raw(Shadowed(c.val.bs, c.copy, f.size, f.term, f.pad, f.incl))
    else Raw(Emitted(c.val.bs, f.size, WriteTerm(f.term, f.incl), f.pad))
  }

  function StoredAll(fs: seq<Field>, cs: seq<Content>): (vs: seq<Val>)
    requires AllFit(fs, cs)
    ensures |vs| == |fs| && AllWritable(LoweredAll(fs), vs)
    ensures forall i :: 0 <= i < |fs| ==> vs[i] == Stored(fs[i], cs[i])
  {
    seq(|fs|, i requires 0 <= i < |fs| => Stored(fs[i], cs[i]))
  }

  /** What a field makes of the bytes it finds. */
  function Taken(f: Field, v: Val): Content
    requires Writable(Lowered(f), v)
  {
    if f.Plain? then Content(v, [])
    else Content(Raw(Cut(v.bs, f.term, f.pad, f.incl)), if f.copied then v.bs else [])
  }

  function WriteOne(w: WState, f: Field, c: Content): (w': WState)
    requires WriterOk(w) && Fits(f, c)
    ensures WriterOk(w')
  {
    if f.Plain? then WriteOp(w, f.shape, c.val)
    else if f.copied then
      RawsJoin(w, Stored(f, c).bs, []);
      Raws(w, Stored(f, c).bs)
    else w.(buf := w.buf + Stored(f, c).bs)
  }

  function WriteFields(w: WState, fs: seq<Field>, cs: seq<Content>): (w': WState)
    requires WriterOk(w) && AllFit(fs, cs)
    ensures WriterOk(w')
    decreases |fs|
  {
    if fs == [] then w else WriteFields(WriteOne(w, fs[0], cs[0]), fs[1..], cs[1..])
  }

  function ReadOne(r: RState, f: Field): (res: (Result<Content>, RState))
    requires ReaderOk(r) && ShapeOk(Lowered(f))
    ensures ReaderOk(res.1) && res.1.data == r.data
  {
    var (x, r') := ReadOp(r, Lowered(f));
    match x
    case Ok(v) =>
      ReadIsWritable(r, Lowered(f));
      (Ok(Taken(f, v)), r')
    case Err(e) => (Err(e), r')
  }

  function ReadFields(r: RState, fs: seq<Field>): (res: (Result<seq<Content>>, RState))
    requires ReaderOk(r) && ShapesOk(LoweredAll(fs))
    ensures ReaderOk(res.1) && res.1.data == r.data
    decreases |fs|
  {
    if fs == [] then (Ok([]), r)
    else
      assert LoweredAll(fs)[0] == Lowered(fs[0]) && LoweredAll(fs)[1..] == LoweredAll(fs[1..]);
      var (x, r1) := ReadOne(r, fs[0]);
      match x
      case Err(e) => (Err(e), r1)
      case Ok(c) =>
        var (xs, r2) := ReadFields(r1, fs[1..]);
        match xs
        case Err(e) => (Err(e), r2)
        case Ok(cs) => (Ok([c] + cs), r2)
  }

  // ---- Fields and the shapes below them ------------------------------------

  lemma LoweredSplit(fs: seq<Field>)
    requires fs != []
    ensures LoweredAll(fs)[0] == Lowered(fs[0]) && LoweredAll(fs)[1..] == LoweredAll(fs[1..])
  {}

  lemma StoredSplit(fs: seq<Field>, cs: seq<Content>)
    requires AllFit(fs, cs) && fs != []
    ensures StoredAll(fs, cs)[0] == Stored(fs[0], cs[0]) && StoredAll(fs, cs)[1..] == StoredAll(fs[1..], cs[1..])
  {}

  function TakenAll(fs: seq<Field>, vs: seq<Val>): (cs: seq<Content>)
    requires AllWritable(LoweredAll(fs), vs)
    ensures |cs| == |fs| && forall i :: 0 <= i < |fs| ==> cs[i] == Taken(fs[i], vs[i])
  {
    seq(|fs|, i requires 0 <= i < |fs| => assert LoweredAll(fs)[i] == Lowered(fs[i]); Taken(fs[i], vs[i]))
  }

  /** Reading fields is reading the shapes below them. */
  lemma {:induction false} ReadLowered(r: RState, fs: seq<Field>)
    requires ReaderOk(r) && ShapesOk(LoweredAll(fs))
    ensures var (x, r') := Read(r, LoweredAll(fs));
            if x.Ok? then
              AllWritable(LoweredAll(fs), x.value) && ReadFields(r, fs) == (Ok(TakenAll(fs, x.value)), r')
            else ReadFields(r, fs) == (Err(x.error), r')
    decreases |fs|
  {
    hide ReadOp, ShapeOk, Writable, Lowered, Taken;
    if fs != [] {
      LoweredSplit(fs);
      var (x, r1) := ReadOp(r, Lowered(fs[0]));
      if x.Ok? {
        ReadLowered(r1, fs[1..]);
        var (y, r2) := Read(r, LoweredAll(fs));
        if y.Ok? {
          ReadsAreWritable(r, LoweredAll(fs));
          assert y.value[1..] == Read(r1, LoweredAll(fs[1..])).0.value;
          assert TakenAll(fs, y.value) == [Taken(fs[0], x.value)] + TakenAll(fs[1..], y.value[1..]);
        }
      }
    }
  }

  /** The field is written on a byte boundary, or aligns by itself: zb_write_bytes_limit does
      not, and the guarded writes of a field of size 0 do nothing. */
  predicate OnBoundary(p: Phase, f: Field)
  {
    f.Plain? || p.pending == 0 || (f.copied && f.size > 0)
  }

  predicate AllOnBoundary(p: Phase, fs: seq<Field>)
    decreases |fs|
  {
    fs == [] || (OnBoundary(p, fs[0]) && AllOnBoundary(PhaseAfter(p, Lowered(fs[0])), fs[1..]))
  }

  /** Exactly then it is written like the shape below it. */
  lemma WrittenLoweredIff(w: WState, f: Field, c: Content)
    requires WriterOk(w) && Fits(f, c)
    ensures WriteOne(w, f, c) == WriteOp(w, Lowered(f), Stored(f, c)) <==> OnBoundary(PhaseOf(w), f)
  {
    hide Shadowed, Emitted, Align;
    if f.Sized? {
      var bs := Stored(f, c).bs;
      if w.pend == [] {
        AlignNothing(w);
        if bs == [] { assert w.buf + bs == w.buf; }
        assert WriteRaw(w, bs) == w.(buf := w.buf + bs);
      } else {
        assert WriteRaw(w, bs).pend == [];
      }
    }
  }

  lemma {:induction false} WriteLowered(w: WState, fs: seq<Field>, cs: seq<Content>)
    requires WriterOk(w) && AllFit(fs, cs) && AllOnBoundary(PhaseOf(w), fs)
    ensures WriteFields(w, fs, cs) == Write(w, LoweredAll(fs), StoredAll(fs, cs))
    decreases |fs|
  {
    hide WriteOne, WriteOp, Fits, Writable, OnBoundary, PhaseAfter, Lowered, Stored;
    if fs != [] {
      LoweredSplit(fs);
      StoredSplit(fs, cs);
      WrittenLoweredIff(w, fs[0], cs[0]);
      PhaseStep(w, Lowered(fs[0]), Stored(fs[0], cs[0]));
      WriteLowered(WriteOne(w, fs[0], cs[0]), fs[1..], cs[1..]);
    }
  }

  // ---- Theorem: read what was written --------------------------------------

  /** The value can be told from what the field holds. */
  ghost predicate Recovers(p: Phase, f: Field, c: Content)
    requires Fits(f, c)
  {
    if f.Plain? then HasRoom(p, f.shape, c.val)
    else if f.copied then EditRecoverable(c.val.bs, c.copy, f.size, f.term, f.pad, f.incl)
    else Recoverable(c.val.bs, f.size, f.term, f.pad, f.incl)
  }

  ghost predicate AllRecover(p: Phase, fs: seq<Field>, cs: seq<Content>)
    requires AllFit(fs, cs)
    decreases |fs|
  {
    fs == [] || (Recovers(p, fs[0], cs[0]) && AllRecover(PhaseAfter(p, Lowered(fs[0])), fs[1..], cs[1..]))
  }

  ghost predicate SameValues(cs: seq<Content>, ds: seq<Content>)
  {
    |cs| == |ds| && forall i :: 0 <= i < |cs| ==> cs[i].val == ds[i].val
  }

  lemma SameValuesSplit(cs: seq<Content>, ds: seq<Content>)
    requires |cs| == |ds| > 0
    ensures SameValues(cs, ds) <==> cs[0].val == ds[0].val && SameValues(cs[1..], ds[1..])
  {
    if SameValues(cs[1..], ds[1..]) {
      assert forall i :: 1 <= i < |cs| ==> cs[i] == cs[1..][i - 1] && ds[i] == ds[1..][i - 1];
    }
  }

  lemma KeptWritable(w: WState, s: Shape, v: Val)
    requires WriterOk(w) && Writable(s, v)
    ensures Writable(s, KeptVal(w, s, v))
  {
    hide Pow2, Switch, Low;
    if s.BitField? {
      Pow2Mono(s.n, 64);
      Pow2Values();
    }
  }

  lemma {:induction false} AllKeptWritable(w: WState, ss: seq<Shape>, vs: seq<Val>)
    requires WriterOk(w) && AllWritable(ss, vs)
    ensures AllWritable(ss, KeptVals(w, ss, vs))
    decreases |ss|
  {
    hide Writable, KeptVal, WriteOp;
    if ss != [] {
      KeptWritable(w, ss[0], vs[0]);
      AllKeptWritable(WriteOp(w, ss[0], vs[0]), ss[1..], vs[1..]);
      var ks := KeptVals(w, ss, vs);
      assert ks[1..] == KeptVals(WriteOp(w, ss[0], vs[0]), ss[1..], vs[1..]);
      assert forall i :: 1 <= i < |ss| ==> ss[i] == ss[1..][i - 1] && ks[i] == ks[1..][i - 1];
    }
  }

  lemma OneRecoversIff(w: WState, f: Field, c: Content)
    requires WriterOk(w) && Fits(f, c)
    ensures var k := KeptVal(w, Lowered(f), Stored(f, c));
            Writable(Lowered(f), k) && (Taken(f, k).val == c.val <==> Recovers(PhaseOf(w), f, c))
  {
    hide Cut, Shadowed, Emitted, EditRecoverable, Recoverable, HasRoom;
    KeptWritable(w, Lowered(f), Stored(f, c));
    if f.Plain? {
      RoomIffKept(w, f.shape, c.val);
    } else if f.copied {
      EditRoundTripIff(c.val.bs, c.copy, f.size, f.term, f.pad, f.incl);
    } else {
      FieldRoundTripIff(c.val.bs, f.size, f.term, f.pad, f.incl);
    }
  }

  lemma {:induction false} AllRecoverIff(w: WState, fs: seq<Field>, cs: seq<Content>)
    requires WriterOk(w) && AllFit(fs, cs)
    ensures var ks := KeptVals(w, LoweredAll(fs), StoredAll(fs, cs));
            AllWritable(LoweredAll(fs), ks) && (SameValues(TakenAll(fs, ks), cs) <==> AllRecover(PhaseOf(w), fs, cs))
    decreases |fs|
  {
    hide Writable, KeptVal, WriteOp, Fits, Stored, Taken, Lowered, Recovers, PhaseAfter, SameValues;
    AllKeptWritable(w, LoweredAll(fs), StoredAll(fs, cs));
    var ks := KeptVals(w, LoweredAll(fs), StoredAll(fs, cs));
    var ts := TakenAll(fs, ks);
    if fs == [] {
      NoValues(ts, cs);
    } else {
      LoweredSplit(fs);
      StoredSplit(fs, cs);
      var v := Stored(fs[0], cs[0]);
      var w' := WriteOp(w, Lowered(fs[0]), v);
      OneRecoversIff(w, fs[0], cs[0]);
      PhaseStep(w, Lowered(fs[0]), v);
      AllRecoverIff(w', fs[1..], cs[1..]);
      assert ks[0] == KeptVal(w, Lowered(fs[0]), v);
      assert ks[1..] == KeptVals(w', LoweredAll(fs[1..]), StoredAll(fs[1..], cs[1..]));
      assert ts[1..] == TakenAll(fs[1..], ks[1..]);
      SameValuesSplit(ts, cs);
    }
  }

  lemma NoValues(cs: seq<Content>, ds: seq<Content>)
    requires cs == ds == []
    ensures SameValues(cs, ds)
  {}

  function EncodeFields(fs: seq<Field>, cs: seq<Content>): seq<byte>
    requires AllFit(fs, cs)
  {
    Align(WriteFields(W0, fs, cs)).buf
  }

  /** Every list of fields, sized ones among them, is read without failure to the end of the
      bytes, and its values come back exactly when each can be told from its field. */
  lemma FieldsRoundTripIff(fs: seq<Field>, cs: seq<Content>)
    requires AllFit(fs, cs) && AllOnBoundary(P0, fs) && |EncodeFields(fs, cs)| <= MAX_OBJECT
    ensures ShapesOk(LoweredAll(fs))
    ensures var (x, r) := ReadFields(Start(EncodeFields(fs, cs)), fs);
            x.Ok? && r.pos == |EncodeFields(fs, cs)| && (SameValues(x.value, cs) <==> AllRecover(P0, fs, cs))
  {
    hide Read, Write, WriteFields, ReadFields, KeptVals, AllRecover, AllOnBoundary, Fits, Writable, SameValues, Align, Lowered, Stored, Taken;
    var ss, vs := LoweredAll(fs), StoredAll(fs, cs);
    CodecRun.ShapesOfWritable(ss, vs);
    WriteLowered(W0, fs, cs);
    assert EncodeFields(fs, cs) == Encode(ss, vs);
    ReadBack(ss, vs);
    ReadLowered(Start(Encode(ss, vs)), fs);
    AllRecoverIff(W0, fs, cs);
  }

  // ---- Theorem: write what was read ----------------------------------------

  /** Behind the value stands nothing but a terminator, if one is written, and padding. */
  ghost predicate MarkedOff(rest: seq<byte>, term: int, pad: int)
  {
    if term < 0 || rest == [] then IsPadding(rest, pad)
    else rest[0] == Byte(term) && IsPadding(rest[1..], pad)
  }

  ghost predicate IsPadding(s: seq<byte>, pad: int)
  {
    s == Repeat(if pad < 0 then 0 else Byte(pad), |s|)
  }

  /** The field is written back as it was read. */
  ghost predicate Restores(f: Field, v: Val)
    requires Writable(Lowered(f), v)
  {
    f.Plain? || f.copied ||
    MarkedOff(v.bs[|Cut(v.bs, f.term, f.pad, f.incl)|..], WriteTerm(f.term, f.incl), f.pad)
  }

  lemma EmittedIff(raw: seq<byte>, value: seq<byte>, term: int, pad: int)
    requires value <= raw
    ensures Emitted(value, |raw|, term, pad) == raw <==> MarkedOff(raw[|value|..], term, pad)
  {
    hide Byte, Repeat;
    var rest := raw[|value|..];
    var p := if pad < 0 then 0 else Byte(pad);
    var head: seq<byte> := if term >= 0 && rest != [] then [Byte(term)] else [];
    var pads := Repeat(p, |rest| - |head|);
    assert raw == value + rest;
    assert Emitted(value, |raw|, term, pad) == value + (head + pads);
    SameRest(value, head + pads, rest);
    assert rest == rest[..|head|] + rest[|head|..];
    assert rest[0..] == rest;
    if head + pads == rest { assert rest[..|head|] == head && rest[|head|..] == pads; }
  }

  lemma SameRest(a: seq<byte>, b: seq<byte>, c: seq<byte>)
    ensures a + b == a + c <==> b == c
  {
    assert (a + b)[|a|..] == b && (a + c)[|a|..] == c;
  }

  lemma TakenFits(f: Field, v: Val)
    requires Writable(Lowered(f), v)
    ensures Fits(f, Taken(f, v)) && (Stored(f, Taken(f, v)) == v <==> Restores(f, v))
  {
    hide Cut, Shadowed, Emitted, MarkedOff;
    if f.Sized? {
      UneditedFieldIsExact(v.bs, f.term, f.pad, f.incl);
      EmittedIff(v.bs, Cut(v.bs, f.term, f.pad, f.incl), WriteTerm(f.term, f.incl), f.pad);
    }
  }

  lemma AllTakenFit(fs: seq<Field>, vs: seq<Val>)
    requires AllWritable(LoweredAll(fs), vs)
    ensures AllFit(fs, TakenAll(fs, vs))
    ensures forall i :: 0 <= i < |fs| ==> Writable(Lowered(fs[i]), vs[i])
    ensures StoredAll(fs, TakenAll(fs, vs)) == vs <==> forall i :: 0 <= i < |fs| ==> Restores(fs[i], vs[i])
  {
    hide Taken, Stored, Fits, Restores, Lowered, Writable;
    var ss := LoweredAll(fs);
    assert forall i :: 0 <= i < |fs| ==> ss[i] == Lowered(fs[i]);
    forall i | 0 <= i < |fs| ensures Fits(fs[i], Taken(fs[i], vs[i])) && (Stored(fs[i], Taken(fs[i], vs[i])) == vs[i] <==> Restores(fs[i], vs[i])) {
      TakenFits(fs[i], vs[i]);
    }
    var ts := TakenAll(fs, vs);
    var us := StoredAll(fs, ts);
    assert us == vs <==> forall i :: 0 <= i < |fs| ==> us[i] == vs[i];
  }

  lemma {:induction false} SeamlessOnBoundary(p: Phase, fs: seq<Field>)
    requires AllSeamless(p, LoweredAll(fs))
    ensures AllOnBoundary(p, fs)
    decreases |fs|
  {
    hide PhaseAfter;
    if fs != [] {
      LoweredSplit(fs);
      SeamlessOnBoundary(PhaseAfter(p, Lowered(fs[0])), fs[1..]);
    }
  }

  lemma {:induction false} BytesAreKept(w: WState, ss: seq<Shape>, vs: seq<Val>)
    requires WriterOk(w) && AllWritable(ss, vs)
    ensures forall i :: 0 <= i < |ss| && !ss[i].BitField? ==> KeptVals(w, ss, vs)[i] == vs[i]
    decreases |ss|
  {
    hide WriteOp, Writable;
    if ss != [] {
      var w' := WriteOp(w, ss[0], vs[0]);
      BytesAreKept(w', ss[1..], vs[1..]);
      var ks := KeptVals(w, ss, vs);
      assert ks[1..] == KeptVals(w', ss[1..], vs[1..]);
      assert forall i :: 1 <= i < |ss| ==> ss[i] == ss[1..][i - 1] && ks[i] == ks[1..][i - 1] && vs[i] == vs[1..][i - 1];
    }
  }

  /** If the writer keeps of what the fields store just what was read, they store what was read. */
  lemma StoredIsKept(fs: seq<Field>, vs: seq<Val>)
    requires AllWritable(LoweredAll(fs), vs) && AllFit(fs, TakenAll(fs, vs))
    requires KeptVals(W0, LoweredAll(fs), StoredAll(fs, TakenAll(fs, vs))) == vs
    ensures StoredAll(fs, TakenAll(fs, vs)) == vs
  {
    hide Writable, KeptVals, Fits;
    var ss, us := LoweredAll(fs), StoredAll(fs, TakenAll(fs, vs));
    BytesAreKept(W0, ss, us);
    forall i | 0 <= i < |fs| ensures us[i] == vs[i] {
      assert ss[i] == Lowered(fs[i]);
    }
  }

  /** Writing the contents taken from `vs` is writing `vs` exactly if each field restores its
      bytes; and only then can it give the bytes `vs` was read from. */
  lemma TakenWritten(fs: seq<Field>, ss: seq<Shape>, vs: seq<Val>, data: seq<byte>)
    requires ss == LoweredAll(fs) && AllWritable(ss, vs) && AllFit(fs, TakenAll(fs, vs)) && AllOnBoundary(P0, fs)
    requires |data| <= MAX_OBJECT && Read(Start(data), ss).0 == Ok(vs)
    ensures var w := WriteFields(W0, fs, TakenAll(fs, vs));
            if StoredAll(fs, TakenAll(fs, vs)) == vs then w == Write(W0, ss, vs)
            else w.buf != data[..Read(Start(data), ss).1.pos] || w.pend != []
  {
    hide Read, Write, WriteFields, KeptVals, Writable, Fits, AllOnBoundary, Lowered;
    CodecRun.ShapesOfWritable(ss, vs);
    var cs := TakenAll(fs, vs);
    var w := WriteFields(W0, fs, cs);
    WriteLowered(W0, fs, cs);
    if w.pend == [] && w.buf == data[..Read(Start(data), ss).1.pos] {
      PrefixBits(w.buf, data, w.le);
      AlignedSync(Start(data), W0, data);
      ReadBackFrom(Start(data), W0, ss, StoredAll(fs, cs), data);
      StoredIsKept(fs, vs);
    }
  }

  /** Byte-exact fidelity for structures with sized fields: a structure of unconditional
      attributes whose runs turn their bit order on byte boundaries gives back the bytes it
      consumed exactly when each little-endian bit field had room and each sized field
      restores its bytes, which one with a raw copy always does. */
  lemma FieldsByteExact(attrs: seq<Attr>, le: bool, fs: seq<Field>, data: seq<byte>)
    requires Unconditional(attrs) && TurnsOnBoundaries(attrs, |attrs|) && LoweredAll(fs) == FullLayout(attrs, le)
    requires |data| <= MAX_OBJECT && ReadFields(Start(data), fs).0.Ok?
    ensures var ss := FullLayout(attrs, le);
            var vs := Read(Start(data), ss).0;
            vs.Ok? && AllWritable(ss, vs.value) &&
            (forall i :: 0 <= i < |fs| ==> Writable(Lowered(fs[i]), vs.value[i])) &&
            var (cs, r) := ReadFields(Start(data), fs);
            AllFit(fs, cs.value) &&
            var w := WriteFields(W0, fs, cs.value);
            w.pend == [] && w.buf == data[..r.pos] <==>
            AllHaveRoom(P0, ss, vs.value) && forall i :: 0 <= i < |fs| ==> Restores(fs[i], vs.value[i])
  {
    hide Read, Write, WriteFields, ReadFields, AllHaveRoom, FullLayout, Writable, Fits, Lowered, Taken, Restores, TurnsOnBoundaries, Unconditional, AllSeamless, AllOnBoundary;
    var ss := FullLayout(attrs, le);
    ReadLowered(Start(data), fs);
    var vs := Read(Start(data), ss).0.value;
    AllTakenFit(fs, vs);
    FullLayoutSeamless(attrs, le);
    SeamlessOnBoundary(P0, fs);
    TakenWritten(fs, ss, vs, data);
    ByteExact(attrs, le, data);
  }

  // ---- On the objects ------------------------------------------------------

  method WriteField(w: Writer, f: Field, c: Content)
    requires w.Valid() && Fits(f, c) && w.Roomy(Cost(Lowered(f)) + 2)
    modifies w, w.buf, w.buf.arena, w.buf.arena.mems
    ensures w.Valid() && w.State() == WriteOne(old(w.State()), f, c)
    ensures w.buf.arena.mems >= old(w.buf.arena.mems) && fresh(w.buf.arena.mems - old(w.buf.arena.mems))
  {
    hide Shadowed, Emitted, WriteOp, Writer.State, Raws;
    match f {
      case Plain(shape) => CodecRun.WriteField(w, shape, c.val);
      case Sized(size, term, pad, incl, copied) =>
        if copied {
          ShadowWrite(w, c.val.bs, c.copy, size, term, pad, incl);
        } else {
          WriteBytesLimit(w, c.val.bs, size, WriteTerm(term, incl), pad);
        }
    }
  }

  /** What emitStripBytes generates. */
  method Strip(raw: seq<byte>, term: int, pad: int, incl: bool) returns (v: seq<byte>)
    ensures v == Cut(raw, term, pad, incl)
  {
    v := raw;
    if term >= 0 {
      var i := BytesIndex(v, Byte(term));
      if i >= 0 {
        v := v[..i + if incl then 1 else 0];
      } else if pad >= 0 {
        v := BytesStripRight(v, pad);
      }
    } else if pad >= 0 {
      v := BytesStripRight(v, pad);
    }
  }

  /** A field with a raw copy is read as raw bytes, which are then stripped. */
  method ReadField(s: Stream, f: Field) returns (r: Result<Content>)
    requires s.Valid() && ShapeOk(Lowered(f))
    modifies s
    ensures s.Valid() && (r, s.State()) == ReadOne(old(s.State()), f)
  {
    hide Cut, ReadRaw, Stream.State;
    match f {
      case Plain(shape) =>
        var v := CodecRun.ReadField(s, shape);
        r := match v case Ok(x) => Ok(Content(x, [])) case Err(e) => Err(e);
      case Sized(size, term, pad, incl, copied) =>
        if copied {
          var raw := s.ReadRawBytes(size);
          if raw.Err? { return Err(raw.error); }
          var v := Strip(raw.value, term, pad, incl);
          r := Ok(Content(Raw(v), raw.value));
        } else {
          var v := ReadBytesPadTerm(s, size, term, pad, incl);
          r := match v case Ok(x) => Ok(Content(Raw(x), [])) case Err(e) => Err(e);
        }
    }
  }
}
