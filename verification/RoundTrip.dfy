/** Writing fields and reading them back, and reading fields and writing them back. */
module RoundTrip {
  import opened Words
  import opened BitSeq
  import opened Codec

  datatype Shape =
    | BitField(le: bool, n: nat)
    | IntField(size: nat, be: bool, signed: bool)
    | ByteField(len: nat)

  datatype Val = Num(v: int) | Raw(bs: seq<byte>)

  ghost predicate ShapeOk(s: Shape)
  {
    match s
    case BitField(_, n) => n <= 64
    case IntField(size, _, _) => size in {1, 2, 4, 8}
    case ByteField(len) => len < SIZE_LIMIT
  }

  /** The argument types of the write calls. */
  ghost predicate Writable(s: Shape, v: Val)
  {
    ShapeOk(s) &&
    match s
    case BitField(_, _) => v.Num? && 0 <= v.v < 0x1_0000_0000_0000_0000
    case IntField(size, _, signed) => v.Num? && FitsInt(v.v, size, signed)
    case ByteField(len) => v.Raw? && |v.bs| == len
  }

  lemma FitsWord(v: int, size: nat, signed: bool)
    requires size in {1, 2, 4, 8} && FitsInt(v, size, signed)
    ensures -0x8000_0000_0000_0000 <= v < 0x1_0000_0000_0000_0000
  {
    hide Pow2;
    Pow2Values();
    Pow2Mono(8 * size, 64);
    Pow2Mono(8 * size - 1, 63);
    Pow2Step(63);
  }

  lemma Pow2Step(k: nat)
    ensures Pow2(k + 1) == 2 * Pow2(k)
  {}

  function WriteOp(w: WState, s: Shape, v: Val): (w': WState)
    requires WriterOk(w) && Writable(s, v)
    ensures WriterOk(w')
  {
    match s
    case BitField(le, n) => WriteBits(w, le, n, v.v).1
    case IntField(size, be, signed) => FitsWord(v.v, size, signed); WriteRaw(w, IntBytes(ToWord(v.v), size, be))
    case ByteField(_) => WriteRaw(w, v.bs)
  }

  function ReadOp(r: RState, s: Shape): (res: (Result<Val>, RState))
    requires ReaderOk(r) && ShapeOk(s)
    ensures ReaderOk(res.1) && res.1.data == r.data
  {
    match s
    case BitField(le, n) =>
      var (x, r') := ReadBits(r, le, n);
      (match x case Ok(v) => Ok(Num(v)) case Err(e) => Err(e), r')
    case IntField(size, be, signed) =>
      var (x, r') := ReadInt(r, size, be, signed);
      (match x case Ok(v) => Ok(Num(v)) case Err(e) => Err(e), r')
    case ByteField(len) =>
      var (x, r') := ReadRaw(r, len);
      (match x case Ok(bs) => Ok(Raw(bs)) case Err(e) => Err(e), r')
  }

  ghost predicate ShapesOk(ss: seq<Shape>)
  {
    forall i :: 0 <= i < |ss| ==> ShapeOk(ss[i])
  }

  ghost predicate AllWritable(ss: seq<Shape>, vs: seq<Val>)
  {
    |ss| == |vs| && forall i :: 0 <= i < |ss| ==> Writable(ss[i], vs[i])
  }

  function Write(w: WState, ss: seq<Shape>, vs: seq<Val>): (w': WState)
    requires WriterOk(w) && AllWritable(ss, vs)
    ensures WriterOk(w')
    decreases |ss|
  {
    if ss == [] then w else Write(WriteOp(w, ss[0], vs[0]), ss[1..], vs[1..])
  }

  function Read(r: RState, ss: seq<Shape>): (res: (Result<seq<Val>>, RState))
    requires ReaderOk(r) && ShapesOk(ss)
    ensures ReaderOk(res.1) && res.1.data == r.data
    decreases |ss|
  {
    if ss == [] then (Ok([]), r)
    else
      var (x, r1) := ReadOp(r, ss[0]);
      match x
      case Err(e) => (Err(e), r1)
      case Ok(v) =>
        var (xs, r2) := Read(r1, ss[1..]);
        match xs
        case Err(e) => (Err(e), r2)
        case Ok(vs) => (Ok([v] + vs), r2)
  }

  /** Reading goes on where it stands after each field, and ends with the first failure. */
  lemma {:induction false} ReadStops(r: RState, ss: seq<Shape>, k: nat)
    requires ReaderOk(r) && ShapesOk(ss) && k < |ss| && Read(r, ss[..k]).0.Ok?
    ensures var (x, r') := ReadOp(Read(r, ss[..k]).1, ss[k]);
            x.Err? ==> Read(r, ss) == (Err(x.error), r')
    decreases |ss|
  {
    hide ReadOp, ShapeOk;
    if k > 0 {
      assert ss[..k][0] == ss[0] && ss[..k][1..] == ss[1..][..k - 1] && ss[1..][k - 1] == ss[k];
      ReadStops(ReadOp(r, ss[0]).1, ss[1..], k - 1);
    }
  }

  /** What the writer in state `w` keeps of a value. */
  function KeptVal(w: WState, s: Shape, v: Val): Val
    requires WriterOk(w) && Writable(s, v)
  {
    if s.BitField? then Num(Kept(v.v, s.n, s.le, |Switch(w, s.le).pend|)) else v
  }

  function KeptVals(w: WState, ss: seq<Shape>, vs: seq<Val>): (ks: seq<Val>)
    requires WriterOk(w) && AllWritable(ss, vs)
    ensures |ks| == |vs|
    decreases |ss|
  {
    if ss == [] then [] else [KeptVal(w, ss[0], vs[0])] + KeptVals(WriteOp(w, ss[0], vs[0]), ss[1..], vs[1..])
  }

  // ---- The writer and the reader in step ---------------------------------

  /** Everything written so far, as one row of bits in the current order. */
  ghost function Row(w: WState): bits
  {
    Expand(w.buf, w.le) + w.pend
  }

  /** What the reader still holds or has not read yet. */
  ghost function Tail(r: RState, le: bool): bits
    requires ReaderOk(r)
  {
    r.pend + Expand(r.data[r.pos..], le)
  }

  /** The final bytes `all` start with what has been written. */
  ghost predicate Matches(w: WState, all: seq<byte>)
  {
    Row(w) <= Expand(all, w.le)
  }

  /** The reader of `all` stands exactly where the writer does. */
  ghost predicate Sync(r: RState, w: WState, all: seq<byte>)
  {
    && ReaderOk(r) && WriterOk(w) && r.data == all
    && (w.pend != [] ==> r.le == w.le)
    && Row(w) + Tail(r, w.le) == Expand(all, w.le)
  }

  lemma {:induction false} ExpandDrop(bs: seq<byte>, i: nat, le: bool)
    requires i <= |bs|
    ensures Expand(bs, le)[8 * i..] == Expand(bs[i..], le)
    ensures Expand(bs, le)[..8 * i] == Expand(bs[..i], le)
  {
    hide Spell, Expand;
    ExpandConcat(bs[..i], bs[i..], le);
    assert bs[..i] + bs[i..] == bs;
  }

  lemma ExpandInjective(a: seq<byte>, b: seq<byte>, le: bool)
    requires Expand(a, le) == Expand(b, le)
    ensures a == b
  {
    PackOfExpand(a, le);
    PackOfExpand(b, le);
  }

  /** A prefix in bits that consists of whole bytes is a prefix in bytes, in either order. */
  lemma PrefixBytes(a: seq<byte>, all: seq<byte>, le: bool)
    requires Expand(a, le) <= Expand(all, le)
    ensures a <= all
  {
    hide Spell, Expand;
    ExpandDrop(all, |a|, le);
    ExpandInjective(a, all[..|a|], le);
  }

  lemma PrefixBits(a: seq<byte>, all: seq<byte>, le: bool)
    requires a <= all
    ensures Expand(a, le) <= Expand(all, le)
  {
    hide Spell, Expand;
    ExpandDrop(all, |a|, le);
    assert all[..|a|] == a;
  }

  /** With no pending bits the two positions are equal. */
  lemma SyncAligned(r: RState, w: WState, all: seq<byte>)
    requires Sync(r, w, all) && w.pend == []
    ensures r.pend == [] && r.pos == |w.buf| && w.buf == all[..|w.buf|]
  {
    hide Spell, Expand;
    assert 8 * |w.buf| + |r.pend| + 8 * (|all| - r.pos) == 8 * |all|;
    assert Expand(all, w.le) == Expand(w.buf, w.le) + Tail(r, w.le);
    PrefixBytes(w.buf, all, w.le);
  }

  lemma AlignedSync(r: RState, w: WState, all: seq<byte>)
    requires ReaderOk(r) && WriterOk(w) && r.data == all
    requires w.pend == [] && r.pend == [] && r.pos == |w.buf| && w.buf == all[..|w.buf|]
    ensures Sync(r, w, all)
  {
    hide Spell, Expand;
    ExpandDrop(all, r.pos, w.le);
    assert all[..r.pos] == w.buf;
  }

  /** With pending bits the reader has already taken the byte they belong to. */
  lemma SyncPending(r: RState, w: WState, all: seq<byte>)
    requires Sync(r, w, all) && w.pend != []
    ensures r.pos == |w.buf| + 1
  {
    hide Spell, Expand;
    assert 8 * |w.buf| + |w.pend| + |r.pend| + 8 * (|all| - r.pos) == 8 * |all|;
  }

  lemma RowOfPut(w: WState, s: bits)
    requires WriterOk(w)
    ensures Row(PutBits(w, s)) == Row(w) + s
  {
    hide Spell, Expand, Pack;
    var t := w.pend + s;
    var k := |t| - |t| % 8;
    assert k % 8 == 0;
    var front := Expand(w.buf, w.le);
    ExpandOfPack(t[..k], w.le);
    ExpandConcat(w.buf, Pack(t[..k], w.le), w.le);
    assert Row(PutBits(w, s)) == front + t[..k] + t[k..];
    CutAndJoin(front, w.pend, s, k);
  }

  lemma CutAndJoin(front: bits, a: bits, b: bits, k: nat)
    requires k <= |a + b|
    ensures front + (a + b)[..k] + (a + b)[k..] == front + a + b
  {
    assert (a + b)[..k] + (a + b)[k..] == a + b;
  }

  lemma RowOfAlign(w: WState)
    requires WriterOk(w)
    ensures Row(w) <= Expand(Align(w).buf, w.le) && Align(w).buf[..|w.buf|] == w.buf
    ensures w.pend != [] ==> |Align(w).buf| == |w.buf| + 1
  {
    hide Spell, Expand, Pack;
    if w.pend != [] {
      var t := w.pend + Zeros(8 - |w.pend|);
      ExpandOfPack(t, w.le);
      ExpandConcat(w.buf, Pack(t, w.le), w.le);
    }
  }

  lemma MatchesAlign(w: WState, all: seq<byte>)
    requires WriterOk(w) && Align(w).buf <= all
    ensures Matches(w, all)
  {
    hide Spell, Expand, Pack, Align;
    RowOfAlign(w);
    PrefixBits(Align(w).buf, all, w.le);
  }

  lemma MatchesSwitch(w: WState, le: bool, all: seq<byte>)
    requires WriterOk(w) && Matches(Switch(w, le), all)
    ensures Matches(w, all)
    ensures w.le != le ==> Align(w).buf <= all
  {
    hide Spell, Expand, Pack, Align;
    if w.le != le {
      PrefixBytes(Align(w).buf, all, le);
      MatchesAlign(w, all);
    }
  }

  /** If the bytes match after an operation, they matched before it. */
  lemma MatchesBefore(w: WState, s: Shape, v: Val, all: seq<byte>)
    requires WriterOk(w) && Writable(s, v) && Matches(WriteOp(w, s, v), all)
    ensures Matches(w, all)
    ensures s.BitField? ==> Matches(Switch(w, s.le), all)
    ensures !s.BitField? ==> WriteOp(w, s, v).buf <= all && Align(w).buf <= all
  {
    hide Spell, Expand, Pack, Align, Pow2, PutBits, Switch;
    var w' := WriteOp(w, s, v);
    if s.BitField? {
      var w1 := Switch(w, s.le);
      var k := Kept(v.v, s.n, s.le, |w1.pend|);
      RowOfPut(w1, Spell(k, s.n, s.le));
      assert Row(w') == Row(w1) + Spell(k, s.n, s.le);
      MatchesSwitch(w, s.le, all);
    } else {
      PrefixBytes(w'.buf, all, w'.le);
      MatchesAlign(w, all);
    }
  }

  /** After switching to the order of a bit field, the reader's view of that order
      is what follows the row. */
  lemma SyncView(r: RState, w: WState, le: bool, all: seq<byte>)
    requires Sync(r, w, all) && (w.le != le ==> Align(w).buf <= all)
    ensures var w1 := Switch(w, le); Row(w1) + View(r, le) == Expand(all, le)
  {
    hide Spell, Expand, Pack;
    var w1 := Switch(w, le);
    if w.pend == [] {
      SyncAligned(r, w, all);
    } else if w.le != le {
      SyncPending(r, w, all);
      RowOfAlign(w);
    }
    if w.pend == [] || w.le != le {
      ExpandDrop(all, |w1.buf|, le);
      assert all[..|w1.buf|] == w1.buf;
    }
  }

  /** Taking `s` off the view and putting `s` on the row keeps the two in step. */
  lemma SyncBits(r: RState, w1: WState, s: bits, all: seq<byte>)
    requires ReaderOk(r) && WriterOk(w1) && r.data == all && |s| <= 64
    requires Row(w1) + View(r, w1.le) == Expand(all, w1.le) && s <= View(r, w1.le)
    ensures var (x, r') := ReadBits(r, w1.le, |s|); x == Ok(Value(s, w1.le)) && Sync(r', PutBits(w1, s), all)
  {
    hide Spell, Expand, Pack, Value, PutBits, Positioned, View;
    var le, view := w1.le, View(r, w1.le);
    var rest := view[|s|..];
    assert view[..|s|] == s && view == s + rest;
    RowOfPut(w1, s);
    assert Row(w1) + s + rest == Expand(all, le);
    PositionedTail(all, Row(w1) + s, rest, le);
  }

  /** A reader positioned at a suffix of the data has that suffix in front of it. */
  lemma PositionedTail(all: seq<byte>, front: bits, rest: bits, le: bool)
    requires front + rest == Expand(all, le) && |all| <= MAX_OBJECT
    ensures |rest| / 8 <= |all|
    ensures var r := Positioned(all, rest, le); r.data == all && r.le == le && Tail(r, le) == rest
  {
    hide Spell, Expand;
    var i := |all| - |rest| / 8;
    assert |front| + |rest| == 8 * |all|;
    ExpandDrop(all, i, le);
    assert rest == rest[..|rest| % 8] + rest[|rest| % 8..];
    assert rest[|rest| % 8..] == Expand(all, le)[8 * i..];
  }

  // ---- Integers ----------------------------------------------------------

  /** A written integer is read back as itself: the byte order and the sign agree. */
  lemma IntRoundTrip(v: int, size: nat, be: bool, signed: bool)
    requires size in {1, 2, 4, 8} && FitsInt(v, size, signed)
    ensures -0x8000_0000_0000_0000 <= v < 0x1_0000_0000_0000_0000
    ensures FromWord(BytesInt(IntBytes(ToWord(v), size, be), be), size, signed) == v
  {
    hide Pow2, Spell, Expand, Pack, Value, Low;
    FitsWord(v, size, signed);
    var n := 8 * size;
    var u := ToWord(v);
    ExpandOfPack(Spell(u, n, !be), !be);
    ValueOfSpell(u, n, !be);
    Pow2Step(n - 1);
    LowOfWord(v, n);
  }

  lemma LowOfWord(v: int, n: nat)
    requires n in {8, 16, 32, 64} && -0x8000_0000_0000_0000 <= v < 0x1_0000_0000_0000_0000
    requires -(Pow2(n) as int) <= v < Pow2(n)
    ensures Low(ToWord(v), n) == if v < 0 then v + Pow2(n) else v
  {
    hide Pow2, Low, High, Up;
    Pow2Values();
    if v >= 0 {
      LowSmall(v, n);
    } else {
      UpPow(64 - n, n);
      JoinSplit(Pow2(64 - n) - 1, v + Pow2(n), n);
    }
  }

  lemma {:induction false} UpPow(m: nat, n: nat)
    ensures Up(Pow2(m) - 1, n) + Pow2(n) == Pow2(m + n)
  {
    if n > 0 { UpPow(m, n - 1); }
  }

  // ---- One operation -----------------------------------------------------

  /** Byte-aligned operations: both sides skip to the next byte boundary. */
  lemma SyncRaw(r: RState, w: WState, bs: seq<byte>, all: seq<byte>)
    requires Sync(r, w, all) && WriteRaw(w, bs).buf <= all
    ensures var (x, r') := ReadRaw(r, |bs|); x == Ok(bs) && Sync(r', WriteRaw(w, bs), all)
  {
    hide Spell, Expand, Pack, Align;
    var w1 := Align(w);
    RowOfAlign(w);
    if w.pend == [] {
      SyncAligned(r, w, all);
      AlignNothing(w);
    } else {
      SyncPending(r, w, all);
    }
    assert r.pos == |w1.buf|;
    assert all[..|w1.buf| + |bs|] == w1.buf + bs;
    assert all[r.pos..r.pos + |bs|] == bs;
    AlignedSync(ReadRaw(r, |bs|).1, WriteRaw(w, bs), all);
  }

  /** What was written by one operation is what reading the same shape returns. */
  lemma StepBack(r: RState, w: WState, s: Shape, v: Val, all: seq<byte>)
    requires Sync(r, w, all) && Writable(s, v) && Matches(WriteOp(w, s, v), all)
    ensures var (x, r') := ReadOp(r, s); x == Ok(KeptVal(w, s, v)) && Sync(r', WriteOp(w, s, v), all)
  {
    hide Spell, Expand, Pack, Value, Align, Pow2, PutBits, Switch, View, ReadBits, ReadRaw, FromWord, BytesInt, IntBytes, Kept, Sync;
    SyncParts(r, w, all);
    MatchesBefore(w, s, v, all);
    match s {
      case BitField(le, n) =>
        var w1 := Switch(w, le);
        var k := Kept(v.v, n, le, |w1.pend|);
        var field := Spell(k, n, le);
        MatchesSwitch(w, le, all);
        SyncView(r, w, le, all);
        RowOfPut(w1, field);
        PrefixCancel(Row(w1), field, View(r, le), Expand(all, le));
        ValueOfSpellExact(k, n, le);
        SyncBits(r, w1, field, all);
      case IntField(size, be, signed) =>
        IntRoundTrip(v.v, size, be, signed);
        SyncRaw(r, w, IntBytes(ToWord(v.v), size, be), all);
      case ByteField(_) =>
        SyncRaw(r, w, v.bs, all);
    }
  }

  lemma SyncParts(r: RState, w: WState, all: seq<byte>)
    requires Sync(r, w, all)
    ensures ReaderOk(r) && WriterOk(w) && r.data == all
  {}

  lemma PrefixCancel(a: bits, b: bits, c: bits, all: bits)
    requires a + b <= all && a + c == all
    ensures b <= c
  {
    assert all[|a|..] == c;
    assert (a + b)[|a|..] == b;
    assert all[..|a + b|] == a + b;
  }

  // ---- Theorem: read what was written ------------------------------------

  lemma {:induction false} MatchesAll(w: WState, ss: seq<Shape>, vs: seq<Val>, all: seq<byte>)
    requires WriterOk(w) && AllWritable(ss, vs) && Matches(Write(w, ss, vs), all)
    ensures Matches(w, all)
    decreases |ss|
  {
    hide Matches, WriteOp, Writable;
    if ss != [] {
      MatchesAll(WriteOp(w, ss[0], vs[0]), ss[1..], vs[1..], all);
      MatchesBefore(w, ss[0], vs[0], all);
    }
  }

  lemma {:induction false} ReadBackFrom(r: RState, w: WState, ss: seq<Shape>, vs: seq<Val>, all: seq<byte>)
    requires Sync(r, w, all) && AllWritable(ss, vs) && Matches(Write(w, ss, vs), all)
    ensures var (x, r') := Read(r, ss); x == Ok(KeptVals(w, ss, vs)) && Sync(r', Write(w, ss, vs), all)
    decreases |ss|
  {
    hide Sync, Matches, WriteOp, ReadOp, KeptVal;
    SyncParts(r, w, all);
    if ss != [] {
      MatchesAll(WriteOp(w, ss[0], vs[0]), ss[1..], vs[1..], all);
      StepBack(r, w, ss[0], vs[0], all);
      ReadBackFrom(ReadOp(r, ss[0]).1, WriteOp(w, ss[0], vs[0]), ss[1..], vs[1..], all);
    }
  }

  /** The bytes of a finished write. */
  function Encode(ss: seq<Shape>, vs: seq<Val>): seq<byte>
    requires AllWritable(ss, vs)
  {
    Align(Write(W0, ss, vs)).buf
  }

  function Start(data: seq<byte>): RState
  {
    RState(data, 0, [], false)
  }

  /** Reading the shapes that were written returns exactly what the writer kept,
      and ends at the end of the bytes. */
  lemma ReadBack(ss: seq<Shape>, vs: seq<Val>)
    requires AllWritable(ss, vs) && |Encode(ss, vs)| <= MAX_OBJECT
    ensures var (x, r) := Read(Start(Encode(ss, vs)), ss);
            x == Ok(KeptVals(W0, ss, vs)) && r.pos == |Encode(ss, vs)|
  {
    hide Spell, Expand, Pack, WriteOp, ReadOp, Align;
    var w := Write(W0, ss, vs);
    var all := Align(w).buf;
    MatchesAlign(w, all);
    AlignedSync(Start(all), W0, all);
    ReadBackFrom(Start(all), W0, ss, vs, all);
    var r := Read(Start(all), ss).1;
    RowOfAlign(w);
    if w.pend == [] {
      SyncAligned(r, w, all);
      AlignNothing(w);
    } else {
      SyncPending(r, w, all);
    }
  }

  lemma AlignNothing(w: WState)
    requires WriterOk(w) && w.pend == []
    ensures Align(w) == w
  {}

  // ---- What is kept ------------------------------------------------------

  /** How many bits are pending, and in which order: it depends on the shapes only. */
  datatype Phase = Phase(pending: nat, le: bool)

  function PhaseOf(w: WState): Phase
  {
    Phase(|w.pend|, w.le)
  }

  /** The bits pending when a bit field of order `le` is about to be written. */
  function PendingFor(p: Phase, le: bool): nat
  {
    if p.le == le then p.pending else 0
  }

  function PhaseAfter(p: Phase, s: Shape): Phase
  {
    match s
    case BitField(le, n) => Phase((PendingFor(p, le) + n) % 8, le)
    case _ => Phase(0, p.le && p.pending == 0)
  }

  lemma PhaseStep(w: WState, s: Shape, v: Val)
    requires WriterOk(w) && Writable(s, v)
    ensures PhaseOf(WriteOp(w, s, v)) == PhaseAfter(PhaseOf(w), s)
    ensures s.BitField? ==> |Switch(w, s.le).pend| == PendingFor(PhaseOf(w), s.le)
  {
    hide Spell, Pack;
  }

  /** Each bit field's remainder by the width it has room for, beside the pending bits that
      the fields before it leave. */
  function Remainders(p: Phase, ss: seq<Shape>, vs: seq<Val>): (rs: seq<Val>)
    requires AllWritable(ss, vs)
    ensures |rs| == |vs|
    decreases |ss|
  {
    if ss == [] then []
    else [Remainder(p, ss[0], vs[0])] + Remainders(PhaseAfter(p, ss[0]), ss[1..], vs[1..])
  }

  function Remainder(p: Phase, s: Shape, v: Val): Val
    requires Writable(s, v)
  {
    match s
    case BitField(le, n) => Num(v.v % Pow2(Room(PendingFor(p, le), le, n)))
    case _ => v
  }

  lemma KeptIsRemainder(w: WState, s: Shape, v: Val)
    requires WriterOk(w) && Writable(s, v)
    ensures KeptVal(w, s, v) == Remainder(PhaseOf(w), s, v)
  {
    hide Pow2, Low, Switch, WriteOp;
    PhaseStep(w, s, v);
    if s.BitField? {
      LowIsMod(v.v, s.n);
      LowIsMod(v.v, 64 - |Switch(w, s.le).pend|);
    }
  }

  lemma {:induction false} AllKeptAreRemainders(w: WState, ss: seq<Shape>, vs: seq<Val>)
    requires WriterOk(w) && AllWritable(ss, vs)
    ensures KeptVals(w, ss, vs) == Remainders(PhaseOf(w), ss, vs)
    decreases |ss|
  {
    hide WriteOp, KeptVal, Remainder, PhaseAfter, Writable;
    if ss != [] {
      KeptIsRemainder(w, ss[0], vs[0]);
      PhaseStep(w, ss[0], vs[0]);
      AllKeptAreRemainders(WriteOp(w, ss[0], vs[0]), ss[1..], vs[1..]);
    }
  }

  /** Every list of fields is read back as its remainders, whatever the values. */
  lemma RemaindersReadBack(ss: seq<Shape>, vs: seq<Val>)
    requires AllWritable(ss, vs) && |Encode(ss, vs)| <= MAX_OBJECT
    ensures var (x, r) := Read(Start(Encode(ss, vs)), ss);
            x == Ok(Remainders(Phase(0, false), ss, vs)) && r.pos == |Encode(ss, vs)|
  {
    hide Encode, Read, KeptVals, Remainders, Writable;
    ReadBack(ss, vs);
    AllKeptAreRemainders(W0, ss, vs);
  }

  // ---- When nothing is lost ----------------------------------------------

  /** The field has room: the value fits its width and, in little-endian bit order,
      also the part of the 64-bit accumulator above the pending bits. */
  ghost predicate HasRoom(p: Phase, s: Shape, v: Val)
    requires Writable(s, v)
  {
    s.BitField? ==> v.v < Pow2(s.n) && (s.le ==> PendingFor(p, true) <= 64 && v.v < Pow2(64 - PendingFor(p, true)))
  }

  ghost predicate AllHaveRoom(p: Phase, ss: seq<Shape>, vs: seq<Val>)
    requires AllWritable(ss, vs)
    decreases |ss|
  {
    ss == [] || (HasRoom(p, ss[0], vs[0]) && AllHaveRoom(PhaseAfter(p, ss[0]), ss[1..], vs[1..]))
  }

  lemma LowIsAll(v: nat, k: nat)
    ensures Low(v, k) == v <==> v < Pow2(k)
  {
    if v < Pow2(k) { LowSmall(v, k); }
  }

  lemma RoomIffKept(w: WState, s: Shape, v: Val)
    requires WriterOk(w) && Writable(s, v)
    ensures HasRoom(PhaseOf(w), s, v) <==> KeptVal(w, s, v) == v
  {
    hide Pow2, Low, Switch, WriteOp;
    PhaseStep(w, s, v);
    if s.BitField? {
      var k := |Switch(w, s.le).pend|;
      LowIsAll(v.v, s.n);
      LowIsAll(v.v, 64 - k);
      if k + s.n <= 64 { Pow2Mono(s.n, 64 - k); } else { Pow2Mono(64 - k, s.n); }
    }
  }

  lemma {:induction false} RoomIffKeptAll(w: WState, ss: seq<Shape>, vs: seq<Val>)
    requires WriterOk(w) && AllWritable(ss, vs)
    ensures AllHaveRoom(PhaseOf(w), ss, vs) <==> KeptVals(w, ss, vs) == vs
    decreases |ss|
  {
    hide WriteOp, KeptVal, HasRoom, PhaseAfter, Writable;
    if ss != [] {
      var w' := WriteOp(w, ss[0], vs[0]);
      RoomIffKept(w, ss[0], vs[0]);
      PhaseStep(w, ss[0], vs[0]);
      RoomIffKeptAll(w', ss[1..], vs[1..]);
      var ks := KeptVals(w, ss, vs);
      assert ks == vs <==> ks[0] == vs[0] && ks[1..] == vs[1..];
    }
  }

  /** A list of fields survives writing and reading exactly when every field has room. */
  lemma RoundTripIff(ss: seq<Shape>, vs: seq<Val>)
    requires AllWritable(ss, vs) && |Encode(ss, vs)| <= MAX_OBJECT
    ensures Read(Start(Encode(ss, vs)), ss).0 == Ok(vs) <==> AllHaveRoom(Phase(0, false), ss, vs)
  {
    hide Encode, Read, KeptVals, AllHaveRoom, Writable;
    ReadBack(ss, vs);
    RoomIffKeptAll(W0, ss, vs);
  }

  /** Shapes for which every value of its width has room. */
  ghost predicate WidthsFit(p: Phase, ss: seq<Shape>)
    decreases |ss|
  {
    ss == [] ||
    ((ss[0].BitField? && ss[0].le ==> PendingFor(p, true) + ss[0].n <= 64) && WidthsFit(PhaseAfter(p, ss[0]), ss[1..]))
  }

  ghost predicate ValuesFit(ss: seq<Shape>, vs: seq<Val>)
    requires AllWritable(ss, vs)
  {
    forall i :: 0 <= i < |ss| && ss[i].BitField? ==> vs[i].v < Pow2(ss[i].n)
  }

  lemma {:induction false} FittingWidthsHaveRoom(p: Phase, ss: seq<Shape>, vs: seq<Val>)
    requires AllWritable(ss, vs) && WidthsFit(p, ss) && ValuesFit(ss, vs)
    ensures AllHaveRoom(p, ss, vs)
    decreases |ss|
  {
    if ss != [] {
      if ss[0].BitField? && ss[0].le { Pow2Mono(ss[0].n, 64 - PendingFor(p, true)); }
      FittingWidthsHaveRoom(PhaseAfter(p, ss[0]), ss[1..], vs[1..]);
    }
  }

  /** Fields of at most 57 bits always fit. */
  lemma {:induction false} NarrowFieldsFit(p: Phase, ss: seq<Shape>)
    requires p.pending < 8 && forall i :: 0 <= i < |ss| && ss[i].BitField? && ss[i].le ==> ss[i].n <= 57
    ensures WidthsFit(p, ss)
    decreases |ss|
  {
    if ss != [] { NarrowFieldsFit(PhaseAfter(p, ss[0]), ss[1..]); }
  }

  /** The declared purpose of the writer, on all fields whose widths fit. */
  lemma MixedRoundTrip(ss: seq<Shape>, vs: seq<Val>)
    requires AllWritable(ss, vs) && ValuesFit(ss, vs) && WidthsFit(Phase(0, false), ss)
    requires |Encode(ss, vs)| <= MAX_OBJECT
    ensures var (x, r) := Read(Start(Encode(ss, vs)), ss); x == Ok(vs) && r.pos == |Encode(ss, vs)|
  {
    hide Encode, Read, KeptVals, AllHaveRoom, Writable;
    ReadBack(ss, vs);
    FittingWidthsHaveRoom(Phase(0, false), ss, vs);
    RoomIffKeptAll(W0, ss, vs);
  }

  // ---- Sizes ---------------------------------------------------------------

  /** No field takes more bytes than this, alignment included. */
  function Cost(s: Shape): nat
  {
    match s
    case BitField(_, _) => 9
    case IntField(size, _, _) => size + 1
    case ByteField(len) => len + 1
  }

  function TotalCost(ss: seq<Shape>): nat
    decreases |ss|
  {
    if ss == [] then 0 else Cost(ss[0]) + TotalCost(ss[1..])
  }

  lemma AlignGrows(w: WState)
    requires WriterOk(w)
    ensures |w.buf| <= |Align(w).buf| <= |w.buf| + 1
  {}

  lemma WriteOpGrows(w: WState, s: Shape, v: Val)
    requires WriterOk(w) && Writable(s, v)
    ensures |w.buf| <= |WriteOp(w, s, v).buf| <= |w.buf| + Cost(s)
  {
    hide Spell, Pack, Pow2, Align;
    AlignGrows(w);
  }

  lemma {:induction false} WriteGrows(w: WState, ss: seq<Shape>, vs: seq<Val>)
    requires WriterOk(w) && AllWritable(ss, vs)
    ensures |w.buf| <= |Write(w, ss, vs).buf| <= |w.buf| + TotalCost(ss)
    decreases |ss|
  {
    hide WriteOp, Writable;
    if ss != [] {
      WriteOpGrows(w, ss[0], vs[0]);
      WriteGrows(WriteOp(w, ss[0], vs[0]), ss[1..], vs[1..]);
    }
  }

  lemma EncodeSize(ss: seq<Shape>, vs: seq<Val>)
    requires AllWritable(ss, vs)
    ensures |Encode(ss, vs)| <= TotalCost(ss) + 1
  {
    hide Write, Align, Writable;
    WriteGrows(W0, ss, vs);
    AlignGrows(Write(W0, ss, vs));
  }

  /** A 64-bit little-endian field behind seven pending bits loses its top bit. */
  lemma WideFieldLosesBits()
    ensures var ss := [BitField(true, 7), BitField(true, 64)];
            var vs := [Num(0), Num(0x8000_0000_0000_0000)];
            AllWritable(ss, vs) && ValuesFit(ss, vs) && |Encode(ss, vs)| <= MAX_OBJECT &&
            Read(Start(Encode(ss, vs)), ss).0 != Ok(vs)
  {
    hide Encode, Read, KeptVals, TotalCost, AllHaveRoom, HasRoom, Pow2;
    var ss := [BitField(true, 7), BitField(true, 64)];
    var vs := [Num(0), Num(0x8000_0000_0000_0000)];
    TwoFields(ss, vs);
    EncodeSize(ss, vs);
    RoundTripIff(ss, vs);
  }

  lemma TwoFields(ss: seq<Shape>, vs: seq<Val>)
    requires ss == [BitField(true, 7), BitField(true, 64)] && vs == [Num(0), Num(0x8000_0000_0000_0000)]
    ensures AllWritable(ss, vs) && ValuesFit(ss, vs) && TotalCost(ss) == 18
    ensures !AllHaveRoom(Phase(0, false), ss, vs)
  {
    hide Pow2;
    Pow2Values();
    Pow2Step(63);
    Pow2Mono(57, 63);
    assert ss[1..] == [BitField(true, 64)] && vs[1..] == [Num(0x8000_0000_0000_0000)];
    assert TotalCost(ss[1..]) == 9;
    assert PhaseAfter(Phase(0, false), ss[0]) == Phase(7, true);
    assert !HasRoom(Phase(7, true), ss[1], vs[1]);
  }
}
