/** Byte strings kept in fields of a fixed size: terminated, padded, or both. */
module FixedField {
  import opened Words
  import opened BitSeq
  import opened Codec
  import opened ArenaImpl
  import opened WriterImpl
  import opened StreamImpl

  /** The conversion of an `int` argument to `uint8_t`. */
  function Byte(x: nat): byte
  {
    x % 256
  }

  function Repeat(b: byte, n: nat): (s: seq<byte>)
    ensures |s| == n && forall i :: 0 <= i < n ==> s[i] == b
  {
    seq(n, i => b)
  }

  // ---- Writing -----------------------------------------------------------

  /** The bytes of the field: as much of the value as fits, a terminator if there is
      room for one, and padding. */
  function Emitted(b: seq<byte>, size: nat, term: int, pad: int): (s: seq<byte>)
    ensures |s| == size
  {
    if |b| >= size then b[..size]
    else
      var head := b + (if term >= 0 then [Byte(term)] else []);
      head + Repeat(if pad < 0 then 0 else Byte(pad), size - |head|)
  }

  /** Its bytes, one by one. */
  lemma EmittedBytes(b: seq<byte>, size: nat, term: int, pad: int, i: nat)
    requires i < size
    ensures Emitted(b, size, term, pad)[i] ==
            if i < |b| then b[i]
            else if i == |b| && term >= 0 then term % 256
            else if pad >= 0 then pad % 256
            else 0
  {}

  /** zb_write_bytes_limit. It appends to the buffer without looking at pending bits. */
  method WriteBytesLimit(w: Writer, b: seq<byte>, size: word, term: int, pad: int)
    requires w.Valid() && w.Roomy(size)
    modifies w.buf, w.buf.arena, w.buf.arena.mems
    ensures w.Valid() && w.State() == old(w.State()).(buf := old(w.State()).buf + Emitted(b, size, term, pad))
    ensures w.buf.arena.mems >= old(w.buf.arena.mems) && fresh(w.buf.arena.mems - old(w.buf.arena.mems))
  {
    hide Spell, Pow2, Buf.Valid, Buf.Contents, Emitted, Repeat, Byte;
    var padByte := if pad < 0 then 0 else pad;
    var toWrite := if |b| > size then size else |b|;
    ghost var start := w.buf.Contents();
    w.buf.Append(b[..toWrite]);
    var written := toWrite;
    ghost var head := b[..toWrite];
    if term >= 0 && written < size {
      w.buf.Append([Byte(term)]);
      head := head + [Byte(term)];
      written := written + 1;
    }
    PaddingStarts(start + head, Byte(padByte));
    while written < size
      invariant w.buf.Valid() && |head| <= written <= size && w.buf.len == |start| + written
      invariant w.buf.arena.mems >= old(w.buf.arena.mems) && fresh(w.buf.arena.mems - old(w.buf.arena.mems))
      invariant w.buf.Contents() == start + head + Repeat(Byte(padByte), written - |head|)
    {
      w.buf.Append([Byte(padByte)]);
      PaddingStep(start + head, Byte(padByte), written - |head|);
      written := written + 1;
    }
    EmittedParts(b, size, term, pad, start);
  }

  lemma PaddingStarts(front: seq<byte>, b: byte)
    ensures front + Repeat(b, 0) == front
  {}

  lemma PaddingStep(front: seq<byte>, b: byte, n: nat)
    ensures front + Repeat(b, n) + [b] == front + Repeat(b, n + 1)
  {
    assert Repeat(b, n) + [b] == Repeat(b, n + 1);
  }

  lemma EmittedParts(b: seq<byte>, size: nat, term: int, pad: int, start: seq<byte>)
    ensures var head := b[..Clamp(|b|, size)] + (if term >= 0 && |b| < size then [Byte(term)] else []);
            start + Emitted(b, size, term, pad) ==
            start + head + Repeat(Byte(if pad < 0 then 0 else pad), size - |head|)
  {
    hide Byte;
    var head := b[..Clamp(|b|, size)] + (if term >= 0 && |b| < size then [Byte(term)] else []);
    assert Byte(0) == 0 by { ByteZero(); }
    assert Emitted(b, size, term, pad) == head + Repeat(Byte(if pad < 0 then 0 else pad), size - |head|);
  }

  lemma ByteZero()
    ensures Byte(0) == 0
  {}

  /** The other byte writes align first; this one agrees with them exactly when there
      is nothing to align. */
  lemma LimitAlignsIff(w: WState, bs: seq<byte>)
    requires WriterOk(w)
    ensures w.(buf := w.buf + bs) == WriteRaw(w, bs) <==> w.pend == []
  {}

  /** With pending bits its bytes come out in front of them, instead of behind. */
  lemma LimitBytesComeFirst(w: WState, bs: seq<byte>)
    requires WriterOk(w) && w.pend != []
    ensures |Align(w).buf| == |w.buf| + 1
    ensures var last := Align(w).buf[|w.buf|];
            Align(w.(buf := w.buf + bs)).buf == w.buf + bs + [last] &&
            WriteRaw(w, bs).buf == w.buf + [last] + bs
  {
    hide Pack;
    assert Align(w).buf == w.buf + [Align(w).buf[|w.buf|]];
  }

  /** Three bits, as of a conditional field, which gets no slot, and then a limited field of
      one byte: the byte is written first, and three bits read from it are other ones. */
  lemma LimitMisplaced()
    ensures var w := WriteBits(W0, false, 3, 5).1;
            Align(w.(buf := w.buf + [65])).buf == [65, 160] && WriteRaw(w, [65]).buf == [160, 65]
    ensures ReadBits(RState([65, 160], 0, [], false), false, 3).0 == Ok(2)
    ensures ReadBits(RState([160, 65], 0, [], false), false, 3).0 == Ok(5)
  {
    hide Value, Spell, Pack, Align, Expand;
    var w := WriteBits(W0, false, 3, 5).1;
    Spellings();
    PendingThree();
    AlignedThree(w);
    LimitBytesComeFirst(w, [65]);
    FirstThree(65, 160, 2);
    FirstThree(160, 65, 5);
  }

  lemma Spellings()
    ensures Spell(5, 3, false) == [true, false, true] && Spell(2, 3, false) == [false, true, false]
    ensures Spell(160, 8, false) == [true, false, true, false, false, false, false, false]
    ensures Spell(65, 8, false) == [false, true, false, false, false, false, false, true]
  {}

  lemma PendingThree()
    ensures WriteBits(W0, false, 3, 5).1 == WState([], Spell(5, 3, false), false)
  {
    hide Spell, Value;
    Pow2Small();
    LowSmall(5, 3);
    var s := Spell(5, 3, false);
    assert [] + s == s && s[0..] == s && s[..0] == [];
  }

  lemma Pow2Small()
    ensures Pow2(3) == 8
  {}

  lemma AlignedThree(w: WState)
    requires w == WState([], Spell(5, 3, false), false)
    ensures Align(w).buf == [160]
  {
    hide Spell, Value;
    Spellings();
    var t := w.pend + Zeros(5);
    assert t == Spell(160, 8, false);
    SpellByte(160, false);
    assert t[..8] == t && t[8..] == [];
  }

  lemma FirstThree(a: byte, b: byte, n: nat)
    requires Spell(n, 3, false) == Spell(a, 8, false)[..3] && n < 8
    ensures ReadBits(RState([a, b], 0, [], false), false, 3).0 == Ok(n)
  {
    hide Spell, Value, Positioned;
    Pow2Small();
    var d := [a, b];
    assert d[0..] == d;
    var view := Expand(d, false);
    assert view == Spell(a, 8, false) + Expand(d[1..], false);
    assert [] + view == view && view[..3] == Spell(n, 3, false);
    ValueOfSpellExact(n, 3, false);
  }

  // ---- Reading -----------------------------------------------------------

  /** The position of the first `x`, or -1. */
  function IndexOf(s: seq<byte>, x: byte): (i: int)
    ensures i == -1 ==> x !in s
    ensures i != -1 ==> 0 <= i < |s| && s[i] == x && x !in s[..i]
  {
    if s == [] then -1 else if s[0] == x then 0 else
      var i := IndexOf(s[1..], x);
      if i == -1 then -1 else
        assert s[..i + 1] == [s[0]] + s[1..][..i];
        i + 1
  }

  /** zb_bytes_index */
  method BytesIndex(s: seq<byte>, needle: byte) returns (r: int)
    ensures r == IndexOf(s, needle)
  {
    var i := 0;
    while i < |s|
      invariant 0 <= i <= |s| && needle !in s[..i]
    {
      if s[i] == needle {
        IndexUnique(s, needle, i);
        return i;
      }
      i := i + 1;
    }
    assert s[..i] == s;
    return -1;
  }

  lemma IndexUnique(s: seq<byte>, x: byte, i: nat)
    requires i < |s| && s[i] == x && x !in s[..i]
    ensures IndexOf(s, x) == i
  {
    var j := IndexOf(s, x);
    assert forall k :: 0 <= k < i ==> s[..i][k] == s[k];
    assert forall k :: 0 <= k < j ==> s[..j][k] == s[k];
  }

  predicate EndsWith(s: seq<byte>, x: byte)
  {
    |s| > 0 && s[|s| - 1] == x
  }

  function StripRight(s: seq<byte>, pad: byte): (r: seq<byte>)
    ensures r <= s && !EndsWith(r, pad)
    ensures forall i :: |r| <= i < |s| ==> s[i] == pad
  {
    if EndsWith(s, pad) then StripRight(s[..|s| - 1], pad) else s
  }

  lemma {:induction false} StripUnique(s: seq<byte>, pad: byte, n: nat)
    requires n <= |s| && !EndsWith(s[..n], pad) && forall i :: n <= i < |s| ==> s[i] == pad
    ensures StripRight(s, pad) == s[..n]
  {
    if n == |s| {
      assert s[..n] == s;
    } else {
      var t := s[..|s| - 1];
      assert t[..n] == s[..n];
      StripUnique(t, pad, n);
    }
  }

  /** zb_bytes_strip_right */
  method BytesStripRight(s: seq<byte>, pad: int) returns (r: seq<byte>)
    ensures r == if pad < 0 then s else StripRight(s, Byte(pad))
  {
    if pad < 0 { return s; }
    var n := |s|;
    while n > 0 && s[n - 1] == Byte(pad)
      invariant 0 <= n <= |s| && forall i :: n <= i < |s| ==> s[i] == Byte(pad)
    {
      n := n - 1;
    }
    StripUnique(s, Byte(pad), n);
    return s[..n];
  }

  /** What the reader makes of the raw bytes of the field. */
  function Cut(raw: seq<byte>, term: int, pad: int, incl: bool): (v: seq<byte>)
    ensures v <= raw
  {
    if term >= 0 && IndexOf(raw, Byte(term)) >= 0 then
      raw[..IndexOf(raw, Byte(term)) + (if incl then 1 else 0)]
    else if pad >= 0 then StripRight(raw, Byte(pad))
    else raw
  }

  /** zb_read_bytes_pad_term */
  method ReadBytesPadTerm(s: Stream, n: word, term: int, pad: int, incl: bool) returns (r: Result<seq<byte>>)
    requires s.Valid()
    modifies s
    ensures s.Valid() && s.State() == ReadRaw(old(s.State()), n).1
    ensures match ReadRaw(old(s.State()), n).0
            case Err(e) => r == Err(e)
            case Ok(raw) => r == Ok(Cut(raw, term, pad, incl))
  {
    hide Spell, Pow2;
    var raw := s.ReadRawBytes(n);
    if raw.Err? { return raw; }
    if term >= 0 {
      var i := BytesIndex(raw.value, Byte(term));
      if i >= 0 {
        var end := i + (if incl then 1 else 0);
        return Ok(raw.value[..end]);
      }
    }
    if pad >= 0 {
      var stripped := BytesStripRight(raw.value, pad);
      return Ok(stripped);
    }
    return raw;
  }

  /** stripBytes of the Go evaluator. Where no pad byte is given it strips the terminator. */
  function StripBytes(data: seq<byte>, terminator: int, padRight: int, incl: bool): seq<byte>
  {
    var i := if terminator >= 0 then IndexOf(data, Byte(terminator)) else -1;
    if i != -1 then
      if incl then data[..i + 1] else data[..i]
    else
      var padByte := if padRight < 0 && terminator >= 0 then terminator else padRight;
      if padByte >= 0 then StripRight(data, Byte(padByte)) else data
  }

  /** The evaluator and the C runtime agree on every input, and keep a prefix. */
  lemma EvaluatorAgrees(raw: seq<byte>, term: int, pad: int, incl: bool)
    ensures StripBytes(raw, term, pad, incl) == Cut(raw, term, pad, incl) <= raw
  {
    if term >= 0 && pad < 0 && IndexOf(raw, Byte(term)) == -1 {
      assert raw[..|raw|] == raw;
      StripUnique(raw, Byte(term), |raw|);
    }
  }

  // ---- Round trip --------------------------------------------------------

  /** The terminator argument of the writer: an included one is part of the value. */
  function WriteTerm(term: int, incl: bool): int
  {
    if incl then -1 else term
  }

  /** When the value can be told from the rest of the field. */
  ghost predicate Recoverable(b: seq<byte>, size: nat, term: int, pad: int, incl: bool)
  {
    var padByte := if pad < 0 then 0 else Byte(pad);
    |b| <= size &&
    if term >= 0 && Byte(term) in b then
      // only an included terminator may occur, and only as the last byte
      incl && Byte(term) !in b[..|b| - 1]
    else if term >= 0 && !incl && |b| < size then
      // the terminator marks the end
      true
    else if |b| == size then
      // nothing marks the end: padding must not be mistaken for it
      pad < 0 || !EndsWith(b, padByte)
    else
      // padding marks the end
      pad >= 0 && !EndsWith(b, padByte) && !(term >= 0 && Byte(term) == padByte)
  }

  /** A value survives a fixed-size field exactly when it is recoverable. */
  lemma FieldRoundTripIff(b: seq<byte>, size: nat, term: int, pad: int, incl: bool)
    ensures Cut(Emitted(b, size, WriteTerm(term, incl), pad), term, pad, incl) == b
            <==> Recoverable(b, size, term, pad, incl)
  {
    hide Cut, EndsWith;
    var padByte := if pad < 0 then 0 else Byte(pad);
    if |b| <= size {
      var rest := (if WriteTerm(term, incl) >= 0 && |b| < size then [Byte(term)] else []);
      rest := rest + Repeat(padByte, size - |b| - |rest|);
      assert Emitted(b, size, WriteTerm(term, incl), pad) == b + rest;
      CutIff(b, rest, term, pad, incl);
      assert |b| < size ==> rest[0] == (if WriteTerm(term, incl) >= 0 then Byte(term) else padByte);
      assert |b| == size ==> rest == [];
      assert WriteTerm(term, incl) < 0 ==> forall i :: 0 <= i < |rest| ==> rest[i] == padByte;
    }
  }

  lemma FirstIn(raw: seq<byte>, n: nat, x: byte, i: nat)
    requires n <= |raw| && i < n && raw[..n][i] == x && x !in raw[..n][..i]
    ensures IndexOf(raw, x) == i
  {
    assert raw[..n][..i] == raw[..i];
    IndexUnique(raw, x, i);
  }

  /** Through the codec: behind any writer state, a reader standing where the writer stood
      finds the field there if no bit was pending, and else only if the field equals the
      bytes one further on. */
  lemma FieldThroughCodec(w: WState, b: seq<byte>, size: nat, term: int, pad: int, incl: bool, more: seq<byte>, le: bool)
    requires WriterOk(w) && |w.buf| + size + |more| <= MAX_OBJECT && (w.pend != [] ==> more != [])
    ensures var field := Emitted(b, size, WriteTerm(term, incl), pad);
            var skip := if w.pend == [] then 0 else 1;
            var (x, r') := ReadRaw(RState(w.buf + field + more, |w.buf| + skip, [], le), size);
            x.Ok? && r'.pos == |w.buf| + skip + size &&
            (x.value == field <==> w.pend == [] || (field + more)[1..size + 1] == field) &&
            (w.pend == [] ==> (Cut(x.value, term, pad, incl) == b <==> Recoverable(b, size, term, pad, incl)))
  {
    hide Cut, Emitted, Recoverable;
    var field := Emitted(b, size, WriteTerm(term, incl), pad);
    var all := w.buf + field + more;
    assert all == w.buf + (field + more);
    assert all[|w.buf|..|w.buf| + size] == field;
    if more != [] { assert all[|w.buf| + 1..|w.buf| + 1 + size] == (field + more)[1..size + 1]; }
    FieldRoundTripIff(b, size, term, pad, incl);
  }

  // ---- The raw copy kept beside a field ----------------------------------

  /** A field written with a raw copy `r` of what was read: the value, the terminator if
      the copy is too short to supply the rest, the rest of the copy, and padding. */
  function Shadowed(v: seq<byte>, r: seq<byte>, size: nat, term: int, pad: int, incl: bool): (s: seq<byte>)
    ensures |s| == size
  {
    var head := ShadowHead(v, r, size, term, incl);
    var rest := if |r| > |head| then r[|head|..Clamp(|r|, size)] else [];
    head + rest + Repeat(if pad < 0 then 0 else Byte(pad), size - |head| - |rest|)
  }

  function ShadowHead(v: seq<byte>, r: seq<byte>, size: nat, term: int, incl: bool): (h: seq<byte>)
    ensures |h| <= size
  {
    if |v| >= size then v[..size]
    else v + (if |r| < size && !incl && term >= 0 then [Byte(term)] else [])
  }

  /** Its bytes, one by one: the value; behind a value that leaves room over a short copy, the
      terminator; then what the copy holds there, and padding behind the copy. */
  lemma ShadowedBytes(v: seq<byte>, r: seq<byte>, size: nat, term: int, pad: int, incl: bool, i: nat)
    requires i < size
    ensures Shadowed(v, r, size, term, pad, incl)[i] ==
            if i < |v| then v[i]
            else if i == |v| && |r| < size && term >= 0 && !incl then term % 256
            else if i < |r| then r[i]
            else if pad >= 0 then pad % 256
            else 0
  {}

  /** A possibly empty sequence of aligned byte writes: no write, no alignment. */
  function Raws(w: WState, bs: seq<byte>): WState
    requires WriterOk(w)
  {
    if bs == [] then w else WriteRaw(w, bs)
  }

  lemma RawsJoin(w: WState, a: seq<byte>, b: seq<byte>)
    requires WriterOk(w)
    ensures WriterOk(Raws(w, a)) && Raws(Raws(w, a), b) == Raws(w, a + b)
  {
    hide Spell, Pack, Align;
    if a == [] {
      assert a + b == b;
    } else if b == [] {
      assert a + b == a;
    } else {
      assert Align(w).buf + a + b == Align(w).buf + (a + b);
      assert Align(WriteRaw(w, a)) == WriteRaw(w, a) by { AlignedStays(WriteRaw(w, a)); }
    }
  }

  lemma RawsLength(w: WState, a: seq<byte>)
    requires WriterOk(w)
    ensures |Raws(w, a).buf| <= |w.buf| + 1 + |a|
  {}

  lemma AlignedStays(w: WState)
    requires w.pend == []
    ensures Align(w) == w
  {}

  /** What emitBytesWrite generates for a field with a raw copy: guarded, aligning writes. */
  method ShadowWrite(w: Writer, v: seq<byte>, r: seq<byte>, size: word, term: int, pad: int, incl: bool)
    requires w.Valid() && w.Roomy(size + 2)
    modifies w, w.buf, w.buf.arena, w.buf.arena.mems
    ensures w.Valid()
    ensures w.buf.arena.mems >= old(w.buf.arena.mems) && fresh(w.buf.arena.mems - old(w.buf.arena.mems))
    ensures w.State() == Raws(old(w.State()), Shadowed(v, r, size, term, pad, incl))
  {
    hide Writer.Valid, Writer.State, WriteRaw, Byte, Shadowed, ShadowHead, Repeat;
    ghost var w0 := w.State();
    var vlen := if |v| > size then size else |v|;
    var filled := vlen;
    ghost var out := v[..vlen];
    RawsNone(w0, out);
    Extend(w, v[..vlen], w0, []);
    if |r| >= size {
      ShadowedFull(v, r, size, term, pad, incl);
      Extend(w, r[filled..size], w0, out);
      return;
    }
    if !incl && term >= 0 && filled < size {
      Extend(w, [Byte(term)], w0, out);
      out := out + [Byte(term)];
      filled := filled + 1;
    }
    assert v[..vlen] + [] == v[..vlen];
    ShadowedShort(v, r, size, term, pad, incl);
    assert out + [] == out;
    if |r| > filled && filled < size {
      var take := |r| - filled;
      if take > size - filled { take := size - filled; }
      Extend(w, r[filled..filled + take], w0, out);
      out := out + r[filled..filled + take];
      filled := filled + take;
    }
    PadMore(w, w0, out, filled, size, if pad < 0 then 0 else pad);
  }

  lemma RawsNone(w: WState, bs: seq<byte>)
    requires WriterOk(w)
    ensures Raws(w, []) == w && [] + bs == bs
  {}

  lemma ShadowedFull(v: seq<byte>, r: seq<byte>, size: nat, term: int, pad: int, incl: bool)
    requires |r| >= size
    ensures var n := Clamp(|v|, size); Shadowed(v, r, size, term, pad, incl) == v[..n] + r[n..size]
  {}

  lemma ShadowedShort(v: seq<byte>, r: seq<byte>, size: nat, term: int, pad: int, incl: bool)
    requires |r| < size
    ensures var head := v[..Clamp(|v|, size)] + (if !incl && term >= 0 && |v| < size then [Byte(term)] else []);
            var out := head + if |r| > |head| then r[|head|..|r|] else [];
            Shadowed(v, r, size, term, pad, incl) ==
            out + Repeat(Byte(if pad < 0 then 0 else pad), size - |out|)
  {}

  /** The padding loop of the generated code. */
  method PadMore(w: Writer, ghost w0: WState, ghost out: seq<byte>, filled0: nat, size: word, padByte: nat)
    requires w.Valid() && WriterOk(w0) && w.State() == Raws(w0, out) && |out| == filled0 <= size
    requires |w0.buf| + size + 2 <= MAX_BUFFER
    modifies w, w.buf, w.buf.arena, w.buf.arena.mems
    ensures w.buf.arena.mems >= old(w.buf.arena.mems) && fresh(w.buf.arena.mems - old(w.buf.arena.mems))
    ensures w.Valid() && w.State() == Raws(w0, out + Repeat(Byte(padByte), size - |out|))
  {
    hide Writer.Valid, Writer.State, WriteRaw, Byte;
    var filled := filled0;
    assert out + Repeat(Byte(padByte), 0) == out;
    while filled < size
      invariant w.Valid() && |out| <= filled <= size
      invariant w.buf.arena.mems >= old(w.buf.arena.mems) && fresh(w.buf.arena.mems - old(w.buf.arena.mems))
      invariant w.State() == Raws(w0, out + Repeat(Byte(padByte), filled - |out|))
    {
      ghost var pads := Repeat(Byte(padByte), filled - |out|);
      Extend(w, [Byte(padByte)], w0, out + pads);
      assert pads + [Byte(padByte)] == Repeat(Byte(padByte), filled + 1 - |out|);
      assert out + pads + [Byte(padByte)] == out + (pads + [Byte(padByte)]);
      filled := filled + 1;
    }
  }

  /** One guarded write of the generated code, behind `out` written so far. */
  method Extend(w: Writer, bs: seq<byte>, ghost w0: WState, ghost out: seq<byte>)
    requires w.Valid() && WriterOk(w0) && w.State() == Raws(w0, out)
    requires |w0.buf| + |out| + |bs| + 2 <= MAX_BUFFER
    modifies w, w.buf, w.buf.arena, w.buf.arena.mems
    ensures w.Valid() && w.State() == Raws(w0, out + bs)
    ensures w.buf.arena.mems >= old(w.buf.arena.mems) && fresh(w.buf.arena.mems - old(w.buf.arena.mems))
  {
    hide Writer.Valid, Writer.State, WriteRaw;
    RawsJoin(w0, out, bs);
    RawsLength(w0, out);
    if |bs| > 0 { w.WriteBytes(bs); }
  }

  /** Without a raw copy the field is the one zb_write_bytes_limit writes. */
  lemma ShadowedWithoutCopy(v: seq<byte>, size: nat, term: int, pad: int, incl: bool)
    ensures Shadowed(v, [], size, term, pad, incl) == Emitted(v, size, WriteTerm(term, incl), pad)
  {}

  /** An unedited field is written back byte by byte as it was read, whatever follows its
      terminator or makes up its padding. */
  lemma UneditedFieldIsExact(raw: seq<byte>, term: int, pad: int, incl: bool)
    ensures Shadowed(Cut(raw, term, pad, incl), raw, |raw|, term, pad, incl) == raw
  {
    hide Cut, Shadowed;
    var v := Cut(raw, term, pad, incl);
    ShadowedFull(v, raw, |raw|, term, pad, incl);
    assert raw[..|v|] == v && raw[|v|..|raw|] == raw[|v|..];
    assert raw == raw[..|v|] + raw[|v|..];
  }

  /** When an edited value can be told from what follows it: a terminator written because
      the copy is short, the rest of the copy, and padding. */
  ghost predicate EditRecoverable(v: seq<byte>, r: seq<byte>, size: nat, term: int, pad: int, incl: bool)
  {
    |v| <= size &&
    if term >= 0 && Byte(term) in v then
      incl && Byte(term) !in v[..|v| - 1]
    else if |v| == size then
      pad < 0 || !EndsWith(v, Byte(pad))
    else if term >= 0 && !incl && |r| < size then
      true
    else
      var copy := CopyBehind(v, r, size);
      if term >= 0 && Byte(term) in copy then
        !incl && copy[0] == Byte(term)
      else
        pad >= 0 && !EndsWith(v, Byte(pad)) && (forall i :: 0 <= i < |copy| ==> copy[i] == Byte(pad)) &&
        !(term >= 0 && |v + copy| < size && Byte(term) == Byte(pad))
  }

  /** The part of the copy behind the value. */
  function CopyBehind(v: seq<byte>, r: seq<byte>, size: nat): (c: seq<byte>)
    requires |v| <= size
    ensures |v| + |c| <= size && (|r| >= size ==> |v| + |c| == size)
  {
    if |r| > |v| then r[|v|..Clamp(|r|, size)] else []
  }

  /** A value set over a raw copy of any length is read back exactly when what follows marks
      its end; over a full copy the write adds no terminator and no padding of its own. */
  lemma EditRoundTripIff(v: seq<byte>, r: seq<byte>, size: nat, term: int, pad: int, incl: bool)
    ensures Cut(Shadowed(v, r, size, term, pad, incl), term, pad, incl) == v
            <==> EditRecoverable(v, r, size, term, pad, incl)
  {
    hide Cut, EndsWith, Byte, Shadowed, CopyBehind, Repeat;
    if |v| <= size {
      if |v| == size {
        FullValue(v, r, size, term, pad, incl);
        CutIff(v, [], term, pad, incl);
      } else if |r| < size && !incl && term >= 0 {
        TermBehind(v, r, size, term, pad, incl);
        CutIff(v, Shadowed(v, r, size, term, pad, incl)[|v|..], term, pad, incl);
      } else {
        var padByte := if pad < 0 then 0 else Byte(pad);
        var copy := CopyBehind(v, r, size);
        var pads := Repeat(padByte, size - |v| - |copy|);
        PadsBehind(v, r, size, term, pad, incl);
        CutIff(v, copy + pads, term, pad, incl);
        CopyThenPads(copy, pads, padByte);
      }
    }
  }

  lemma FullValue(v: seq<byte>, r: seq<byte>, size: nat, term: int, pad: int, incl: bool)
    requires |v| == size
    ensures Shadowed(v, r, size, term, pad, incl) == v + []
  {}

  lemma TermBehind(v: seq<byte>, r: seq<byte>, size: nat, term: int, pad: int, incl: bool)
    requires |v| < size && |r| < size && !incl && term >= 0
    ensures var s := Shadowed(v, r, size, term, pad, incl); s == v + s[|v|..] && s[|v|] == Byte(term)
  {
    hide Byte;
  }

  lemma PadsBehind(v: seq<byte>, r: seq<byte>, size: nat, term: int, pad: int, incl: bool)
    requires |v| < size && (|r| >= size || incl || term < 0)
    ensures var copy := CopyBehind(v, r, size);
            |v| + |copy| <= size && Shadowed(v, r, size, term, pad, incl) ==
            v + (copy + Repeat(if pad < 0 then 0 else Byte(pad), size - |v| - |copy|))
  {
    hide Byte;
    assert v + [] == v;
  }

  lemma CopyThenPads(copy: seq<byte>, pads: seq<byte>, p: byte)
    requires pads == Repeat(p, |pads|)
    ensures forall x :: x in copy + pads <==> x in copy || (x == p && |pads| > 0)
    ensures (forall i :: 0 <= i < |copy + pads| ==> (copy + pads)[i] == p) <==> (forall i :: 0 <= i < |copy| ==> copy[i] == p)
    ensures |copy| > 0 ==> (copy + pads)[0] == copy[0]
    ensures |copy| == 0 && |pads| > 0 ==> (copy + pads)[0] == p
  {
    if |pads| > 0 { assert (copy + pads)[|copy|] == p; }
    assert forall i :: 0 <= i < |copy| ==> (copy + pads)[i] == copy[i];
    assert forall i :: |copy| <= i < |copy + pads| ==> (copy + pads)[i] == p;
  }

  /** A shorter value over a full copy without terminator takes the end of the old one. */
  lemma EditKeepsOldTail()
    ensures var v: seq<byte>, r: seq<byte> := [0x61], [0x62, 0x63, 0x64];
            Cut(Shadowed(v, r, 3, 0, -1, false), 0, -1, false) == [0x61, 0x63, 0x64]
  {
    var v: seq<byte>, r: seq<byte> := [0x61], [0x62, 0x63, 0x64];
    ShadowedFull(v, r, 3, 0, -1, false);
    assert Shadowed(v, r, 3, 0, -1, false) == [0x61, 0x63, 0x64];
  }

  /** What the reader makes of a value followed by other bytes. */
  lemma CutIff(v: seq<byte>, rest: seq<byte>, term: int, pad: int, incl: bool)
    ensures Cut(v + rest, term, pad, incl) == v <==>
            if term >= 0 && Byte(term) in v then incl && Byte(term) !in v[..|v| - 1]
            else if term >= 0 && Byte(term) in rest then !incl && rest[0] == Byte(term)
            else if pad >= 0 then !EndsWith(v, Byte(pad)) && forall i :: 0 <= i < |rest| ==> rest[i] == Byte(pad)
            else rest == []
  {
    hide StripRight, Byte;
    var out := v + rest;
    if term >= 0 && Byte(term) in v {
      TermInside(v, rest, Byte(term), incl);
    } else if term >= 0 && Byte(term) in rest {
      FirstBehind(v, rest, Byte(term));
      assert out[..|v|] == v;
    } else {
      assert term >= 0 ==> Byte(term) !in out;
      if pad >= 0 { StripsToIff(v, rest, Byte(pad)); }
    }
  }

  lemma TermInside(v: seq<byte>, rest: seq<byte>, x: byte, incl: bool)
    requires x in v
    ensures var i := IndexOf(v + rest, x);
            0 <= i < |v| && ((v + rest)[..i + (if incl then 1 else 0)] == v <==> incl && x !in v[..|v| - 1])
  {
    var i := IndexOf(v, x);
    var out := v + rest;
    assert out[..|v|] == v;
    FirstIn(out, |v|, x, i);
    if incl && i == |v| - 1 { assert v[..|v| - 1] == v[..i]; }
    if incl && i < |v| - 1 { assert v[..|v| - 1][i] == x; }
  }

  lemma FirstBehind(v: seq<byte>, rest: seq<byte>, x: byte)
    requires x !in v && x in rest
    ensures IndexOf(v + rest, x) == |v| + IndexOf(rest, x)
  {
    var i := IndexOf(rest, x);
    assert (v + rest)[..|v| + i] == v + rest[..i];
    IndexUnique(v + rest, x, |v| + i);
  }

  lemma StripsToIff(v: seq<byte>, rest: seq<byte>, pad: byte)
    ensures StripRight(v + rest, pad) == v <==>
            !EndsWith(v, pad) && forall i :: 0 <= i < |rest| ==> rest[i] == pad
  {
    var s := v + rest;
    assert s[..|v|] == v;
    if !EndsWith(v, pad) && forall i :: 0 <= i < |rest| ==> rest[i] == pad {
      StripUnique(s, pad, |v|);
    }
    if StripRight(s, pad) == v {
      assert forall i :: 0 <= i < |rest| ==> rest[i] == s[|v| + i];
    }
  }
}
