/** Where a structure keeps the bits between its bit fields and the next byte
    boundary, and why reading and then writing it is exact on bytes. */
module BitAlign {
  import opened RoundTrip
  import opened Options

  /** An attribute of a sequence; `dynamic` says that it is conditional or repeated. */
  datatype Attr = Attr(shape: Shape, dynamic: bool)

  datatype Slot = Slot(index: nat, width: nat, before: nat)

  /** staticBitWidth */
  function StaticBitWidth(a: Attr): (w: Option<nat>)
    ensures w.Some? <==> !a.dynamic && IsBitAttr(a) && 1 <= a.shape.n <= 64
    ensures w.Some? ==> w.value == a.shape.n
  {
    if a.dynamic || !a.shape.BitField? then None
    else if a.shape.n <= 0 || a.shape.n > 64 then None
    else Some(a.shape.n)
  }

  /** isBitAttr */
  predicate IsBitAttr(a: Attr)
  {
    a.shape.BitField?
  }

  // ---- The specification of the slots ------------------------------------

  /** The total width of the statically sized bit fields in the run ending just before `i`. */
  function RunBits(attrs: seq<Attr>, i: nat): nat
    requires i <= |attrs|
  {
    if i == 0 || !IsBitAttr(attrs[i - 1]) then 0
    else RunBits(attrs, i - 1) + (var w := StaticBitWidth(attrs[i - 1]); if w.Some? then w.value else 0)
  }

  /** Whether the run ending just before `i` has a field of unknown width. */
  predicate RunUnknown(attrs: seq<Attr>, i: nat)
    requires i <= |attrs|
  {
    i > 0 && IsBitAttr(attrs[i - 1]) && (StaticBitWidth(attrs[i - 1]).None? || RunUnknown(attrs, i - 1))
  }

  /** The gap in front of position `i`: a run of known width ends here, off a byte boundary. */
  function Gap(attrs: seq<Attr>, i: nat): (g: nat)
    requires i <= |attrs|
    ensures g < 8
  {
    if i < |attrs| && IsBitAttr(attrs[i]) then 0
    else if RunUnknown(attrs, i) || RunBits(attrs, i) % 8 == 0 then 0
    else 8 - RunBits(attrs, i) % 8
  }

  /** The slots in front of positions below `k`. */
  function SlotsBelow(attrs: seq<Attr>, k: nat): (s: seq<Slot>)
    requires k <= |attrs| + 1
    ensures forall j :: 0 <= j < |s| ==> s[j].index == j && s[j].before < k
  {
    if k == 0 then []
    else
      var s := SlotsBelow(attrs, k - 1);
      if Gap(attrs, k - 1) == 0 then s else s + [Slot(|s|, Gap(attrs, k - 1), k - 1)]
  }

  // ---- What the slots are for ---------------------------------------------

  /** The attributes from `lo` up to `hi` are a run of bit fields, as long as can be. */
  ghost predicate MaximalRun(attrs: seq<Attr>, lo: nat, hi: nat)
  {
    && lo < hi <= |attrs|
    && (forall i :: lo <= i < hi ==> attrs[i].shape.BitField?)
    && (lo > 0 ==> !attrs[lo - 1].shape.BitField?)
    && (hi < |attrs| ==> !attrs[hi].shape.BitField?)
  }

  /** Each of them is unconditional, read once, and has a legal width. */
  ghost predicate KnownRun(attrs: seq<Attr>, lo: nat, hi: nat)
    requires lo <= hi <= |attrs|
  {
    forall i :: lo <= i < hi ==> !attrs[i].dynamic && attrs[i].shape.BitField? && 1 <= attrs[i].shape.n <= 64
  }

  ghost function RunWidth(attrs: seq<Attr>, lo: nat, hi: nat): nat
    requires lo <= hi <= |attrs| && KnownRun(attrs, lo, hi)
    decreases hi
  {
    if lo == hi then 0 else RunWidth(attrs, lo, hi - 1) + attrs[hi - 1].shape.n
  }

  /** The slot completes a run of known width to whole bytes. */
  ghost predicate Completes(attrs: seq<Attr>, lo: nat, slot: Slot)
  {
    MaximalRun(attrs, lo, slot.before) && KnownRun(attrs, lo, slot.before) &&
    1 <= slot.width <= 7 && (RunWidth(attrs, lo, slot.before) + slot.width) % 8 == 0
  }

  ghost predicate NeedsSlot(attrs: seq<Attr>, lo: nat, hi: nat)
  {
    MaximalRun(attrs, lo, hi) && KnownRun(attrs, lo, hi) && RunWidth(attrs, lo, hi) % 8 != 0
  }

  ghost predicate CompletesSome(attrs: seq<Attr>, slot: Slot)
  {
    exists lo: nat :: Completes(attrs, lo, slot)
  }

  ghost predicate SlotAt(slots: seq<Slot>, i: nat)
  {
    exists j :: 0 <= j < |slots| && slots[j].before == i
  }

  /** There is one slot for each run of known width that ends off a byte boundary, in the
      order of the runs, and no other slot. */
  ghost predicate OneSlotPerRun(attrs: seq<Attr>, slots: seq<Slot>)
  {
    && (forall j :: 0 <= j < |slots| ==> slots[j].index == j && CompletesSome(attrs, slots[j]))
    && (forall i, j :: 0 <= i < j < |slots| ==> slots[i].before < slots[j].before)
    && (forall lo: nat, hi: nat :: NeedsSlot(attrs, lo, hi) ==> SlotAt(slots, hi))
  }

  /** Where the run ending just before `i` starts. */
  ghost function RunStart(attrs: seq<Attr>, i: nat): (lo: nat)
    requires i <= |attrs|
    ensures lo <= i && forall j :: lo <= j < i ==> IsBitAttr(attrs[j])
    ensures lo > 0 ==> !IsBitAttr(attrs[lo - 1])
  {
    if i == 0 || !IsBitAttr(attrs[i - 1]) then i else RunStart(attrs, i - 1)
  }

  lemma {:induction false} RunFromStart(attrs: seq<Attr>, i: nat)
    requires i <= |attrs|
    ensures !RunUnknown(attrs, i) <==> KnownRun(attrs, RunStart(attrs, i), i)
    ensures !RunUnknown(attrs, i) ==> RunBits(attrs, i) == RunWidth(attrs, RunStart(attrs, i), i)
  {
    if i > 0 && IsBitAttr(attrs[i - 1]) { RunFromStart(attrs, i - 1); }
  }

  lemma {:induction false} MaximalStart(attrs: seq<Attr>, lo: nat, hi: nat, i: nat)
    requires MaximalRun(attrs, lo, hi) && lo <= i <= hi
    ensures RunStart(attrs, i) == lo
  {
    if lo < i { MaximalStart(attrs, lo, hi, i - 1); }
  }

  lemma GapCompletes(attrs: seq<Attr>, i: nat)
    requires i <= |attrs|
    ensures Gap(attrs, i) != 0 ==> forall index :: CompletesSome(attrs, Slot(index, Gap(attrs, i), i))
    ensures forall lo: nat :: NeedsSlot(attrs, lo, i) ==> Gap(attrs, i) != 0
  {
    RunFromStart(attrs, i);
    if Gap(attrs, i) != 0 {
      forall index: nat ensures CompletesSome(attrs, Slot(index, Gap(attrs, i), i)) {
        assert Completes(attrs, RunStart(attrs, i), Slot(index, Gap(attrs, i), i));
      }
    }
    forall lo: nat | NeedsSlot(attrs, lo, i) ensures Gap(attrs, i) != 0 { MaximalStart(attrs, lo, i, i); }
  }

  lemma {:induction false} SlotsComplete(attrs: seq<Attr>, k: nat)
    requires k <= |attrs| + 1
    ensures forall j :: 0 <= j < |SlotsBelow(attrs, k)| ==> CompletesSome(attrs, SlotsBelow(attrs, k)[j])
    ensures forall i, j :: 0 <= i < j < |SlotsBelow(attrs, k)| ==> SlotsBelow(attrs, k)[i].before < SlotsBelow(attrs, k)[j].before
    ensures forall i: nat :: i < k && i <= |attrs| && Gap(attrs, i) != 0 ==> SlotAt(SlotsBelow(attrs, k), i)
  {
    hide Gap, CompletesSome;
    if k > 0 {
      SlotsComplete(attrs, k - 1);
      GapCompletes(attrs, k - 1);
      var s, s' := SlotsBelow(attrs, k), SlotsBelow(attrs, k - 1);
      forall i: nat | i < k && Gap(attrs, i) != 0 ensures SlotAt(s, i) {
        if i < k - 1 {
          var j :| 0 <= j < |s'| && s'[j].before == i;
          assert s[j].before == i;
        } else {
          assert s[|s'|].before == i;
        }
      }
    }
  }

  lemma SlotsExact(attrs: seq<Attr>)
    ensures OneSlotPerRun(attrs, SlotsBelow(attrs, |attrs| + 1))
  {
    hide SlotsBelow, CompletesSome, SlotAt, NeedsSlot, Gap;
    SlotsComplete(attrs, |attrs| + 1);
    forall lo: nat, hi: nat | NeedsSlot(attrs, lo, hi) ensures SlotAt(SlotsBelow(attrs, |attrs| + 1), hi) {
      NeedsBound(attrs, lo, hi);
      GapCompletes(attrs, hi);
    }
  }

  lemma NeedsBound(attrs: seq<Attr>, lo: nat, hi: nat)
    requires NeedsSlot(attrs, lo, hi)
    ensures hi <= |attrs|
  {}

  /** BitAlignSlots */
  method BitAlignSlots(attrs: seq<Attr>) returns (slots: seq<Slot>)
    ensures slots == SlotsBelow(attrs, |attrs| + 1) && OneSlotPerRun(attrs, slots)
  {
    hide OneSlotPerRun;
    SlotsExact(attrs);
    slots := [];
    var runWidth, runDynamic, runIndex := 0, false, 0;
    for i := 0 to |attrs|
      invariant slots == SlotsBelow(attrs, i) && runIndex == |slots|
      invariant runDynamic == RunUnknown(attrs, i)
      invariant runWidth == RunBits(attrs, i)
    {
      var bw := StaticBitWidth(attrs[i]);
      if bw.Some? {
        runWidth := runWidth + bw.value;
      } else if IsBitAttr(attrs[i]) {
        runDynamic := true;
      } else {
        slots, runWidth, runDynamic, runIndex := Flush(attrs, i, slots, runWidth, runDynamic, runIndex);
      }
    }
    slots, runWidth, runDynamic, runIndex := Flush(attrs, |attrs|, slots, runWidth, runDynamic, runIndex);
  }

  /** The flush closure of BitAlignSlots, called where a run of bit fields ends. */
  method Flush(ghost attrs: seq<Attr>, at: nat, slots: seq<Slot>, runWidth: nat, runDynamic: bool, runIndex: nat)
    returns (slots': seq<Slot>, runWidth': nat, runDynamic': bool, runIndex': nat)
    requires at <= |attrs| && (at < |attrs| ==> !IsBitAttr(attrs[at]))
    requires slots == SlotsBelow(attrs, at) && runIndex == |slots|
    requires runDynamic == RunUnknown(attrs, at) && runWidth == RunBits(attrs, at)
    ensures slots' == SlotsBelow(attrs, at + 1) && runIndex' == |slots'|
    ensures runWidth' == 0 && !runDynamic'
  {
    slots', runWidth', runDynamic', runIndex' := slots, runWidth, runDynamic, runIndex;
    if runWidth == 0 && !runDynamic { return; }
    if !runDynamic && runWidth % 8 == 0 {
      runWidth' := 0;
      return;
    }
    if runDynamic {
      runDynamic', runWidth' := false, 0;
      return;
    }
    var w := 8 - runWidth % 8;
    slots' := slots + [Slot(runIndex, w, at)];
    runIndex' := runIndex + 1;
    runWidth' := 0;
  }

  // ---- The order in which fields and slots are read and written ----------

  /** The bit order of the last bit field before `i`, or the default. */
  function LastOrder(attrs: seq<Attr>, i: nat, le: bool): bool
    requires i <= |attrs|
  {
    if i == 0 then le
    else if IsBitAttr(attrs[i - 1]) then attrs[i - 1].shape.le
    else LastOrder(attrs, i - 1, le)
  }

  /** `le` is the order of the nearest bit field in front of `i`, or the default. */
  ghost predicate NearestOrder(attrs: seq<Attr>, i: nat, default: bool, le: bool)
    requires i <= |attrs|
  {
    && ((forall j :: 0 <= j < i ==> !attrs[j].shape.BitField?) ==> le == default)
    && (forall j :: 0 <= j < i && attrs[j].shape.BitField? && (forall k :: j < k < i ==> !attrs[k].shape.BitField?) ==>
          le == attrs[j].shape.le)
  }

  lemma {:induction false} LastIsNearest(attrs: seq<Attr>, i: nat, le: bool)
    requires i <= |attrs|
    ensures NearestOrder(attrs, i, le, LastOrder(attrs, i, le))
  {
    if i > 0 && !IsBitAttr(attrs[i - 1]) { LastIsNearest(attrs, i - 1, le); }
  }

  /** alignReadEndian */
  method AlignReadEndian(attrs: seq<Attr>, beforeAttr: nat, bitEndianLe: bool) returns (le: bool)
    requires beforeAttr <= |attrs|
    ensures le == LastOrder(attrs, beforeAttr, bitEndianLe) && NearestOrder(attrs, beforeAttr, bitEndianLe, le)
  {
    hide NearestOrder;
    LastIsNearest(attrs, beforeAttr, bitEndianLe);
    var i := beforeAttr;
    while i > 0
      invariant 0 <= i <= beforeAttr
      invariant LastOrder(attrs, beforeAttr, bitEndianLe) == LastOrder(attrs, i, bitEndianLe)
    {
      i := i - 1;
      if IsBitAttr(attrs[i]) { return attrs[i].shape.le; }
    }
    return bitEndianLe;
  }

  function SlotShapes(attrs: seq<Attr>, i: nat, le: bool): (ss: seq<Shape>)
    requires i <= |attrs|
    ensures ShapesOk(ss)
  {
    if Gap(attrs, i) == 0 then [] else [BitField(LastOrder(attrs, i, le), Gap(attrs, i))]
  }

  /** The fields before position `i` with their slots. */
  function Layout(attrs: seq<Attr>, i: nat, le: bool): (ss: seq<Shape>)
    requires i <= |attrs|
    ensures Unconditional(attrs) ==> ShapesOk(ss)
  {
    if i == 0 then [] else Layout(attrs, i - 1, le) + SlotShapes(attrs, i - 1, le) + [attrs[i - 1].shape]
  }

  /** Everything that is read or written for a structure, in order. */
  function FullLayout(attrs: seq<Attr>, le: bool): (ss: seq<Shape>)
    ensures Unconditional(attrs) ==> ShapesOk(ss)
  {
    Layout(attrs, |attrs|, le) + SlotShapes(attrs, |attrs|, le)
  }

  /** `j` of the slots are at `i` or before. */
  ghost predicate SlotsUpTo(slots: seq<Slot>, i: nat, j: nat)
  {
    j <= |slots| && (j > 0 ==> slots[j - 1].before <= i) && (j < |slots| ==> slots[j].before > i)
  }

  /** Slot `j` stands behind the attributes before it and `j` slots; an attribute stands
      behind the attributes before it and the slots that are not behind it. */
  ghost predicate Placed(attrs: seq<Attr>, slots: seq<Slot>, le: bool, ops: seq<Shape>, n: nat)
    requires n <= |attrs|
  {
    && |ops| == n + |slots|
    && (forall j :: 0 <= j < |slots| ==> slots[j].before <= n && SlotPlaced(attrs, slots[j], le, ops, slots[j].before + j))
    && (forall i: nat, j: nat :: i < n && SlotsUpTo(slots, i, j) ==> ops[i + j] == attrs[i].shape)
  }

  ghost predicate SlotPlaced(attrs: seq<Attr>, slot: Slot, le: bool, ops: seq<Shape>, at: nat)
    requires slot.before <= |attrs|
  {
    at < |ops| && ops[at].BitField? && ops[at].n == slot.width && NearestOrder(attrs, slot.before, le, ops[at].le)
  }

  lemma SlotAdded(attrs: seq<Attr>, s: seq<Slot>, slot: Slot, le: bool, ops: seq<Shape>, b: Shape, n: nat)
    requires n <= |attrs| && slot.before == n && Placed(attrs, s, le, ops, n)
    requires b.BitField? && b.n == slot.width && NearestOrder(attrs, n, le, b.le)
    ensures Placed(attrs, s + [slot], le, ops + [b], n)
  {
    hide NearestOrder;
    var s', ops' := s + [slot], ops + [b];
    forall i: nat, j: nat | i < n && SlotsUpTo(s', i, j) ensures ops'[i + j] == attrs[i].shape {
      assert SlotsUpTo(s, i, j);
    }
    forall j | 0 <= j < |s'| ensures s'[j].before <= n && SlotPlaced(attrs, s'[j], le, ops', s'[j].before + j) {
      assert j < |s| ==> SlotPlaced(attrs, s[j], le, ops, s[j].before + j);
    }
  }

  lemma AttrAdded(attrs: seq<Attr>, s: seq<Slot>, le: bool, ops: seq<Shape>, n: nat)
    requires n < |attrs| && Placed(attrs, s, le, ops, n)
    ensures Placed(attrs, s, le, ops + [attrs[n].shape], n + 1)
  {
    hide NearestOrder;
    var ops' := ops + [attrs[n].shape];
    forall i: nat, j: nat | i < n + 1 && SlotsUpTo(s, i, j) ensures ops'[i + j] == attrs[i].shape {
      assert i == n ==> j == |s|;
    }
    forall j | 0 <= j < |s| ensures SlotPlaced(attrs, s[j], le, ops', s[j].before + j) {
      assert SlotPlaced(attrs, s[j], le, ops, s[j].before + j);
    }
  }

  lemma GapPlaced(attrs: seq<Attr>, n: nat, le: bool, ops: seq<Shape>)
    requires n <= |attrs| && Placed(attrs, SlotsBelow(attrs, n), le, ops, n)
    ensures Placed(attrs, SlotsBelow(attrs, n + 1), le, ops + SlotShapes(attrs, n, le), n)
  {
    hide Gap, NearestOrder, LastOrder, Placed;
    var s := SlotsBelow(attrs, n);
    LastIsNearest(attrs, n, le);
    if Gap(attrs, n) == 0 {
      assert ops + [] == ops;
    } else {
      SlotAdded(attrs, s, Slot(|s|, Gap(attrs, n), n), le, ops, BitField(LastOrder(attrs, n, le), Gap(attrs, n)), n);
    }
  }

  lemma {:induction false} LayoutPlaces(attrs: seq<Attr>, n: nat, le: bool)
    requires n <= |attrs|
    ensures Placed(attrs, SlotsBelow(attrs, n), le, Layout(attrs, n, le), n)
  {
    hide SlotShapes;
    if n > 0 {
      hide Placed;
      LayoutPlaces(attrs, n - 1, le);
      GapPlaced(attrs, n - 1, le, Layout(attrs, n - 1, le));
      AttrAdded(attrs, SlotsBelow(attrs, n), le, Layout(attrs, n - 1, le) + SlotShapes(attrs, n - 1, le), n - 1);
    }
  }

  /** All attributes in order, with every slot directly in front of its place. */
  lemma FullLayoutPlaces(attrs: seq<Attr>, le: bool)
    ensures Placed(attrs, SlotsBelow(attrs, |attrs| + 1), le, FullLayout(attrs, le), |attrs|)
  {
    hide Placed, SlotsBelow, Layout, SlotShapes;
    LayoutPlaces(attrs, |attrs|, le);
    GapPlaced(attrs, |attrs|, le, Layout(attrs, |attrs|, le));
  }

  /** The slots at positions from `k` on. */
  ghost predicate Pending(attrs: seq<Attr>, k: nat, rest: seq<Slot>)
    requires k <= |attrs| + 1
  {
    SlotsBelow(attrs, k) + rest == SlotsBelow(attrs, |attrs| + 1)
  }

  lemma {:induction false} SlotsPrefix(attrs: seq<Attr>, k: nat, m: nat)
    requires k <= m <= |attrs| + 1
    ensures SlotsBelow(attrs, k) <= SlotsBelow(attrs, m)
    ensures forall j :: |SlotsBelow(attrs, k)| <= j < |SlotsBelow(attrs, m)| ==> SlotsBelow(attrs, m)[j].before >= k
    decreases m
  {
    if k < m { SlotsPrefix(attrs, k, m - 1); }
  }

  /** The slots left at position `k` belong to `k` or a later position. */
  lemma LaterSlots(attrs: seq<Attr>, k: nat, rest: seq<Slot>)
    requires k <= |attrs| + 1 && Pending(attrs, k, rest)
    ensures |rest| > 0 ==> k <= rest[0].before <= |attrs|
  {
    SlotsPrefix(attrs, k, |attrs| + 1);
    if |rest| > 0 {
      assert SlotsBelow(attrs, |attrs| + 1)[|SlotsBelow(attrs, k)|] == rest[0];
    }
  }

  /** While the slots of position `k` are emitted after `ops0`: its slot is next, or done. */
  ghost predicate Placing(attrs: seq<Attr>, k: nat, rest: seq<Slot>, ops0: seq<Shape>, ops: seq<Shape>, le: bool)
    requires k <= |attrs|
  {
    if |rest| > 0 && rest[0].before == k then
      ops == ops0 && rest[0].width == Gap(attrs, k) > 0 && Pending(attrs, k + 1, rest[1..])
    else
      ops == ops0 + SlotShapes(attrs, k, le) && Pending(attrs, k + 1, rest)
  }

  lemma PlacingStarts(attrs: seq<Attr>, k: nat, rest: seq<Slot>, ops: seq<Shape>, le: bool)
    requires k <= |attrs| && Pending(attrs, k, rest)
    ensures Placing(attrs, k, rest, ops, ops, le)
  {
    hide Gap;
    var all, here := SlotsBelow(attrs, |attrs| + 1), SlotsBelow(attrs, k);
    SlotsPrefix(attrs, k + 1, |attrs| + 1);
    assert all == here + rest;
    if Gap(attrs, k) > 0 {
      assert all[|here|] == Slot(|here|, Gap(attrs, k), k);
      assert rest == [rest[0]] + rest[1..];
    } else {
      LaterSlots(attrs, k + 1, rest);
    }
  }

  lemma PlacingStep(attrs: seq<Attr>, k: nat, rest: seq<Slot>, ops: seq<Shape>, le: bool)
    requires k <= |attrs| && Placing(attrs, k, rest, ops, ops, le) && |rest| > 0 && rest[0].before == k
    ensures Placing(attrs, k, rest[1..], ops, ops + [BitField(LastOrder(attrs, k, le), rest[0].width)], le)
  {
    hide Gap, SlotsBelow;
    LaterSlots(attrs, k + 1, rest[1..]);
  }

  /** The loop shared by emitReadFunc and emitWriteFunc: each slot goes in front of its
      attribute, the last ones behind the last attribute. */
  method Interleave(attrs: seq<Attr>, bitEndianLe: bool) returns (ops: seq<Shape>)
    ensures ops == FullLayout(attrs, bitEndianLe)
    ensures Placed(attrs, SlotsBelow(attrs, |attrs| + 1), bitEndianLe, ops, |attrs|)
  {
    hide Gap, SlotsBelow, Placing, Placed, OneSlotPerRun, NearestOrder;
    FullLayoutPlaces(attrs, bitEndianLe);
    var slots := BitAlignSlots(attrs);
    ops := [];
    ghost var before;
    assert Pending(attrs, 0, slots) by { NoSlotsYet(attrs); }
    for i := 0 to |attrs|
      invariant ops == Layout(attrs, i, bitEndianLe) && Pending(attrs, i, slots)
    {
      before := ops;
      PlacingStarts(attrs, i, slots, ops, bitEndianLe);
      while |slots| > 0 && slots[0].before == i
        invariant Placing(attrs, i, slots, before, ops, bitEndianLe)
        decreases |slots|
      {
        PlacingOps(attrs, i, slots, before, ops, bitEndianLe);
        PlacingStep(attrs, i, slots, ops, bitEndianLe);
        var le := AlignReadEndian(attrs, slots[0].before, bitEndianLe);
        ops := ops + [BitField(le, slots[0].width)];
        slots := slots[1..];
      }
      PlacingOps(attrs, i, slots, before, ops, bitEndianLe);
      ops := ops + [attrs[i].shape];
    }
    before := ops;
    PlacingStarts(attrs, |attrs|, slots, ops, bitEndianLe);
    while |slots| > 0
      invariant Placing(attrs, |attrs|, slots, before, ops, bitEndianLe)
      decreases |slots|
    {
      LastSlots(attrs, slots, before, ops, bitEndianLe);
      PlacingOps(attrs, |attrs|, slots, before, ops, bitEndianLe);
      PlacingStep(attrs, |attrs|, slots, ops, bitEndianLe);
      var le := AlignReadEndian(attrs, slots[0].before, bitEndianLe);
      ops := ops + [BitField(le, slots[0].width)];
      slots := slots[1..];
    }
    PlacingOps(attrs, |attrs|, slots, before, ops, bitEndianLe);
  }

  lemma NoSlotsYet(attrs: seq<Attr>)
    ensures SlotsBelow(attrs, 0) == []
  {}

  lemma PlacingOps(attrs: seq<Attr>, k: nat, rest: seq<Slot>, ops0: seq<Shape>, ops: seq<Shape>, le: bool)
    requires k <= |attrs| && Placing(attrs, k, rest, ops0, ops, le)
    ensures if |rest| > 0 && rest[0].before == k then ops == ops0
            else ops == ops0 + SlotShapes(attrs, k, le) && Pending(attrs, k + 1, rest)
  {}

  lemma LastSlots(attrs: seq<Attr>, rest: seq<Slot>, ops0: seq<Shape>, ops: seq<Shape>, le: bool)
    requires Placing(attrs, |attrs|, rest, ops0, ops, le) && |rest| > 0
    ensures rest[0].before == |attrs|
  {
    hide Gap, SlotsBelow;
  }

  // ---- Seamless layouts --------------------------------------------------

  /** Nothing is pending where an operation would skip to a byte boundary. */
  ghost predicate Seamless(p: Phase, s: Shape)
  {
    p.pending == 0 || (s.BitField? && s.le == p.le)
  }

  ghost predicate AllSeamless(p: Phase, ss: seq<Shape>)
    decreases |ss|
  {
    ss == [] || (Seamless(p, ss[0]) && AllSeamless(PhaseAfter(p, ss[0]), ss[1..]))
  }

  function PhaseAfterAll(p: Phase, ss: seq<Shape>): Phase
    decreases |ss|
  {
    if ss == [] then p else PhaseAfterAll(PhaseAfter(p, ss[0]), ss[1..])
  }

  lemma {:induction false} SeamlessSnoc(p: Phase, ss: seq<Shape>, s: Shape)
    ensures PhaseAfterAll(p, ss + [s]) == PhaseAfter(PhaseAfterAll(p, ss), s)
    ensures AllSeamless(p, ss + [s]) <==> AllSeamless(p, ss) && Seamless(PhaseAfterAll(p, ss), s)
    decreases |ss|
  {
    hide Seamless, PhaseAfter;
    var t := ss + [s];
    if ss == [] {
      assert t[1..] == [];
    } else {
      assert t[1..] == ss[1..] + [s];
      SeamlessSnoc(PhaseAfter(p, ss[0]), ss[1..], s);
    }
  }

  /** Attributes that are always read and written, once, with bit fields of known width. */
  ghost predicate Unconditional(attrs: seq<Attr>)
  {
    forall i :: 0 <= i < |attrs| ==>
      !attrs[i].dynamic && ShapeOk(attrs[i].shape) && (IsBitAttr(attrs[i]) ==> StaticBitWidth(attrs[i]).Some?)
  }

  /** Attribute `i` continues a run of bit fields in the other bit order. */
  predicate Turns(attrs: seq<Attr>, i: nat)
    requires i < |attrs|
  {
    i > 0 && IsBitAttr(attrs[i - 1]) && IsBitAttr(attrs[i]) && attrs[i - 1].shape.le != attrs[i].shape.le
  }

  /** Below `k`, runs change their bit order on byte boundaries only. */
  ghost predicate TurnsOnBoundaries(attrs: seq<Attr>, k: nat)
    requires k <= |attrs|
  {
    forall i :: 0 <= i < k && Turns(attrs, i) ==> RunBits(attrs, i) % 8 == 0
  }

  const P0 := Phase(0, false)

  /** Exactly the bits of the run ending before `i` are pending, in the order of the run. */
  ghost predicate RunPhase(attrs: seq<Attr>, i: nat, p: Phase)
    requires i <= |attrs|
  {
    && p.pending == RunBits(attrs, i) % 8
    && (p.pending > 0 ==> i > 0 && IsBitAttr(attrs[i - 1]) && p.le == attrs[i - 1].shape.le)
  }

  /** Where the run has just its pending bits, the next attribute fits seamlessly unless it
      turns the bit order in the middle of a byte. */
  lemma RunPhaseStep(attrs: seq<Attr>, i: nat, p: Phase)
    requires Unconditional(attrs) && i < |attrs|
    requires if IsBitAttr(attrs[i]) then RunPhase(attrs, i, p) else p.pending == 0
    ensures Seamless(p, attrs[i].shape) <==> (Turns(attrs, i) ==> RunBits(attrs, i) % 8 == 0)
    ensures Seamless(p, attrs[i].shape) ==> RunPhase(attrs, i + 1, PhaseAfter(p, attrs[i].shape))
  {
    hide RunBits;
    RunBitsNext(attrs, i);
    if IsBitAttr(attrs[i]) {
      ModStep(RunBits(attrs, i), attrs[i].shape.n);
    }
  }

  lemma RunBitsNext(attrs: seq<Attr>, i: nat)
    requires Unconditional(attrs) && i < |attrs|
    ensures RunBits(attrs, i + 1) == if IsBitAttr(attrs[i]) then RunBits(attrs, i) + attrs[i].shape.n else 0
  {}

  lemma ModStep(a: nat, n: nat)
    ensures (a % 8 + n) % 8 == (a + n) % 8
    ensures a % 8 == 0 ==> n % 8 == (a + n) % 8
  {}

  lemma {:induction false} RunsKnown(attrs: seq<Attr>, i: nat)
    requires Unconditional(attrs) && i <= |attrs|
    ensures !RunUnknown(attrs, i)
  {
    if i > 0 { RunsKnown(attrs, i - 1); }
  }

  lemma {:induction false} LayoutSeamless(attrs: seq<Attr>, i: nat, le: bool)
    requires Unconditional(attrs) && i <= |attrs|
    ensures AllSeamless(P0, Layout(attrs, i, le)) <==> TurnsOnBoundaries(attrs, i)
    ensures TurnsOnBoundaries(attrs, i) ==> RunPhase(attrs, i, PhaseAfterAll(P0, Layout(attrs, i, le)))
  {
    hide AllSeamless, PhaseAfterAll, Seamless, PhaseAfter, RunPhase, SlotShapes, RunBits, Turns;
    if i == 0 {
      EmptySeamless(attrs);
    } else {
      LayoutSeamless(attrs, i - 1, le);
      SlotsSeamless(attrs, i - 1, le);
      var ss := Layout(attrs, i - 1, le) + SlotShapes(attrs, i - 1, le);
      SeamlessSnoc(P0, ss, attrs[i - 1].shape);
      if TurnsOnBoundaries(attrs, i - 1) {
        RunPhaseStep(attrs, i - 1, PhaseAfterAll(P0, ss));
      }
    }
  }

  lemma EmptySeamless(attrs: seq<Attr>)
    ensures AllSeamless(P0, []) && PhaseAfterAll(P0, []) == P0 && RunPhase(attrs, 0, P0)
  {}

  /** The slot of position `i` ends its run on a byte boundary. */
  lemma SlotsSeamless(attrs: seq<Attr>, i: nat, le: bool)
    requires Unconditional(attrs) && i <= |attrs|
    requires var ss := Layout(attrs, i, le); AllSeamless(P0, ss) ==> RunPhase(attrs, i, PhaseAfterAll(P0, ss))
    ensures var ss := Layout(attrs, i, le) + SlotShapes(attrs, i, le);
            var p := PhaseAfterAll(P0, ss);
            (AllSeamless(P0, ss) <==> AllSeamless(P0, Layout(attrs, i, le))) &&
            (AllSeamless(P0, ss) ==> if i < |attrs| && IsBitAttr(attrs[i]) then RunPhase(attrs, i, p) else p.pending == 0)
  {
    hide AllSeamless, PhaseAfterAll, Layout, RunBits;
    RunsKnown(attrs, i);
    var ss := Layout(attrs, i, le);
    if Gap(attrs, i) == 0 {
      assert ss + [] == ss;
    } else {
      SeamlessSnoc(P0, ss, BitField(LastOrder(attrs, i, le), Gap(attrs, i)));
    }
  }

  /** No bit is pending wherever an operation would skip to a byte boundary exactly if runs
      turn their bit order on byte boundaries; and then none is pending at the end. */
  lemma FullLayoutSeamless(attrs: seq<Attr>, le: bool)
    requires Unconditional(attrs)
    ensures AllSeamless(P0, FullLayout(attrs, le)) <==> TurnsOnBoundaries(attrs, |attrs|)
    ensures TurnsOnBoundaries(attrs, |attrs|) ==> PhaseAfterAll(P0, FullLayout(attrs, le)).pending == 0
  {
    hide AllSeamless, PhaseAfterAll, RunPhase;
    LayoutSeamless(attrs, |attrs|, le);
    SlotsSeamless(attrs, |attrs|, le);
  }
}
