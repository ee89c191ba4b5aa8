/** Walking UTF-8 text by code points: counting, cutting and reversing byte strings. */
module Utf8 {
  import opened Words

  type bytes = seq<byte>

  // ---- Units: the steps the runtime walks in ------------------------------

  predicate IsContinuation(c: byte) { 0x80 <= c < 0xC0 }

  /** The length that a first byte announces; 1 for bytes that announce nothing. */
  function Announced(c: byte): (n: nat)
    ensures 1 <= n <= 4
  {
    if c < 0x80 then 1
    else if 0xC0 <= c < 0xE0 then 2
    else if 0xE0 <= c < 0xF0 then 3
    else if 0xF0 <= c < 0xF8 then 4
    else 1
  }

  /** The unit at the head of `b`: what its first byte announces, as far as there is text. */
  function HeadLength(b: bytes): (n: nat)
    requires b != []
    ensures 1 <= n <= |b|
  {
    if Announced(b[0]) > |b| then |b| else Announced(b[0])
  }

  function Count(b: bytes): nat
  {
    if b == [] then 0 else 1 + Count(b[HeadLength(b)..])
  }

  /** Where unit `k` starts, or the end of the text. */
  function Offset(b: bytes, k: nat): (o: nat)
    ensures o <= |b|
  {
    if b == [] || k == 0 then 0 else HeadLength(b) + Offset(b[HeadLength(b)..], k - 1)
  }

  /** zb_utf8_char_count */
  method CharCount(b: bytes) returns (n: nat)
    ensures n == Count(b)
  {
    hide Count, Announced;
    n := 0;
    var i := 0;
    assert b[0..] == b;
    CountNothing(b);
    while i < |b|
      invariant 0 <= i <= |b| && n + Count(b[i..]) == Count(b)
    {
      var expected := Announced(b[i]);
      if expected > |b| - i { expected := |b| - i; }
      CountStep(b, i);
      i := i + expected;
      n := n + 1;
    }
  }

  lemma CountStep(b: bytes, i: nat)
    requires i < |b|
    ensures Count(b[i..]) == 1 + Count(b[i + HeadLength(b[i..])..])
  {
    hide Announced;
    assert b[i..][HeadLength(b[i..])..] == b[i + HeadLength(b[i..])..];
  }

  lemma CountNothing(b: bytes)
    ensures Count(b[|b|..]) == 0
  {}

  lemma {:induction false} OffsetMonotone(b: bytes, j: nat, k: nat)
    requires j <= k
    ensures Offset(b, j) <= Offset(b, k)
    decreases k
  {
    if b != [] && j > 0 { OffsetMonotone(b[HeadLength(b)..], j - 1, k - 1); }
  }

  /** One more step of the walk. */
  lemma {:induction false} OffsetNext(b: bytes, k: nat)
    requires Offset(b, k) < |b|
    ensures Offset(b, k + 1) == Offset(b, k) + HeadLength(b[Offset(b, k)..])
    decreases k
  {
    if k > 0 {
      var h := HeadLength(b);
      OffsetNext(b[h..], k - 1);
      assert b[h..][Offset(b[h..], k - 1)..] == b[Offset(b, k)..];
    } else {
      assert b[0..] == b;
    }
  }

  /** zb_utf8_substring */
  method Substring(b: bytes, start: nat, end: nat) returns (r: bytes)
    ensures start <= end ==> Offset(b, start) <= Offset(b, end) && r == b[Offset(b, start)..Offset(b, end)]
    ensures end < start ==> r == []
  {
    var cp, byteStart, byteEnd := 0, |b|, |b|;
    if start == 0 { byteStart := 0; }
    var i := 0;
    if start <= end { OffsetMonotone(b, start, end); }
    while i < |b|
      invariant 0 <= i <= |b| && i == Offset(b, cp) && cp <= end
      invariant byteEnd == |b|
      invariant byteStart == if start == 0 then 0 else if start < cp then Offset(b, start) else |b|
    {
      if cp == start { byteStart := i; }
      if cp == end {
        byteEnd := i;
        break;
      }
      OffsetNext(b, cp);
      var step := Announced(b[i]);
      if step > |b| - i { step := |b| - i; }
      i := i + step;
      cp := cp + 1;
    }
    if i == |b| && byteEnd == |b| {
      OffsetMonotone(b, cp, end);
      if cp <= start { OffsetMonotone(b, cp, start); }
    }
    if byteEnd < byteStart { byteEnd := byteStart; }
    r := b[byteStart..byteEnd];
  }

  /** Adjacent substrings of any byte string join without gap or overlap. */
  lemma SubstringsJoin(b: bytes, i: nat, j: nat, k: nat)
    requires i <= j <= k
    ensures Offset(b, i) <= Offset(b, j) <= Offset(b, k)
    ensures b[Offset(b, i)..Offset(b, j)] + b[Offset(b, j)..Offset(b, k)] == b[Offset(b, i)..Offset(b, k)]
  {
    OffsetMonotone(b, i, j);
    OffsetMonotone(b, j, k);
  }

  // ---- Reversal ------------------------------------------------------------

  /** The start of the trailing continuation bytes, with one byte in front if there is one. */
  function ScanBack(b: bytes, at: nat): (p: nat)
    requires at < |b|
    ensures p <= at
  {
    if at > 0 && IsContinuation(b[at]) then ScanBack(b, at - 1) else at
  }

  /** Where the last code point starts; a malformed one is taken byte by byte. */
  function LastStart(b: bytes): (p: nat)
    requires b != []
    ensures p < |b|
  {
    var p := ScanBack(b, |b| - 1);
    if |b| - p != Announced(b[p]) then |b| - 1 else p
  }

  function Reversed(b: bytes): (r: bytes)
    ensures |r| == |b|
  {
    if b == [] then [] else b[LastStart(b)..] + Reversed(b[..LastStart(b)])
  }

  lemma ReversedStep(b: bytes)
    requires b != []
    ensures Reversed(b) == b[LastStart(b)..] + Reversed(b[..LastStart(b)])
  {}

  /** The inner loop and the length check of zb_utf8_reverse. */
  method FindLast(b: bytes, remaining: nat) returns (cpStart: nat)
    requires 0 < remaining <= |b|
    ensures cpStart == LastStart(b[..remaining]) < remaining
  {
    ghost var front := b[..remaining];
    cpStart := remaining - 1;
    while cpStart > 0 && IsContinuation(b[cpStart])
      invariant 0 <= cpStart < remaining
      invariant ScanBack(front, cpStart) == ScanBack(front, remaining - 1)
    {
      cpStart := cpStart - 1;
    }
    if remaining - cpStart != Announced(b[cpStart]) { cpStart := remaining - 1; }
  }

  /** zb_utf8_reverse: for any bytes the output buffer is filled exactly. */
  method Reverse(b: bytes) returns (r: bytes)
    ensures r == Reversed(b) && |r| == |b|
  {
    hide Reversed, LastStart;
    if |b| == 0 {
      assert Reversed(b) == [];
      return [];
    }
    var out := new byte[|b|](_ => 0);
    var dst, remaining := 0, |b|;
    assert b[..remaining] == b && out[..dst] == [];
    while remaining > 0
      invariant 0 <= remaining <= |b| && dst + remaining == |b|
      invariant out[..dst] + Reversed(b[..remaining]) == Reversed(b)
    {
      ghost var front := b[..remaining];
      var cpStart := FindLast(b, remaining);
      ReversedStep(front);
      assert front[cpStart..] == b[cpStart..remaining] && front[..cpStart] == b[..cpStart];
      Join(out[..dst], b[cpStart..remaining], Reversed(b[..cpStart]));
      CopyOut(out, dst, b[cpStart..remaining]);
      dst := dst + (remaining - cpStart);
      remaining := cpStart;
    }
    assert out[..dst] == out[..] && Reversed(b[..remaining]) == [];
    r := out[..];
  }

  lemma Join(x: bytes, y: bytes, z: bytes)
    ensures x + y + z == x + (y + z)
  {}

  /** The memcpy of zb_utf8_reverse. */
  method CopyOut(out: array<byte>, dst: nat, src: bytes)
    requires dst + |src| <= out.Length
    modifies out
    ensures out[..dst + |src|] == old(out[..dst]) + src
  {
    forall k | 0 <= k < |src| { out[dst + k] := src[k]; }
  }

  // ---- Valid text ----------------------------------------------------------

  predicate Tail(c: byte) { 0x80 <= c <= 0xBF }

  /** One code point, as section 3 of RFC 3629 lets it be spelled. */
  predicate ValidChar(c: bytes)
  {
    || (|c| == 1 && c[0] <= 0x7F)
    || (|c| == 2 && 0xC2 <= c[0] <= 0xDF && Tail(c[1]))
    || (|c| == 3 && Tail(c[1]) && Tail(c[2]) &&
        ((c[0] == 0xE0 && c[1] >= 0xA0) || 0xE1 <= c[0] <= 0xEC || (c[0] == 0xED && c[1] <= 0x9F) || 0xEE <= c[0] <= 0xEF))
    || (|c| == 4 && Tail(c[1]) && Tail(c[2]) && Tail(c[3]) &&
        ((c[0] == 0xF0 && c[1] >= 0x90) || 0xF1 <= c[0] <= 0xF3 || (c[0] == 0xF4 && c[1] <= 0x8F)))
  }

  ghost predicate ValidText(cs: seq<bytes>)
  {
    forall i :: 0 <= i < |cs| ==> ValidChar(cs[i])
  }

  function Flatten(cs: seq<bytes>): bytes
  {
    if cs == [] then [] else cs[0] + Flatten(cs[1..])
  }

  function Backwards(cs: seq<bytes>): (r: seq<bytes>)
    ensures |r| == |cs| && forall i :: 0 <= i < |cs| ==> r[i] == cs[|cs| - 1 - i]
  {
    if cs == [] then [] else Backwards(cs[1..]) + [cs[0]]
  }

  lemma CharHead(c: bytes, rest: bytes)
    requires ValidChar(c)
    ensures c + rest != [] && HeadLength(c + rest) == |c|
    ensures (c + rest)[|c|..] == rest
  {}

  lemma {:induction false} FlattenConcat(a: seq<bytes>, b: seq<bytes>)
    ensures Flatten(a + b) == Flatten(a) + Flatten(b)
  {
    if a == [] {
      assert a + b == b;
    } else {
      assert (a + b)[1..] == a[1..] + b;
      FlattenConcat(a[1..], b);
    }
  }

  lemma FlattenOne(c: bytes)
    ensures Flatten([c]) == c
  {
    assert [c][1..] == [];
  }

  /** The length that the leading bits of a first byte announce: 110, 1110 and 11110 announce
      two, three and four bytes. */
  function BitsAnnounce(c: byte): nat
  {
    if c / 32 == 6 then 2 else if c / 16 == 14 then 3 else if c / 8 == 30 then 4 else 1
  }

  /** Any text, cut into steps: each as long as its first byte announces, the last one perhaps
      shorter. */
  ghost predicate Steps(ps: seq<bytes>)
  {
    && (forall i :: 0 <= i < |ps| ==> 1 <= |ps[i]| <= BitsAnnounce(ps[i][0]))
    && (forall i :: 0 <= i < |ps| - 1 ==> |ps[i]| == BitsAnnounce(ps[i][0]))
  }

  lemma StepAtHead(p: bytes, rest: bytes)
    requires 1 <= |p| <= BitsAnnounce(p[0]) && (rest != [] ==> |p| == BitsAnnounce(p[0]))
    ensures p + rest != [] && HeadLength(p + rest) == |p|
  {}

  /** The walk counts the steps, and unit `k` starts behind the first `k` of them. */
  lemma {:induction false} CountOfSteps(ps: seq<bytes>, k: nat)
    requires Steps(ps)
    ensures Count(Flatten(ps)) == |ps|
    ensures Offset(Flatten(ps), k) == |Flatten(if k < |ps| then ps[..k] else ps)|
    decreases |ps|
  {
    hide Announced, BitsAnnounce, HeadLength;
    if ps != [] {
      var rest := Flatten(ps[1..]);
      if |ps| == 1 { assert rest == []; }
      StepAtHead(ps[0], rest);
      assert (ps[0] + rest)[|ps[0]|..] == rest;
      CountOfSteps(ps[1..], if k > 0 then k - 1 else 0);
      if 0 < k < |ps| { assert ps[..k][1..] == ps[1..][..k - 1]; }
    }
  }

  /** Every text has such a cut. */
  lemma {:induction false} StepsExist(b: bytes) returns (ps: seq<bytes>)
    ensures Steps(ps) && Flatten(ps) == b
    decreases |b|
  {
    if b == [] {
      ps := [];
    } else {
      var h := HeadLength(b);
      var rest := StepsExist(b[h..]);
      ps := [b[..h]] + rest;
      assert ps[1..] == rest && b == b[..h] + b[h..];
      assert forall i :: 1 <= i < |ps| ==> ps[i] == rest[i - 1];
      assert rest != [] ==> b[h..] != [];
    }
  }

  /** Counting counts code points, and cutting cuts between them. */
  lemma {:induction false} CountOfValid(cs: seq<bytes>)
    requires ValidText(cs)
    ensures Count(Flatten(cs)) == |cs|
  {
    if cs != [] {
      CharHead(cs[0], Flatten(cs[1..]));
      CountOfValid(cs[1..]);
    }
  }

  lemma {:induction false} OffsetOfValid(cs: seq<bytes>, k: nat)
    requires ValidText(cs)
    ensures var m := if k < |cs| then k else |cs|; Offset(Flatten(cs), k) == |Flatten(cs[..m])|
    decreases k
  {
    hide ValidChar;
    if cs == [] {
      assert cs[..0] == [];
    } else if k == 0 {
      assert cs[..0] == [];
    } else {
      var m := if k < |cs| then k else |cs|;
      CharHead(cs[0], Flatten(cs[1..]));
      OffsetOfValid(cs[1..], k - 1);
      assert cs[..m][1..] == cs[1..][..m - 1];
      assert cs[..m][0] == cs[0];
    }
  }

  lemma SubstringOfValid(cs: seq<bytes>, i: nat, j: nat)
    requires ValidText(cs) && i <= j <= |cs|
    ensures Offset(Flatten(cs), i) <= Offset(Flatten(cs), j)
    ensures Flatten(cs)[Offset(Flatten(cs), i)..Offset(Flatten(cs), j)] == Flatten(cs[i..j])
  {
    hide Flatten, Offset, ValidChar;
    OffsetMonotone(Flatten(cs), i, j);
    OffsetOfValid(cs, i);
    OffsetOfValid(cs, j);
    FlattenConcat(cs[..i], cs[i..j]);
    FlattenConcat(cs[..j], cs[j..]);
    assert cs[..i] + cs[i..j] == cs[..j];
    assert cs[..j] + cs[j..] == cs;
    var a, m, z := Flatten(cs[..i]), Flatten(cs[i..j]), Flatten(cs[j..]);
    assert (a + m + z)[|a|..|a + m|] == m;
  }

  /** Scanning back from the end finds the start of the last code point. */
  lemma LastChar(front: bytes, c: bytes)
    requires ValidChar(c)
    ensures LastStart(front + c) == |front| && (front + c)[|front|..] == c && (front + c)[..|front|] == front
  {
    var b := front + c;
    assert forall k :: 0 <= k < |c| ==> b[|front| + k] == c[k];
    ScanTo(b, |front|, |b| - 1);
  }

  lemma {:induction false} ScanTo(b: bytes, p: nat, at: nat)
    requires p <= at < |b| && !IsContinuation(b[p]) && forall k :: p < k <= at ==> IsContinuation(b[k])
    ensures ScanBack(b, at) == p
  {
    if at > p { ScanTo(b, p, at - 1); }
  }

  /** Reversing valid text lists its code points backwards. */
  lemma {:induction false} ReverseOfValid(cs: seq<bytes>)
    requires ValidText(cs)
    ensures Reversed(Flatten(cs)) == Flatten(Backwards(cs))
    decreases |cs|
  {
    if cs == [] {
      assert Backwards(cs) == [];
    } else {
      var front, last := cs[..|cs| - 1], cs[|cs| - 1];
      assert cs == front + [last];
      FlattenConcat(front, [last]);
      FlattenOne(last);
      LastChar(Flatten(front), last);
      NotEmpty(last, Flatten(front));
      ReverseOfValid(front);
      assert Backwards(cs) == [last] + Backwards(front);
      FlattenConcat([last], Backwards(front));
    }
  }

  lemma NotEmpty(c: bytes, front: bytes)
    requires ValidChar(c)
    ensures front + c != []
  {}

  /** On valid text reversal is its own inverse and keeps the number of code points. */
  lemma ReverseTwice(cs: seq<bytes>)
    requires ValidText(cs)
    ensures Reversed(Reversed(Flatten(cs))) == Flatten(cs)
    ensures Count(Reversed(Flatten(cs))) == Count(Flatten(cs))
  {
    var r := Backwards(cs);
    ReverseOfValid(cs);
    ReverseOfValid(r);
    assert Backwards(r) == cs;
    CountOfValid(cs);
    CountOfValid(r);
  }

  /** A first byte of more than one, with exactly the continuation bytes it announces. */
  predicate WholeChar(u: bytes)
  {
    |u| >= 2 && BitsAnnounce(u[0]) == |u| && forall k :: 1 <= k < |u| ==> 0x80 <= u[k] <= 0xBF
  }

  /** The text ends in a whole character of `m` bytes. */
  ghost predicate EndsWhole(b: bytes, m: nat)
  {
    m <= |b| && WholeChar(b[|b| - m..])
  }

  /** Reversal takes a whole character off the end of any text, and a single byte where the
      text does not end in one. */
  lemma ReversedCases(b: bytes)
    requires b != []
    ensures forall m: nat :: EndsWhole(b, m) ==> Reversed(b) == b[|b| - m..] + Reversed(b[..|b| - m])
    ensures (forall m: nat :: !EndsWhole(b, m)) ==> Reversed(b) == [b[|b| - 1]] + Reversed(b[..|b| - 1])
  {
    hide Reversed, LastStart, WholeChar;
    ReversedStep(b);
    LastIsWhole(b);
    forall m: nat | EndsWhole(b, m) ensures LastStart(b) == |b| - m { WholeIsLast(b, m); }
    assert b[|b| - 1..] == [b[|b| - 1]];
  }

  lemma WholeIsLast(b: bytes, m: nat)
    requires EndsWhole(b, m)
    ensures LastStart(b) == |b| - m
  {
    hide Announced, BitsAnnounce;
    var u, p := b[|b| - m..], |b| - m;
    AnnouncedBits(u[0]);
    forall k | p < k < |b| ensures IsContinuation(b[k]) { assert b[k] == u[k - p]; }
    ScanTo(b, p, |b| - 1);
  }

  lemma LastIsWhole(b: bytes)
    requires b != []
    ensures LastStart(b) == |b| - 1 || EndsWhole(b, |b| - LastStart(b))
  {
    hide Announced, BitsAnnounce;
    var p := LastStart(b);
    LastIsUnit(b);
    AnnouncedBits(b[p]);
    assert b[|b| - (|b| - p)..] == b[p..];
  }

  lemma AnnouncedBits(c: byte)
    ensures Announced(c) == BitsAnnounce(c) && (BitsAnnounce(c) >= 2 ==> !IsContinuation(c))
  {}

  // ---- Any bytes -----------------------------------------------------------

  /** The pieces that reversal takes a text into, in the order of the text. */
  function Units(b: bytes): (us: seq<bytes>)
  {
    if b == [] then [] else Units(b[..LastStart(b)]) + [b[LastStart(b)..]]
  }

  /** A piece is one byte, or a first byte with exactly the continuation bytes it announces. */
  predicate IsUnit(u: bytes)
  {
    |u| == 1 || (|u| >= 2 && Announced(u[0]) == |u| && forall k :: 1 <= k < |u| ==> IsContinuation(u[k]))
  }

  lemma {:induction false} ScanOver(b: bytes, at: nat)
    requires at < |b|
    ensures forall k :: ScanBack(b, at) < k <= at ==> IsContinuation(b[k])
    ensures ScanBack(b, at) == 0 || !IsContinuation(b[ScanBack(b, at)])
  {
    if at > 0 && IsContinuation(b[at]) { ScanOver(b, at - 1); }
  }

  lemma {:induction false} UnitsOf(b: bytes)
    ensures Flatten(Units(b)) == b && Reversed(b) == Flatten(Backwards(Units(b)))
    ensures forall i :: 0 <= i < |Units(b)| ==> IsUnit(Units(b)[i])
  {
    hide LastStart, IsUnit, Flatten, Backwards;
    if b == [] {
      NothingBackwards();
    } else {
      var front, last := b[..LastStart(b)], b[LastStart(b)..];
      LastIsUnit(b);
      UnitsOf(front);
      FlattenConcat(Units(front), [last]);
      FlattenOne(last);
      assert front + last == b;
      BackwardsSnoc(Units(front), last);
      FlattenConcat([last], Backwards(Units(front)));
    }
  }

  lemma NothingBackwards()
    ensures Backwards([]) == [] && Flatten([]) == []
  {}

  lemma BackwardsSnoc(us: seq<bytes>, u: bytes)
    ensures Backwards(us + [u]) == [u] + Backwards(us)
  {}

  lemma LastIsUnit(b: bytes)
    requires b != []
    ensures IsUnit(b[LastStart(b)..])
  {
    hide Announced;
    ScanOver(b, |b| - 1);
  }

  predicate LoneContinuation(u: bytes)
  {
    |u| == 1 && IsContinuation(u[0])
  }

  /** The text starts with continuation bytes on their own, as many as the first byte right
      behind them, which is on its own too, announces. */
  predicate Joins(us: seq<bytes>, n: nat)
  {
    0 < n < |us| && |us[n]| == 1 && Announced(us[n][0]) == n + 1 && forall k :: 0 <= k < n ==> LoneContinuation(us[k])
  }

  /** Nowhere does a first byte on its own stand behind as many continuation bytes on their
      own as it announces. */
  predicate JoinFree(us: seq<bytes>)
  {
    us == [] || ((forall n :: 0 <= n < |us| ==> !Joins(us, n)) && JoinFree(us[1..]))
  }

  /** The pieces of `us` in backward order. */
  function Mirror(us: seq<bytes>): bytes
  {
    Flatten(Backwards(us))
  }

  lemma MirrorStep(us: seq<bytes>)
    requires us != []
    ensures Mirror(us) == Mirror(us[1..]) + us[0]
  {
    FlattenConcat(Backwards(us[1..]), [us[0]]);
    FlattenOne(us[0]);
  }

  /** The first piece that is not a continuation byte on its own, or the last piece. */
  function Stop(us: seq<bytes>): (j: nat)
    requires us != []
    ensures j < |us| && forall k :: 0 <= k < j ==> LoneContinuation(us[k])
    ensures j < |us| - 1 ==> !LoneContinuation(us[j])
  {
    if |us| == 1 || !LoneContinuation(us[0]) then 0 else 1 + Stop(us[1..])
  }

  lemma {:induction false} ScanPrefix(a: bytes, b: bytes, at: nat)
    requires at < |a|
    ensures ScanBack(a + b, at) == ScanBack(a, at)
  {
    if at > 0 { ScanPrefix(a, b, at - 1); }
  }

  ghost predicate AllUnits(us: seq<bytes>)
  {
    forall i :: 0 <= i < |us| ==> IsUnit(us[i])
  }

  /** Scanning back over a mirrored text ends at the start of that piece. */
  lemma {:induction false} ScanStop(us: seq<bytes>)
    requires us != [] && AllUnits(us)
    ensures var j, m := Stop(us), Mirror(us);
            |m| == |Mirror(us[Stop(us) + 1..])| + |us[j]| + j && us[j] != [] &&
            ScanBack(m, |m| - 1) == |Mirror(us[j + 1..])| && m[|Mirror(us[j + 1..])|] == us[j][0]
  {
    hide Mirror, IsContinuation, Announced;
    MirrorStep(us);
    var front := Mirror(us[1..]);
    var m := front + us[0];
    assert IsUnit(us[0]);
    if Stop(us) == 0 {
      NoMirror(us[1..]);
      ScanUnit(front, us[0], |us| == 1);
    } else {
      ScanStop(us[1..]);
      ScanPrefix(front, us[0], |front| - 1);
      var j := Stop(us[1..]);
      assert us[1..][j + 1..] == us[j + 2..];
    }
  }

  lemma NoMirror(us: seq<bytes>)
    ensures us == [] ==> Mirror(us) == []
  {}

  lemma ScanUnit(front: bytes, u: bytes, only: bool)
    requires IsUnit(u) && (only ==> front == []) && (only || !LoneContinuation(u))
    ensures ScanBack(front + u, |front + u| - 1) == |front|
  {
    var b := front + u;
    assert forall k :: 0 <= k < |u| ==> b[|front| + k] == u[k];
    if !IsContinuation(u[0]) { ScanTo(b, |front|, |b| - 1); }
  }

  lemma JoinsAtStop(us: seq<bytes>, n: nat)
    requires us != [] && Joins(us, n)
    ensures n == Stop(us)
  {
    assert !LoneContinuation(us[n]);
  }

  /** The last piece of a mirrored text is the first one of the text, unless it is joined. */
  lemma MirrorLast(us: seq<bytes>)
    requires us != [] && AllUnits(us)
    ensures Mirror(us) != [] && us[0] != []
    ensures (forall n :: !Joins(us, n)) ==> LastStart(Mirror(us)) == |Mirror(us[1..])|
    ensures (exists n :: Joins(us, n)) ==>
      LoneContinuation(us[0]) && !IsContinuation(Mirror(us)[LastStart(Mirror(us))])
  {
    hide Mirror;
    var j, m := Stop(us), Mirror(us);
    ScanStop(us);
    MirrorStep(us);
    assert IsUnit(us[0]) && IsUnit(us[j]);
    if exists n :: Joins(us, n) {
      var n :| Joins(us, n);
      JoinsAtStop(us, n);
    } else if j > 0 && |us[j]| == 1 {
      assert !Joins(us, j);
    }
  }

  lemma {:induction false} MirrorReversedIff(us: seq<bytes>)
    requires AllUnits(us)
    ensures Reversed(Mirror(us)) == Flatten(us) <==> JoinFree(us)
  {
    hide Mirror, LastStart, IsUnit, Joins, LoneContinuation;
    if us == [] {
      NoMirror(us);
    } else {
      var m, front := Mirror(us), Mirror(us[1..]);
      MirrorLast(us);
      MirrorStep(us);
      ReversedStep(m);
      if forall n :: !Joins(us, n) {
        assert m[|front|..] == us[0] && m[..|front|] == front;
        MirrorReversedIff(us[1..]);
        SameTail(us[0], Reversed(front), Flatten(us[1..]));
      } else {
        assert Reversed(m)[0] == m[LastStart(m)];
        FirstByte(us);
        var n :| Joins(us, n);
        JoinsBound(us, n);
      }
    }
  }

  lemma JoinsBound(us: seq<bytes>, n: nat)
    requires Joins(us, n)
    ensures n < |us|
  {}

  lemma SameTail(a: bytes, b: bytes, c: bytes)
    ensures a + b == a + c <==> b == c
  {
    assert (a + b)[|a|..] == b && (a + c)[|a|..] == c;
  }

  lemma FirstByte(us: seq<bytes>)
    requires us != [] && (exists n :: Joins(us, n)) && us[0] != []
    ensures Flatten(us) != [] && IsContinuation(Flatten(us)[0])
  {
    var n :| Joins(us, n);
    assert LoneContinuation(us[0]);
  }

  /** On any bytes reversal is its own inverse exactly if no first byte on its own stands
      behind as many continuation bytes on their own as it announces. */
  lemma ReverseTwiceIff(b: bytes)
    ensures Reversed(Reversed(b)) == b <==> JoinFree(Units(b))
  {
    hide Reversed, Units, JoinFree;
    UnitsOf(b);
    MirrorReversedIff(Units(b));
  }

  /** Validity is needed: reversal takes a lone continuation byte for a character of its
      own, and the second reversal joins what the first took apart. */
  lemma ReverseNotInvolutive()
    ensures Reversed(Reversed([0x80, 0xC3])) != [0x80, 0xC3]
  {
    var b: bytes := [0x80, 0xC3];
    assert LastStart(b) == 1;
    assert b[..1] == [0x80] && b[1..] == [0xC3];
    assert Reversed([0x80]) == [0x80] by { assert [0x80 as byte][..0] == []; assert LastStart([0x80]) == 0; }
    assert Reversed(b) == [0xC3, 0x80];
    var c: bytes := [0xC3, 0x80];
    assert ScanBack(c, 1) == 0 && LastStart(c) == 0;
    assert c[..0] == [] && c[0..] == c;
    assert Reversed(c) == c;
  }
}
