# Verification of the runtime codec, the lazy evaluator and the expression parser

This project models, in Dafny, four parts of Zanbato and proves what they promise: that
what was read can be written back, that cached results stay right, that printed expressions
are read as they were, and that number and text helpers compute what their names say.

* **The bit and byte codec of the C runtime.** `Words` and `BitSeq` hold 64-bit words and
  bit sequences; `Codec` states readers and writers as transitions on bit sequences. The
  objects `Stream`, `Writer`, `Arena` and `Buf` keep the runtime's accumulators, loops and
  buffers, and every method is proved to do exactly the transition. On the transitions,
  `RoundTrip` proves that mixed fields are read back, `BitAlign` and `Fidelity` that bytes
  survive reading and writing a structure, and `CodecRun` carries both to the objects and
  to windows. `FixedField` treats byte strings in fields of a fixed size, and `Structure`
  lists of fields with such byte strings among them.
* **The lazy evaluation graph.** `EvalNode` (states, edges, dirtying, edits), `EvalTree`
  (bare identifiers, members and what struct values remember of them, the resolving stack,
  resolution on a heap graph that may be cyclic, each method proved against a function on
  stores), `EvalScratch` (evaluation from scratch), `EvalTold` (what a resolution answers),
  `EvalCorrect` (when that, and every cached result, is what evaluation from scratch
  gives), `EvalDiscipline` (a condition on expressions under which it always is) and
  `EvalExamples` (two ways in which a cache goes stale, a cycle of reads).
* **The expression parser and printer.** `ExprAst` (trees and printing), `ExprGrammar`
  (the parser as functions on the remaining text), `ExprParser` (the parser object, which
  agrees with those functions on every input), `ExprRoundTrip` (printing), `ExprChain`
  (precedence and prefixes), `ExprNesting` (ternaries, lists, single forms) and `ExprNumber`
  (integer literals).
* **Number and text helpers**: `IntText`, `FloorDivision`, `Utf8`.

Shifts that can lose bits lose them in the model, and sums of `size_t` values wrap: words
carry an explicit 64-bit range. Errors are values (`Result`), never preconditions. Objects
in memory are at most PTRDIFF_MAX bytes long; lengths and offsets, which come from the
data, can be any `size_t`.

## Where the code does less than one might expect

Each of these is kept as the code has it. The exact condition under which it does what one
would expect is proved, and an input at which it does not is given.

* `zb_write_bits_le` shifts the whole value into one 64-bit accumulator, so a field loses
  the bits that do not fit above the bits already pending. A list of fields survives
  writing and reading if and only if each value has room (`RoundTrip.RoundTripIff`, input
  `RoundTrip.WideFieldLosesBits`); any field of at most 57 bits has.
* Windows, raw reads and allocations add `size_t` values without a check. A window is
  inside its parent (`Codec.SubInsideIff`, input `Codec.WrappedWindow`), a raw read inside
  its window (`StreamImpl.Stream.ReadRawBytes`, input `Codec.LargestReadStrays`), a block as
  large as the request (`ArenaImpl.Arena.Alloc`, input `ArenaImpl.RoundedWraps`) and the
  growth loop of a buffer finite (`ArenaImpl.GrowthEndsIff`) if and only if the sums do not
  wrap.
* A bare identifier in an expression resolves its target without recording an edge; and a
  struct value that an instance keeps remembers the members read through it, and later hands
  them out without resolving them or recording an edge. A settled node can therefore hold an
  old value. After any run of demands, edits of leaves and dirtyings everything settled is
  right if and only if recorded edges led from each edited node to every settled node whose
  outcome the edit changed, and each demand settled only nodes that are told what evaluation
  from scratch gives (`EvalCorrect.AlwaysUpToDateIff`; inputs `EvalExamples.StaleCache`, the
  schema `val << 4`, and `EvalExamples.StaleMember`, the schemas `r: _root` and `a: r.val`).
  It is always so if each bare identifier names a node that no command changes, or one that
  the same evaluation also reads as a member; and each member read through the struct value
  of an instance, or through one that the expression returns, is a node that no command
  changes (`EvalDiscipline.DisciplinedRun`).
* `BitAlignSlots` counts the total width of a run of bit fields, also when the run changes
  its bit order, where the codec skips to a byte boundary. A structure of unconditional
  fields is given back from all data if and only if its runs change their bit order on byte
  boundaries only (`Fidelity.ExactIffTurnsOnBoundaries`, input `Fidelity.MixedRunLosesBits`).
* `zb_write_bytes_limit` appends without aligning, unlike the other byte writes. It agrees
  with an aligned write exactly when no bit is pending (`FixedField.LimitAlignsIff`, input
  `FixedField.LimitMisplaced`). Among the fields of a structure it, and a field of size 0
  with a raw copy, are written like their bytes exactly on a byte boundary
  (`Structure.WrittenLoweredIff`).
* A field with a full raw copy is written without a terminator or padding of its own, so an
  edited value is read back exactly when the rest of the old copy happens to mark its end
  (`FixedField.EditRoundTripIff`, input `FixedField.EditKeepsOldTail`).
* `String()` does not parenthesise the operand of a postfix node, and a point behind an
  integer literal can make it a floating point literal. Among all trees, exactly the
  well-formed ones come back from their printed form (`ExprRoundTrip.RoundTripIffWellFormed`,
  inputs `ExprRoundTrip.MovedParses`); what every other lexical tree is read as is given by
  `ExprRoundTrip.PrintedIsReread`.
* Only one comparison is taken per call of `expr`, but each operand is a call of its own:
  `a and b == c == d` is accepted, as `(a and (b == c)) == d`. A chain of operators, prefixes
  included, parses to the tree of the precedence table exactly when each comparison has a
  place: one behind each `and` or `or`, and one in the operand of each `not`
  (`ExprChain.ChainShapedIff`, input `ExprChain.ChainedComparisonEscapes`).
* `zb_utf8_reverse` is its own inverse on valid text; on other bytes exactly if no lone first
  byte stands behind as many lone continuation bytes as it announces
  (`Utf8.ReverseTwiceIff`, input `Utf8.ReverseNotInvolutive`).

## Model

| member | source | states |
|---|---|---|
| StreamImpl.Stream.ReadBitsBe | runtime/c/zanbato.h:721-774 | From any reachable reader state and for any requested width, result, error and new state are those of the bit-sequence reader in big-endian order; fewer than 8 bits stay pending and they fit their count. |
| StreamImpl.Stream.ReadBitsLe | runtime/c/zanbato.h:776-817 | The same in little-endian order. |
| StreamImpl.Stream.ReadByteKeepBits | runtime/c/zanbato.h:616-638 | The next byte of the window without touching the bit accumulator, or the end-of-data error without moving. |
| StreamImpl.Stream.ReadRawBytes | runtime/c/zanbato.h:590-614 | Drops pending bits, then returns exactly the next bytes of the window, or the end-of-data error. The copy leaves the window if and only if the sum of position and length wraps; that case is marked, since C leaves it undefined. |
| Codec.LargestReadStrays | runtime/c/zanbato.h:597 | One byte in, a length of 2^64 - 1 passes the limit test on any data. |
| StreamImpl.Stream.ReadInt | runtime/c/zanbato.h:640-669 | A byte-aligned integer of 1 to 8 bytes, either byte order, signed or not, is the number its bits spell, converted to its type. |
| StreamImpl.JoinBytes | runtime/c/zanbato.h:655-664 | The byte loop computes the number spelled by all the bits, most or least significant byte first. |
| StreamImpl.Stream.AlignToByte | runtime/c/zanbato.h:585-588 | Only the pending bits go. |
| StreamImpl.Stream.Seek | runtime/c/zanbato.h:575-583 | Positions up to the limit are accepted and drop pending bits; others fail and change nothing. |
| StreamImpl.Stream.AtEof | runtime/c/zanbato.h:571-573 | True exactly when a bit read in the current order has nothing in front of it. |
| StreamImpl.Stream.Substream | runtime/c/zanbato.h:512-530 | A fresh stream on the same memory with base and limit as the wrapping sums make them; it is inside its parent if and only if neither sum wraps, and then it holds the clamped slice. The parent is unchanged. |
| StreamImpl.Stream.ConsumeWindow | kaitai/emitter/c/helpers.go:114-118 | The window and seek emitted for a sized structure: the read succeeds exactly if position plus length, as computed, does not pass the limit, and otherwise changes nothing; without wrap the window then has exactly the given size; if position plus length wraps, the read succeeds and the position moves backwards. |
| Codec.SubInsideIff | runtime/c/zanbato.h:518-529 | For every parent, offset and length: inside the parent if and only if base plus offset, and clamped base plus length, do not wrap. |
| Codec.SubIsWindow | runtime/c/zanbato.h:518-529 | Then the bytes are the clamped slice of the parent. |
| Codec.WrappedWindow | runtime/c/zanbato.h:525 | Behind a first byte a length of 2^64 - 1 is not clamped at all. |
| Codec.SubAllInsideIff | runtime/c/zanbato.h:512-530 | For windows nested to any depth: each lies inside the one before if and only if no sum wraps on the way, and then the last is inside the root and holds the nested slices. |
| Codec.NestedWindows | runtime/c/zanbato.h:512-530 | Clamped slices nested to any depth are one clamped slice of the root, with the offset and length that the nesting comes to. |
| CodecRun.WindowOrCopy | runtime/c/zanbato.h:512-556 | Any sequence of reads on a window and on a stream over a copy of its bytes gives the same values, the same error and the same position, whenever the window is inside its parent, which is exactly when its sums do not wrap. |
| CodecRun.BitReadsJoin | runtime/c/zanbato.h:721-817 | Reading a then b bits (a + b at most 64) succeeds exactly when reading a + b does, ends in the same state, and gives v_a * 2^b + v_b (big-endian) or v_b * 2^a + v_a (little-endian). |
| CodecRun.IntIsBitField | runtime/c/zanbato.h:648-669 | On a byte boundary an unsigned integer of 1 to 8 bytes and a bit field of that many bits, most significant first for big-endian and least for little-endian, give the same value and position, or both fail. |
| BitSeq.ValueOfSpell | runtime/c/zanbato.h:721-817 | Reading the bits of a number gives its low bits, in both orders; the inverse pair of both codec halves. |
| BitSeq.PackOfExpand | runtime/c/zanbato.h:1114-1180 | Bytes taken apart into bits and put together again are the same bytes, in both orders. |
| BitSeq.SpelledBit | runtime/c/zanbato.h:721-817 | Bit i in reading order is the i-th from the top in big-endian and the i-th from the bottom in little-endian bit order: floor(v / 2^k) mod 2. |
| Words.ShiftsAreArithmetic | runtime/c/zanbato.h:736-737 | Shifting a 64-bit word left multiplies modulo 2^64, shifting it right divides. |
| Codec.BitReadFails | runtime/c/zanbato.h:721-817 | A bit read of an illegal width is refused without effect; with too few bits left it fails at the end of the data; otherwise it uses up exactly its width. |
| Codec.RawReadFails | runtime/c/zanbato.h:590-614 | A raw read yields the next bytes one by one, or none, and drops the pending bits in either case. |
| RoundTrip.ReadStops | runtime/c/zanbato.h:590-817 | In a list of fields the first failure ends the reading, with its error and in its state. |
| Codec.WindowBytes | runtime/c/zanbato.h:518-529 | A clamped slice has as many bytes as asked for and available, and which they are. |
| ArenaImpl.Rounded | runtime/c/zanbato.h:77-82 | The granted size is a multiple of 8 and covers the request if and only if request plus 7 does not wrap; then it is less than 8 above it. |
| ArenaImpl.RoundedWraps | runtime/c/zanbato.h:82 | A request of 2^64 - 1 bytes is granted none. |
| ArenaImpl.Arena.Alloc | runtime/c/zanbato.h:77-104 | The memory handed out covers the request if and only if none of three sums wraps: request and rounding, used and rounded size, header and capacity. If none does, over any sequence of calls blocks are 8-aligned, inside the used part of their chunk and pairwise disjoint, earlier blocks neither move nor change, and a chunk is added exactly if the newest has no room left, as large as the default or the request; for requests and chunks of real sizes none wraps. |
| ArenaImpl.Arena.Store | runtime/c/zanbato.h:284-301 | A copy into one block changes just the addressed bytes of that block and no other block. |
| ArenaImpl.Doubled | runtime/c/zanbato.h:277-280 | For needs within a buffer bound of 2^61 the new capacity is a doubling of the old one, or of 64, that suffices, is at least twice the old one, and is 64 or less than twice the need. |
| ArenaImpl.GrowthEndsIff | runtime/c/zanbato.h:277-280 | Doubling from 64 reaches the need if and only if it is at most 2^63; beyond, the capacity wraps to zero and the loop does not end. |
| ArenaImpl.Buf.Reserve | runtime/c/zanbato.h:272-291 | Afterwards there is room; contents and all blocks keep their bytes, and the storage requested so far is at most twice the capacity. |
| ArenaImpl.Buf.Append | runtime/c/zanbato.h:293-303 | Contents are the concatenation of the appends; every view taken earlier keeps its bytes; all storage ever requested is at most max(128, 4 * length). |
| ArenaImpl.Buf.ToBytes | runtime/c/zanbato.h:309-311 | The bytes handed out are the contents. |
| WriterImpl.Writer.AlignToByte | runtime/c/zanbato.h:967-984 | A partial byte is completed with zeros at its unread end, in either order; big-endian order is current afterwards unless nothing was pending. |
| Codec.AlignedValue | runtime/c/zanbato.h:967-984 | The completed byte as a number: the pending bits times 2^(8 - pending) in big-endian, and unchanged in little-endian order. |
| WriterImpl.Writer.WriteBitsBe | runtime/c/zanbato.h:1114-1153 | From any state, and for any width and value, the buffer and accumulator become those of the bit-sequence writer; an illegal width is refused without effect. |
| WriterImpl.Writer.WriteBitsLe | runtime/c/zanbato.h:1155-1180 | The same, least significant first; what the accumulator cannot hold above the pending bits is lost and reads as zero. |
| Codec.RemainderWritten | runtime/c/zanbato.h:1125-1126 | From any writer state, writing a value and writing its remainder modulo 2^width have the same effect; in little-endian order the width is cut to what the accumulator holds beside the pending bits. |
| Codec.BitWriteFails | runtime/c/zanbato.h:1115-1117 | Exactly the widths below 0 and above 64 are refused, without any effect. |
| Codec.ByteOfInt | runtime/c/zanbato.h:1013-1033 | Byte i of an integer, for any value and both byte orders: floor(v / 256^k) mod 256 with k counted from the end or the start. |
| WriterImpl.Writer.WriteBytes | runtime/c/zanbato.h:1071-1086 | Aligns, then appends exactly the bytes. |
| WriterImpl.Writer.WriteInt | runtime/c/zanbato.h:998-1033 | Aligns, then appends the bytes that spell the integer in its byte order, signed or not. |
| WriterImpl.SplitWord | runtime/c/zanbato.h:1019-1031 | The byte loop produces the bytes whose bits spell the low bits of the word. |
| WriterImpl.Writer.Finalize | runtime/c/zanbato.h:993-996 | Aligns and returns the whole buffer. |
| RoundTrip.StepBack | runtime/c/zanbato.h:721-817 | One operation keeps reader and writer in step: the reader returns what the writer kept and stands exactly behind it, at every order switch, alignment and zero-width field. |
| RoundTrip.ReadBack | runtime/c/zanbato.h:993-996 | For every list of fields, reading the written shapes succeeds, returns what the writer kept and ends at the end of the bytes. |
| RoundTrip.RoundTripIff | runtime/c/zanbato.h:1114-1180 | For every list of fields and values, the values come back if and only if each bit field has room for its value: below 2^width and, little-endian, below 2^(64 - pending). |
| RoundTrip.RemaindersReadBack | runtime/c/zanbato.h:1124-1180 | For every list of fields and whatever values: each bit field is read back as its remainder modulo 2^width (little-endian: cut beside the pending bits), all other fields as they are. |
| RoundTrip.MixedRoundTrip | kaitai/emitter/c/kst.go:135-160 | The declared purpose: for all fields whose values fit and whose little-endian widths fit beside the pending bits, write then read is the identity and ends at the end. |
| RoundTrip.NarrowFieldsFit | runtime/c/zanbato.h:1168-1169 | Little-endian fields of at most 57 bits always fit. |
| RoundTrip.WideFieldLosesBits | runtime/c/zanbato.h:1168-1169 | Seven bits followed by 64: the top bit of the second field is lost. |
| RoundTrip.IntRoundTrip | runtime/c/zanbato.h:1013-1033 | Every integer of its type is recovered from its bytes, in both byte orders. |
| CodecRun.WriteField | runtime/c/zanbato.h:998-1180 | One field on the writer object is one transition of the reference writer. |
| CodecRun.ReadField | runtime/c/zanbato.h:590-817 | One field on the stream object is one transition of the reference reader. |
| CodecRun.ReadAll | runtime/c/zanbato.h:590-817 | A list of fields on the stream object; reading stops at the first failure, in the state of the reference. |
| CodecRun.WriteAll | runtime/c/zanbato.h:998-1180 | A list of fields on the writer object. |
| CodecRun.WriteThenRead | kaitai/emitter/c/kst.go:135-160 | On the objects: write, finalize, open a stream on the bytes, read; the values come back exactly under the condition of RoundTripIff, and the stream is at its end in every case. |
| CodecRun.ReadThenWrite | kaitai/emitter/c/emit_write.go:80-91 | On the objects: read the fields and slots of a structure from any bytes, write them back, and take the writer's bytes unfinalized: exactly the consumed bytes with no bit left, if and only if each little-endian value has room, and always if the widths fit. |
| BitAlign.BitAlignSlots | kaitai/expr/engine/bit_align.go:19-62 | For all attributes: each slot returned completes a maximal run of bit fields, all of known width, to whole bytes with 1 to 7 bits; each such run that ends off a byte boundary has exactly one slot; there are no others, and they are numbered in order. |
| BitAlign.StaticBitWidth | kaitai/expr/engine/bit_align.go:64-82 | A width is known exactly for an unconditional, unrepeated bit field of 1 to 64 bits, and is the field's own. |
| BitAlign.AlignReadEndian | kaitai/emitter/c/emitter.go:1186-1205 | The order of the nearest bit field in front of the slot, or the default if there is none. |
| BitAlign.Interleave | kaitai/emitter/c/emitter.go:1152-1163 | For all attributes: the operations are the attributes in order and the slots, slot j behind the attributes in front of its place and the j slots before it, with its width and the order of the nearest bit field. |
| BitAlign.FullLayoutSeamless | kaitai/emitter/c/emit_write.go:80-91 | For unconditional fields: no bit is pending wherever an operation would skip to a byte boundary if and only if runs change their bit order on byte boundaries only; then none is pending at the end either. |
| Fidelity.StepForth | kaitai/emitter/c/emit_write.go:103-106 | Writing what was just read keeps writer and reader in step on the original bytes. |
| Fidelity.ByteExact | kaitai/expr/engine/bit_align.go:8-18 | If a structure whose runs change bit order on byte boundaries only reads values from any bytes, writing them gives back exactly the consumed bytes with no bit left pending, if and only if each little-endian value has room. |
| Fidelity.ByteExactWhenWidthsFit | kaitai/emitter/c/emit_write.go:80-91 | In particular whenever the widths fit, which is visible in the schema alone. |
| Fidelity.ExactIffTurnsOnBoundaries | kaitai/expr/engine/bit_align.go:46-59 | A structure of unconditional fields whose widths fit is given back from every data if and only if its runs change bit order on byte boundaries only; otherwise data of all ones show the difference. |
| Fidelity.MixedRunLosesBits | kaitai/expr/engine/bit_align.go:46-59 | Three big-endian bits and five little-endian ones: no slot is kept and the write leaves bits pending. |
| FixedField.WriteBytesLimit | runtime/c/zanbato.h:1088-1112 | Appends exactly `size` bytes: the value cut to size, a terminator if there is room, padding; pending bits stay where they are. |
| FixedField.EmittedBytes | runtime/c/zanbato.h:1088-1112 | Each byte of the field, also for a value that is cut or holds its own terminator. |
| FixedField.LimitAlignsIff | runtime/c/zanbato.h:1088-1112 | It equals an aligned byte write exactly when no bit is pending. |
| FixedField.LimitBytesComeFirst | runtime/c/zanbato.h:1088-1112 | With bits pending, the bytes of the field come out in front of them instead of behind. |
| FixedField.LimitMisplaced | runtime/c/zanbato.h:1088-1112 | Three bits and a limited field of one byte: the byte is written first, and the three bits read back are other ones. |
| FixedField.BytesIndex | runtime/c/zanbato.h:224-231 | The position of the first occurrence, or -1 exactly when there is none. |
| FixedField.BytesStripRight | runtime/c/zanbato.h:213-222 | The longest prefix not ending in the pad byte, with only pad bytes behind it. |
| FixedField.ReadBytesPadTerm | runtime/c/zanbato.h:919-941 | Reads `size` bytes and cuts at the first terminator, else strips padding; errors and position are those of the raw read. |
| FixedField.EvaluatorAgrees | kaitai/eval/strip.go:12-30 | On every input the evaluator's cut equals the C reader's and is a prefix of the raw bytes. |
| FixedField.FieldRoundTripIff | kaitai/emitter/c/emit_write.go:444-449 | For all values, sizes, terminators and pad bytes, with the terminator argument the emitter chooses, the value is recovered if and only if it is told from what follows it: it fits, holds no terminator (or, included, only as last byte), and where only padding or the end of the field marks its end does not end in the pad byte. |
| FixedField.FieldThroughCodec | runtime/c/zanbato.h:919-941 | Behind any writer state, a reader standing where the writer stood finds the field if no bit was pending, whatever follows, and otherwise only if the field equals the bytes one further on; found on a byte boundary, the value is recovered under the condition of FieldRoundTripIff. |
| FixedField.ShadowWrite | kaitai/emitter/c/emit_write.go:412-441 | The generated write of a field with a raw copy appends exactly the value, the terminator if the copy is short, the rest of the copy and padding; it aligns only if it writes a byte. |
| FixedField.ShadowedBytes | kaitai/emitter/c/emit_write.go:412-441 | Each byte of a field with a raw copy, for values and copies of any length. |
| FixedField.UneditedFieldIsExact | kaitai/emitter/c/emit_write.go:412-441 | For every raw field, writing the cut value over its raw copy gives back the raw bytes. |
| FixedField.EditRoundTripIff | kaitai/emitter/c/emit_write.go:412-441 | For every value set over a raw copy of any length: it is read back if and only if it fits and what follows it marks its end: a terminator, which is written only if the copy is short, the rest of the copy, and padding, none of which may be mistaken for the value or for its end. |
| FixedField.EditKeepsOldTail | kaitai/emitter/c/emit_write.go:416-422 | A one-byte value set over a full copy of three bytes without terminator is read back with the last two old bytes. |
| FixedField.ShadowedWithoutCopy | kaitai/emitter/c/emit_write.go:423-441 | Without a raw copy the bytes are those of zb_write_bytes_limit. |
| Structure.WriteField | kaitai/emitter/c/emit_write.go:396-449 | On the object: a field of a structure, plain, with a raw copy or limited, is one transition of the reference writer. |
| Structure.ReadField | kaitai/emitter/c/emitter.go:2145-2165 | On the object: the raw bytes are read, kept if the field has a copy, and stripped; one transition of the reference reader. |
| Structure.Strip | kaitai/emitter/c/emitter.go:2250-2274 | The emitted stripping is the cut of zb_read_bytes_pad_term. |
| Structure.WrittenLoweredIff | runtime/c/zanbato.h:1088-1112 | A field is written like the bytes it stores if and only if it stands on a byte boundary or aligns by itself. |
| Structure.FieldsRoundTripIff | kaitai/emitter/c/kst.go:135-160 | For every list of bit fields, integers, bytes and sized byte strings that stand on byte boundaries: reading what was written succeeds, ends at the end, and gives the values back if and only if each bit field has room and each sized value is told from what follows it, over its raw copy or without one. |
| Structure.FieldsByteExact | kaitai/emitter/c/emit_write.go:80-91 | A structure of unconditional fields, sized byte strings among them, whose runs change bit order on byte boundaries only, gives back exactly the bytes it consumed if and only if each little-endian value has room and each sized field without a raw copy had only its terminator and padding behind the value. |
| EvalNode.Node.MarkDirty | kaitai/eval/node.go:214-216 | On any symmetric graph, cycles included: terminates, and resets exactly the node and everything that reached it along deps before the call; all other nodes keep state, value and forward edges. |
| EvalNode.Node.MarkDirtyFrom | kaitai/eval/node.go:247-280 | The walk with a visited set, although edges are deleted under it: what is dirtied is the visited set, each newly visited node depended on the start, and all readers of a visited node are visited. |
| EvalNode.Node.Reset | kaitai/eval/node.go:253-275 | One node is reset and leaves the rdeps of its deps; the dependents are snapshot before. |
| EvalNode.Node.SetValue | kaitai/eval/node.go:225-245 | Exactly the values without kind, struct values and arrays are refused, without effect. Otherwise, with a fresh visited set per dependent, exactly the transitive dependents are reset and the node is Resolved with the value, also when it lies on a cycle. |
| EvalNode.DirtiedTwice | kaitai/eval/node.go:238-240 | A later walk on what an earlier walk left dirties, together with it, an upward closed set: nothing is missed because edges are already gone. |
| EvalNode.DependentsClosed | kaitai/eval/node.go:205-213 | Whoever read a dependent is a dependent. |
| EvalNode.ClosedHoldsDependents | kaitai/eval/node.go:205-213 | The dependents are the least such set. |
| EvalNode.ReadersAreDependents | kaitai/eval/node.go:231-240 | Dirtying through the direct readers reaches exactly the dependents other than the node. |
| EvalNode.DirtiedLinked | kaitai/eval/node.go:271-275 | Dirtying keeps deps and rdeps mutual inverses. |
| EvalNode.DirtiedCells | kaitai/eval/node.go:247-280 | A dirtied node is as if never resolved; of all others only rdeps change, by the dirtied nodes. |
| EvalNode.EditedCell | kaitai/eval/node.go:241-243 | An edited node is Resolved with the value and no kept struct value, and keeps its deps unless it depended on itself. |
| EvalTree.Tree.RecordDep | kaitai/eval/tree.go:78-94 | One symmetric edge from the innermost node being resolved; none without one, and none to itself. |
| EvalTree.Tree.LookupChild | kaitai/eval/runtimeref.go:95-121 | A recorded lookup: the child becomes a dep of the innermost node being resolved, unless it is that node, is resolved, and shows its cached outcome, null for a failure or no value; an unknown name is missing and changes nothing. Result and new store are those of the store function. |
| EvalTree.Tree.ReadMember | kaitai/expr/engine/evaluate.go:176-197 | A member access: what a lasting struct value remembers is answered without lookup, edge or change; any other member is a recorded lookup, and is remembered afterwards if it was found. |
| EvalTree.Tree.Look | kaitai/eval/value.go:67-82 | What a resolved node shows: null for a failure or no value, else the cached value, with the struct value it keeps. |
| EvalTree.Tree.OnResolve | kaitai/eval/bridge.go:116-150 | The lookup of a bare identifier: null and no change for a node being resolved; otherwise the child's outcome, and the deps of the innermost node being resolved stay. |
| EvalTree.Tree.Resolve | kaitai/eval/node.go:125-133 | A settled node answers from its cache without any change; in every case the node ends settled, everything else only advances, the stack is restored, and the store is that of the store function. |
| EvalTree.Tree.ResolveNode | kaitai/eval/resolve.go:14-45 | On any graph, cyclic or not, and for a node in any state: terminates, restores the stack, and leaves the store of the store function; a settled node is left alone, one met while it is being resolved becomes a cycle error. |
| EvalTree.Tree.ResolveInstance | kaitai/eval/resolve.go:185-207 | Running an expression whose members and bare identifiers resolve other nodes, on any graph: what remains to be stored completes the store of the store function. |
| EvalTree.Tree.Evaluate | kaitai/expr/engine/evaluate.go:22-28 | Every lookup is made in order on the store its predecessors left; the result is stored, and a struct value that is returned lasts from then on with what it and its parents remember. |
| EvalTree.Tree.LookUp | kaitai/expr/engine/evaluate.go:60-197 | A bare identifier is an unrecorded lookup, a member a recorded or remembered one. A member is missing without lookup exactly where its name is unknown, or its struct value is not what an earlier lookup showed, or has fewer parents than asked for: through scopes and their parents it is always looked up. |
| EvalTree.ResolveForm | kaitai/eval/resolve.go:14-45 | On any graph: the node ends settled; settled nodes keep result, struct value and edges; nodes being resolved keep their edges and at most become cycle errors; edges stay symmetric. |
| EvalTree.ResultRemembers | kaitai/expr/engine/evaluate.go:190-195 | A struct value that an evaluation made and returns remembers the members found through it. |
| EvalTree.ParentsRemember | kaitai/eval/bridge.go:80-90 | So do its parents, and whoever reads through a parent of the kept struct value later is given what they remember. |
| EvalTree.MembersRemember | kaitai/expr/engine/evaluate.go:190-195 | And so does a struct value found through it, for the members found through that one. |
| EvalScratch.OutcomeOfLookups | kaitai/expr/engine/evaluate.go:22-28 | Evaluation from scratch: for every history in which each lookup shows what its target evaluates to (null for a failure or no value, missing exactly for unknown names and for members of what is no struct value with that many parents), the outcome is the one the expression states behind it. |
| EvalScratch.LookupsExist | kaitai/expr/engine/evaluate.go:22-28 | Such a history always exists, up to the end of the expression. |
| EvalScratch.NotResting | kaitai/eval/node.go:205-213 | The from-scratch outcome of a node whose evaluation does not look a leaf up, directly or through others, does not change with that leaf. |
| EvalTold.ResolveTells | kaitai/eval/resolve.go:14-45 | If lookups are acyclic: however a resolution nests, every node it settles gets the outcome that the store it started from tells, from caches, kept struct values and what these remember; no node is reported as a cycle, and what struct values remember in the meantime is as told. |
| EvalCorrect.TellsScratch | kaitai/eval/value.go:67-82 | If caches and memories are right, what is told is what evaluation from scratch gives, whether or not lookups leave edges. |
| EvalCorrect.LookShowsTarget | kaitai/eval/runtimeref.go:95-121 | While a value instance is evaluated from right caches and memories, each of its lookups on the store shows what its target is from scratch, and is missing in the same cases only. |
| EvalCorrect.FirstMemberRead | kaitai/eval/runtimeref.go:95-121 | In a right tree, such as a fresh one, the first member read through a scope or one of its parents shows its from-scratch outcome, and leaves the edge. |
| EvalCorrect.DemandUpToDateIff | kaitai/expr/engine/evaluate.go:176-197 | A demand on right caches leaves every settled node right if and only if each node it settles is told its from-scratch outcome: only what struct values remember can mislead it. |
| EvalCorrect.DemandKeepsRight | kaitai/eval/resolve.go:14-45 | If memories are right too, a demand keeps caches and memories right, answers with the from-scratch outcome and changes no leaf. |
| EvalCorrect.StepUpToDateIff | kaitai/eval/node.go:218-280 | After one command every settled node holds its from-scratch outcome if and only if the command was covered: an edit or dirtying resets or sets every settled node whose from-scratch outcome it changes, a demand settles only nodes that are told right. |
| EvalCorrect.AlwaysUpToDateIff | kaitai/eval/node.go:218-280 | Over any interleaving of demands, edits of leaves and dirtyings, every settled node is right after every command if and only if each command was covered when it was issued. |
| EvalCorrect.EditCovered | kaitai/eval/node.go:205-213 | An edit of a leaf is covered if every settled node whose evaluation looks the leaf up, directly or through others, is among its transitive readers. |
| EvalDiscipline.ResolveFine | kaitai/eval/tree.go:78-94 | Under the discipline a resolution keeps the deps of settled value instances between their members that may change and all their members, and lets struct values remember only what no command changes. |
| EvalDiscipline.Unaffected | kaitai/eval/node.go:205-216 | Under the discipline an edit changes neither outcome nor members read of a settled node outside the dirtied set. |
| EvalDiscipline.StepKeepsConsistent | kaitai/eval/node.go:205-245 | Under the discipline each command keeps caches, edges and memories right. |
| EvalDiscipline.DisciplinedRun | kaitai/eval/node.go:205-245 | If each bare identifier names a node no command changes, or one the same evaluation also reads as a member, and each member read through a struct value that an instance keeps or returns is one no command changes, then all caches are right after every command of any run. |
| EvalDiscipline.FreshTree | kaitai/eval/tree.go:96-98 | A tree in which nothing is resolved satisfies what such a run starts from. |
| EvalDiscipline.Answer | kaitai/eval/node.go:123-141 | On the objects: if lookups are acyclic and caches and memories right, resolving a node yields its from-scratch outcome, error included, keeps everything right and changes no leaf. |
| EvalDiscipline.Run | kaitai/eval/node.go:218-280 | On the objects: any interleaving of resolutions, edits of leaves and dirtyings takes the tree through the stores of the command function. |
| EvalExamples.StaleCache | kaitai/eval/bridge.go:116-150 | A leaf `val` and the instance `val << 4`, resolved, and `val` set to 5: the instance stays Resolved with the value of the old number. |
| EvalExamples.FreshCache | kaitai/eval/runtimeref.go:101-121 | With `_root.val << 4` the same edit resets the instance. |
| EvalExamples.StaleMember | kaitai/eval/value.go:73-76 | The instances `r: _root` and `a: r.val`, `a` resolved, `val` set to 5, `a` demanded again: `a` was reset, and is Resolved with the old number, which the struct value that `r` keeps remembers. |
| EvalExamples.BuildCycle | kaitai/eval/resolve.go:21-25 | Two instances that read each other, built and resolved: both end in an error, with an edge either way and an empty stack. |
| EvalExamples.CycleMet | kaitai/eval/resolve.go:21-25 | On that cycle the inner read stores the cycle error in the outer node and sees null. |
| ExprGrammar.Parse | kaitai/expr/expr.go:707-1029 | Every successful call consumes at least one character, so the recursion, always on shorter text, ends on every input. |
| ExprGrammar.NextInfix | kaitai/expr/expr.go:871-1022 | An operator is taken only at or below its level, and a comparison only if the call has taken none. |
| ExprParser.Parser.Expr | kaitai/expr/expr.go:707-1029 | On every input the parser object returns what the grammar says and stops where it says, or fails with it; position plus remaining length is constant. |
| ExprParser.Parser.PrimaryExpr | kaitai/expr/expr.go:707-802 | The same for primary expressions and prefix operators. |
| ExprParser.Parser.PostfixOp | kaitai/expr/expr.go:807-870 | The same for one postfix operator. |
| ExprParser.Parser.InfixOp | kaitai/expr/expr.go:871-1014 | The same for the choice of the infix operator at a depth; nothing is consumed if none is taken. |
| ExprParser.Parser.ArrayLiteral | kaitai/expr/expr.go:662-690 | The same for array literals, with a trailing comma allowed. |
| ExprParser.Parser.ParseNumber | kaitai/expr/expr.go:518-594 | On every input the integer literal that the grammar finds, and its end. |
| ExprNumber.PrefixedNumber | kaitai/expr/expr.go:522-547 | For every n, every prefix 0x, 0o, 0b in either case, and every text that spells n in that base, digits in either case and underscores anywhere: the whole text is n; without any digit it is an error. |
| ExprNumber.OctalNumber | kaitai/expr/expr.go:588-593 | A leading zero means octal, for every spelling, and 0 alone is zero. |
| ExprNumber.NoOctalNumber | kaitai/expr/expr.go:588-593 | A digit 8 or 9 behind a leading zero is an error. |
| ExprNumber.DecimalNumber | kaitai/expr/expr.go:588-593 | Any other spelling is decimal, underscores anywhere behind the first digit. |
| ExprParser.Parser.ConsumeKeyword | kaitai/expr/expr.go:410-425 | A keyword is taken exactly when the text starts with it and no identifier character follows. |
| ExprParser.Parser.Token | kaitai/expr/expr.go:427-434 | The longest prefix passing the test. |
| ExprParser.ParseText | kaitai/expr/expr.go:326-346 | Success means no text is left over; empty text is no expression; a parse that meets a string or floating point literal is reported apart from failures. |
| ExprRoundTrip.ParserUndoesPrinter | kaitai/expr/expr.go:61-346 | For every well-formed tree, parsing its printed form succeeds, consumes everything and yields the tree. |
| ExprRoundTrip.RoundTripIffWellFormed | kaitai/expr/expr.go:61-346 | Among all trees, a tree comes back from its printed form if and only if it is well-formed: names and type names are lexed as such, operands of postfix nodes are primary or postfix, and no integer literal swallows the point behind it. |
| ExprRoundTrip.PrintedIsReread | kaitai/expr/expr.go:61-346 | What every lexical tree is read as: postfix operators printed behind an operator node go to its last operand, also in chains and inside arguments; or the text holds a floating point literal. |
| ExprRoundTrip.ParseLexical | kaitai/expr/expr.go:707-1029 | Every tree the parser yields is lexical. |
| ExprRoundTrip.PrinterInjective | kaitai/expr/expr.go:61-323 | Well-formed trees that print alike are equal. |
| ExprRoundTrip.MovedParses | kaitai/expr/expr.go:308-311 | A member access on a unary, binary or ternary tree is read back as one on its last operand. |
| ExprRoundTrip.MemberRoundTripIff | kaitai/expr/expr.go:308-311 | It is read back as written if and only if its operand is a primary or postfix tree and, if an integer literal, does not swallow the point. |
| ExprRoundTrip.PostfixRoundTripIff | kaitai/expr/expr.go:156-186 | A cast, scope, call or subscript on a well-formed tree is read back as written if and only if that tree is primary or postfix. |
| ExprChain.CharacterClasses | kaitai/expr/expr.go:358-372 | Which characters make up names, numbers and whitespace, within ASCII. |
| ExprChain.OperatorSpellings | kaitai/expr/expr.go:871-1008 | How each operator is spelled. |
| ExprChain.PrecedenceTable | kaitai/expr/expr.go:692-705 | Which operators share a level, and the order of the levels. |
| ExprChain.ParseIsClimb | kaitai/expr/expr.go:707-1011 | On the text of a chain of terms with any prefixes and any whitespace, a call of expr at any depth is precedence climbing on the links. |
| ExprChain.TailIsClimb | kaitai/expr/expr.go:803-1011 | The same for its operator loop. |
| ExprChain.ClimbIsShaped | kaitai/expr/expr.go:803-1011 | If every comparison has a place, climbing yields a tree of the precedence table over the operators and operands it took. |
| ExprChain.ClimbComplete | kaitai/expr/expr.go:692-1011 | Climbing the operators and operands of any tree of the precedence table yields that tree. |
| ExprChain.ShapedUnique | kaitai/expr/expr.go:692-705 | There is at most one such tree per chain. |
| ExprChain.PrecedenceAndAssociativity | kaitai/expr/expr.go:692-1011 | A chain with any prefixes parses to the tree in which right children bind strictly tighter, left children at least as tightly (strictly for comparisons), `-` and `~` apply to the one operand behind them, `+` leaves no trace, and `not` applies to all behind it down to one comparison. |
| ExprChain.ChainShapedIff | kaitai/expr/expr.go:707-1011 | A chain parses to such a tree if and only if each comparison has a place: one behind each `and` or `or`, and one in the operand of each `not`. |
| ExprChain.PrefixReach | kaitai/expr/expr.go:789-799 | `- a + b` negates a, `not a == b` negates the comparison, `+ a * b` is the product, for all operands. |
| ExprChain.ChainedComparisonEscapes | kaitai/expr/expr.go:949-1001 | `a and b == c == d` is accepted with the second comparison at the root. |
| ExprNesting.TernaryParses | kaitai/expr/expr.go:1012-1022 | The whole chain in front of a question mark is the condition, and both branches extend as far as they can, also over further ternaries. |
| ExprNesting.ArrayParses | kaitai/expr/expr.go:662-690 | An array literal holds its items, any expressions in any whitespace, with or without a comma behind the last one. |
| ExprNesting.CallParses | kaitai/expr/expr.go:842-861 | A call holds its arguments; a comma behind the last one is an error. |
| ExprNesting.BracketsParse | kaitai/expr/expr.go:862-868 | A subscript and a group hold any expression. |
| ExprNesting.SingleForms | kaitai/expr/expr.go:723-841 | Booleans, names, sizes, members, scopes and casts, by their text. |
| ExprNesting.OpenTypeFails | kaitai/expr/expr.go:738-752 | A type name without its closing bracket is an error. |
| ExprNesting.WordBehindFails | kaitai/expr/expr.go:410-425 | Any word behind an operand is an error, also one that only starts like an operator. |
| ExprNesting.LiteralsOutside | kaitai/expr/expr.go:549-586 | String literals, f-strings and numbers with a point or an exponent lead to the outcome reserved for them. |
| IntText.IntToText | runtime/c/zanbato.h:1602-1626 | For every 64-bit integer and every base argument: the index stays in the 68-byte buffer, at most 65 characters, a sign exactly for negative numbers, no spare leading zero, and folding the digits with the sign gives the number. |
| IntText.DigitTable | runtime/c/zanbato.h:1616 | The digits of all bases: 0 to 9, then a to z. |
| FloorDivision.FloorDivision | runtime/c/zanbato.h:1628-1642 | For b not 0 (and not INT64_MIN / -1): a = b * q + r with r zero or of b's sign and smaller than b in magnitude, both within 64 bits, and the Go emitter's remainder formula gives the same. |
| FloorDivision.FloorUnique | kaitai/emitter/golang/expression.go:750-755 | No other quotient and remainder satisfy these conditions. |
| Utf8.CharCount | runtime/c/zanbato.h:1477-1503 | On any bytes, the number of steps the walk takes. |
| Utf8.CountOfSteps | runtime/c/zanbato.h:1477-1503 | For any bytes, cut into steps as long as the leading bits of their first bytes announce (the last one perhaps shorter): the count is the number of steps, and step k starts behind the first k. |
| Utf8.StepsExist | runtime/c/zanbato.h:1477-1503 | Any bytes have such a cut. |
| Utf8.CountOfValid | runtime/c/zanbato.h:1477-1503 | On valid UTF-8 (section 3 of RFC 3629) that is the number of code points. |
| Utf8.Substring | runtime/c/zanbato.h:1545-1589 | On any bytes, the bytes between the starts of the two steps; empty if the end precedes the start. |
| Utf8.SubstringsJoin | runtime/c/zanbato.h:1545-1589 | On any bytes, the substrings i..j and j..k concatenate to i..k. |
| Utf8.SubstringOfValid | runtime/c/zanbato.h:1545-1589 | On valid text, exactly the code points i to j. |
| Utf8.Reverse | runtime/c/zanbato.h:1505-1543 | On any bytes the output buffer is filled exactly. |
| Utf8.ReversedCases | runtime/c/zanbato.h:1515-1540 | On any bytes reversal takes a whole character off the end, a first byte with exactly the continuation bytes it announces, and a single byte where the text does not end in one. |
| Utf8.ReverseOfValid | runtime/c/zanbato.h:1505-1543 | On valid text, the code points in backward order. |
| Utf8.ReverseTwice | runtime/c/zanbato.h:1505-1543 | On valid text reversal is its own inverse and keeps the character count. |
| Utf8.ReverseTwiceIff | runtime/c/zanbato.h:1505-1543 | On any bytes reversal is its own inverse if and only if no first byte on its own stands behind as many continuation bytes on their own as it announces. |
| Utf8.ReverseNotInvolutive | runtime/c/zanbato.h:1512-1535 | On invalid bytes it need not be. |

## Left out

- File streams, compression, character-set conversion, floating point fields, `zb_int_to_s` and number parsing by the C library: foreign calls.
- Allocation failure: memory is taken to suffice. Objects in memory, and with them the data of a stream, are at most PTRDIFF_MAX bytes, so the overflow return inside `zb_write_bits_be` is not modelled either.
- Terminated reads without a size (`zb_read_bytes_term`), multi-byte terminators, the byte-string processing functions, debug positions: independent of the properties proved.
- The text the emitters produce; only the order of reads and writes and the writes for fixed-size bytes are modelled. Attributes that are absent in a sequence are not modelled.
- Fidelity.ByteExact: attributes with a condition or repetition are excluded, because `BitAlignSlots` keeps no slot in their runs.
- ArenaImpl.Buf.Append: buffers stay within 2^61 bytes, so that their own sums do not wrap; where the growth loop would fail is `ArenaImpl.GrowthEndsIff`. Writer methods ask for that room.
- StreamImpl.Stream.ReadRawBytes: what a copy from beyond the window yields is undefined in C; the model stops there with a mark.
- Structure.FieldsRoundTripIff: sized byte strings written by `zb_write_bytes_limit` off a byte boundary are excluded; what happens to them there is `FixedField.LimitBytesComeFirst`.
- FixedField.ShadowWrite: the variant for repeated fields is the same code in a loop and is not modelled separately.
- EvalCorrect.AlwaysUpToDateIff: edits are on leaves and lookups are acyclic. An edited value instance keeps its override only until something it read changes, so it has no from-scratch value; cyclic lookups are covered by termination, `EvalTree.ResolveForm` and `MarkDirty`.
- EvalDiscipline.DisciplinedRun: the discipline suffices but is not necessary, as an expression may ignore what it looks up; the exact condition per command is `EvalCorrect.StepUpToDateIff`.
- EvalTree.Tree.ResolveInstance: an expression is an arbitrary deterministic reader of other nodes, making at most a given number of lookups; exceeding it is an error of the model only. The kind of a node's value and the struct value that `exprVal` keeps stand for both fields. The enum mapping, the values kept on the stack of one evaluation, `if` conditions of instances and the separate failure of converting a node to an expression value are folded into the expression.
- EvalTree.Tree.ReadMember: the elements of an array that an instance keeps remember members in the same way; arrays and subscripts are not modelled. Type-level fallbacks of a member access read no node.
- EvalTree.Tree.ResolveLeaf: what the stream says about a leaf is a parameter. Lazy reading of sequence fields, arrays and type switches creates nodes during resolution and reads positions without edges; `Invalidate`, `SetStream`, spans and byte ranges belong to it.
- `LookupIndex`, `_io`, `_sizeof`, parameters, opaque types and the depth guard of nested evaluation.
- ExprRoundTrip.ParserUndoesPrinter: string, f-string and floating point literals, negative integer nodes and identifiers outside ASCII are not in the tree type. The type name of a cast or size is kept as text.
- ExprParser.ParseText: texts with string, f-string or floating point literals end in an outcome of their own instead of a tree.
- ExprParser.Parser.Expr: the same literals end the parse with an error kind of their own.
- ExprParser.Parser.PrimaryExpr: as `ExprParser.Parser.Expr`.
- ExprGrammar.Parse: as `ExprParser.Parser.Expr`.
- ExprChain.PrecedenceAndAssociativity: operands are any well-formed primary or postfix trees; in the statement whitespace stands around `and` and `or`, behind `not` and in front of `<`, `<=` and `<<`, elsewhere it may.
- ExprParser.Parser.ParseNumber: floating point literals end in an error kind of their own; conversion of digit strings by the big-integer library is the usual positional reading.
- FloorDivision.FloorDivision: division by zero and INT64_MIN / -1 are undefined in C.
