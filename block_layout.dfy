/**
 * Decoding of a block's captured-variable layout (libclosure's extended
 * layout, with the opcode semantics of clang's CGObjCMac.cpp).
 *
 * A layout word below 0x1000 is the compact form 0xXYZ; any other value
 * points to a byte string of 0xPN instructions. Either way the result is the
 * list of pointer-sized slots the block captured, each classed by how the
 * block holds it, at byte offsets from the start of the block literal.
 */
module BlockLayout {
  import opened Wrappers
  import opened BlockAbi

  /** How a captured word is held by the block. */
  datatype Capture = Strong | Byref | Weak | Unretained | UnknownOwnership

  /** One pointer-sized captured slot, at a byte offset from the start of the block. */
  datatype Slot = Slot(offset: nat, capture: Capture)

  /** Only strong and `__block` captures keep their referent alive. */
  predicate Retaining(c: Capture) {
    c == Strong || c == Byref
  }

  /** `count` consecutive words of one kind starting at `offset`. */
  function Run(offset: nat, count: nat, c: Capture): seq<Slot> {
    seq(count, j requires 0 <= j < count => Slot(offset + j * WordSize, c))
  }

  /** The byte offsets of `count` consecutive words starting at `offset`. */
  function WordOffsets(offset: nat, count: nat): seq<nat> {
    seq(count, k requires 0 <= k < count => offset + k * WordSize)
  }

  /** Layout words below this value are compact 0xXYZ encodings. */
  const CompactLimit: nat := 0x1000

  function CompactStrongCount(w: nat): nat { (w / 256) % 16 }
  function CompactByrefCount(w: nat): nat { (w / 16) % 16 }
  function CompactWeakCount(w: nat): nat { w % 16 }

  /** 0xXYZ: X strong words, then Y byref words, then Z weak words, right after the header. */
  function CompactSlots(w: nat): seq<Slot> {
    var x, y, z := CompactStrongCount(w), CompactByrefCount(w), CompactWeakCount(w);
    Run(HeaderSize, x, Strong)
    + Run(HeaderSize + x * WordSize, y, Byref)
    + Run(HeaderSize + (x + y) * WordSize, z, Weak)
  }

  /** Whether a layout byte stops interpretation (ESCAPE, or a reserved operator 0xB..0xF). */
  predicate Halts(b: Byte) {
    Operator(b) == 0 || Operator(b) >= 0xB
  }

  /**
   * The words one instruction 0xPN describes, starting at `offset`: N+1 words
   * of the operator's kind. NON_OBJECT_BYTES and NON_OBJECT_WORDS describe no
   * pointer, and ESCAPE and the reserved operators describe nothing.
   */
  function InstructionSlots(b: Byte, offset: nat): seq<Slot> {
    var n := Immediate(b) + 1;
    match OpcodeOf(Operator(b))
    case StrongWords => Run(offset, n, Strong)
    case ByrefWords => Run(offset, n, Byref)
    case WeakWords => Run(offset, n, Weak)
    case UnretainedWords => Run(offset, n, Unretained)
    case UnknownWords(_) => Run(offset, n, UnknownOwnership)
    case _ => []
  }

  /** Where the next instruction starts: I+1 bytes further for NON_OBJECT_BYTES, I+1 words for the others. */
  function NextOffset(b: Byte, offset: nat): nat {
    var n := Immediate(b) + 1;
    if Operator(b) == 1 then offset + n else offset + n * WordSize
  }

  /**
   * The slots described by a layout byte string, starting at byte `offset`.
   * Every instruction 0xPN covers N+1 units: bytes for NON_OBJECT_BYTES, words
   * for all the others. ESCAPE (whatever N) and the reserved operators halt;
   * the end of the string halts as its terminating 0x00 would.
   */
  function StreamSlots(bytes: seq<Byte>, offset: nat): seq<Slot>
    decreases |bytes|
  {
    if bytes == [] || Halts(bytes[0]) then []
    else InstructionSlots(bytes[0], offset) + StreamSlots(bytes[1..], NextOffset(bytes[0], offset))
  }

  /** The retained offsets one non-halting instruction contributes: its I+1 words when strong or byref. */
  function InstructionOffsets(b: Byte, offset: nat): seq<nat> {
    if Operator(b) == 3 || Operator(b) == 4 then WordOffsets(offset, Immediate(b) + 1) else []
  }

  /** The slots described by the layout field, compact or extended. */
  function LayoutSlots(layoutWord: nat, layoutBytes: seq<Byte>): seq<Slot> {
    if layoutWord < CompactLimit then CompactSlots(layoutWord)
    else StreamSlots(layoutBytes, HeaderSize)
  }

  /** Offsets of the retaining slots, in layout order. */
  function RetainedOffsets(slots: seq<Slot>): seq<nat> {
    if slots == [] then []
    else (if Retaining(slots[0].capture) then [slots[0].offset] else []) + RetainedOffsets(slots[1..])
  }

  /**
   * The offsets of the words a block retains, or None when the block has no
   * extended layout to read. `descriptorWord(k)` is the k-th word of the
   * block's descriptor; `layoutBytes` is the string the layout field points
   * to when that field is 0x1000 or more.
   */
  function BlockStrongLayout(flags: bv32, descriptorWord: nat -> nat, layoutBytes: seq<Byte>): Option<seq<nat>> {
    if LayoutEncodingOf(flags) != Some(ExtendedLayout) then None
    else
      ExtendedLayoutNeedsBothBits(flags);
      Some(RetainedOffsets(LayoutSlots(descriptorWord(LayoutFieldIndex(flags).value), layoutBytes)))
  }

  // ---------------------------------------------------------------------
  // Properties of the decoder

  lemma {:induction false} RetainedOffsetsAppend(a: seq<Slot>, b: seq<Slot>)
    ensures RetainedOffsets(a + b) == RetainedOffsets(a) + RetainedOffsets(b)
  {
    if a == [] {
      assert a + b == b;
    } else {
      var head := if Retaining(a[0].capture) then [a[0].offset] else [];
      assert (a + b)[0] == a[0];
      assert (a + b)[1..] == a[1..] + b;
      assert RetainedOffsets(a + b) == head + RetainedOffsets(a[1..] + b);
      RetainedOffsetsAppend(a[1..], b);
      assert RetainedOffsets(a) == head + RetainedOffsets(a[1..]);
    }
  }

  /** A run contributes all of its words when it is retaining and none otherwise. */
  lemma {:induction false} RetainedOffsetsOfRun(offset: nat, count: nat, c: Capture)
    ensures RetainedOffsets(Run(offset, count, c)) ==
      if Retaining(c) then WordOffsets(offset, count) else []
    decreases count
  {
    if count > 0 {
      RunTail(offset, count, c);
      RetainedOffsetsOfRun(offset + WordSize, count - 1, c);
      if Retaining(c) {
        WordOffsetsTail(offset, count);
      }
    }
  }

  /** The word after word `j` of a run is word `j` of the run one word further on. */
  lemma NextWord(offset: nat, j: nat)
    ensures offset + (j + 1) * WordSize == offset + WordSize + j * WordSize
  {
    assert WordSize == 8;
  }

  lemma RunTail(offset: nat, count: nat, c: Capture)
    requires count > 0
    ensures Run(offset, count, c)[1..] == Run(offset + WordSize, count - 1, c)
  {
    forall j | 0 <= j < count - 1
      ensures Run(offset, count, c)[1..][j] == Run(offset + WordSize, count - 1, c)[j]
    {
      NextWord(offset, j);
    }
  }

  lemma WordOffsetsTail(offset: nat, count: nat)
    requires count > 0
    ensures [offset] + WordOffsets(offset + WordSize, count - 1) == WordOffsets(offset, count)
  {
    forall j | 1 <= j < count
      ensures WordOffsets(offset, count)[j] == WordOffsets(offset + WordSize, count - 1)[j - 1]
    {
      NextWord(offset, j - 1);
    }
  }

  /**
   * An offset is reported exactly when some slot at that offset is strong
   * or byref: weak, unretained and unknown words never are.
   */
  lemma {:induction false} RetainedOffsetsAreRetainingSlots(slots: seq<Slot>, o: nat)
    ensures o in RetainedOffsets(slots) <==>
      exists k :: 0 <= k < |slots| && slots[k].offset == o && Retaining(slots[k].capture)
    ensures |RetainedOffsets(slots)| <= |slots|
  {
    if slots != [] {
      RetainedOffsetsAreRetainingSlots(slots[1..], o);
      if o in RetainedOffsets(slots[1..]) {
        var k :| 0 <= k < |slots[1..]| && slots[1..][k].offset == o && Retaining(slots[1..][k].capture);
        assert slots[k + 1] == slots[1..][k];
      }
      if exists k :: 0 <= k < |slots| && slots[k].offset == o && Retaining(slots[k].capture) {
        var k :| 0 <= k < |slots| && slots[k].offset == o && Retaining(slots[k].capture);
        if k > 0 {
          assert slots[1..][k - 1] == slots[k];
        }
      }
    }
  }

  /** Slots are disjoint words laid out in increasing order, none before `start`. */
  predicate WellOrdered(slots: seq<Slot>, start: nat) {
    && (forall k :: 0 <= k < |slots| ==> start <= slots[k].offset)
    && (forall i, j :: 0 <= i < j < |slots| ==> slots[i].offset + WordSize <= slots[j].offset)
  }

  predicate StrictlyIncreasing(s: seq<nat>) {
    forall i, j :: 0 <= i < j < |s| ==> s[i] < s[j]
  }

  lemma RunWellOrdered(offset: nat, count: nat, c: Capture)
    ensures WellOrdered(Run(offset, count, c), offset)
    ensures forall k :: 0 <= k < count ==> Run(offset, count, c)[k].offset + WordSize <= offset + count * WordSize
  {
  }

  lemma WellOrderedAppend(a: seq<Slot>, b: seq<Slot>, start: nat, mid: nat)
    requires WellOrdered(a, start) && WellOrdered(b, mid) && start <= mid
    requires forall k :: 0 <= k < |a| ==> a[k].offset + WordSize <= mid
    ensures WellOrdered(a + b, start)
  {
  }

  /**
   * The stream is consumed sequentially: every slot lies at or after the
   * starting offset and each begins after the previous one ends.
   */
  lemma {:induction false} StreamSlotsWellOrdered(bytes: seq<Byte>, offset: nat)
    ensures WellOrdered(StreamSlots(bytes, offset), offset)
    decreases |bytes|
  {
    if bytes != [] && !Halts(bytes[0]) {
      var b := bytes[0];
      var next := NextOffset(b, offset);
      StreamSlotsWellOrdered(bytes[1..], next);
      InstructionSlotsWellOrdered(b, offset);
      WellOrderedAppend(InstructionSlots(b, offset), StreamSlots(bytes[1..], next), offset, next);
    }
  }

  /** One instruction's words are ordered and end where the next instruction starts. */
  lemma InstructionSlotsWellOrdered(b: Byte, offset: nat)
    ensures WellOrdered(InstructionSlots(b, offset), offset) && offset <= NextOffset(b, offset)
    ensures forall k :: 0 <= k < |InstructionSlots(b, offset)| ==>
      InstructionSlots(b, offset)[k].offset + WordSize <= NextOffset(b, offset)
  {
    var n := Immediate(b) + 1;
    match OpcodeOf(Operator(b))
    case StrongWords => RunWellOrdered(offset, n, Strong);
    case ByrefWords => RunWellOrdered(offset, n, Byref);
    case WeakWords => RunWellOrdered(offset, n, Weak);
    case UnretainedWords => RunWellOrdered(offset, n, Unretained);
    case UnknownWords(_) => RunWellOrdered(offset, n, UnknownOwnership);
    case _ =>
  }

  lemma CompactSlotsWellOrdered(w: nat)
    ensures WellOrdered(CompactSlots(w), HeaderSize)
  {
    var x, y, z := CompactStrongCount(w), CompactByrefCount(w), CompactWeakCount(w);
    var a := Run(HeaderSize, x, Strong);
    var b := Run(HeaderSize + x * WordSize, y, Byref);
    var c := Run(HeaderSize + (x + y) * WordSize, z, Weak);
    RunWellOrdered(HeaderSize, x, Strong);
    RunWellOrdered(HeaderSize + x * WordSize, y, Byref);
    RunWellOrdered(HeaderSize + (x + y) * WordSize, z, Weak);
    WellOrderedAppend(b, c, HeaderSize + x * WordSize, HeaderSize + (x + y) * WordSize);
    WellOrderedAppend(a, b + c, HeaderSize, HeaderSize + x * WordSize);
    assert CompactSlots(w) == a + (b + c);
  }

  lemma {:induction false} RetainedOffsetsOfWellOrdered(slots: seq<Slot>, start: nat)
    requires WellOrdered(slots, start)
    ensures StrictlyIncreasing(RetainedOffsets(slots))
    ensures forall o :: o in RetainedOffsets(slots) ==> start <= o
  {
    if slots != [] {
      assert WellOrdered(slots[1..], start);
      RetainedOffsetsOfWellOrdered(slots[1..], start);
      forall o | o in RetainedOffsets(slots[1..])
        ensures slots[0].offset < o
      {
        RetainedOffsetsAreRetainingSlots(slots[1..], o);
        var k :| 0 <= k < |slots[1..]| && slots[1..][k].offset == o && Retaining(slots[1..][k].capture);
        assert slots[1..][k] == slots[k + 1];
      }
      var tail := RetainedOffsets(slots[1..]);
      var head := if Retaining(slots[0].capture) then [slots[0].offset] else [];
      assert RetainedOffsets(slots) == head + tail;
      forall i, j | 0 <= i < j < |head + tail|
        ensures (head + tail)[i] < (head + tail)[j]
      {
        if i < |head| {
          assert (head + tail)[j] == tail[j - |head|];
          assert tail[j - |head|] in tail;
        }
      }
    }
  }

  /**
   * A block's reported offsets all lie past the header and come out strictly
   * increasing, and there is a result exactly when an extended layout exists.
   */
  lemma BlockStrongLayoutShape(flags: bv32, descriptorWord: nat -> nat, layoutBytes: seq<Byte>)
    ensures BlockStrongLayout(flags, descriptorWord, layoutBytes).Some?
        <==> HasFlag(flags, HasSignature) && HasFlag(flags, HasExtendedLayout)
    ensures BlockStrongLayout(flags, descriptorWord, layoutBytes).Some? ==>
      var offsets := BlockStrongLayout(flags, descriptorWord, layoutBytes).value;
      StrictlyIncreasing(offsets) && forall o :: o in offsets ==> HeaderSize <= o
  {
    ExtendedLayoutNeedsBothBits(flags);
    if LayoutEncodingOf(flags) == Some(ExtendedLayout) {
      var w := descriptorWord(LayoutFieldIndex(flags).value);
      if w < CompactLimit {
        CompactSlotsWellOrdered(w);
      } else {
        StreamSlotsWellOrdered(layoutBytes, HeaderSize);
      }
      RetainedOffsetsOfWellOrdered(LayoutSlots(w, layoutBytes), HeaderSize);
    }
  }

  /** Nothing after a halting byte is ever interpreted: the rest of the block is opaque. */
  lemma {:induction false} HaltIgnoresRest(prefix: seq<Byte>, h: Byte, rest: seq<Byte>, offset: nat)
    requires Halts(h)
    ensures StreamSlots(prefix + [h] + rest, offset) == StreamSlots(prefix + [h], offset)
    decreases |prefix|
  {
    if prefix == [] {
      assert ([h] + rest)[0] == h && [h][0] == h;
    } else {
      assert (prefix + [h] + rest)[0] == prefix[0] && (prefix + [h])[0] == prefix[0];
      if !Halts(prefix[0]) {
        assert (prefix + [h] + rest)[1..] == prefix[1..] + [h] + rest;
        assert (prefix + [h])[1..] == prefix[1..] + [h];
        HaltIgnoresRest(prefix[1..], h, rest, NextOffset(prefix[0], offset));
      }
    }
  }

  /** The one-byte instruction for `count` words of operator `p`, or nothing for zero words. */
  function Group(p: nat, count: nat): seq<Byte>
    requires p < 16 && count <= 16
  {
    if count == 0 then [] else [LayoutByte(p, count - 1)]
  }

  /** The byte string that spells out a compact 0xXYZ layout. */
  function CompactAsStream(w: nat): seq<Byte> {
    Group(3, CompactStrongCount(w)) + Group(4, CompactByrefCount(w)) + Group(5, CompactWeakCount(w)) + [0]
  }

  /** A string that starts with a non-halting byte: that instruction, then the rest from where it ends. */
  lemma StreamSlotsCons(b: Byte, rest: seq<Byte>, offset: nat)
    requires !Halts(b)
    ensures StreamSlots([b] + rest, offset) == InstructionSlots(b, offset) + StreamSlots(rest, NextOffset(b, offset))
  {
    assert ([b] + rest)[0] == b && ([b] + rest)[1..] == rest;
  }

  /** A strong, byref or weak instruction at the head of the string: its N+1 words, then the rest. */
  lemma WordInstructionSlots(b: Byte, n: nat, c: Capture, rest: seq<Byte>, offset: nat)
    requires 3 <= Operator(b) <= 5 && n == Immediate(b) + 1
    requires c == (if Operator(b) == 3 then Strong else if Operator(b) == 4 then Byref else Weak)
    ensures StreamSlots([b] + rest, offset) == Run(offset, n, c) + StreamSlots(rest, offset + n * WordSize)
  {
    StreamSlotsCons(b, rest, offset);
  }

  /** A zero count spells no instruction and describes no word. */
  lemma EmptyGroup(p: nat, count: nat, c: Capture, rest: seq<Byte>, offset: nat)
    requires p < 16 && count == 0
    ensures StreamSlots(Group(p, count) + rest, offset) == Run(offset, count, c) + StreamSlots(rest, offset + count * WordSize)
  {
    assert Group(p, count) + rest == rest;
    assert Run(offset, count, c) == [];
    assert count * WordSize == 0;
  }

  lemma GroupSlots(p: nat, count: nat, c: Capture, rest: seq<Byte>, offset: nat)
    requires 3 <= p <= 5 && count < 16
    requires c == (if p == 3 then Strong else if p == 4 then Byref else Weak)
    ensures StreamSlots(Group(p, count) + rest, offset)
        == Run(offset, count, c) + StreamSlots(rest, offset + count * WordSize)
  {
    if count == 0 {
      EmptyGroup(p, count, c, rest, offset);
    } else {
      WordGroup(p, count, c, rest, offset);
    }
  }

  /** A non-zero count is the one byte 0xP(count-1). */
  lemma WordGroup(p: nat, count: nat, c: Capture, rest: seq<Byte>, offset: nat)
    requires 3 <= p <= 5 && 0 < count < 16
    requires c == (if p == 3 then Strong else if p == 4 then Byref else Weak)
    ensures StreamSlots(Group(p, count) + rest, offset)
        == Run(offset, count, c) + StreamSlots(rest, offset + count * WordSize)
  {
    var b := LayoutByte(p, count - 1);
    LayoutByteRoundTrip(b, p, count - 1);
    assert Group(p, count) + rest == [b] + rest;
    WordInstructionSlots(b, count, c, rest, offset);
  }

  /** The stream spelling of X strong, Y byref and Z weak words. */
  function TripleStream(x: nat, y: nat, z: nat): seq<Byte>
    requires x < 16 && y < 16 && z < 16
  {
    Group(3, x) + Group(4, y) + Group(5, z) + [0]
  }

  /** The terminating 0x00 describes no slot. */
  lemma TerminatorSlots(offset: nat)
    ensures StreamSlots([0], offset) == []
  {
    assert Operator(0) == 0;
  }

  /** Word counts add up: x words then y words end where x + y words end. */
  lemma WordOffsetsAdd(x: nat, y: nat)
    ensures HeaderSize + x * WordSize + y * WordSize == HeaderSize + (x + y) * WordSize
  {
  }

  /** The byref and weak groups, then the terminator, starting at offset `o1`. */
  lemma PairStreamSlots(y: nat, z: nat, o1: nat, o2: nat)
    requires y < 16 && z < 16 && o2 == o1 + y * WordSize
    ensures StreamSlots(Group(4, y) + (Group(5, z) + [0]), o1) == Run(o1, y, Byref) + Run(o2, z, Weak)
  {
    GroupSlots(4, y, Byref, Group(5, z) + [0], o1);
    GroupSlots(5, z, Weak, [0], o2);
    TerminatorSlots(o2 + z * WordSize);
    AppendEmpty(Run(o2, z, Weak));
  }

  lemma TripleStreamSlots(x: nat, y: nat, z: nat)
    requires x < 16 && y < 16 && z < 16
    ensures StreamSlots(TripleStream(x, y, z), HeaderSize)
      == Run(HeaderSize, x, Strong)
       + Run(HeaderSize + x * WordSize, y, Byref)
       + Run(HeaderSize + (x + y) * WordSize, z, Weak)
  {
    var tail := Group(4, y) + (Group(5, z) + [0]);
    var o1 := HeaderSize + x * WordSize;
    var o2 := HeaderSize + (x + y) * WordSize;
    WordOffsetsAdd(x, y);
    assert TripleStream(x, y, z) == Group(3, x) + tail;
    GroupSlots(3, x, Strong, tail, HeaderSize);
    PairStreamSlots(y, z, o1, o2);
    AppendAssociative(Run(HeaderSize, x, Strong), Run(o1, y, Byref), Run(o2, z, Weak));
  }

  /**
   * The compact form is a special case of the byte-code form: 0xXYZ decodes
   * to the same slots as the stream 0x3(X-1) 0x4(Y-1) 0x5(Z-1) 0x00, where a
   * zero count contributes no instruction.
   */
  lemma CompactAgreesWithStream(w: nat)
    ensures CompactSlots(w) == StreamSlots(CompactAsStream(w), HeaderSize)
  {
    var x, y, z := CompactStrongCount(w), CompactByrefCount(w), CompactWeakCount(w);
    assert CompactAsStream(w) == TripleStream(x, y, z);
    TripleStreamSlots(x, y, z);
  }

  /** With X, Y and Z all non-zero the stream is exactly four bytes. */
  lemma CompactEqualsFourByteStream(w: nat)
    requires w < CompactLimit
    requires CompactStrongCount(w) >= 1 && CompactByrefCount(w) >= 1 && CompactWeakCount(w) >= 1
    ensures CompactSlots(w) == StreamSlots([
      LayoutByte(3, CompactStrongCount(w) - 1),
      LayoutByte(4, CompactByrefCount(w) - 1),
      LayoutByte(5, CompactWeakCount(w) - 1),
      0], HeaderSize)
  {
    CompactAgreesWithStream(w);
    assert CompactAsStream(w) == [
      LayoutByte(3, CompactStrongCount(w) - 1),
      LayoutByte(4, CompactByrefCount(w) - 1),
      LayoutByte(5, CompactWeakCount(w) - 1),
      0];
  }

  /** Two strong, one byref and three weak words: three retained words, none of the weak ones. */
  lemma TwoStrongOneByrefThreeWeak()
    ensures RetainedOffsets(StreamSlots([0x31, 0x40, 0x52, 0x00], HeaderSize))
      == [HeaderSize, HeaderSize + WordSize, HeaderSize + 2 * WordSize]
  {
    var s: seq<Byte> := [0x31, 0x40, 0x52, 0x00];
    assert s == TripleStream(2, 1, 3);
    TripleStreamSlots(2, 1, 3);
    assert Run(HeaderSize, 2, Strong) + Run(HeaderSize + 2 * WordSize, 1, Byref) + Run(HeaderSize + 3 * WordSize, 3, Weak)
        == Run(HeaderSize, 2, Strong) + (Run(HeaderSize + 2 * WordSize, 1, Byref) + Run(HeaderSize + 3 * WordSize, 3, Weak));
    RetainedOffsetsAppend(Run(HeaderSize, 2, Strong), Run(HeaderSize + 2 * WordSize, 1, Byref) + Run(HeaderSize + 3 * WordSize, 3, Weak));
    RetainedOffsetsAppend(Run(HeaderSize + 2 * WordSize, 1, Byref), Run(HeaderSize + 3 * WordSize, 3, Weak));
    RetainedOffsetsOfRun(HeaderSize, 2, Strong);
    RetainedOffsetsOfRun(HeaderSize + 2 * WordSize, 1, Byref);
    RetainedOffsetsOfRun(HeaderSize + 3 * WordSize, 3, Weak);
  }

  /**
   * An immediate of 0 still covers one unit, and a byte skip may leave the
   * following words unaligned: 0x13 skips four bytes, 0x30 is one strong word.
   */
  lemma ByteSkipLeavesWordsUnaligned()
    ensures StreamSlots([0x30], HeaderSize) == [Slot(HeaderSize, Strong)]
    ensures StreamSlots([0x13, 0x30], HeaderSize) == [Slot(HeaderSize + 4, Strong)]
    ensures (HeaderSize + 4) % WordSize != 0
  {
    assert StreamSlots([0x30], HeaderSize) == Run(HeaderSize, 1, Strong) + StreamSlots([], HeaderSize + WordSize);
    var s: seq<Byte> := [0x13, 0x30];
    assert s[1..] == [0x30];
    assert StreamSlots([0x30], HeaderSize + 4) == Run(HeaderSize + 4, 1, Strong) + StreamSlots([], HeaderSize + 4 + WordSize);
  }

  /** Operators 7..0xA are stepped over as words, so later instructions are still read. */
  lemma UnknownOwnershipIsSteppedOver(n: nat)
    requires n < 16
    ensures RetainedOffsets(StreamSlots([LayoutByte(7, n), 0x30], HeaderSize))
      == [HeaderSize + (n + 1) * WordSize]
  {
    var b := LayoutByte(7, n);
    var next := HeaderSize + (n + 1) * WordSize;
    LayoutByteRoundTrip(b, 7, n);
    StreamSlotsCons(b, [0x30], HeaderSize);
    assert InstructionSlots(b, HeaderSize) == Run(HeaderSize, n + 1, UnknownOwnership);
    assert NextOffset(b, HeaderSize) == next;
    WordInstructionSlots(0x30, 1, Strong, [], next);
    assert [0x30] + [] == [0x30];
    assert StreamSlots([0x30], next) == Run(next, 1, Strong);
    RetainedOffsetsAppend(Run(HeaderSize, n + 1, UnknownOwnership), StreamSlots([0x30], next));
    RetainedOffsetsOfRun(HeaderSize, n + 1, UnknownOwnership);
    RetainedOffsetsOfRun(next, 1, Strong);
  }
}
