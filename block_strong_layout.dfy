/**
 * The layout-driven extractor of a block's retained captures: it walks the
 * layout with a cursor and a running byte offset and appends the offset of
 * every strong or byref word it passes.
 */
module BlockStrongLayout2 {
  import opened Wrappers
  import opened BlockAbi
  import opened BlockLayout

  /**
   * Offsets (from the start of the block) of the captured words the block
   * retains, or None when the block carries no extended layout. The caller
   * reads the referenced objects at these offsets.
   */
  method GetBlockStrongReferencesV2(flags: bv32, descriptorWord: nat -> nat, layoutBytes: seq<Byte>)
    returns (refs: Option<seq<nat>>)
    ensures refs == BlockStrongLayout(flags, descriptorWord, layoutBytes)
  {
    ExtendedLayoutNeedsBothBits(flags);
    if !HasFlag(flags, HasSignature) || !HasFlag(flags, HasExtendedLayout) {
      return None;
    }
    LayoutFieldPosition(flags);
    var fieldIndex := if HasFlag(flags, HasCopyDispose) then 5 else 3;
    var layout := descriptorWord(fieldIndex);
    var offsets;
    if layout < CompactLimit {
      offsets := CompactReferences(layout);
    } else {
      offsets := StreamReferences(layoutBytes);
    }
    return Some(offsets);
  }

  /** Compact 0xXYZ: the X strong words, then the Y byref words, are all retained. */
  method CompactReferences(layout: nat) returns (result: seq<nat>)
    ensures result == RetainedOffsets(CompactSlots(layout))
  {
    var retained := CompactStrongCount(layout) + CompactByrefCount(layout);
    result := [];
    var i := 0;
    while i < retained
      invariant i <= retained
      invariant result == WordOffsets(HeaderSize, i)
    {
      result := result + [HeaderSize + i * WordSize];
      i := i + 1;
    }
    CompactRetainedOffsets(layout);
  }

  /** The byte-code form, interpreted one 0xPN instruction at a time. */
  method StreamReferences(layoutBytes: seq<Byte>) returns (result: seq<nat>)
    ensures result == RetainedOffsets(StreamSlots(layoutBytes, HeaderSize))
  {
    ghost var total := RetainedOffsets(StreamSlots(layoutBytes, HeaderSize));
    result := [];
    var cursor: nat, offset: nat := 0, HeaderSize;
    while cursor < |layoutBytes|
      invariant cursor <= |layoutBytes|
      invariant result + RetainedOffsets(StreamSlots(layoutBytes[cursor..], offset)) == total
    {
      var b := layoutBytes[cursor];
      var p, n := Operator(b), Immediate(b) + 1;
      StreamStep(layoutBytes[cursor..], offset);
      if p == 0 || p >= 0xB {
        // ESCAPE or a reserved operator: the rest of the block is opaque.
        AppendEmpty(result);
        return;
      }
      ghost var next := NextOffset(b, offset);
      ghost var instr := InstructionOffsets(b, offset);
      ghost var rest := RetainedOffsets(StreamSlots(layoutBytes[cursor + 1..], next));
      assert layoutBytes[cursor..][1..] == layoutBytes[cursor + 1..];
      assert result + (instr + rest) == total;
      ghost var before := result;
      if p == 3 || p == 4 {
        result := AppendWords(result, offset, n);
      } else {
        AppendEmpty(result);
      }
      assert result == before + instr;
      AppendAssociative(before, instr, rest);
      if p == 1 {
        offset := offset + n;
      } else {
        offset := offset + n * WordSize;
      }
      assert offset == next;
      cursor := cursor + 1;
      assert RetainedOffsets(StreamSlots(layoutBytes[cursor..], offset)) == rest;
      assert result + rest == total;
    }
    assert layoutBytes[cursor..] == [];
    AppendEmpty(result);
  }

  /** Appends the offsets of `count` consecutive words starting at `offset`. */
  method AppendWords(prefix: seq<nat>, offset: nat, count: nat) returns (extended: seq<nat>)
    ensures extended == prefix + WordOffsets(offset, count)
  {
    extended := prefix;
    var j := 0;
    while j < count
      invariant j <= count
      invariant extended == prefix + WordOffsets(offset, j)
    {
      assert WordOffsets(offset, j + 1) == WordOffsets(offset, j) + [offset + j * WordSize];
      extended := extended + [offset + j * WordSize];
      j := j + 1;
    }
  }

  /**
   * One instruction of the stream, seen from the retained offsets it
   * contributes: ESCAPE and the reserved operators end the stream; any other
   * instruction contributes its strong or byref words and moves on.
   */
  lemma StreamStep(bytes: seq<Byte>, offset: nat)
    requires bytes != []
    ensures Halts(bytes[0]) ==> RetainedOffsets(StreamSlots(bytes, offset)) == []
    ensures !Halts(bytes[0]) ==>
      RetainedOffsets(StreamSlots(bytes, offset))
        == InstructionOffsets(bytes[0], offset) + RetainedOffsets(StreamSlots(bytes[1..], NextOffset(bytes[0], offset)))
  {
    if !Halts(bytes[0]) {
      var b := bytes[0];
      RetainedOffsetsAppend(InstructionSlots(b, offset), StreamSlots(bytes[1..], NextOffset(b, offset)));
      InstructionRetained(b, offset);
    }
  }

  /** One instruction retains its words exactly when its operator is STRONG (3) or BYREF (4). */
  lemma InstructionRetained(b: Byte, offset: nat)
    ensures RetainedOffsets(InstructionSlots(b, offset)) == InstructionOffsets(b, offset)
  {
    var n := Immediate(b) + 1;
    match OpcodeOf(Operator(b))
    case StrongWords => RetainedOffsetsOfRun(offset, n, Strong);
    case ByrefWords => RetainedOffsetsOfRun(offset, n, Byref);
    case WeakWords => RetainedOffsetsOfRun(offset, n, Weak);
    case UnretainedWords => RetainedOffsetsOfRun(offset, n, Unretained);
    case UnknownWords(_) => RetainedOffsetsOfRun(offset, n, UnknownOwnership);
    case _ =>
  }

  /** Two adjacent arithmetic runs of word offsets form one run. */
  lemma WordRunsConcat(start: nat, x: nat, y: nat)
    ensures WordOffsets(start, x) + WordOffsets(start + x * WordSize, y) == WordOffsets(start, x + y)
  {
  }

  lemma RetainedOffsetsOfThree(a: seq<Slot>, b: seq<Slot>, c: seq<Slot>)
    ensures RetainedOffsets(a + b + c) == RetainedOffsets(a) + (RetainedOffsets(b) + RetainedOffsets(c))
  {
    AppendAssociative(a, b, c);
    RetainedOffsetsAppend(a, b + c);
    RetainedOffsetsAppend(b, c);
  }

  lemma ThreeRunsRetained(x: nat, y: nat, z: nat)
    ensures RetainedOffsets(Run(HeaderSize, x, Strong)
                          + Run(HeaderSize + x * WordSize, y, Byref)
                          + Run(HeaderSize + (x + y) * WordSize, z, Weak))
         == WordOffsets(HeaderSize, x + y)
  {
    var o2: nat := HeaderSize + x * WordSize;
    var o3: nat := HeaderSize + (x + y) * WordSize;
    RetainedOffsetsOfThree(Run(HeaderSize, x, Strong), Run(o2, y, Byref), Run(o3, z, Weak));
    RetainedOffsetsOfRun(HeaderSize, x, Strong);
    RetainedOffsetsOfRun(o2, y, Byref);
    RetainedOffsetsOfRun(o3, z, Weak);
    AppendEmpty(WordOffsets(o2, y));
    WordRunsConcat(HeaderSize, x, y);
  }

  /** In the compact form the retained words are the X + Y words right after the header. */
  lemma CompactRetainedOffsets(w: nat)
    ensures RetainedOffsets(CompactSlots(w)) ==
      WordOffsets(HeaderSize, CompactStrongCount(w) + CompactByrefCount(w))
  {
    ThreeRunsRetained(CompactStrongCount(w), CompactByrefCount(w), CompactWeakCount(w));
  }
}
