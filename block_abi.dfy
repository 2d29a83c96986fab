/**
 * The parts of the Apple/Clang Block ABI that the block-capture decoder
 * depends on: the flag word of a block literal, the optional parts of its
 * descriptor, the flags of a `__block` (byref) variable and the opcode
 * numbering of the extended layout byte string.
 *
 * Everything is a function of the flag word or of a layout byte; the model
 * targets the LP64 runtime, where a pointer is eight bytes wide.
 */
module BlockAbi {
  import opened Wrappers

  /** sizeof(void *) on the 64-bit runtime. */
  const WordSize: nat := 8

  /** Block literal header: isa, flags (int32), reserved (int32), invoke, descriptor. */
  const IsaSize: nat := 8
  const FlagsSize: nat := 4
  const ReservedSize: nat := 4
  const InvokePointerSize: nat := 8
  const DescriptorPointerSize: nat := 8

  /** sizeof(struct BlockLiteral): captured variables start right after it. */
  const HeaderSize: nat := IsaSize + FlagsSize + ReservedSize + InvokePointerSize + DescriptorPointerSize

  // Values of the block literal's flag word.
  const Deallocating: bv32 := 0x0001
  const RefcountMask: bv32 := 0xfffe
  const NeedsFree: bv32 := 1 << 24
  const HasCopyDispose: bv32 := 1 << 25
  const HasCtor: bv32 := 1 << 26
  const IsGc: bv32 := 1 << 27
  const IsGlobal: bv32 := 1 << 28
  const UseStret: bv32 := 1 << 29
  const HasSignature: bv32 := 1 << 30
  const HasExtendedLayout: bv32 := 1 << 31

  /** The single-bit flags; the reference count occupies bits 0..15 instead. */
  const SingleBitFlags: seq<bv32> :=
    [NeedsFree, HasCopyDispose, HasCtor, IsGc, IsGlobal, UseStret, HasSignature, HasExtendedLayout]

  /** A flag test as the runtime writes it: `(flags & F) != 0`. */
  predicate HasFlag(flags: bv32, flag: bv32) {
    flags & flag != 0
  }

  /** Each flag is one bit, and no two flags share a bit. */
  lemma SingleBitFlagsAreDistinctBits()
    ensures forall i :: 0 <= i < |SingleBitFlags| ==>
      SingleBitFlags[i] != 0 && SingleBitFlags[i] & (SingleBitFlags[i] - 1) == 0
    ensures forall i, j :: 0 <= i < j < |SingleBitFlags| ==> SingleBitFlags[i] & SingleBitFlags[j] == 0
    ensures forall i :: 0 <= i < |SingleBitFlags| ==> SingleBitFlags[i] & (Deallocating | RefcountMask) == 0
  {
  }

  /** Setting one flag never changes the answer of a test for another one. */
  lemma FlagTestsAreIndependent(flags: bv32, i: nat, j: nat)
    requires i < |SingleBitFlags| && j < |SingleBitFlags| && i != j
    ensures HasFlag(flags | SingleBitFlags[i], SingleBitFlags[j]) == HasFlag(flags, SingleBitFlags[j])
    ensures HasFlag(flags & !SingleBitFlags[i], SingleBitFlags[j]) == HasFlag(flags, SingleBitFlags[j])
    ensures HasFlag(flags | SingleBitFlags[i], SingleBitFlags[i])
    ensures !HasFlag(flags & !SingleBitFlags[i], SingleBitFlags[i])
  {
    SingleBitFlagsAreDistinctBits();
  }

  /** Pointer-sized fields of a block descriptor, in memory order. */
  datatype DescriptorField = Reserved | Size | CopyHelper | DisposeHelper | Signature | Layout

  /**
   * The fields a descriptor actually has: descriptor_1 always, descriptor_2
   * (copy and dispose helpers) only with BLOCK_HAS_COPY_DISPOSE, and
   * descriptor_3 (signature and layout) only with BLOCK_HAS_SIGNATURE.
   */
  function DescriptorFields(flags: bv32): seq<DescriptorField> {
    [Reserved, Size]
    + (if HasFlag(flags, HasCopyDispose) then [CopyHelper, DisposeHelper] else [])
    + (if HasFlag(flags, HasSignature) then [Signature, Layout] else [])
  }

  /** Position of a field, in words from the start of the descriptor. */
  function FieldIndex(fields: seq<DescriptorField>, f: DescriptorField): (r: Option<nat>)
    ensures r.Some? ==> r.value < |fields| && fields[r.value] == f
    ensures r.Some? ==> forall k :: 0 <= k < r.value ==> fields[k] != f
    ensures r.None? <==> f !in fields
  {
    if fields == [] then None
    else if fields[0] == f then Some(0)
    else match FieldIndex(fields[1..], f)
      case None => None
      case Some(k) => Some(k + 1)
  }

  /** Where the layout field is, if the descriptor has one. */
  function LayoutFieldIndex(flags: bv32): Option<nat> {
    FieldIndex(DescriptorFields(flags), Layout)
  }

  /** The copy and dispose helpers are present iff bit 25 is set. */
  lemma HelpersPresentIffCopyDispose(flags: bv32)
    ensures CopyHelper in DescriptorFields(flags) <==> HasFlag(flags, HasCopyDispose)
    ensures DisposeHelper in DescriptorFields(flags) <==> HasFlag(flags, HasCopyDispose)
  {
  }

  /**
   * Signature and layout come as one pair (descriptor_3), present iff
   * BLOCK_HAS_SIGNATURE; the layout sits after the helpers when they exist.
   */
  lemma LayoutFieldPosition(flags: bv32)
    ensures Signature in DescriptorFields(flags) <==> HasFlag(flags, HasSignature)
    ensures Layout in DescriptorFields(flags) <==> HasFlag(flags, HasSignature)
    ensures LayoutFieldIndex(flags) ==
      if !HasFlag(flags, HasSignature) then None
      else if HasFlag(flags, HasCopyDispose) then Some(5)
      else Some(3)
  {
    var fs := DescriptorFields(flags);
    if HasFlag(flags, HasSignature) {
      var k := if HasFlag(flags, HasCopyDispose) then 5 else 3;
      assert fs[k] == Layout;
      assert forall j :: 0 <= j < k ==> fs[j] != Layout;
    }
  }

  /** How the contents of the layout field are to be read. */
  datatype LayoutEncoding = ExtendedLayout | LegacyLayout

  /** No layout field without a signature; it is an extended layout only under bit 31. */
  function LayoutEncodingOf(flags: bv32): Option<LayoutEncoding> {
    if !HasFlag(flags, HasSignature) then None
    else if HasFlag(flags, HasExtendedLayout) then Some(ExtendedLayout)
    else Some(LegacyLayout)
  }

  /**
   * The two headers agree: an extended layout can be read exactly when the
   * signature bit (which brings descriptor_3) and bit 31 are both set.
   */
  lemma ExtendedLayoutNeedsBothBits(flags: bv32)
    ensures LayoutEncodingOf(flags) == Some(ExtendedLayout)
        <==> HasFlag(flags, HasSignature) && HasFlag(flags, HasExtendedLayout)
    ensures LayoutEncodingOf(flags).Some? <==> LayoutFieldIndex(flags).Some?
  {
    LayoutFieldPosition(flags);
  }

  /** Whether the block returns a struct; undefined without a signature. */
  function UsesStructReturn(flags: bv32): (r: Option<bool>)
    ensures r.Some? <==> HasFlag(flags, HasSignature)
    ensures r.Some? ==> (r.value <==> HasFlag(flags, UseStret))
  {
    if HasFlag(flags, HasSignature) then Some(HasFlag(flags, UseStret)) else None
  }

  // Flags of a `__block` variable (Block_byref).
  const ByrefLayoutMask: bv32 := 0xf << 28
  const ByrefHasCopyDispose: bv32 := 1 << 25

  /** What a `__block` variable holds, from the top four bits of its flags. */
  datatype ByrefLayout = ByrefExtended | ByrefNonObject | ByrefStrong | ByrefWeak | ByrefUnretained

  function ByrefLayoutCode(kind: ByrefLayout): bv32 {
    match kind
    case ByrefExtended => 1
    case ByrefNonObject => 2
    case ByrefStrong => 3
    case ByrefWeak => 4
    case ByrefUnretained => 5
  }

  /** `flags & BLOCK_BYREF_LAYOUT_MASK`; codes 0 and 6..15 name no kind. */
  function ByrefLayoutOf(flags: bv32): Option<ByrefLayout> {
    var code := (flags & ByrefLayoutMask) >> 28;
    if code == 1 then Some(ByrefExtended)
    else if code == 2 then Some(ByrefNonObject)
    else if code == 3 then Some(ByrefStrong)
    else if code == 4 then Some(ByrefWeak)
    else if code == 5 then Some(ByrefUnretained)
    else None
  }

  /** The kind is read back from the mask alone, whatever the other bits are. */
  lemma ByrefLayoutRoundTrip(kind: ByrefLayout, otherBits: bv32)
    requires otherBits & ByrefLayoutMask == 0
    ensures ByrefLayoutOf((ByrefLayoutCode(kind) << 28) | otherBits) == Some(kind)
  {
  }

  /** Pointer-sized fields of a `__block` variable, in memory order. */
  datatype ByrefField = ByrefIsa | Forwarding | FlagsAndSize | ByrefKeep | ByrefDestroy | ByrefLayoutString

  function ByrefFields(flags: bv32): seq<ByrefField> {
    [ByrefIsa, Forwarding, FlagsAndSize]
    + (if HasFlag(flags, ByrefHasCopyDispose) then [ByrefKeep, ByrefDestroy] else [])
    + (if ByrefLayoutOf(flags) == Some(ByrefExtended) then [ByrefLayoutString] else [])
  }

  /** Block_byref_3 (the layout string) exists only for BLOCK_BYREF_LAYOUT_EXTENDED. */
  lemma ByrefLayoutStringOnlyWhenExtended(flags: bv32)
    ensures ByrefLayoutString in ByrefFields(flags) <==> ByrefLayoutOf(flags) == Some(ByrefExtended)
    ensures ByrefKeep in ByrefFields(flags) <==> HasFlag(flags, ByrefHasCopyDispose)
  {
  }

  /** Operators of the extended layout byte string (the high nibble P of 0xPN). */
  datatype Opcode =
    | Escape
    | NonObjectBytes
    | NonObjectWords
    | StrongWords
    | ByrefWords
    | WeakWords
    | UnretainedWords
    | UnknownWords(code: nat)   // 7..0xA: ownership not yet specified
    | Unused(code: nat)         // 0xB..0xF: reserved

  predicate ValidOpcode(op: Opcode) {
    match op
    case UnknownWords(c) => 7 <= c <= 0xA
    case Unused(c) => 0xB <= c <= 0xF
    case _ => true
  }

  function OpcodeValue(op: Opcode): nat {
    match op
    case Escape => 0
    case NonObjectBytes => 1
    case NonObjectWords => 2
    case StrongWords => 3
    case ByrefWords => 4
    case WeakWords => 5
    case UnretainedWords => 6
    case UnknownWords(c) => c
    case Unused(c) => c
  }

  function OpcodeOf(p: nat): (op: Opcode)
    requires p < 16
    ensures ValidOpcode(op)
  {
    if p == 0 then Escape
    else if p == 1 then NonObjectBytes
    else if p == 2 then NonObjectWords
    else if p == 3 then StrongWords
    else if p == 4 then ByrefWords
    else if p == 5 then WeakWords
    else if p == 6 then UnretainedWords
    else if p <= 0xA then UnknownWords(p)
    else Unused(p)
  }

  /** The numbering 0..0xF is one-to-one with the operators. */
  lemma OpcodeNumbering(p: nat, op: Opcode)
    requires p < 16
    requires ValidOpcode(op)
    ensures OpcodeValue(OpcodeOf(p)) == p
    ensures OpcodeValue(op) < 16 && OpcodeOf(OpcodeValue(op)) == op
  {
  }

  /** One byte of a layout string. */
  newtype Byte = x: int | 0 <= x < 256

  /** The operator P of a layout byte 0xPN. */
  function Operator(b: Byte): (p: nat)
    ensures p < 16
  {
    (b / 16) as nat
  }

  /** The immediate N of a layout byte 0xPN. */
  function Immediate(b: Byte): (n: nat)
    ensures n < 16
  {
    (b % 16) as nat
  }

  /** The layout byte with operator `p` and immediate `n`. */
  function LayoutByte(p: nat, n: nat): Byte
    requires p < 16 && n < 16
  {
    (p * 16 + n) as Byte
  }

  /** A byte splits into exactly one (P, N) pair and is rebuilt from it. */
  lemma LayoutByteRoundTrip(b: Byte, p: nat, n: nat)
    requires p < 16 && n < 16
    ensures Operator(LayoutByte(p, n)) == p && Immediate(LayoutByte(p, n)) == n
    ensures LayoutByte(Operator(b), Immediate(b)) == b
  {
  }
}
