/**
 * Outgoing references of an Objective-C or Swift object: where a strong
 * pointer sits inside the object, how it is read, and the name path that
 * tells a person how it was reached (an ivar name, or an ivar name followed
 * by struct type and member names).
 */
module References {
  import opened Wrappers
  import opened TypeTokens
  import opened StructEncodingParser
  import BlockAbi
  import StructEncodingLaws

  /** Objects are identified by their address. */
  type Address = nat

  /** One outgoing reference: an object ivar, an object inside a struct ivar, or a Swift stored property. */
  datatype ObjectReference =
    | IvarReference(ivarName: string, index: nat)
    | StructMemberReference(path: seq<string>, index: nat)
    | SwiftReference(propertyName: string)
  {
    /** The references that live at an index of the ivar layout. */
    predicate HasLayout() {
      !SwiftReference?
    }
  }

  /** The names leading to the referenced object. */
  function NamePath(r: ObjectReference): seq<string> {
    match r
    case IvarReference(n, _) => [n]
    case StructMemberReference(p, _) => p
    case SwiftReference(n) => [n]
  }

  /** Byte offset of a layout index from the start of the object. */
  function IvarLayoutOffset(index: nat): (offset: nat)
    ensures offset % BlockAbi.WordSize == 0
    ensures offset / BlockAbi.WordSize == index
  {
    index * BlockAbi.WordSize
  }

  /**
   * The object a reference designates inside `object`, read through the
   * host: a layout reference reads the pointer-sized word at its offset, a
   * Swift reference asks for the property by name. No object, no referent.
   */
  function ObjectReferenceFromObject(
    r: ObjectReference,
    holder: Option<Address>,
    readWord: (Address, nat) -> Option<Address>,
    readProperty: (Address, string) -> Option<Address>): (referent: Option<Address>)
    ensures holder.None? ==> referent.None?
    ensures holder.Some? && r.HasLayout() ==> referent == readWord(holder.value, IvarLayoutOffset(r.index))
    ensures holder.Some? && r.SwiftReference? ==> referent == readProperty(holder.value, r.propertyName)
  {
    if holder.None? then None
    else if r.SwiftReference? then readProperty(holder.value, r.propertyName)
    else readWord(holder.value, IvarLayoutOffset(r.index))
  }

  // ---------------------------------------------------------------------
  // Objects inside struct ivars

  /**
   * Size and alignment in bytes of a flattened member encoding on a 64-bit
   * target; pointers of every kind take one word. None for an encoding that
   * cannot be sized (arrays, unions, bit fields, C++ types), which ends the
   * walk over the struct.
   */
  function SizeAndAlignment(encoding: string): (r: Option<(nat, nat)>)
    ensures r.Some? ==> r.value.0 == r.value.1 && r.value.1 in {1, 2, 4, 8}
    ensures encoding != [] && encoding[0] in "^@#:*" ==> r == Some((BlockAbi.WordSize, BlockAbi.WordSize))
  {
    if encoding == [] then None
    else if encoding[0] in "cCB" then Some((1, 1))
    else if encoding[0] in "sS" then Some((2, 2))
    else if encoding[0] in "iIlLf" then Some((4, 4))
    else if encoding[0] in "qQd^@#:*" then Some((8, 8))
    else None
  }

  /** The least multiple of `align` at or above `offset`. */
  function AlignUp(offset: nat, align: nat): (r: nat)
    requires align in {1, 2, 4, 8}
    ensures offset <= r < offset + align
    ensures align == BlockAbi.WordSize ==> r % BlockAbi.WordSize == 0
  {
    var over := if align == 1 then 0 else if align == 2 then offset % 2 else if align == 4 then offset % 4 else offset % 8;
    if over == 0 then offset else offset + (align - over)
  }

  /** An object member of a struct: encoded as `@`. */
  predicate IsObjectMember(t: Token) {
    t.typeEncoding != [] && t.typeEncoding[0] == '@'
  }

  /**
   * Walks the flattened members of a struct ivar from byte `offset`,
   * aligning each member, and reports every object member at its word
   * index, named by its type path and its own name.
   */
  function MemberReferences(leaves: seq<Token>, offset: nat): seq<ObjectReference>
    decreases |leaves|
  {
    if leaves == [] then []
    else
      var sizing := SizeAndAlignment(leaves[0].typeEncoding);
      if sizing.None? then []
      else
        var at := AlignUp(offset, sizing.value.1);
        var here := if IsObjectMember(leaves[0])
          then [StructMemberReference(leaves[0].typePath + Segment(leaves[0].name), at / BlockAbi.WordSize)]
          else [];
        here + MemberReferences(leaves[1..], at + sizing.value.0)
  }

  /** The object references inside a struct ivar named `ivarName` at byte `ivarOffset`. */
  function StructReferences(ivarName: string, ivarOffset: nat, encoding: string): seq<ObjectReference> {
    MemberReferences(Leaves(ParsedStructEncoding(encoding, Some(ivarName))), ivarOffset)
  }

  predicate StrictlyIncreasingIndices(rs: seq<ObjectReference>)
    requires forall k :: 0 <= k < |rs| ==> !rs[k].SwiftReference?
  {
    forall i, j :: 0 <= i < j < |rs| ==> rs[i].index < rs[j].index
  }

  lemma WordAlignedIndex(at: nat)
    requires at % BlockAbi.WordSize == 0
    ensures (at / BlockAbi.WordSize) * BlockAbi.WordSize == at
  {
  }

  /** `r` is named after some object member among `leaves`: its type path, then its own name. */
  ghost predicate NamesObjectMember(r: ObjectReference, leaves: seq<Token>) {
    && r.StructMemberReference?
    && exists i :: 0 <= i < |leaves| && IsObjectMember(leaves[i]) && r.path == leaves[i].typePath + Segment(leaves[i].name)
  }

  lemma NamesLaterMember(r: ObjectReference, leaves: seq<Token>)
    requires leaves != [] && NamesObjectMember(r, leaves[1..])
    ensures NamesObjectMember(r, leaves)
  {
    var i :| 0 <= i < |leaves[1..]| && IsObjectMember(leaves[1..][i])
      && r.path == leaves[1..][i].typePath + Segment(leaves[1..][i].name);
    assert leaves[1..][i] == leaves[i + 1];
  }

  /** Every reference of a struct's members is a struct-member reference at or past the start offset. */
  lemma {:induction false} MemberReferencesLieAfter(leaves: seq<Token>, offset: nat)
    ensures forall k :: 0 <= k < |MemberReferences(leaves, offset)| ==>
      && MemberReferences(leaves, offset)[k].StructMemberReference?
      && MemberReferences(leaves, offset)[k].index * BlockAbi.WordSize >= offset
    decreases |leaves|
  {
    if leaves != [] {
      var sizing := SizeAndAlignment(leaves[0].typeEncoding);
      if sizing.Some? {
        var at := AlignUp(offset, sizing.value.1);
        MemberReferencesLieAfter(leaves[1..], at + sizing.value.0);
        if IsObjectMember(leaves[0]) {
          WordAlignedIndex(at);
        }
      }
    }
  }

  /**
   * Every struct-member reference lies at or past the start offset, under
   * the path and name of an object member of the struct.
   */
  lemma {:induction false} MemberReferencesAreMembers(leaves: seq<Token>, offset: nat)
    ensures forall k :: 0 <= k < |MemberReferences(leaves, offset)| ==>
      && NamesObjectMember(MemberReferences(leaves, offset)[k], leaves)
      && MemberReferences(leaves, offset)[k].index * BlockAbi.WordSize >= offset
    decreases |leaves|
  {
    MemberReferencesLieAfter(leaves, offset);
    if leaves != [] {
      var sizing := SizeAndAlignment(leaves[0].typeEncoding);
      if sizing.Some? {
        var at := AlignUp(offset, sizing.value.1);
        var next := at + sizing.value.0;
        var tail := MemberReferences(leaves[1..], next);
        MemberReferencesAreMembers(leaves[1..], next);
        forall k | 0 <= k < |tail| ensures NamesObjectMember(tail[k], leaves) {
          NamesLaterMember(tail[k], leaves);
        }
        if IsObjectMember(leaves[0]) {
          assert NamesObjectMember(MemberReferences(leaves, offset)[0], leaves) by {
            assert IsObjectMember(leaves[0]);
          }
        }
      }
    }
  }

  /** Every member up to and including the `i`-th can be sized, so the walk reaches it. */
  predicate SizedThrough(leaves: seq<Token>, i: nat)
    decreases i
  {
    && i < |leaves|
    && SizeAndAlignment(leaves[0].typeEncoding).Some?
    && (i == 0 || SizedThrough(leaves[1..], i - 1))
  }

  /** The aligned byte offset at which the walk from `offset` places the `i`-th member. */
  function MemberOffset(leaves: seq<Token>, offset: nat, i: nat): nat
    requires SizedThrough(leaves, i)
    decreases i
  {
    var sizing := SizeAndAlignment(leaves[0].typeEncoding).value;
    var at := AlignUp(offset, sizing.1);
    if i == 0 then at else MemberOffset(leaves[1..], at + sizing.0, i - 1)
  }

  /** The name a reference to member `t` carries: its type path, then its own name. */
  function MemberPath(t: Token): seq<string> {
    t.typePath + Segment(t.name)
  }

  /** Where the walk from `offset` continues after the first member. */
  function NextMemberOffset(leaves: seq<Token>, offset: nat): nat
    requires leaves != [] && SizeAndAlignment(leaves[0].typeEncoding).Some?
  {
    AlignUp(offset, SizeAndAlignment(leaves[0].typeEncoding).value.1) + SizeAndAlignment(leaves[0].typeEncoding).value.0
  }

  /** The word index at which the walk from `offset` places the `i`-th member. */
  function MemberIndex(leaves: seq<Token>, offset: nat, i: nat): nat
    requires SizedThrough(leaves, i)
  {
    MemberOffset(leaves, offset, i) / BlockAbi.WordSize
  }

  lemma MemberIndexStep(leaves: seq<Token>, offset: nat, i: nat)
    requires SizedThrough(leaves, i) && i > 0
    ensures MemberIndex(leaves, offset, i) == MemberIndex(leaves[1..], NextMemberOffset(leaves, offset), i - 1)
  {
  }

  /**
   * The converse of MemberReferencesAreMembers: every object member the
   * walk reaches (no unsized member before it) is reported, under its type
   * path and name, at the word of its aligned offset.
   */
  lemma {:induction false} MemberReferencesAreComplete(leaves: seq<Token>, offset: nat, i: nat)
    requires SizedThrough(leaves, i) && IsObjectMember(leaves[i])
    ensures StructMemberReference(MemberPath(leaves[i]), MemberIndex(leaves, offset, i)) in MemberReferences(leaves, offset)
    decreases i
  {
    var sizing := SizeAndAlignment(leaves[0].typeEncoding).value;
    var next := NextMemberOffset(leaves, offset);
    if i == 0 {
      MemberReferencesStep(leaves, offset);
      assert MemberIndex(leaves, offset, 0) == AlignUp(offset, sizing.1) / BlockAbi.WordSize;
    } else {
      assert leaves[1..][i - 1] == leaves[i];
      MemberReferencesAreComplete(leaves[1..], next, i - 1);
      MemberIndexStep(leaves, offset, i);
      LaterMemberStays(leaves, offset, StructMemberReference(MemberPath(leaves[1..][i - 1]), MemberIndex(leaves[1..], next, i - 1)));
    }
  }

  lemma LaterMemberStays(leaves: seq<Token>, offset: nat, r: ObjectReference)
    requires leaves != [] && SizeAndAlignment(leaves[0].typeEncoding).Some?
    requires r in MemberReferences(leaves[1..], NextMemberOffset(leaves, offset))
    ensures r in MemberReferences(leaves, offset)
  {
    MemberReferencesStep(leaves, offset);
  }

  lemma MemberReferencesStep(leaves: seq<Token>, offset: nat)
    requires leaves != [] && SizeAndAlignment(leaves[0].typeEncoding).Some?
    ensures var sizing := SizeAndAlignment(leaves[0].typeEncoding).value;
      var at := AlignUp(offset, sizing.1);
      MemberReferences(leaves, offset)
        == (if IsObjectMember(leaves[0]) then [StructMemberReference(leaves[0].typePath + Segment(leaves[0].name), at / BlockAbi.WordSize)] else [])
         + MemberReferences(leaves[1..], at + sizing.0)
  {
  }

  /** No two references of one struct share a word: their indices strictly increase. */
  lemma {:induction false} MemberReferencesIncrease(leaves: seq<Token>, offset: nat)
    ensures forall k :: 0 <= k < |MemberReferences(leaves, offset)| ==> !MemberReferences(leaves, offset)[k].SwiftReference?
    ensures StrictlyIncreasingIndices(MemberReferences(leaves, offset))
    decreases |leaves|
  {
    MemberReferencesLieAfter(leaves, offset);
    if leaves != [] {
      var sizing := SizeAndAlignment(leaves[0].typeEncoding);
      if sizing.Some? && IsObjectMember(leaves[0]) {
        var at := AlignUp(offset, sizing.value.1);
        var next := at + sizing.value.0;
        var tail := MemberReferences(leaves[1..], next);
        MemberReferencesIncrease(leaves[1..], next);
        MemberReferencesLieAfter(leaves[1..], next);
        WordAlignedIndex(at);
        forall k | 0 <= k < |tail| ensures tail[k].index > at / BlockAbi.WordSize {
          assert tail[k].index * BlockAbi.WordSize >= at + BlockAbi.WordSize;
        }
      } else if sizing.Some? {
        var at := AlignUp(offset, sizing.value.1);
        MemberReferencesIncrease(leaves[1..], at + sizing.value.0);
      }
    }
  }

  /** Every object inside a struct ivar is named by a path that starts with the ivar's name. */
  lemma StructReferencesStartWithIvar(ivarName: string, ivarOffset: nat, encoding: string)
    ensures forall k :: 0 <= k < |StructReferences(ivarName, ivarOffset, encoding)| ==>
      && StructReferences(ivarName, ivarOffset, encoding)[k].StructMemberReference?
      && [ivarName] <= NamePath(StructReferences(ivarName, ivarOffset, encoding)[k])
      && StructReferences(ivarName, ivarOffset, encoding)[k].index * BlockAbi.WordSize >= ivarOffset
  {
    var leaves := Leaves(ParsedStructEncoding(encoding, Some(ivarName)));
    StructEncodingLaws.RootNameLeadsEveryPath(encoding, Some(ivarName));
    MemberReferencesAreMembers(leaves, ivarOffset);
  }

  /**
   * The documented example: an ivar `_myIvar` of type `struct SomeStruct {
   * NSObject *myObject; }` holds one reference, named [_myIvar, SomeStruct,
   * myObject], in the ivar's own word.
   */
  lemma StructMemberNamePathExample(ivar: string, structType: string, member: string, className: string, ivarOffset: nat)
    requires StructEncodingLaws.ValidTypeName(Some(structType))
    requires member != [] && StructEncodingLaws.Avoids(member, '"')
    requires className != [] && StructEncodingLaws.Avoids(className, '"')
    requires ivarOffset % BlockAbi.WordSize == 0
    ensures StructReferences(ivar, ivarOffset,
        "{" + structType + "=" + StructEncodingLaws.Quoted(member) + "@" + StructEncodingLaws.Quoted(className) + "}")
      == [StructMemberReference([ivar, structType, member], ivarOffset / BlockAbi.WordSize)]
  {
    var leaf := Basic(Some(member), "@", [ivar, structType]);
    StructEncodingLaws.ClassNameOfObjectMemberIsDropped(structType, member, className, ivar);
    assert [leaf][1..] == [];
    assert leaf.typePath + Segment(leaf.name) == [ivar, structType, member];
    assert SizeAndAlignment(leaf.typeEncoding) == Some((8, 8));
    assert AlignUp(ivarOffset, 8) == ivarOffset;
    assert MemberReferences([leaf], ivarOffset)
      == [StructMemberReference([ivar, structType, member], ivarOffset / BlockAbi.WordSize)] + MemberReferences([], ivarOffset + 8);
  }

  // ---------------------------------------------------------------------
  // The strong references of one class

  /** An instance variable as the runtime lists it: name, type encoding and byte offset. */
  datatype Ivar = Ivar(name: string, typeEncoding: string, offset: nat)

  /** A Swift stored property and whether it holds its value strongly. */
  datatype SwiftProperty = SwiftProperty(name: string, isStrong: bool)

  /**
   * The references the ivars of a class can hold: one per object-typed ivar
   * (objects and blocks, `@`), the object members of each struct ivar
   * (`{`), and nothing for scalars.
   */
  function ClassReferences(ivars: seq<Ivar>): seq<ObjectReference>
    decreases |ivars|
  {
    if ivars == [] then []
    else
      var v := ivars[0];
      var here :=
        if v.typeEncoding != [] && v.typeEncoding[0] == '@' then [IvarReference(v.name, v.offset / BlockAbi.WordSize)]
        else if v.typeEncoding != [] && v.typeEncoding[0] == '{' then StructReferences(v.name, v.offset, v.typeEncoding)
        else [];
      here + ClassReferences(ivars[1..])
  }

  /** The references whose index the class's strong ivar layout lists, in order. */
  function KeepStrong(rs: seq<ObjectReference>, strongIndices: set<nat>): seq<ObjectReference>
    decreases |rs|
  {
    if rs == [] then []
    else if rs[0].HasLayout() && rs[0].index in strongIndices then [rs[0]] + KeepStrong(rs[1..], strongIndices)
    else KeepStrong(rs[1..], strongIndices)
  }

  /**
   * The strong references of an Objective-C class. A class without an ivar
   * layout holds none; otherwise a reference is kept exactly when the
   * layout marks its index strong, so weak and unretained ivars drop out.
   */
  function ObjcStrongReferences(ivars: seq<Ivar>, ivarLayout: Option<set<nat>>): seq<ObjectReference> {
    if ivarLayout.None? then [] else KeepStrong(ClassReferences(ivars), ivarLayout.value)
  }

  /** The strong stored properties of a Swift class, by name, in order. */
  function SwiftStrongReferences(properties: seq<SwiftProperty>): seq<ObjectReference>
    decreases |properties|
  {
    if properties == [] then []
    else
      var here := if properties[0].isStrong then [SwiftReference(properties[0].name)] else [];
      here + SwiftStrongReferences(properties[1..])
  }

  /** What the runtime tells about one class. */
  datatype ClassInfo = ClassInfo(
    isSwift: bool,
    ivars: seq<Ivar>,
    ivarLayout: Option<set<nat>>,
    properties: seq<SwiftProperty>)

  /**
   * The strong references declared by one class (not its superclasses). A
   * Swift class is inspected through its stored properties, and only when
   * Swift inspection is on; any other class through its ivar layout.
   */
  function StrongReferencesForClass(info: ClassInfo, includeSwift: bool): seq<ObjectReference> {
    if info.isSwift then (if includeSwift then SwiftStrongReferences(info.properties) else [])
    else ObjcStrongReferences(info.ivars, info.ivarLayout)
  }

  lemma {:induction false} KeepStrongMembership(rs: seq<ObjectReference>, strongIndices: set<nat>, r: ObjectReference)
    ensures r in KeepStrong(rs, strongIndices) <==> r in rs && r.HasLayout() && r.index in strongIndices
    decreases |rs|
  {
    if rs != [] {
      KeepStrongMembership(rs[1..], strongIndices, r);
      assert rs == [rs[0]] + rs[1..];
    }
  }

  lemma {:induction false} SwiftStrongMembership(properties: seq<SwiftProperty>, name: string)
    ensures SwiftReference(name) in SwiftStrongReferences(properties) <==>
      exists i :: 0 <= i < |properties| && properties[i].name == name && properties[i].isStrong
    ensures forall r :: r in SwiftStrongReferences(properties) ==> r.SwiftReference?
    decreases |properties|
  {
    if properties != [] {
      SwiftStrongMembership(properties[1..], name);
      if exists i :: 0 <= i < |properties[1..]| && properties[1..][i].name == name && properties[1..][i].isStrong {
        var i :| 0 <= i < |properties[1..]| && properties[1..][i].name == name && properties[1..][i].isStrong;
        assert properties[i + 1] == properties[1..][i];
      }
      if exists i :: 0 <= i < |properties| && properties[i].name == name && properties[i].isStrong {
        var i :| 0 <= i < |properties| && properties[i].name == name && properties[i].isStrong;
        if i > 0 {
          assert properties[1..][i - 1] == properties[i];
        }
      }
    }
  }

  /**
   * A class reports a reference exactly when the source allows it: for a
   * Swift class, a strong stored property while Swift inspection is on; for
   * any other class, an object or struct-member reference whose index the
   * ivar layout marks strong.
   */
  lemma StrongReferencesForClassMembership(info: ClassInfo, includeSwift: bool, r: ObjectReference)
    ensures info.isSwift && !includeSwift ==> StrongReferencesForClass(info, includeSwift) == []
    ensures info.isSwift && r.SwiftReference? ==>
      (r in StrongReferencesForClass(info, includeSwift) <==>
        includeSwift && exists i :: 0 <= i < |info.properties| && info.properties[i].name == r.propertyName && info.properties[i].isStrong)
    ensures !info.isSwift ==>
      (r in StrongReferencesForClass(info, includeSwift) <==>
        r in ClassReferences(info.ivars) && r.HasLayout() && info.ivarLayout.Some? && r.index in info.ivarLayout.value)
  {
    if info.isSwift && r.SwiftReference? {
      SwiftStrongMembership(info.properties, r.propertyName);
    }
    if !info.isSwift && info.ivarLayout.Some? {
      KeepStrongMembership(ClassReferences(info.ivars), info.ivarLayout.value, r);
    }
  }

  /** Every reference of a class sits at the word index of its ivar, so reading it reads that ivar. */
  lemma {:induction false} ClassReferencesHaveLayout(ivars: seq<Ivar>)
    ensures forall k :: 0 <= k < |ClassReferences(ivars)| ==> ClassReferences(ivars)[k].HasLayout()
    decreases |ivars|
  {
    if ivars != [] {
      var v := ivars[0];
      ClassReferencesHaveLayout(ivars[1..]);
      if v.typeEncoding != [] && v.typeEncoding[0] == '{' {
        StructReferencesStartWithIvar(v.name, v.offset, v.typeEncoding);
      }
    }
  }
}
