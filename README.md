# FBRetainCycleDetector core, modelled in Dafny

FBRetainCycleDetector finds retain cycles among live Objective-C (and, optionally, Swift) objects. It starts from the objects given to it as candidates. For each object it works out which other objects that object holds strongly: the strong ivars of its class hierarchy, the members of struct ivars, the captured variables of a block, a timer's target and user info, and strong associated objects. This gives a directed graph. A bounded depth-first walk over that graph reports each cycle once, rotated to a canonical starting point.

This project models that engine and proves properties of the model. One module per concern:

- `BlockAbi` (block_abi.dfy). The Block ABI as the decoder uses it:
  - the flag word and its single-bit flags;
  - which descriptor fields a block literal has (copy/dispose helpers, signature, layout);
  - `__block` variable kinds;
  - the 0xPN opcode numbering.
- `BlockLayout` (block_layout.dfy). Decoding of a block's captured-variable layout, as a pure specification:
  - the compact `0xXYZ` word and the extended byte-code stream become a list of classified word slots;
  - the offsets of the retaining slots are kept.
- `BlockStrongLayout2` (block_strong_layout.dfy). `FBGetBlockStrongReferencesV2` as a cursor-driven loop, proved equal to the specification.
- `TypeTokens` (type_tokens.dfy). The token tree of a parsed struct encoding as values: `passTypePath` and `flattenTypes` on values.
- `ParsedTypes` (parsed_type.dfy). The token objects (C++ `Type`, `FBParsedType`, `FBParsedStruct`) as one class whose `typePath` field is assigned in place.
- `StructEncodingParser` (struct_parser.dfy). `FBParseStructEncoding` and `FBParseStructEncodingWithName`.
- `StructEncodingLaws` (struct_encoding_laws.dfy). A round trip through an encoder, and the documented type-path examples.
- `References` (references.dfy). Object references and their name paths, layout index to byte offset, struct-member references, and the strong references of a class.
- `GraphElements` (graph_element.dfy). The graph element: an address and a name path.
- `GraphConfiguration` (configuration.dfy). `FBObjectGraphConfiguration`:
  - the edge-filter chain;
  - the block description with its invoke address;
  - the switches;
  - the per-class layout cache, filled in place.
- `AssociationManager` (associations.dfy). The table of strong associated objects.
- `RetainedObjects` (retained_objects.dfy). `allRetainedObjects` of an element: what an object, block or timer retains, filtered and transformed.
- `ObjectiveCGraph` (graph.dfy). `FBObjectiveCGraphNode` and `FBObjectiveCGraph`: one node per object, symmetric outgoing and incoming sets, one-hop building.
- `RetainCycleDetector` (detector.dfy). `_shiftToUnifiedCycle:`, the bounded depth-first search, and the detector with `addCandidate` and `findRetainCycles`.
- `DetectorScenarios` (detector_scenarios.dfy). The test scenarios as lemmas over abstract graphs and over concrete runtimes.

The host runtime is a parameter, the `RetainedObjects.Runtime` datatype. It supplies:

- object kind;
- class chain and per-class ivars, ivar layout and Swift properties;
- word reads at byte offsets;
- Swift property reads;
- block literal parts;
- associated objects;
- timer target and user info.

Several implementation (`.mm`) files are not part of this model. The model therefore follows the header contracts, the Block ABI enums and the test cases. It assumes the following about the implementation:

- `findRetainCycles` searches with a stack of at most 10 elements.
- A cycle closes when an object already on the stack is reached again. The cycle is the stack from that object on, with its first element replaced by the element that closed it.
- `_shiftToUnifiedCycle:` rotates a cycle to start at its first element with the lowest address.
- `findRetainCycles` forgets the candidates once it has searched them.
- Associated objects carry the name `__associated_object`.

## Model

| member | source | states |
|---|---|---|
| BlockAbi.SingleBitFlagsAreDistinctBits | FBRetainCycleDetector/Layout/Blocks/Block_private.h:25-37 | Each block flag is a single bit, no two flags share a bit, and none overlaps the deallocating/refcount bits. |
| BlockAbi.FlagTestsAreIndependent | FBRetainCycleDetector/Layout/Blocks/FBBlockInterface.h:16-22 | Setting or clearing one flag never changes a `(flags & F) != 0` test for another flag, and does decide the test for itself. |
| BlockAbi.HelpersPresentIffCopyDispose | FBRetainCycleDetector/Layout/Blocks/FBBlockInterface.h:48-49 | The copy and dispose helpers are in the descriptor if and only if bit 25 is set. |
| BlockAbi.LayoutFieldPosition | FBRetainCycleDetector/Layout/Blocks/Block_private.h:39-57 | Signature and layout (descriptor_3) exist if and only if BLOCK_HAS_SIGNATURE. The layout is word 5 when the helpers precede it and word 3 otherwise. |
| BlockAbi.ExtendedLayoutNeedsBothBits | FBRetainCycleDetector/Layout/Blocks/FBBlockInterface.h:50-51 | An extended layout is readable if and only if both bit 30 and bit 31 are set. A layout field exists exactly when a layout encoding is defined. |
| BlockAbi.UsesStructReturn | FBRetainCycleDetector/Layout/Blocks/FBBlockInterface.h:20 | BLOCK_HAS_STRET has a meaning only with a signature, and then it is bit 29. |
| BlockAbi.ByrefLayoutRoundTrip | FBRetainCycleDetector/Layout/Blocks/Block_private.h:75-80 | The `__block` kind is read back from `flags & 0xF<<28` alone, whatever the bits outside that mask hold. |
| BlockAbi.ByrefLayoutStringOnlyWhenExtended | FBRetainCycleDetector/Layout/Blocks/Block_private.h:95-104 | Block_byref_3 (the layout string) exists if and only if the kind is LAYOUT_EXTENDED. Block_byref_2 exists if and only if BLOCK_BYREF_HAS_COPY_DISPOSE is set. |
| BlockAbi.OpcodeNumbering | FBRetainCycleDetector/Layout/Blocks/FBBlockInterface.h:25-42 | The numbering 0..0xF is one-to-one with the operators, in both directions. |
| BlockAbi.LayoutByteRoundTrip | FBRetainCycleDetector/Layout/Blocks/Block_private.h:116-118 | A layout byte splits into exactly one (P, N) pair of nibbles and is rebuilt from it. |
| BlockLayout.RetainedOffsetsOfRun | FBRetainCycleDetector/Layout/Blocks/Block_private.h:169-182 | A run of N words contributes all N consecutive word offsets when strong or byref, and none when weak, unretained or unknown. |
| BlockLayout.RetainedOffsetsAreRetainingSlots | FBRetainCycleDetector/Layout/Blocks/FBBlockStrongLayout.h:15-19 | An offset is reported if and only if some slot at that offset is strong or byref. |
| BlockLayout.StreamSlotsWellOrdered | FBRetainCycleDetector/Layout/Blocks/Block_private.h:116-119 | The stream is consumed sequentially: slots are disjoint words, in increasing order, none before the start offset. |
| BlockLayout.CompactSlotsWellOrdered | FBRetainCycleDetector/Layout/Blocks/Block_private.h:112-114 | The X strong, Y byref and Z weak words of 0xXYZ are disjoint and ordered from the end of the header. |
| BlockLayout.RetainedOffsetsOfWellOrdered | FBRetainCycleDetector/Layout/Blocks/Block_private.h:116-119 | Offsets from ordered slots come out strictly increasing and never before the start. |
| BlockLayout.BlockStrongLayoutShape | FBRetainCycleDetector/Layout/Blocks/FBBlockStrongLayout2.h:18 | A result exists if and only if signature and extended-layout bits are both set (otherwise nil). Its offsets strictly increase and lie past the 32-byte block header. |
| BlockLayout.HaltIgnoresRest | FBRetainCycleDetector/Layout/Blocks/Block_private.h:119-122 | After ESCAPE or a reserved operator 0xB..0xF, nothing further in the string is interpreted. |
| BlockLayout.CompactAgreesWithStream | FBRetainCycleDetector/Layout/Blocks/Block_private.h:112-119 | Compact 0xXYZ decodes to the same slots as the byte string 0x3(X-1) 0x4(Y-1) 0x5(Z-1) 0x00. A zero count contributes no instruction. |
| BlockLayout.CompactEqualsFourByteStream | FBRetainCycleDetector/Layout/Blocks/Block_private.h:112-119 | With X, Y, Z all at least 1, the equivalent stream is exactly four bytes. |
| BlockLayout.TwoStrongOneByrefThreeWeak | FBRetainCycleDetector/Layout/Blocks/Block_private.h:169-178 | The stream 0x31 0x40 0x52 0x00 retains the first three captured words and none of the three weak ones. Every immediate covers I+1 words. |
| BlockLayout.ByteSkipLeavesWordsUnaligned | FBRetainCycleDetector/Layout/Blocks/Block_private.h:158-161 | 0x13 skips four bytes (I+1), so the following strong word starts at an offset that is not word-aligned. |
| BlockLayout.UnknownOwnershipIsSteppedOver | FBRetainCycleDetector/Layout/Blocks/Block_private.h:184-191 | Operator 7 with immediate n steps over n+1 unretained words, and decoding continues after them. |
| BlockStrongLayout2.GetBlockStrongReferencesV2 | FBRetainCycleDetector/Layout/Blocks/FBBlockStrongLayout2.h:18 | The extractor returns exactly the specification's retained offsets, or nil when the block has no extended layout. |
| BlockStrongLayout2.CompactReferences | FBRetainCycleDetector/Layout/Blocks/Block_private.h:112-114 | The compact loop yields exactly the retained offsets of the 0xXYZ slots. |
| BlockStrongLayout2.StreamReferences | FBRetainCycleDetector/Layout/Blocks/Block_private.h:116-122 | The cursor loop over the byte string yields exactly the retained offsets of the decoded stream. |
| BlockStrongLayout2.StreamStep | FBRetainCycleDetector/Layout/Blocks/Block_private.h:150-194 | One instruction at a time: halt on 0 or 0xB..0xF, and skip I+1 bytes for operator 1. Operators 3 and 4 report I+1 words; the others step I+1 words. |
| BlockStrongLayout2.CompactRetainedOffsets | FBRetainCycleDetector/Layout/Blocks/Block_private.h:112-114 | In the compact form the retained words are the X+Y words right after the header. |
| TypeTokens.PassedPathIsExact | FBRetainCycleDetector/Layout/Classes/Parser/Type.h:30-32 | After passing p, the token's typePath is exactly p. Name, encoding, kind, struct type name and number of contents are unchanged. |
| TypeTokens.SecondPassOverwrites | FBRetainCycleDetector/Layout/Classes/Parser/Type.h:30-32 | A second pass replaces the first everywhere in the tree; paths are assigned, never appended. |
| TypeTokens.PassedPathReachesEveryToken | FBRetainCycleDetector/Layout/Classes/Parser/FBParsedType.h:51-55 | Passing a path on the root gives every token in the tree the path its enclosing struct hands down. |
| TypeTokens.ConsistentTreeIsPassed | FBRetainCycleDetector/Layout/Classes/Parser/FBParsedType.h:30-46 | Conversely, a tree with consistent paths is exactly what passing its root's path produces. |
| TypeTokens.LeavesAreTheBasicTokens | FBRetainCycleDetector/Layout/Classes/Parser/FBParsedStruct.h:38-43 | A token is in the flattened list if and only if it is a basic token occurring in the tree. |
| TypeTokens.FlattenOfBasicContents | FBRetainCycleDetector/Layout/Classes/Parser/FBParsedStruct.h:38-43 | A struct whose contents are all basic flattens to those contents unchanged, and empty contents flatten to nothing. |
| TypeTokens.LeavesUnderPassedPath | FBRetainCycleDetector/Layout/Classes/Parser/FBParsedType.h:51-55 | Passing a path keeps the leaves position by position except for their paths. Every leaf's path extends the root's. |
| ParsedTypes.ParsedType.InitType | FBRetainCycleDetector/Layout/Classes/Parser/Type.h:23-24 | A new basic token has the given name and encoding and an empty typePath. |
| ParsedTypes.ParsedType.InitStruct | FBRetainCycleDetector/Layout/Classes/Parser/FBParsedStruct.h:33-36 | A new struct token holds the given name, encoding, struct type name and contained tokens, with an empty typePath. |
| ParsedTypes.ParsedType.PassTypePath | FBRetainCycleDetector/Layout/Classes/Parser/FBParsedType.h:51-55 | The object tree after passTypePath equals the value-level WithPath of the tree before it. Only typePath fields change. |
| ParsedTypes.ParsedType.FlattenTypes | FBRetainCycleDetector/Layout/Classes/Parser/FBParsedStruct.h:38-43 | Every token returned is a basic (non-struct) token of this tree. |
| ParsedTypes.ParsedType.FlattenTypesAreLeaves | FBRetainCycleDetector/Layout/Classes/Parser/FBParsedStruct.h:38-43 | The tokens flattenTypes returns are, in order, exactly the leaves of the tree. |
| StructEncodingParser.ParsedStructEncoding | FBRetainCycleDetector/Layout/Classes/Parser/FBStructEncodingParser.h:29-35 | Parsing always yields a struct (never nil), named by the supplied root name, with the input as its encoding. |
| StructEncodingParser.Build | FBRetainCycleDetector/Layout/Classes/Parser/FBParsedStruct.h:14-17 | Builds a fresh, separate token object for every token of a parsed tree, nested structs included. |
| StructEncodingParser.ParseStructEncodingWithName | FBRetainCycleDetector/Layout/Classes/Parser/FBStructEncodingParser.h:29-35 | Returns fresh token objects whose tree is the parse, with every path passed from the root. |
| StructEncodingParser.ParseStructEncoding | FBRetainCycleDetector/Layout/Classes/Parser/FBStructEncodingParser.h:19-27 | The same parse with no root name. |
| StructEncodingLaws.ParseEncodeRoundTrip | FBRetainCycleDetector/Layout/Classes/Parser/FBStructEncodingParser.h:19-27 | Parsing the ivar-style encoding of a well-formed named-member struct gives back that struct, with paths passed. |
| StructEncodingLaws.ParseKeepsEveryLeaf | FBRetainCycleDetector/Layout/Classes/Parser/FBParsedStruct.h:38-43 | The parse has as many leaves as the encoded struct, with the same names and encodings, in order. |
| StructEncodingLaws.RootNameLeadsEveryPath | FBRetainCycleDetector/Layout/Classes/Parser/FBStructEncodingParser.h:29-33 | For any input, every token carries a consistent path, and a supplied root name heads the path of every contained token and leaf. |
| StructEncodingLaws.NestedStructTypePath | FBRetainCycleDetector/Layout/Classes/Parser/FBParsedType.h:30-44 | The documented example: a member of struct S held as field f of struct O gets typePath [O, f, S]. |
| StructEncodingLaws.ClassNameOfObjectMemberIsDropped | FBRetainCycleDetector/Layout/Classes/Reference/FBObjectReference.h:27-33 | In `"m"@"C"` the class name C is not a member. The member's path starts with the ivar name and the struct type. |
| References.IvarLayoutOffset | FBRetainCycleDetector/Layout/Classes/Reference/FBObjectReferenceWithLayout.h:19-24 | The offset is word-aligned and divides back to the layout index, so distinct indices give distinct offsets. |
| References.ObjectReferenceFromObject | FBRetainCycleDetector/Layout/Classes/Reference/FBObjectReference.h:17-20 | Behaviour per case: a nil object gives nil; a layout reference reads the word at its offset; a Swift reference reads its property. |
| References.MemberReferencesLieAfter | FBRetainCycleDetector/Layout/Classes/Reference/FBObjectReferenceWithLayout.h:19-24 | Every reference found inside a struct is a struct-member reference whose word index lies at or past the ivar's own offset. |
| References.MemberReferencesAreMembers | FBRetainCycleDetector/Layout/Classes/Reference/FBObjectReference.h:27-33 | Every struct-member reference names an object member by type path plus member name, at or after the ivar's offset. |
| References.MemberReferencesAreComplete | FBRetainCycleDetector/Layout/Classes/Reference/FBObjectReference.h:22-34 | The converse of MemberReferencesAreMembers: every object member the walk reaches, with no unsized member before it, is reported under its type path and name, at the word of its aligned offset. |
| References.MemberReferencesIncrease | FBRetainCycleDetector/Layout/Classes/Reference/FBObjectReferenceWithLayout.h:19-24 | References within one struct have strictly increasing layout indices, so no two share a word. |
| References.StructReferencesStartWithIvar | FBRetainCycleDetector/Layout/Classes/Reference/FBObjectReference.h:22-34 | Every reference inside a struct ivar has a name path starting with the ivar's name. |
| References.StructMemberNamePathExample | FBRetainCycleDetector/Layout/Classes/Reference/FBObjectReference.h:27-33 | The documented example: `_myIvar` of `struct SomeStruct { NSObject *myObject; }` has the one reference [_myIvar, SomeStruct, myObject] in the ivar's word. |
| References.SwiftStrongMembership | FBRetainCycleDetector/Layout/Classes/Reference/FBSwiftReference.h:13-19 | A Swift reference by name is reported if and only if a stored property of that name is strong. |
| References.StrongReferencesForClassMembership | FBRetainCycleDetector/Graph/FBObjectiveCGraphNode.h:57-60 | A Swift class yields nothing with inspection off. With it on, its Swift references are exactly its strong stored properties. Any other class yields exactly those references of its ivars whose index the ivar layout marks strong: none without a layout, and never a weak ivar. |
| References.ClassReferencesHaveLayout | FBRetainCycleDetector/Layout/Classes/Reference/FBObjectReferenceWithLayout.h:17-24 | Every ivar and struct-member reference of a class carries a layout index. |
| GraphConfiguration.EdgeAccepted | FBRetainCycleDetector/Graph/FBObjectGraphConfiguration.h:37-49 | A reference is accepted if and only if every filter returns Valid. An empty list accepts everything. |
| GraphConfiguration.FilterOrderIsIrrelevant | FBRetainCycleDetector/Graph/FBObjectGraphConfiguration.h:37-40 | Filter lists with the same verdicts in any order accept the same references. |
| GraphConfiguration.FilterChainsCompose | FBRetainCycleDetector/Graph/FBObjectGraphConfiguration.h:37-40 | Joining two filter lists accepts exactly what both accept. |
| GraphConfiguration.HexRoundTrip | FBRetainCycleDetector/Graph/FBObjectGraphConfiguration.h:58-64 | The hexadecimal address reads back to the number, without a leading zero (except for zero). |
| GraphConfiguration.BlockDescriptionRoundTrip | FBRetainCycleDetector/Graph/FBObjectGraphConfiguration.h:58-64 | `<<Class:0xADDR>>` gives back both the class name and the invoke address, whatever the class name holds. |
| GraphConfiguration.ChainOfSilentClasses | FBRetainCycleDetector/Graph/FBObjectiveCGraphNode.h:57-60 | Classes that declare no strong reference, such as the NSObject root, add nothing to an object's references. |
| GraphConfiguration.ChainReferencesMembership | FBRetainCycleDetector/Graph/FBObjectiveCGraphNode.h:57-60 | An object has a reference if and only if some class of its hierarchy declares it. |
| GraphConfiguration.Configuration.constructor | FBRetainCycleDetector/Graph/FBObjectGraphConfiguration.h:73-76 | The designated initializer stores filters, timers switch, transformer, block-address switch and Swift switch. The layout cache starts empty and coherent. |
| GraphConfiguration.Configuration.WithTransformer | FBRetainCycleDetector/Graph/FBObjectGraphConfiguration.h:78-80 | The shorter initializer: no block addresses, no Swift objects, empty cache. |
| GraphConfiguration.Configuration.WithFilters | FBRetainCycleDetector/Graph/FBObjectGraphConfiguration.h:82-83 | The shortest initializer: no transformer either. |
| GraphConfiguration.Configuration.ClassStrongReferences | FBRetainCycleDetector/Graph/FBObjectGraphConfiguration.h:67-71 | A cache hit returns the class's own list. A miss computes it and, with caching on, stores it. The cache stays coherent and gains only this class. |
| GraphConfiguration.Configuration.ObjectStrongReferences | FBRetainCycleDetector/Graph/FBObjectGraphConfiguration.h:67-71 | With or without the cache, the result equals the uncached references of the whole hierarchy. The cache gains exactly the visited classes. |
| AssociationManager.SetStrongTracks | FBRetainCycleDetector/Associations/Internal/FBAssociationManager+Internal.h:17 | After setting a value the key is tracked, and after setting nil it is not. Every other (object, key) pair is unchanged. |
| AssociationManager.ResetForgetsOneKey | FBRetainCycleDetector/Associations/Internal/FBAssociationManager+Internal.h:16 | Reset forgets exactly that key of that object; every other key and object is unchanged. |
| AssociationManager.RemoveForgetsObject | FBRetainCycleDetector/Associations/Internal/FBAssociationManager+Internal.h:18 | Remove forgets every key of the object and nothing of any other object. |
| AssociationManager.OperationsAreLocal | FBRetainCycleDetector/Associations/Internal/FBAssociationManager+Internal.h:16-18 | Setting or removing for one object leaves every other object's entry as it was. |
| AssociationManager.SetAssociationIsReported | FBRetainCycleDetector/Associations/Internal/FBAssociationManager+Internal.h:17-20 | Once a value is set under a key, `associations` reports it while the runtime still holds it. |
| AssociationManager.AssociationTable.constructor | FBRetainCycleDetector/Associations/Internal/FBAssociationManager+Internal.h:14 | The table starts empty. |
| AssociationManager.AssociationTable.ResetAssociationAtKey | FBRetainCycleDetector/Associations/Internal/FBAssociationManager+Internal.h:16 | The new table is ResetAtKey of the old one. |
| AssociationManager.AssociationTable.SetStrongAssociation | FBRetainCycleDetector/Associations/Internal/FBAssociationManager+Internal.h:17 | The new table is SetStrong of the old one; a nil value resets the key. |
| AssociationManager.AssociationTable.RemoveAssociations | FBRetainCycleDetector/Associations/Internal/FBAssociationManager+Internal.h:18 | The new table is RemoveAll of the old one. |
| AssociationManager.AssociationTable.Associations | FBRetainCycleDetector/Associations/Internal/FBAssociationManager+Internal.h:20 | Nil exactly for an untracked object. Otherwise the values still held under its tracked keys, at most one per key. |
| RetainedObjects.Wrap | FBRetainCycleDetector/FBRetainCycleUtils.h:19-27 | An edge rejected by a filter gives no element. An accepted one gives the element with its name path, passed through the transformer when there is one. |
| RetainedObjects.WrapAllMembership | FBRetainCycleDetector/Graph/FBObjectGraphConfiguration.h:37-40 | Without a transformer, an element is retained if and only if its referent is listed and every filter accepts the edge. |
| RetainedObjects.WrapAllTransformed | FBRetainCycleDetector/Graph/FBObjectGraphConfiguration.h:51 | With a transformer, every retained element is the transform of an accepted referent. |
| RetainedObjects.ReferenceReferentsMembership | FBRetainCycleDetector/Layout/Classes/Reference/FBObjectReference.h:17-35 | A referent is read out of an object if and only if one of its references designates it, under that reference's name path. |
| RetainedObjects.WordReferentsMembership | FBRetainCycleDetector/Layout/Blocks/FBBlockStrongLayout.h:15-19 | A block's word referents are exactly the objects stored at the given offsets. |
| RetainedObjects.ObjectRetainsItsStrongReferences | FBRetainCycleDetector/Graph/FBObjectiveCGraphNode.h:57-60 | An unfiltered plain object retains exactly its associated objects and the objects its hierarchy's strong references hold, under their name paths. |
| RetainedObjects.BlockRetainsItsStrongCaptures | FBRetainCycleDetector/Layout/Blocks/FBBlockStrongLayout.h:15-19 | Apart from associations, a block retains exactly the objects in its strong and byref capture words, and nothing from them without an extended layout. |
| RetainedObjects.TimerInspectionSwitch | FBRetainCycleDetector/Graph/FBObjectGraphConfiguration.h:53-56 | With timer inspection off, a timer's referents are its associations and its class's references only. With it on, its target and user info, when set, are among them under the names `target` and `userInfo`. |
| RetainedObjects.SwiftClassesNeedTheSwitch | FBRetainCycleDetectorTests/FBRetainCycleDetectorTests.swift:38-49 | With Swift inspection off, a hierarchy whose classes are Swift classes, or declare no strong reference as the NSObject root does, yields no references. |
| ObjectiveCGraph.GraphNode.constructor | FBRetainCycleDetector/Graph/FBObjectiveCGraphNode.h:23-27 | A new node holds its element and has no outgoing or incoming references. |
| ObjectiveCGraph.GraphNode.AddIncomingReference | FBRetainCycleDetector/Graph/FBObjectiveCGraphNode.h:39-42 | Incoming becomes old incoming plus the node (adding it twice changes nothing), and outgoing is untouched. |
| ObjectiveCGraph.GraphNode.BuildReferencesWithObjects | FBRetainCycleDetector/Graph/FBObjectiveCGraphNode.h:35-38 | Each retained object gets a node through the delegate, and this node gains an edge to it. Edges are kept symmetric. Exactly those edges and nodes are added; old nodes stay. |
| ObjectiveCGraph.ObjectGraph.constructor | FBRetainCycleDetector/Graph/FBObjectiveCGraph.h:44-47 | A new graph is empty, valid and not yet constructed. |
| ObjectiveCGraph.ObjectGraph.NodeForElement | FBRetainCycleDetector/Graph/FBObjectiveCGraph.h:36-39 | Returns the existing node for the object, or creates a fresh empty node and files it under the object. No edge changes. |
| ObjectiveCGraph.ObjectGraph.AddEdge | FBRetainCycleDetector/Graph/FBObjectiveCGraphNode.h:35-42 | Adds exactly one edge, from the node to the element's object, creating that node if needed. Symmetry is kept. |
| ObjectiveCGraph.ObjectGraph.Link | FBRetainCycleDetector/Graph/FBObjectiveCGraphNode.h:23-27 | Adding to one node's outgoing set and the other's incoming set adds exactly one edge and keeps symmetry. |
| ObjectiveCGraph.ObjectGraph.BuildGraph | FBRetainCycleDetector/Graph/FBObjectiveCGraph.h:32-35 | Afterwards the graph is constructed and valid. It knows exactly the old objects, the given ones and their direct successors, and exactly the old edges plus one hop from each given element. |
| ObjectiveCGraph.ObjectGraph.BuildElement | FBRetainCycleDetector/Graph/FBObjectiveCGraphNode.h:57-60 | One element's node gains edges to exactly the objects in its allRetainedObjects. |
| ObjectiveCGraph.ObjectGraph.BuildGraphWithObjects | FBRetainCycleDetector/Graph/FBObjectiveCGraph.h:26-31 | Building from objects wraps them as root elements and adds one hop from each, no further. |
| ObjectiveCGraph.ObjectGraph.OneNodePerObject | FBRetainCycleDetector/Graph/FBObjectiveCGraph.h:48-51 | No object has two nodes, and graphNodes has exactly as many nodes as the map has objects. |
| RetainCycleDetector.MinAddressIndex | FBRetainCycleDetector/Detector/FBRetainCycleDetector+Internal.h:14 | The index of the first element with the lowest address. |
| RetainCycleDetector.ShiftToUnifiedCycle | FBRetainCycleDetector/Detector/FBRetainCycleDetector+Internal.h:14 | The one-pass loop returns the canonical rotation Unified of its input. |
| RetainCycleDetector.UnifiedIsRotation | FBRetainCycleDetector/Detector/FBRetainCycleDetector+Internal.h:14 | The unified cycle has the same length and elements, is a rotation of the input, and starts at a lowest address. |
| RetainCycleDetector.UnifiedIgnoresRotation | FBRetainCycleDetector/Detector/FBRetainCycleDetector+Internal.h:13-14 | All rotations of a cycle of distinct objects unify to the same sequence. |
| RetainCycleDetector.UnifiedIsIdempotent | FBRetainCycleDetector/Detector/FBRetainCycleDetector+Internal.h:14 | Shifting an already unified cycle returns it unchanged. |
| RetainCycleDetector.ExploreIsSound | FBRetainCycleDetector/Detector/FBRetainCycleDetector+Internal.h:11-16 | When what an element retains depends only on its object, every reported cycle is a closed walk of distinct objects, each retaining the next. It is no longer than the stack depth and already in unified form. |
| RetainCycleDetector.SelfRetainIsReported | FBRetainCycleDetectorTests/FBRetainCycleDetectorTests.swift:24-36 | An object that retains itself is reported as the one-element cycle of the element that closed it. |
| RetainCycleDetector.CandidatesMembership | FBRetainCycleDetectorTests/FBRetainCycleDetectorTests.swift:18-20 | A cycle is reported if and only if the search from some candidate reports it. |
| RetainCycleDetector.Detector.constructor | FBRetainCycleDetectorTests/FBRetainCycleSwiftDetectorTests.swift:54 | A new detector has its configuration and no candidates. |
| RetainCycleDetector.Detector.AddCandidate | FBRetainCycleDetectorTests/FBRetainCycleDetectorTests.swift:19 | The candidate is appended, wrapped as a root element; a candidate the configuration drops is not added. |
| RetainCycleDetector.Detector.FindRetainCyclesWithMaxCycleLength | FBRetainCycleDetectorTests/FBRetainCycleDetectorTests.swift:20 | Returns exactly the cycles of all candidates' searches at that depth, then clears the candidates. |
| RetainCycleDetector.Detector.FindRetainCycles | FBRetainCycleDetectorTests/FBRetainCycleDetectorTests.swift:18-21 | The same at the default stack depth of 10. |
| DetectorScenarios.NoCycleWithoutAWayBack | FBRetainCycleDetectorTests/FBRetainCycleDetectorTests.swift:15-22 | An object retaining another that retains nothing gives zero cycles. |
| DetectorScenarios.SelfRetainGivesOneCycle | FBRetainCycleDetectorTests/FBRetainCycleDetectorTests.swift:24-36 | A self-reference gives exactly one one-element cycle. |
| DetectorScenarios.MutualRetainGivesOneCycle | FBRetainCycleDetectorTests/FBRetainCycleSwiftDetectorTests.swift:42-58 | Two objects retaining each other give exactly one cycle, in unified form. |
| DetectorScenarios.RingOfThreeGivesOneCycle | FBRetainCycleDetectorTests/FBRetainCycleSwiftDetectorTests.swift:90-115 | Three objects in a ring give exactly one cycle from a single candidate. |
| DetectorScenarios.MutualRetainFromBothEndsGivesOneCycle | FBRetainCycleDetector/Detector/FBRetainCycleDetector+Internal.h:13-14 | Both ends of a mutual reference given as candidates still give one cycle, not one per rotation. |
| DetectorScenarios.CandidateElement | FBRetainCycleDetector/FBRetainCycleUtils.h:19-27 | An unfiltered candidate is wrapped with its address and an empty name path. |
| DetectorScenarios.WrapperTestClassReferences | FBRetainCycleDetectorTests/RCDObjectWrapperTestClass.h:5-11 | The test class's strong references are `_someObject`, `_someString` and `_aCls`, not the weak `_irrelevantObject`. |
| DetectorScenarios.WrapperObjectRetainsItsStrongProperties | FBRetainCycleDetectorTests/FBSwiftReferenceTest.swift:31-48 | The object retains exactly what its strong and copy properties hold, the object given to its initializer included (kept in `_aCls`), under their ivar names. It does not retain what its weak property holds. |
| DetectorScenarios.WrapperObjectRetainsOnlyItself | FBRetainCycleDetectorTests/FBRetainCycleDetectorTests.swift:24-36 | With `someObject` set to itself, the object retains exactly itself under `_someObject`. |
| DetectorScenarios.SelfRetainingObjectIsReported | FBRetainCycleDetectorTests/FBRetainCycleDetectorTests.swift:24-36 | findRetainCycles reports exactly `{[the object named ["_someObject"]]}`. |
| DetectorScenarios.SwiftObjectHiddenWithoutTheSwitch | FBRetainCycleDetectorTests/FBRetainCycleDetectorTests.swift:38-49 | With Swift inspection off, an object whose classes are Swift classes or declare no strong reference (the NSObject root) retains nothing the search can see. |
| DetectorScenarios.ObjcBackedSwiftObjectIsHidden | FBRetainCycleDetectorTests/FBRetainCycleDetectorTests.swift:6-10 | The test's hierarchy, an `@objc` Swift class directly under NSObject, retains nothing with Swift inspection off. |
| DetectorScenarios.SwiftCycleNeedsTheSwitch | FBRetainCycleDetectorTests/FBRetainCycleDetectorTests.swift:38-49 | With the default configuration, a cycle through objects of Swift classes under the NSObject root gives zero cycles. |
| DetectorScenarios.SwiftObjectRetainsItsProperty | FBRetainCycleDetectorTests/FBRetainCycleSwiftDetectorTests.swift:60-70 | With Swift inspection on, a Swift object with one strong property has exactly that one reference. |
| DetectorScenarios.SwiftCycleFoundWithTheSwitch | FBRetainCycleDetectorTests/FBRetainCycleSwiftDetectorTests.swift:72-88 | With Swift inspection on, two Swift objects holding each other give exactly one cycle. |

## Left out

- Mach-O symbol rebinding (rcd_fishhook) is left out. It is loader machinery.
- The runtime is left abstract: reading raw memory, object liveness, weak zeroing and KVO isa-swizzling. It is represented by functions in `RetainedObjects.Runtime`.
- Swift reflection (Mirror and the runtime entry points) is left out. A Swift class is represented by its list of stored properties, each marked strong or not.
- `FBObjectIsBlock`, and how an object is classified as a block or timer, are an abstract `kindOf` function. The version 1 block extractor (FBBlockStrongLayout.h) is not modelled, apart from its documented contract.
- The standard edge filters are not modelled. Filters and the transformer are abstract functions.
- Timers are modelled only by their effect on retained objects: the `TimerObject` kind adds the target and userInfo when timer inspection is on.
- The collection wrappers are left out entirely. An NSArray, NSDictionary or NSSet is a plain object in the model: it retains only its ivars and associations, and its elements are not reported.
- `FBObjectiveCGraph sharedInstance` is left out. The model's graph is an ordinary object that the caller constructs, so "at most one instance" is not stated.
- Thread safety, the `_INTERNAL_RCD_ENABLED` switch and the lldb-only usage notes are left out. The model is single-threaded and the association table always exists.
- Only the 64-bit runtime is modelled: the word is 8 bytes and the block header is 32 bytes.
- BlockLayout.Halts: an ESCAPE byte with N != 0 is reserved and currently unused in Block_private.h. The model reads it like N == 0, halting the walk. This is the model's reading of a reserved case, not something the header states.
- RetainedObjects.WordReferents: for a BYREF word the reported object is the `__block` variable's byref box, the object the block itself keeps alive. The layout of that box (BlockAbi.ByrefLayoutOf, BlockAbi.ByrefFields) is modelled but not followed to the variable's value.
- RetainCycleDetector.Detector.FindRetainCycles: the walk has no global visited set, because the search implementation is not part of this model. It explores every path up to the stack depth. The reported cycles are proved sound and canonical, but how the source prunes repeated work is not captured.
- GraphElements.Element: elements compare by address and name path together. The source compares graph elements by object address. The cycle search and the graph key objects by address, so only the result sets differ, when one object is reached under two names.
- References.SizeAndAlignment: the size and alignment table for struct members covers the scalar, pointer, object, class and selector codes on a 64-bit target. Other encodings end the walk over the struct. The implementation's own table is not part of this model.
- The outgoing and incoming accessors return copies. This holds trivially, because sets are values in the model.
- `IsGraphConstructed`, `GraphConfiguration` and `GraphNodes` are plain accessors with no contract of their own. What they report is stated through `constructed`, `configuration` and `nodes` in the contracts above.
- The layout cache is keyed by class name rather than by `Class`.
- GraphConfiguration.Configuration.constructor: takes the Swift switch, as the tests pass it, and the cache switch as parameters. The designated initializer in FBObjectGraphConfiguration.h has neither; how the implementation sets `shouldCacheLayouts` is not part of this model.
- DetectorScenarios.WrapperTestClassReferences: the ivar offsets (8, 16, 24, 32) and the strong ivar layout of the test class are the model's assumption about how the compiler lays out its four properties, `aCls` included.
- The block description writes the invoke address in lower-case hexadecimal without leading zeros.
- The iteration order of `associations` is left out. The model's `Associations` promises the set of values, not an order.
