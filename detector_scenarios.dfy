/**
 * The detector's behaviour on small object graphs: an object that refers
 * to another without a way back, an object that retains itself, mutual
 * references between two and three objects, and objects of Swift classes
 * with Swift inspection off and on.
 */
module DetectorScenarios {
  import opened Wrappers
  import opened References
  import opened GraphElements
  import opened GraphConfiguration
  import opened RetainedObjects
  import opened RetainCycleDetector

  // ---------------------------------------------------------------------
  // Unfolding the search on one candidate

  lemma OneCandidate(succ: Element -> seq<Element>, root: Element, depth: nat)
    ensures CyclesFromCandidates(succ, [root], depth) == Explore(succ, [root], depth)
  {
    assert [root][..0] == [];
  }

  /** Exploring a stack whose top retains exactly one object is visiting that object. */
  lemma ExploreOne(succ: Element -> seq<Element>, path: seq<Element>, w: Element, depth: nat)
    requires |path| > 0 && succ(path[|path| - 1]) == [w]
    ensures Explore(succ, path, depth) == Visit(succ, path, w, depth)
  {
    assert [w][1..] == [];
    assert ExploreFrom(succ, path, [w], depth) == Visit(succ, path, w, depth) + ExploreFrom(succ, path, [], depth);
  }

  lemma ExploreNone(succ: Element -> seq<Element>, path: seq<Element>, depth: nat)
    requires |path| > 0 && succ(path[|path| - 1]) == []
    ensures Explore(succ, path, depth) == {}
  {
  }

  /** An object not on the stack is pushed while the stack has room. */
  lemma VisitPushes(succ: Element -> seq<Element>, path: seq<Element>, w: Element, depth: nat)
    requires |path| > 0 && |path| < depth
    requires forall j :: 0 <= j < |path| ==> path[j].address != w.address
    ensures Visit(succ, path, w, depth) == Explore(succ, path + [w], depth)
  {
  }

  /** An object at the address of the `i`-th stack element closes the cycle from there. */
  lemma VisitCloses(succ: Element -> seq<Element>, path: seq<Element>, w: Element, depth: nat, i: nat)
    requires i < |path| && path[i].address == w.address
    requires forall j :: 0 <= j < i ==> path[j].address != w.address
    ensures Visit(succ, path, w, depth) == {Unified([w] + path[i + 1..])}
  {
    assert IndexOnPath(path, w.address) == Some(i);
  }

  // ---------------------------------------------------------------------
  // Graphs given by what each object retains

  /** An object retaining another that retains nothing gives no cycle. */
  lemma NoCycleWithoutAWayBack(succ: Element -> seq<Element>, root: Element, v: Element)
    requires succ(root) == [v] && v.address != root.address && succ(v) == []
    ensures CyclesFromCandidates(succ, [root], DefaultStackDepth) == {}
  {
    OneCandidate(succ, [root][0], DefaultStackDepth);
    ExploreOne(succ, [root], v, DefaultStackDepth);
    VisitPushes(succ, [root], v, DefaultStackDepth);
    ExploreNone(succ, [root, v], DefaultStackDepth);
    assert [root] + [v] == [root, v];
  }

  /** An object whose only reference points back to itself gives exactly that one-element cycle. */
  lemma SelfRetainGivesOneCycle(succ: Element -> seq<Element>, root: Element, w: Element)
    requires succ(root) == [w] && w.address == root.address
    ensures CyclesFromCandidates(succ, [root], DefaultStackDepth) == {[w]}
  {
    OneCandidate(succ, root, DefaultStackDepth);
    ExploreOne(succ, [root], w, DefaultStackDepth);
    VisitCloses(succ, [root], w, DefaultStackDepth, 0);
    assert [w] + [root][1..] == [w];
    assert Unified([w]) == [w];
  }

  /** Two objects retaining each other give one cycle, in unified form. */
  lemma MutualRetainGivesOneCycle(succ: Element -> seq<Element>, a: Element, b: Element, a2: Element)
    requires succ(a) == [b] && b.address != a.address
    requires succ(b) == [a2] && a2.address == a.address
    ensures CyclesFromCandidates(succ, [a], DefaultStackDepth) == {Unified([a2, b])}
  {
    OneCandidate(succ, a, DefaultStackDepth);
    ExploreOne(succ, [a], b, DefaultStackDepth);
    VisitPushes(succ, [a], b, DefaultStackDepth);
    assert [a] + [b] == [a, b];
    ExploreOne(succ, [a, b], a2, DefaultStackDepth);
    VisitCloses(succ, [a, b], a2, DefaultStackDepth, 0);
    assert [a2] + [a, b][1..] == [a2, b];
  }

  /** Three objects retaining each other in a ring give one cycle from a single candidate. */
  lemma RingOfThreeGivesOneCycle(succ: Element -> seq<Element>, a: Element, b: Element, c: Element, a2: Element)
    requires a.address != b.address && b.address != c.address && a.address != c.address
    requires succ(a) == [b] && succ(b) == [c] && succ(c) == [a2] && a2.address == a.address
    ensures CyclesFromCandidates(succ, [a], DefaultStackDepth) == {Unified([a2, b, c])}
  {
    OneCandidate(succ, a, DefaultStackDepth);
    ExploreOne(succ, [a], b, DefaultStackDepth);
    VisitPushes(succ, [a], b, DefaultStackDepth);
    assert [a] + [b] == [a, b];
    ExploreOne(succ, [a, b], c, DefaultStackDepth);
    VisitPushes(succ, [a, b], c, DefaultStackDepth);
    assert [a, b] + [c] == [a, b, c];
    ExploreOne(succ, [a, b, c], a2, DefaultStackDepth);
    VisitCloses(succ, [a, b, c], a2, DefaultStackDepth, 0);
    assert [a2] + [a, b, c][1..] == [a2, b, c];
  }

  /**
   * Both objects of a mutual reference given as candidates still give one
   * cycle: the search from the second finds the other rotation, which
   * unifies to the same sequence.
   */
  lemma MutualRetainFromBothEndsGivesOneCycle(succ: Element -> seq<Element>, a: Element, b: Element, a2: Element, b0: Element)
    requires AddressDetermined(succ)
    requires succ(a) == [b] && b.address != a.address
    requires succ(b) == [a2] && a2.address == a.address
    requires b0.address == b.address
    ensures CyclesFromCandidates(succ, [a, b0], DefaultStackDepth) == {Unified([a2, b])}
  {
    MutualRetainGivesOneCycle(succ, a, b, a2);
    assert [a, b0][..1] == [a];
    assert succ(b0) == [a2] && succ(a2) == [b];
    ExploreOne(succ, [b0], a2, DefaultStackDepth);
    VisitPushes(succ, [b0], a2, DefaultStackDepth);
    assert [b0] + [a2] == [b0, a2];
    ExploreOne(succ, [b0, a2], b, DefaultStackDepth);
    VisitCloses(succ, [b0, a2], b, DefaultStackDepth, 0);
    assert [b] + [b0, a2][1..] == [b, a2];
    assert Rotate([a2, b], 1) == [b, a2];
    UnifiedIgnoresRotation([a2, b], 1);
  }

  // ---------------------------------------------------------------------
  // The same scenarios in a configured runtime

  /** The configuration the detector is made with by default: no filters, no transformer. */
  predicate Unfiltered(cfg: Configuration) {
    cfg.filterBlocks == [] && cfg.transformerBlock.None?
  }

  /** An unfiltered candidate is wrapped with its address and an empty name path. */
  lemma CandidateElement(rt: Runtime, cfg: Configuration, a: Address)
    requires Unfiltered(cfg)
    ensures RootElements(rt, cfg, [a]) == [Element(a, [])]
  {
    var roots := [Referent(a, [])];
    assert seq(1, i requires 0 <= i < 1 => Referent([a][i], [])) == roots;
    UnfilteredWrap(rt, cfg, None, roots);
    assert seq(1, i requires 0 <= i < 1 => Element(roots[i].address, roots[i].namePath)) == [Element(a, [])];
  }

  /** Without filters or transformer, the referents are wrapped one for one. */
  lemma UnfilteredWrap(rt: Runtime, cfg: Configuration, from: Option<Element>, rs: seq<Referent>)
    requires Unfiltered(cfg)
    ensures WrapAll(rt, cfg, from, rs) == seq(|rs|, i requires 0 <= i < |rs| => Element(rs[i].address, rs[i].namePath))
    decreases |rs|
  {
    if rs != [] {
      UnfilteredWrap(rt, cfg, from, rs[1..]);
    }
  }

  /**
   * The test class: the strong `_someObject` (layout index 1), the copied
   * `_someString` (index 2), the weak `_irrelevantObject` (index 3) and the
   * strong `_aCls` (index 4); its strong ivar layout lists all but the
   * weak one.
   */
  /**
   * The NSObject root: its only ivar is `isa`, and it has no strong ivar
   * layout, so it declares no strong reference under either Swift switch.
   */
  const NSObjectRoot: ClassInfo := ClassInfo(false, [Ivar("isa", "#", 0)], None, [])

  lemma NSObjectRootDeclaresNothing(includeSwift: bool)
    ensures StrongReferencesForClass(NSObjectRoot, includeSwift) == []
  {
  }

  /**
   * The hierarchy of `a` starts at `cls`, and every class above it (the
   * NSObject root, say) declares no strong reference.
   */
  predicate HierarchyFrom(rt: Runtime, a: Address, cls: ClassName, includeSwift: bool) {
    && |rt.classChain(a)| > 0
    && rt.classChain(a)[0] == cls
    && forall i :: 1 <= i < |rt.classChain(a)| ==> StrongReferencesForClass(rt.classInfo(rt.classChain(a)[i]), includeSwift) == []
  }

  lemma HierarchyFromReferences(rt: Runtime, a: Address, cls: ClassName, includeSwift: bool)
    requires HierarchyFrom(rt, a, cls, includeSwift)
    ensures ChainReferences(rt.classChain(a), rt.classInfo, includeSwift) == StrongReferencesForClass(rt.classInfo(cls), includeSwift)
  {
    var chain := rt.classChain(a);
    forall i | 0 <= i < |chain| - 1
      ensures StrongReferencesForClass(rt.classInfo(chain[1..][i]), includeSwift) == []
    {
      assert chain[1..][i] == chain[i + 1];
    }
    ChainOfSilentClasses(chain[1..], rt.classInfo, includeSwift);
    AppendEmpty(StrongReferencesForClass(rt.classInfo(cls), includeSwift));
  }

  const WrapperTestClass: ClassInfo := ClassInfo(false,
    [Ivar("_someObject", "@", 8), Ivar("_someString", "@", 16), Ivar("_irrelevantObject", "@", 24), Ivar("_aCls", "@", 32)],
    Some({1, 2, 4}), [])

  /** An object of the test class holds three strong references; the weak ivar is not one of them. */
  lemma WrapperTestClassReferences(rt: Runtime, cfg: Configuration, a: Address, cls: ClassName)
    requires HierarchyFrom(rt, a, cls, cfg.shouldIncludeSwiftObjects) && rt.classInfo(cls) == WrapperTestClass
    ensures ObjectReferences(rt, cfg, a)
      == [IvarReference("_someObject", 1), IvarReference("_someString", 2), IvarReference("_aCls", 4)]
  {
    var ivars := WrapperTestClass.ivars;
    assert ivars[1..] == [Ivar("_someString", "@", 16), Ivar("_irrelevantObject", "@", 24), Ivar("_aCls", "@", 32)];
    assert ivars[1..][1..] == [Ivar("_irrelevantObject", "@", 24), Ivar("_aCls", "@", 32)];
    assert ivars[1..][1..][1..] == [Ivar("_aCls", "@", 32)];
    var refs := [IvarReference("_someObject", 1), IvarReference("_someString", 2), IvarReference("_irrelevantObject", 3), IvarReference("_aCls", 4)];
    assert ClassReferences(ivars) == refs;
    assert refs[1..][1..][1..][1..] == [];
    var strong := [IvarReference("_someObject", 1), IvarReference("_someString", 2), IvarReference("_aCls", 4)];
    assert KeepStrong(refs, {1, 2, 4}) == strong;
    assert StrongReferencesForClass(rt.classInfo(cls), cfg.shouldIncludeSwiftObjects) == strong;
    HierarchyFromReferences(rt, a, cls, cfg.shouldIncludeSwiftObjects);
  }

  /**
   * The reference-fetching test: an object of the test class retains what
   * its strong and copied properties hold, under their ivar names, and not
   * what its weak property holds.
   */
  lemma WrapperObjectRetainsItsStrongProperties(rt: Runtime, cfg: Configuration, a: Address, cls: ClassName,
                                                 someObject: Address, someString: Address, other: Address)
    requires Unfiltered(cfg)
    requires rt.kindOf(a) == PlainObject && rt.associatedObjects(a) == []
    requires HierarchyFrom(rt, a, cls, cfg.shouldIncludeSwiftObjects) && rt.classInfo(cls) == WrapperTestClass
    requires rt.readWord(a, 8) == Some(someObject) && rt.readWord(a, 16) == Some(someString)
    requires rt.readWord(a, 32) == Some(other)
    ensures AllRetainedObjects(rt, cfg, Element(a, []))
      == [Element(someObject, ["_someObject"]), Element(someString, ["_someString"]), Element(other, ["_aCls"])]
  {
    WrapperTestClassReferences(rt, cfg, a, cls);
    var strong := [IvarReference("_someObject", 1), IvarReference("_someString", 2), IvarReference("_aCls", 4)];
    assert IvarLayoutOffset(1) == 8 && IvarLayoutOffset(2) == 16 && IvarLayoutOffset(4) == 32;
    assert strong[1..][1..][1..] == [];
    var rs := [Referent(someObject, ["_someObject"]), Referent(someString, ["_someString"]), Referent(other, ["_aCls"])];
    assert ReferenceReferents(rt, a, strong) == rs;
    assert Referents(rt, cfg, a) == [] + rs;
    assert [] + rs == rs;
    assert AllRetainedObjects(rt, cfg, Element(a, [])) == WrapAll(rt, cfg, Some(Element(a, [])), Referents(rt, cfg, a));
    assert AllRetainedObjects(rt, cfg, Element(a, [])) == WrapAll(rt, cfg, Some(Element(a, [])), rs);
    UnfilteredWrap(rt, cfg, Some(Element(a, [])), rs);
  }

  /**
   * The object of the self-retaining test: with `_someObject` pointing
   * back at the object and the other strong ivars unset, it retains itself
   * under the name `_someObject` and nothing else, whatever the weak ivar
   * holds.
   */
  lemma WrapperObjectRetainsOnlyItself(rt: Runtime, cfg: Configuration, a: Address, cls: ClassName)
    requires Unfiltered(cfg)
    requires rt.kindOf(a) == PlainObject && rt.associatedObjects(a) == []
    requires HierarchyFrom(rt, a, cls, cfg.shouldIncludeSwiftObjects) && rt.classInfo(cls) == WrapperTestClass
    requires rt.readWord(a, 8) == Some(a) && rt.readWord(a, 16) == None && rt.readWord(a, 32) == None
    ensures AllRetainedObjects(rt, cfg, Element(a, [])) == [Element(a, ["_someObject"])]
  {
    WrapperTestClassReferences(rt, cfg, a, cls);
    var strong := [IvarReference("_someObject", 1), IvarReference("_someString", 2), IvarReference("_aCls", 4)];
    assert IvarLayoutOffset(1) == 8 && IvarLayoutOffset(2) == 16 && IvarLayoutOffset(4) == 32;
    assert strong[1..][1..][1..] == [];
    assert ReferenceReferents(rt, a, strong) == [Referent(a, ["_someObject"])];
    assert Referents(rt, cfg, a) == [] + [Referent(a, ["_someObject"])];
    assert AllRetainedObjects(rt, cfg, Element(a, [])) == WrapAll(rt, cfg, Some(Element(a, [])), Referents(rt, cfg, a));
    assert AllRetainedObjects(rt, cfg, Element(a, [])) == WrapAll(rt, cfg, Some(Element(a, [])), [Referent(a, ["_someObject"])]);
    UnfilteredWrap(rt, cfg, Some(Element(a, [])), [Referent(a, ["_someObject"])]);
    assert seq(1, i requires 0 <= i < 1 => Element([Referent(a, ["_someObject"])][i].address, [Referent(a, ["_someObject"])][i].namePath))
      == [Element(a, ["_someObject"])];
  }

  /**
   * The self-retaining test: a candidate that retains itself through
   * `_someObject` is reported as one cycle, the one-element sequence of
   * the object named `_someObject`.
   */
  lemma SelfRetainingObjectIsReported(rt: Runtime, cfg: Configuration, a: Address, cls: ClassName)
    requires Unfiltered(cfg)
    requires rt.kindOf(a) == PlainObject && rt.associatedObjects(a) == []
    requires HierarchyFrom(rt, a, cls, cfg.shouldIncludeSwiftObjects) && rt.classInfo(cls) == WrapperTestClass
    requires rt.readWord(a, 8) == Some(a) && rt.readWord(a, 16) == None && rt.readWord(a, 32) == None
    ensures CyclesFromCandidates(Successors(rt, cfg), RootElements(rt, cfg, [a]), DefaultStackDepth)
      == {[Element(a, ["_someObject"])]}
  {
    CandidateElement(rt, cfg, a);
    WrapperObjectRetainsOnlyItself(rt, cfg, a, cls);
    SelfRetainGivesOneCycle(Successors(rt, cfg), Element(a, []), Element(a, ["_someObject"]));
  }

  /**
   * With Swift inspection off, an object whose classes are Swift classes,
   * or classes such as the NSObject root that declare no strong reference,
   * retains nothing but its associations.
   */
  lemma SwiftObjectHiddenWithoutTheSwitch(rt: Runtime, cfg: Configuration, e: Element)
    requires !cfg.shouldIncludeSwiftObjects
    requires rt.kindOf(e.address) == PlainObject && rt.associatedObjects(e.address) == []
    requires forall i :: 0 <= i < |rt.classChain(e.address)| ==>
      || rt.classInfo(rt.classChain(e.address)[i]).isSwift
      || StrongReferencesForClass(rt.classInfo(rt.classChain(e.address)[i]), false) == []
    ensures AllRetainedObjects(rt, cfg, e) == []
  {
    SwiftClassesNeedTheSwitch(rt.classChain(e.address), rt.classInfo);
    assert Referents(rt, cfg, e.address) == [] + [];
  }

  /** The test's hierarchy: an `@objc` Swift class directly under the NSObject root is hidden without the switch. */
  lemma ObjcBackedSwiftObjectIsHidden(rt: Runtime, cfg: Configuration, e: Element, cls: ClassName, root: ClassName)
    requires !cfg.shouldIncludeSwiftObjects
    requires rt.kindOf(e.address) == PlainObject && rt.associatedObjects(e.address) == []
    requires rt.classChain(e.address) == [cls, root]
    requires rt.classInfo(cls).isSwift && rt.classInfo(root) == NSObjectRoot
    ensures AllRetainedObjects(rt, cfg, e) == []
  {
    NSObjectRootDeclaresNothing(false);
    SwiftObjectHiddenWithoutTheSwitch(rt, cfg, e);
  }

  /**
   * The Swift test with the default configuration: a cycle through
   * objects of `@objc` Swift classes (Swift classes under the NSObject
   * root) is not reported, because the candidate retains nothing the
   * search can see.
   */
  lemma SwiftCycleNeedsTheSwitch(rt: Runtime, cfg: Configuration, a: Address)
    requires Unfiltered(cfg) && !cfg.shouldIncludeSwiftObjects
    requires rt.kindOf(a) == PlainObject && rt.associatedObjects(a) == []
    requires forall i :: 0 <= i < |rt.classChain(a)| ==>
      || rt.classInfo(rt.classChain(a)[i]).isSwift
      || StrongReferencesForClass(rt.classInfo(rt.classChain(a)[i]), false) == []
    ensures CyclesFromCandidates(Successors(rt, cfg), RootElements(rt, cfg, [a]), DefaultStackDepth) == {}
  {
    CandidateElement(rt, cfg, a);
    SwiftObjectHiddenWithoutTheSwitch(rt, cfg, Element(a, []));
    OneCandidate(Successors(rt, cfg), Element(a, []), DefaultStackDepth);
    ExploreNone(Successors(rt, cfg), [Element(a, [])], DefaultStackDepth);
  }

  /** With Swift inspection on, an object of a Swift class with one strong stored property retains what it holds. */
  lemma SwiftObjectRetainsItsProperty(rt: Runtime, cfg: Configuration, e: Element, cls: ClassName, property: string, target: Address)
    requires Unfiltered(cfg) && cfg.shouldIncludeSwiftObjects
    requires rt.kindOf(e.address) == PlainObject && rt.associatedObjects(e.address) == []
    requires rt.classChain(e.address) == [cls]
    requires rt.classInfo(cls) == ClassInfo(true, [], None, [SwiftProperty(property, true)])
    requires rt.readProperty(e.address, property) == Some(target)
    ensures AllRetainedObjects(rt, cfg, e) == [Element(target, [property])]
  {
    var refs := [SwiftReference(property)];
    assert [SwiftProperty(property, true)][1..] == [];
    assert [cls][1..] == [];
    assert SwiftStrongReferences([SwiftProperty(property, true)]) == refs + SwiftStrongReferences([]);
    assert StrongReferencesForClass(rt.classInfo(cls), true) == refs;
    assert ChainReferences([cls], rt.classInfo, true)
      == StrongReferencesForClass(rt.classInfo(cls), true) + ChainReferences([], rt.classInfo, true);
    assert ObjectReferences(rt, cfg, e.address) == refs;
    assert refs[1..] == [];
    assert ReferenceReferents(rt, e.address, refs) == [Referent(target, [property])];
    assert Referents(rt, cfg, e.address) == [] + [Referent(target, [property])];
    assert Referents(rt, cfg, e.address) == [Referent(target, [property])];
    assert AllRetainedObjects(rt, cfg, e) == WrapAll(rt, cfg, Some(e), Referents(rt, cfg, e.address));
    assert AllRetainedObjects(rt, cfg, e) == WrapAll(rt, cfg, Some(e), [Referent(target, [property])]);
    UnfilteredWrap(rt, cfg, Some(e), [Referent(target, [property])]);
    assert seq(1, i requires 0 <= i < 1 => Element([Referent(target, [property])][i].address, [Referent(target, [property])][i].namePath))
      == [Element(target, [property])];
  }

  /**
   * The Swift test with Swift inspection on: two objects of Swift classes
   * holding each other in a strong `someObject` property give one cycle.
   */
  lemma SwiftCycleFoundWithTheSwitch(rt: Runtime, cfg: Configuration, a: Address, b: Address, clsA: ClassName, clsB: ClassName)
    requires Unfiltered(cfg) && cfg.shouldIncludeSwiftObjects
    requires a != b
    requires rt.kindOf(a) == PlainObject && rt.associatedObjects(a) == []
    requires rt.kindOf(b) == PlainObject && rt.associatedObjects(b) == []
    requires rt.classChain(a) == [clsA] && rt.classChain(b) == [clsB]
    requires rt.classInfo(clsA) == ClassInfo(true, [], None, [SwiftProperty("someObject", true)])
    requires rt.classInfo(clsB) == ClassInfo(true, [], None, [SwiftProperty("someObject", true)])
    requires rt.readProperty(a, "someObject") == Some(b) && rt.readProperty(b, "someObject") == Some(a)
    ensures CyclesFromCandidates(Successors(rt, cfg), RootElements(rt, cfg, [a]), DefaultStackDepth)
      == {Unified([Element(a, ["someObject"]), Element(b, ["someObject"])])}
    ensures |CyclesFromCandidates(Successors(rt, cfg), RootElements(rt, cfg, [a]), DefaultStackDepth)| == 1
  {
    var succ := Successors(rt, cfg);
    CandidateElement(rt, cfg, a);
    SwiftObjectRetainsItsProperty(rt, cfg, Element(a, []), clsA, "someObject", b);
    SwiftObjectRetainsItsProperty(rt, cfg, Element(b, ["someObject"]), clsB, "someObject", a);
    MutualRetainGivesOneCycle(succ, Element(a, []), Element(b, ["someObject"]), Element(a, ["someObject"]));
  }
}
