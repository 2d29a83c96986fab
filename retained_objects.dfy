/**
 * What one graph element retains (`allRetainedObjects`): the strong
 * references of an object's class hierarchy, the captured strong and byref
 * words of a block, the target and user info of a timer when timers are
 * inspected, and the strong associated objects of any of them. Each
 * referenced object is wrapped as an element with the name path it was
 * reached by, unless a filter breaks the edge or the transformer drops it.
 */
module RetainedObjects {
  import opened Wrappers
  import opened References
  import opened GraphElements
  import opened GraphConfiguration
  import opened BlockAbi
  import opened BlockLayout

  /** How the wrapper classifies an object. */
  datatype ObjectKind = PlainObject | BlockObject | TimerObject

  /** The parts of a block literal the layout decoder reads. */
  datatype BlockInfo = BlockInfo(flags: bv32, descriptorWord: nat -> nat, layoutBytes: seq<Byte>)

  /** The host runtime, as opaque functions of the process's memory. */
  datatype Runtime = Runtime(
    kindOf: Address -> ObjectKind,
    /** The object's class, then each superclass in turn. */
    classChain: Address -> seq<ClassName>,
    classInfo: ClassName -> ClassInfo,
    /** The object pointer stored at a byte offset inside an object, if any. */
    readWord: (Address, nat) -> Option<Address>,
    /** The value of a Swift stored property, looked up by name. */
    readProperty: (Address, string) -> Option<Address>,
    blockOf: Address -> BlockInfo,
    /** The strong associated objects the association table reports. */
    associatedObjects: Address -> seq<Address>,
    timerTarget: Address -> Option<Address>,
    timerUserInfo: Address -> Option<Address>)

  /** A referenced object and the name path it is reached by, before wrapping. */
  datatype Referent = Referent(address: Address, namePath: seq<string>)

  const AssociatedObjectName: string := "__associated_object"

  function ClassOf(rt: Runtime, a: Address): Option<ClassName> {
    if rt.classChain(a) == [] then None else Some(rt.classChain(a)[0])
  }

  function FirstName(namePath: seq<string>): Option<string> {
    if namePath == [] then None else Some(namePath[0])
  }

  /**
   * Wrapping a referenced object: the edge is offered to the filters with
   * the retaining element, the first name of the path and the class of the
   * referenced object; an accepted edge gives an element, which the
   * transformer, when there is one, may replace or drop.
   */
  function Wrap(rt: Runtime, cfg: Configuration, from: Option<Element>, r: Referent): (w: Option<Element>)
    ensures !EdgeAccepted(cfg.filterBlocks, from, FirstName(r.namePath), ClassOf(rt, r.address)) ==> w.None?
    ensures EdgeAccepted(cfg.filterBlocks, from, FirstName(r.namePath), ClassOf(rt, r.address)) ==>
      w == (if cfg.transformerBlock.Some? then cfg.transformerBlock.value(Element(r.address, r.namePath))
            else Some(Element(r.address, r.namePath)))
  {
    if !EdgeAccepted(cfg.filterBlocks, from, FirstName(r.namePath), ClassOf(rt, r.address)) then None
    else
      var e := Element(r.address, r.namePath);
      if cfg.transformerBlock.Some? then cfg.transformerBlock.value(e) else Some(e)
  }

  function WrapAll(rt: Runtime, cfg: Configuration, from: Option<Element>, rs: seq<Referent>): seq<Element>
    decreases |rs|
  {
    if rs == [] then []
    else
      var w := Wrap(rt, cfg, from, rs[0]);
      (if w.Some? then [w.value] else []) + WrapAll(rt, cfg, from, rs[1..])
  }

  /** The objects that the references read out of an object designate, each with the reference's name path. */
  function ReferenceReferents(rt: Runtime, a: Address, refs: seq<ObjectReference>): seq<Referent>
    decreases |refs|
  {
    if refs == [] then []
    else
      var target := ObjectReferenceFromObject(refs[0], Some(a), rt.readWord, rt.readProperty);
      (if target.Some? then [Referent(target.value, NamePath(refs[0]))] else [])
        + ReferenceReferents(rt, a, refs[1..])
  }

  /**
   * The objects stored in the words a block retains; they carry no name.
   * For a BYREF word that object is the `__block` variable's byref box
   * (Block_byref), not the value the variable holds: the box is what the
   * block keeps alive.
   */
  function WordReferents(rt: Runtime, a: Address, offsets: seq<nat>): seq<Referent>
    decreases |offsets|
  {
    if offsets == [] then []
    else
      var target := rt.readWord(a, offsets[0]);
      (if target.Some? then [Referent(target.value, [])] else []) + WordReferents(rt, a, offsets[1..])
  }

  function NamedReferent(target: Option<Address>, name: string): seq<Referent> {
    if target.Some? then [Referent(target.value, [name])] else []
  }

  function AssociationReferents(targets: seq<Address>): (rs: seq<Referent>)
    ensures |rs| == |targets|
    ensures forall i :: 0 <= i < |rs| ==> rs[i] == Referent(targets[i], [AssociatedObjectName])
  {
    seq(|targets|, i requires 0 <= i < |targets| => Referent(targets[i], [AssociatedObjectName]))
  }

  /** The strong references of the object's class hierarchy, under the configuration's Swift switch. */
  function ObjectReferences(rt: Runtime, cfg: Configuration, a: Address): seq<ObjectReference> {
    ChainReferences(rt.classChain(a), rt.classInfo, cfg.shouldIncludeSwiftObjects)
  }

  /**
   * Everything an object retains before filtering. Associations come
   * first; then, by kind: a block's retained capture words (none when it
   * has no extended layout), a timer's object references plus, when timers
   * are inspected, its target and user info; any other object's references.
   */
  function Referents(rt: Runtime, cfg: Configuration, a: Address): seq<Referent> {
    var associations := AssociationReferents(rt.associatedObjects(a));
    match rt.kindOf(a)
    case BlockObject =>
      var info := rt.blockOf(a);
      var layout := BlockStrongLayout(info.flags, info.descriptorWord, info.layoutBytes);
      associations + (if layout.Some? then WordReferents(rt, a, layout.value) else [])
    case TimerObject =>
      var timer := if cfg.shouldInspectTimers
        then NamedReferent(rt.timerTarget(a), "target") + NamedReferent(rt.timerUserInfo(a), "userInfo")
        else [];
      associations + ReferenceReferents(rt, a, ObjectReferences(rt, cfg, a)) + timer
    case PlainObject =>
      associations + ReferenceReferents(rt, a, ObjectReferences(rt, cfg, a))
  }

  /** `allRetainedObjects` of an element. */
  function AllRetainedObjects(rt: Runtime, cfg: Configuration, e: Element): seq<Element> {
    WrapAll(rt, cfg, Some(e), Referents(rt, cfg, e.address))
  }

  /** Wrapping objects handed in from outside: no retaining element and no name path. */
  function RootElements(rt: Runtime, cfg: Configuration, objects: seq<Address>): seq<Element> {
    WrapAll(rt, cfg, None, seq(|objects|, i requires 0 <= i < |objects| => Referent(objects[i], [])))
  }

  // ---------------------------------------------------------------------
  // Properties

  /**
   * Without a transformer, an element retains exactly the referents whose
   * edge every filter accepts.
   */
  lemma {:induction false} WrapAllMembership(rt: Runtime, cfg: Configuration, from: Option<Element>, rs: seq<Referent>, x: Element)
    requires cfg.transformerBlock.None?
    ensures x in WrapAll(rt, cfg, from, rs) <==>
      Referent(x.address, x.namePath) in rs
      && EdgeAccepted(cfg.filterBlocks, from, FirstName(x.namePath), ClassOf(rt, x.address))
    decreases |rs|
  {
    if rs != [] {
      WrapAllMembership(rt, cfg, from, rs[1..], x);
      assert rs == [rs[0]] + rs[1..];
    }
  }

  /** With a transformer, every retained element is the transform of an accepted referent. */
  lemma {:induction false} WrapAllTransformed(rt: Runtime, cfg: Configuration, from: Option<Element>, rs: seq<Referent>, x: Element)
    requires cfg.transformerBlock.Some?
    requires x in WrapAll(rt, cfg, from, rs)
    ensures exists i :: (0 <= i < |rs|
      && EdgeAccepted(cfg.filterBlocks, from, FirstName(rs[i].namePath), ClassOf(rt, rs[i].address))
      && cfg.transformerBlock.value(Element(rs[i].address, rs[i].namePath)) == Some(x))
    decreases |rs|
  {
    var w := Wrap(rt, cfg, from, rs[0]);
    if !(w.Some? && x == w.value) {
      WrapAllTransformed(rt, cfg, from, rs[1..], x);
      var i :| 0 <= i < |rs[1..]|
        && EdgeAccepted(cfg.filterBlocks, from, FirstName(rs[1..][i].namePath), ClassOf(rt, rs[1..][i].address))
        && cfg.transformerBlock.value(Element(rs[1..][i].address, rs[1..][i].namePath)) == Some(x);
      assert rs[1..][i] == rs[i + 1];
    }
  }

  lemma {:induction false} ReferenceReferentsMembership(rt: Runtime, a: Address, refs: seq<ObjectReference>, r: Referent)
    ensures r in ReferenceReferents(rt, a, refs) <==>
      exists k :: (0 <= k < |refs|
        && ObjectReferenceFromObject(refs[k], Some(a), rt.readWord, rt.readProperty) == Some(r.address)
        && NamePath(refs[k]) == r.namePath)
    decreases |refs|
  {
    if refs != [] {
      ReferenceReferentsMembership(rt, a, refs[1..], r);
      if exists k :: (0 <= k < |refs[1..]|
        && ObjectReferenceFromObject(refs[1..][k], Some(a), rt.readWord, rt.readProperty) == Some(r.address)
        && NamePath(refs[1..][k]) == r.namePath)
      {
        var k :| 0 <= k < |refs[1..]|
          && ObjectReferenceFromObject(refs[1..][k], Some(a), rt.readWord, rt.readProperty) == Some(r.address)
          && NamePath(refs[1..][k]) == r.namePath;
        assert refs[k + 1] == refs[1..][k];
      }
      if exists k :: (0 <= k < |refs|
        && ObjectReferenceFromObject(refs[k], Some(a), rt.readWord, rt.readProperty) == Some(r.address)
        && NamePath(refs[k]) == r.namePath)
      {
        var k :| 0 <= k < |refs|
          && ObjectReferenceFromObject(refs[k], Some(a), rt.readWord, rt.readProperty) == Some(r.address)
          && NamePath(refs[k]) == r.namePath;
        if k > 0 {
          assert refs[1..][k - 1] == refs[k];
        }
      }
    }
  }

  lemma {:induction false} WordReferentsMembership(rt: Runtime, a: Address, offsets: seq<nat>, r: Referent)
    ensures r in WordReferents(rt, a, offsets) <==>
      r.namePath == [] && exists k :: 0 <= k < |offsets| && rt.readWord(a, offsets[k]) == Some(r.address)
    decreases |offsets|
  {
    if offsets != [] {
      WordReferentsMembership(rt, a, offsets[1..], r);
      if exists k :: 0 <= k < |offsets[1..]| && rt.readWord(a, offsets[1..][k]) == Some(r.address) {
        var k :| 0 <= k < |offsets[1..]| && rt.readWord(a, offsets[1..][k]) == Some(r.address);
        assert offsets[k + 1] == offsets[1..][k];
      }
      if exists k :: 0 <= k < |offsets| && rt.readWord(a, offsets[k]) == Some(r.address) {
        var k :| 0 <= k < |offsets| && rt.readWord(a, offsets[k]) == Some(r.address);
        if k > 0 {
          assert offsets[1..][k - 1] == offsets[k];
        }
      }
    }
  }

  /**
   * A plain object retains, under the name path of the reference, exactly
   * the objects its class hierarchy's strong references hold (plus its
   * associations): a reference the hierarchy does not list, such as a weak
   * ivar, contributes nothing.
   */
  lemma ObjectRetainsItsStrongReferences(rt: Runtime, cfg: Configuration, e: Element, x: Element)
    requires cfg.transformerBlock.None? && cfg.filterBlocks == []
    requires rt.kindOf(e.address) == PlainObject
    ensures x in AllRetainedObjects(rt, cfg, e) <==>
      (x.namePath == [AssociatedObjectName] && x.address in rt.associatedObjects(e.address))
      || exists k :: (0 <= k < |ObjectReferences(rt, cfg, e.address)|
           && ObjectReferenceFromObject(ObjectReferences(rt, cfg, e.address)[k], Some(e.address), rt.readWord, rt.readProperty) == Some(x.address)
           && NamePath(ObjectReferences(rt, cfg, e.address)[k]) == x.namePath)
  {
    var r := Referent(x.address, x.namePath);
    var assoc := AssociationReferents(rt.associatedObjects(e.address));
    var refs := ReferenceReferents(rt, e.address, ObjectReferences(rt, cfg, e.address));
    WrapAllMembership(rt, cfg, Some(e), Referents(rt, cfg, e.address), x);
    ReferenceReferentsMembership(rt, e.address, ObjectReferences(rt, cfg, e.address), r);
    assert Referents(rt, cfg, e.address) == assoc + refs;
    if r in assoc {
      var i :| 0 <= i < |assoc| && assoc[i] == r;
    }
    if x.namePath == [AssociatedObjectName] && x.address in rt.associatedObjects(e.address) {
      var i :| 0 <= i < |rt.associatedObjects(e.address)| && rt.associatedObjects(e.address)[i] == x.address;
      assert assoc[i] == r;
    }
  }

  /**
   * A block retains, besides its associations, exactly the objects stored
   * in the capture words its layout marks strong or byref, and nothing
   * from those words when it has no extended layout.
   */
  lemma BlockRetainsItsStrongCaptures(rt: Runtime, cfg: Configuration, e: Element, x: Element)
    requires cfg.transformerBlock.None? && cfg.filterBlocks == []
    requires rt.kindOf(e.address) == BlockObject
    requires x.namePath != [AssociatedObjectName]
    ensures x in AllRetainedObjects(rt, cfg, e) <==>
      var info := rt.blockOf(e.address);
      var layout := BlockStrongLayout(info.flags, info.descriptorWord, info.layoutBytes);
      && layout.Some? && x.namePath == []
      && exists k :: 0 <= k < |layout.value| && rt.readWord(e.address, layout.value[k]) == Some(x.address)
  {
    var r := Referent(x.address, x.namePath);
    var info := rt.blockOf(e.address);
    var layout := BlockStrongLayout(info.flags, info.descriptorWord, info.layoutBytes);
    var assoc := AssociationReferents(rt.associatedObjects(e.address));
    var words := if layout.Some? then WordReferents(rt, e.address, layout.value) else [];
    WrapAllMembership(rt, cfg, Some(e), Referents(rt, cfg, e.address), x);
    assert Referents(rt, cfg, e.address) == assoc + words;
    assert r !in assoc;
    if layout.Some? {
      WordReferentsMembership(rt, e.address, layout.value, r);
    }
  }

  /**
   * With timer inspection off, a timer retains only what an ordinary
   * object with its class would; with it on, its target and user info
   * are retained as well, under the names `target` and `userInfo`.
   */
  lemma TimerInspectionSwitch(rt: Runtime, cfg: Configuration, a: Address)
    requires rt.kindOf(a) == TimerObject
    ensures !cfg.shouldInspectTimers ==>
      Referents(rt, cfg, a) == AssociationReferents(rt.associatedObjects(a)) + ReferenceReferents(rt, a, ObjectReferences(rt, cfg, a))
    ensures cfg.shouldInspectTimers && rt.timerTarget(a).Some? ==>
      Referent(rt.timerTarget(a).value, ["target"]) in Referents(rt, cfg, a)
    ensures cfg.shouldInspectTimers && rt.timerUserInfo(a).Some? ==>
      Referent(rt.timerUserInfo(a).value, ["userInfo"]) in Referents(rt, cfg, a)
  {
    var base := AssociationReferents(rt.associatedObjects(a)) + ReferenceReferents(rt, a, ObjectReferences(rt, cfg, a));
    if !cfg.shouldInspectTimers {
      assert Referents(rt, cfg, a) == base + [];
    }
  }

  /**
   * With Swift inspection off, an object whose classes are Swift classes,
   * or classes that declare no strong reference (the NSObject root), holds
   * no reference the walk can see.
   */
  lemma SwiftClassesNeedTheSwitch(chain: seq<ClassName>, classInfo: ClassName -> ClassInfo)
    requires forall i :: 0 <= i < |chain| ==>
      classInfo(chain[i]).isSwift || StrongReferencesForClass(classInfo(chain[i]), false) == []
    ensures ChainReferences(chain, classInfo, false) == []
  {
    ChainOfSilentClasses(chain, classInfo, false);
  }
}
