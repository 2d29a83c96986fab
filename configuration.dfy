/**
 * How the object graph is walked: the edge filters every reference must
 * pass, the optional element transformer, the switches for timers, block
 * addresses and Swift objects, and the per-class cache of strong
 * references.
 */
module GraphConfiguration {
  import opened Wrappers
  import opened References
  import opened GraphElements

  /** The verdict of one filter on one reference. */
  datatype EdgeType = Valid | Invalid

  type ClassName = string

  /** A filter sees the retaining element, the ivar name and the class of the retained object; each may be missing. */
  type EdgeFilter = (Option<Element>, Option<string>, Option<ClassName>) -> EdgeType

  /** A transformer may replace an element, or drop it by returning nothing. */
  type Transformer = Element -> Option<Element>

  // ---------------------------------------------------------------------
  // The filter chain

  /** A reference is inspected only when every filter calls it valid; one invalid verdict drops it. */
  function EdgeAccepted(filters: seq<EdgeFilter>, from: Option<Element>, byIvar: Option<string>, toClass: Option<ClassName>): (ok: bool)
    ensures ok <==> forall i :: 0 <= i < |filters| ==> filters[i](from, byIvar, toClass) == Valid
    decreases |filters|
  {
    if filters == [] then true
    else filters[0](from, byIvar, toClass) == Valid && EdgeAccepted(filters[1..], from, byIvar, toClass)
  }

  /** The verdicts of the filters on one reference, in order. */
  function Verdicts(filters: seq<EdgeFilter>, from: Option<Element>, byIvar: Option<string>, toClass: Option<ClassName>): (vs: seq<EdgeType>)
    ensures |vs| == |filters|
    ensures forall i :: 0 <= i < |filters| ==> vs[i] == filters[i](from, byIvar, toClass)
  {
    seq(|filters|, i requires 0 <= i < |filters| => filters[i](from, byIvar, toClass))
  }

  /** The chain is a conjunction: acceptance depends only on which verdicts occur, not on their order. */
  lemma FilterOrderIsIrrelevant(a: seq<EdgeFilter>, b: seq<EdgeFilter>, from: Option<Element>, byIvar: Option<string>, toClass: Option<ClassName>)
    requires multiset(Verdicts(a, from, byIvar, toClass)) == multiset(Verdicts(b, from, byIvar, toClass))
    ensures EdgeAccepted(a, from, byIvar, toClass) == EdgeAccepted(b, from, byIvar, toClass)
  {
    var va := Verdicts(a, from, byIvar, toClass);
    var vb := Verdicts(b, from, byIvar, toClass);
    assert EdgeAccepted(a, from, byIvar, toClass) <==> Invalid !in va by {
      if Invalid in va {
        var i :| 0 <= i < |va| && va[i] == Invalid;
      }
    }
    assert EdgeAccepted(b, from, byIvar, toClass) <==> Invalid !in vb by {
      if Invalid in vb {
        var i :| 0 <= i < |vb| && vb[i] == Invalid;
      }
    }
    assert Invalid in va <==> Invalid in multiset(va);
    assert Invalid in vb <==> Invalid in multiset(vb);
  }

  /** Joining two filter lists accepts exactly what both accept. */
  lemma {:induction false} FilterChainsCompose(a: seq<EdgeFilter>, b: seq<EdgeFilter>, from: Option<Element>, byIvar: Option<string>, toClass: Option<ClassName>)
    ensures EdgeAccepted(a + b, from, byIvar, toClass) <==>
      EdgeAccepted(a, from, byIvar, toClass) && EdgeAccepted(b, from, byIvar, toClass)
  {
    if EdgeAccepted(a, from, byIvar, toClass) && EdgeAccepted(b, from, byIvar, toClass) {
      forall i | 0 <= i < |a + b| ensures (a + b)[i](from, byIvar, toClass) == Valid {
        if i < |a| {
          assert (a + b)[i] == a[i];
        } else {
          assert (a + b)[i] == b[i - |a|];
        }
      }
    }
    if EdgeAccepted(a + b, from, byIvar, toClass) {
      forall i | 0 <= i < |a| ensures a[i](from, byIvar, toClass) == Valid {
        assert (a + b)[i] == a[i];
      }
      forall i | 0 <= i < |b| ensures b[i](from, byIvar, toClass) == Valid {
        assert (a + b)[|a| + i] == b[i];
      }
    }
  }

  // ---------------------------------------------------------------------
  // The block description `<<MallocBlock:0xADDR>>`

  const HexDigits: string := "0123456789abcdef"

  predicate IsHexDigit(c: char) {
    c in HexDigits
  }

  function DigitValue(c: char): (d: nat)
    requires IsHexDigit(c)
    ensures d < 16 && HexDigits[d] == c
  {
    if '0' <= c <= '9' then (c - '0') as nat else (c - 'a') as nat + 10
  }

  /** Lower-case hexadecimal digits of `n`, most significant first, without leading zeros. */
  function Hex(n: nat): (s: string)
    ensures s != []
    ensures forall i :: 0 <= i < |s| ==> IsHexDigit(s[i])
    decreases n
  {
    if n < 16 then [HexDigits[n]] else Hex(n / 16) + [HexDigits[n % 16]]
  }

  function ParseHex(s: string): nat
    requires forall i :: 0 <= i < |s| ==> IsHexDigit(s[i])
    decreases |s|
  {
    if s == [] then 0 else ParseHex(s[..|s| - 1]) * 16 + DigitValue(s[|s| - 1])
  }

  /** Reading the digits back gives the number, and only zero is written with a leading zero. */
  lemma {:induction false} HexRoundTrip(n: nat)
    ensures ParseHex(Hex(n)) == n
    ensures Hex(n)[0] == '0' ==> n == 0
    decreases n
  {
    if n >= 16 {
      HexRoundTrip(n / 16);
      var s := Hex(n);
      assert s[..|s| - 1] == Hex(n / 16);
    }
  }

  /**
   * The name a block element reports. With block addresses included, the
   * class name `MallocBlock` becomes `<<MallocBlock:0xADDR>>`, ADDR being
   * the block's invoke address in hexadecimal.
   */
  function BlockDescription(className: ClassName, invokeAddress: nat, includeBlockAddress: bool): string {
    if includeBlockAddress then "<<" + className + ":0x" + Hex(invokeAddress) + ">>" else className
  }

  /** How many characters at the end of `s` are hexadecimal digits. */
  function HexSuffixLength(s: string): (n: nat)
    ensures n <= |s|
    ensures forall i :: |s| - n <= i < |s| ==> IsHexDigit(s[i])
    decreases |s|
  {
    if s != [] && IsHexDigit(s[|s| - 1]) then HexSuffixLength(s[..|s| - 1]) + 1 else 0
  }

  /** Recovers the class name and the invoke address from a description that carries an address. */
  function ParseBlockDescription(s: string): Option<(ClassName, nat)> {
    if |s| < 4 || s[..2] != "<<" || s[|s| - 2..] != ">>" then None
    else ParseAddressedName(s[2..|s| - 2])
  }

  /** Splits `Name:0xADDR` at the hexadecimal digits that end it. */
  function ParseAddressedName(inner: string): Option<(ClassName, nat)> {
    var digits := HexSuffixLength(inner);
    var head := inner[..|inner| - digits];
    if digits == 0 || |head| < 3 || head[|head| - 3..] != ":0x" then None
    else Some((head[..|head| - 3], ParseHex(inner[|inner| - digits..])))
  }

  lemma {:induction false} HexSuffixOfDigits(p: string, h: string)
    requires p != [] && !IsHexDigit(p[|p| - 1])
    requires forall i :: 0 <= i < |h| ==> IsHexDigit(h[i])
    ensures HexSuffixLength(p + h) == |h|
    decreases |h|
  {
    if h == [] {
      assert p + h == p;
    } else {
      assert (p + h)[..|p + h| - 1] == p + h[..|h| - 1];
      HexSuffixOfDigits(p, h[..|h| - 1]);
    }
  }

  /**
   * The description with an address names the block's class and its
   * invoke address unambiguously, whatever the class name holds: reading
   * it back gives both.
   */
  lemma BlockDescriptionRoundTrip(className: ClassName, invokeAddress: nat)
    ensures ParseBlockDescription(BlockDescription(className, invokeAddress, true)) == Some((className, invokeAddress))
  {
    var inner := className + ":0x" + Hex(invokeAddress);
    var s := BlockDescription(className, invokeAddress, true);
    assert s == "<<" + inner + ">>";
    assert s[..2] == "<<" && s[|s| - 2..] == ">>" && s[2..|s| - 2] == inner;
    AddressedNameRoundTrip(className, invokeAddress);
  }

  lemma AddressedNameRoundTrip(className: ClassName, invokeAddress: nat)
    ensures ParseAddressedName(className + ":0x" + Hex(invokeAddress)) == Some((className, invokeAddress))
  {
    var h := Hex(invokeAddress);
    var head := className + ":0x";
    var inner := head + h;
    assert head[|head| - 1] == 'x';
    assert !IsHexDigit('x');
    HexSuffixOfDigits(head, h);
    assert inner[..|inner| - |h|] == head;
    assert inner[|inner| - |h|..] == h;
    assert head[|head| - 3..] == ":0x";
    assert head[..|head| - 3] == className;
    HexRoundTrip(invokeAddress);
  }

  // ---------------------------------------------------------------------
  // The configuration object and its layout cache

  /** The strong references of a class and of all its superclasses, class first. */
  function ChainReferences(chain: seq<ClassName>, classInfo: ClassName -> ClassInfo, includeSwift: bool): seq<ObjectReference>
    decreases |chain|
  {
    if chain == [] then []
    else StrongReferencesForClass(classInfo(chain[0]), includeSwift) + ChainReferences(chain[1..], classInfo, includeSwift)
  }

  /** A reference belongs to an object exactly when one class of its hierarchy declares it. */
  lemma {:induction false} ChainReferencesMembership(chain: seq<ClassName>, classInfo: ClassName -> ClassInfo, includeSwift: bool, r: ObjectReference)
    ensures r in ChainReferences(chain, classInfo, includeSwift) <==>
      exists i :: 0 <= i < |chain| && r in StrongReferencesForClass(classInfo(chain[i]), includeSwift)
    decreases |chain|
  {
    if chain != [] {
      ChainReferencesMembership(chain[1..], classInfo, includeSwift, r);
      if exists i :: 0 <= i < |chain| && r in StrongReferencesForClass(classInfo(chain[i]), includeSwift) {
        var i :| 0 <= i < |chain| && r in StrongReferencesForClass(classInfo(chain[i]), includeSwift);
        if i > 0 {
          assert chain[1..][i - 1] == chain[i];
        }
      }
      if r in ChainReferences(chain[1..], classInfo, includeSwift) {
        var i :| 0 <= i < |chain[1..]| && r in StrongReferencesForClass(classInfo(chain[1..][i]), includeSwift);
        assert chain[i + 1] == chain[1..][i];
      }
    }
  }

  /** Classes that declare no strong reference, such as the NSObject root, add nothing to a hierarchy's references. */
  lemma {:induction false} ChainOfSilentClasses(chain: seq<ClassName>, classInfo: ClassName -> ClassInfo, includeSwift: bool)
    requires forall i :: 0 <= i < |chain| ==> StrongReferencesForClass(classInfo(chain[i]), includeSwift) == []
    ensures ChainReferences(chain, classInfo, includeSwift) == []
    decreases |chain|
  {
    if chain != [] {
      forall i | 0 <= i < |chain| - 1
        ensures StrongReferencesForClass(classInfo(chain[1..][i]), includeSwift) == []
      {
        assert chain[1..][i] == chain[i + 1];
      }
      ChainOfSilentClasses(chain[1..], classInfo, includeSwift);
    }
  }

  /** The classes listed in a hierarchy. */
  function ClassSet(chain: seq<ClassName>): set<ClassName> {
    set c | c in chain
  }

  lemma ClassSetAppend(chain: seq<ClassName>, c: ClassName)
    ensures ClassSet(chain + [c]) == ClassSet(chain) + {c}
  {
    assert forall x :: x in chain + [c] <==> x in chain || x == c;
  }

  lemma ChainReferencesStep(chain: seq<ClassName>, i: nat, classInfo: ClassName -> ClassInfo, includeSwift: bool)
    requires i < |chain|
    ensures ChainReferences(chain[i..], classInfo, includeSwift)
         == StrongReferencesForClass(classInfo(chain[i]), includeSwift) + ChainReferences(chain[i + 1..], classInfo, includeSwift)
  {
    assert chain[i..][1..] == chain[i + 1..];
  }

  lemma ClassSetStep(chain: seq<ClassName>, i: nat)
    requires i < |chain|
    ensures ClassSet(chain[..i + 1]) == ClassSet(chain[..i]) + {chain[i]}
  {
    assert chain[..i + 1] == chain[..i] + [chain[i]];
    ClassSetAppend(chain[..i], chain[i]);
  }

  /** Caching one more class of the chain keeps the cache's keys at "what was there plus the classes seen so far". */
  lemma CachedKeysStep(before: set<ClassName>, after: set<ClassName>, cached: set<ClassName>, chain: seq<ClassName>, i: nat)
    requires i < |chain|
    requires before == cached + ClassSet(chain[..i]) && after == before + {chain[i]}
    ensures after == cached + ClassSet(chain[..i + 1])
  {
    ClassSetStep(chain, i);
  }

  class Configuration {
    const filterBlocks: seq<EdgeFilter>
    const transformerBlock: Option<Transformer>
    const shouldInspectTimers: bool
    const shouldIncludeBlockAddress: bool
    const shouldIncludeSwiftObjects: bool
    const shouldCacheLayouts: bool
    var layoutCache: map<ClassName, seq<ObjectReference>>

    /** Every cached list is the one the class itself declares, under this configuration's Swift switch. */
    ghost predicate CacheCoherent(classInfo: ClassName -> ClassInfo)
      reads this
    {
      forall c :: c in layoutCache ==> layoutCache[c] == StrongReferencesForClass(classInfo(c), shouldIncludeSwiftObjects)
    }

    /** The designated initializer, with the Swift switch the tests pass; the cache starts empty. */
    constructor (filterBlocks: seq<EdgeFilter>, shouldInspectTimers: bool, transformerBlock: Option<Transformer>,
                 shouldIncludeBlockAddress: bool, shouldIncludeSwiftObjects: bool, shouldCacheLayouts: bool)
      ensures this.filterBlocks == filterBlocks && this.transformerBlock == transformerBlock
      ensures this.shouldInspectTimers == shouldInspectTimers
      ensures this.shouldIncludeBlockAddress == shouldIncludeBlockAddress
      ensures this.shouldIncludeSwiftObjects == shouldIncludeSwiftObjects
      ensures this.shouldCacheLayouts == shouldCacheLayouts
      ensures layoutCache == map[]
      ensures forall classInfo :: CacheCoherent(classInfo)
    {
      this.filterBlocks := filterBlocks;
      this.shouldInspectTimers := shouldInspectTimers;
      this.transformerBlock := transformerBlock;
      this.shouldIncludeBlockAddress := shouldIncludeBlockAddress;
      this.shouldIncludeSwiftObjects := shouldIncludeSwiftObjects;
      this.shouldCacheLayouts := shouldCacheLayouts;
      this.layoutCache := map[];
    }

    /** The shorter initializer: no block addresses, no Swift objects. */
    constructor WithTransformer(filterBlocks: seq<EdgeFilter>, shouldInspectTimers: bool, transformerBlock: Option<Transformer>)
      ensures this.filterBlocks == filterBlocks && this.transformerBlock == transformerBlock
      ensures this.shouldInspectTimers == shouldInspectTimers
      ensures !shouldIncludeBlockAddress && !shouldIncludeSwiftObjects && shouldCacheLayouts
      ensures layoutCache == map[]
    {
      this.filterBlocks := filterBlocks;
      this.shouldInspectTimers := shouldInspectTimers;
      this.transformerBlock := transformerBlock;
      this.shouldIncludeBlockAddress := false;
      this.shouldIncludeSwiftObjects := false;
      this.shouldCacheLayouts := true;
      this.layoutCache := map[];
    }

    /** The shortest initializer: no transformer either. */
    constructor WithFilters(filterBlocks: seq<EdgeFilter>, shouldInspectTimers: bool)
      ensures this.filterBlocks == filterBlocks && this.transformerBlock == None
      ensures this.shouldInspectTimers == shouldInspectTimers
      ensures !shouldIncludeBlockAddress && !shouldIncludeSwiftObjects && shouldCacheLayouts
      ensures layoutCache == map[]
    {
      this.filterBlocks := filterBlocks;
      this.shouldInspectTimers := shouldInspectTimers;
      this.transformerBlock := None;
      this.shouldIncludeBlockAddress := false;
      this.shouldIncludeSwiftObjects := false;
      this.shouldCacheLayouts := true;
      this.layoutCache := map[];
    }

    /** One class's strong references, from the cache when present; stored there on a miss when caching is on. */
    method ClassStrongReferences(cls: ClassName, classInfo: ClassName -> ClassInfo) returns (classRefs: seq<ObjectReference>)
      requires CacheCoherent(classInfo)
      modifies this
      ensures classRefs == StrongReferencesForClass(classInfo(cls), shouldIncludeSwiftObjects)
      ensures CacheCoherent(classInfo)
      ensures shouldCacheLayouts ==> layoutCache.Keys == old(layoutCache.Keys) + {cls}
      ensures !shouldCacheLayouts ==> layoutCache == old(layoutCache)
    {
      if cls in layoutCache {
        classRefs := layoutCache[cls];
      } else {
        classRefs := StrongReferencesForClass(classInfo(cls), shouldIncludeSwiftObjects);
        if shouldCacheLayouts {
          layoutCache := layoutCache[cls := classRefs];
        }
      }
    }

    /**
     * The strong references of an object whose class hierarchy is `chain`:
     * each class's list is taken from the cache when present, otherwise
     * computed and, with caching on, stored. The result is the same as
     * without a cache, and the cache only grows by the classes visited.
     */
    method ObjectStrongReferences(chain: seq<ClassName>, classInfo: ClassName -> ClassInfo) returns (refs: seq<ObjectReference>)
      requires CacheCoherent(classInfo)
      modifies this
      ensures refs == ChainReferences(chain, classInfo, shouldIncludeSwiftObjects)
      ensures CacheCoherent(classInfo)
      ensures shouldCacheLayouts ==> layoutCache.Keys == old(layoutCache.Keys) + ClassSet(chain)
      ensures !shouldCacheLayouts ==> layoutCache == old(layoutCache)
    {
      refs := [];
      var i := 0;
      ghost var total := ChainReferences(chain, classInfo, shouldIncludeSwiftObjects);
      ghost var cached := old(layoutCache.Keys);
      ghost var original := old(layoutCache);
      while i < |chain|
        invariant 0 <= i <= |chain|
        invariant refs + ChainReferences(chain[i..], classInfo, shouldIncludeSwiftObjects) == total
        invariant CacheCoherent(classInfo)
        invariant shouldCacheLayouts ==> layoutCache.Keys == cached + ClassSet(chain[..i])
        invariant !shouldCacheLayouts ==> layoutCache == original
      {
        ghost var rest := ChainReferences(chain[i + 1..], classInfo, shouldIncludeSwiftObjects);
        ChainReferencesStep(chain, i, classInfo, shouldIncludeSwiftObjects);
        ghost var keys := layoutCache.Keys;
        var classRefs := ClassStrongReferences(chain[i], classInfo);
        if shouldCacheLayouts {
          CachedKeysStep(keys, layoutCache.Keys, cached, chain, i);
        }
        AppendAssociative(refs, classRefs, rest);
        refs := refs + classRefs;
        i := i + 1;
      }
      assert chain[i..] == [];
      AppendEmpty(refs);
      assert chain[..i] == chain;
    }
  }
}
