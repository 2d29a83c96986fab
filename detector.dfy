/**
 * Retain-cycle detection. From each candidate the detector walks what the
 * objects retain depth first, keeping the current path as a stack of at
 * most `stackDepth` elements. A retained object whose address is already
 * on the stack closes a cycle: the stack from that object on, with its
 * first element replaced by the element that closed the cycle. Each cycle
 * is then rotated to start at its lowest address, so the same cycle found
 * from different entry points is one element of the result set.
 */
module RetainCycleDetector {
  import opened Wrappers
  import opened References
  import opened GraphElements
  import opened GraphConfiguration
  import opened RetainedObjects

  /** The stack depth `findRetainCycles` uses. */
  const DefaultStackDepth: nat := 10

  type Cycle = seq<Element>

  // ---------------------------------------------------------------------
  // Canonical rotation

  /** The sequence started at index `k`, wrapping around. */
  function Rotate(c: Cycle, k: nat): (r: Cycle)
    requires k <= |c|
    ensures |r| == |c|
    ensures forall j :: 0 <= j < |c| - k ==> r[j] == c[j + k]
    ensures forall j :: |c| - k <= j < |c| ==> r[j] == c[j + k - |c|]
  {
    c[k..] + c[..k]
  }

  /** The first index of an element with the lowest address. */
  function MinAddressIndex(c: Cycle): (m: nat)
    requires |c| > 0
    ensures m < |c|
    ensures forall j :: 0 <= j < |c| ==> c[m].address <= c[j].address
    ensures forall j :: 0 <= j < m ==> c[m].address < c[j].address
    decreases |c|
  {
    if |c| == 1 then 0
    else
      var m := MinAddressIndex(c[..|c| - 1]);
      if c[|c| - 1].address < c[m].address then |c| - 1 else m
  }

  /** The cycle rotated so that it starts at its (first) lowest address; the empty cycle is kept. */
  function Unified(c: Cycle): Cycle {
    if c == [] then [] else Rotate(c, MinAddressIndex(c))
  }

  /**
   * `_shiftToUnifiedCycle:`: one pass finds the first element with the
   * lowest address, then the part from there on is put before the part
   * that preceded it.
   */
  method ShiftToUnifiedCycle(cycle: Cycle) returns (shifted: Cycle)
    ensures shifted == Unified(cycle)
  {
    if cycle == [] {
      return cycle;
    }
    var lowestIndex := 0;
    var idx := 1;
    while idx < |cycle|
      invariant 1 <= idx <= |cycle|
      invariant lowestIndex == MinAddressIndex(cycle[..idx])
    {
      assert cycle[..idx + 1][..idx] == cycle[..idx];
      if cycle[idx].address < cycle[lowestIndex].address {
        lowestIndex := idx;
      }
      idx := idx + 1;
    }
    assert cycle[..idx] == cycle;
    if lowestIndex == 0 {
      return cycle;
    }
    shifted := cycle[lowestIndex..] + cycle[..lowestIndex];
  }

  predicate DistinctAddresses(c: Cycle) {
    forall i, j :: 0 <= i < j < |c| ==> c[i].address != c[j].address
  }

  /** The unified cycle is a rotation of the input that starts at a lowest address. */
  lemma UnifiedIsRotation(c: Cycle)
    ensures |Unified(c)| == |c| && multiset(Unified(c)) == multiset(c)
    ensures c != [] ==> exists k :: 0 <= k < |c| && Unified(c) == Rotate(c, k)
    ensures forall j :: 0 <= j < |c| ==> Unified(c)[0].address <= Unified(c)[j].address
  {
    if c != [] {
      var m := MinAddressIndex(c);
      RotatePermutes(c, m);
      RotateStartsAtMinimum(c, m);
      assert Unified(c) == Rotate(c, m);
    }
  }

  lemma RotatePermutes(c: Cycle, k: nat)
    requires k <= |c|
    ensures multiset(Rotate(c, k)) == multiset(c)
  {
    assert c == c[..k] + c[k..];
  }

  lemma RotateStartsAtMinimum(c: Cycle, m: nat)
    requires m < |c|
    requires forall j :: 0 <= j < |c| ==> c[m].address <= c[j].address
    ensures forall j :: 0 <= j < |c| ==> Rotate(c, m)[0].address <= Rotate(c, m)[j].address
  {
    var r := Rotate(c, m);
    assert r[0] == c[m];
    forall j | 0 <= j < |c| ensures c[m].address <= r[j].address {
      if j < |c| - m {
        assert r[j] == c[j + m];
      } else {
        assert r[j] == c[j + m - |c|];
      }
    }
  }

  /** Rotating twice is rotating once by the sum of the amounts, wrapped around. */
  lemma RotateRotate(c: Cycle, k: nat, m: nat)
    requires k <= |c| && m <= |c|
    ensures Rotate(Rotate(c, k), m) == Rotate(c, if k + m <= |c| then k + m else k + m - |c|)
  {
    var n := |c|;
    var s := if k + m <= n then k + m else k + m - n;
    var lhs := Rotate(Rotate(c, k), m);
    var rhs := Rotate(c, s);
    forall j | 0 <= j < n
      ensures lhs[j] == rhs[j]
    {
      var d := Rotate(c, k);
      var t := if j < n - m then j + m else j + m - n;
      assert lhs[j] == d[t];
      var u := if t < n - k then t + k else t + k - n;
      assert d[t] == c[u];
      var v := if j < n - s then j + s else j + s - n;
      assert rhs[j] == c[v];
      assert u == v;
    }
  }

  lemma RotatePreservesDistinct(c: Cycle, k: nat)
    requires k <= |c| && DistinctAddresses(c)
    ensures DistinctAddresses(Rotate(c, k))
  {
    var n := |c|;
    var d := Rotate(c, k);
    forall i, j | 0 <= i < j < n
      ensures d[i].address != d[j].address
    {
      var si := if i < n - k then i + k else i + k - n;
      var sj := if j < n - k then j + k else j + k - n;
      assert d[i] == c[si] && d[j] == c[sj];
      assert si != sj;
    }
  }

  /** In a cycle of distinct objects, the element with the lowest address is the only one. */
  lemma UniqueMinimum(c: Cycle, p: nat)
    requires DistinctAddresses(c) && p < |c|
    requires forall j :: 0 <= j < |c| ==> c[p].address <= c[j].address
    ensures MinAddressIndex(c) == p
  {
    var m := MinAddressIndex(c);
    assert c[m].address == c[p].address;
  }

  /** After a rotation by `k`, the lowest address at `m` sits at `mk`. */
  lemma RotationKeepsMinimum(c: Cycle, k: nat, m: nat, mk: nat)
    requires k <= |c| && m < |c|
    requires forall j :: 0 <= j < |c| ==> c[m].address <= c[j].address
    requires mk == if m >= k then m - k else m + |c| - k
    ensures mk < |c| && Rotate(c, k)[mk] == c[m]
    ensures forall j :: 0 <= j < |c| ==> Rotate(c, k)[mk].address <= Rotate(c, k)[j].address
  {
    var n := |c|;
    var d := Rotate(c, k);
    forall j | 0 <= j < n
      ensures d[mk].address <= d[j].address
    {
      var sj := if j < n - k then j + k else j + k - n;
      assert d[j] == c[sj];
    }
  }

  /** Rotating by nothing, or by the whole length, gives the cycle back. */
  lemma RotateByNothing(c: Cycle)
    ensures Rotate(c, 0) == c && Rotate(c, |c|) == c
  {
    assert c[0..] == c && c[..0] == [];
    assert c[|c|..] == [] && c[..|c|] == c;
  }

  /** A cycle of distinct objects whose lowest address sits at `p` unifies to its rotation by `p`. */
  lemma UnifiedAtMinimum(c: Cycle, p: nat)
    requires DistinctAddresses(c) && p < |c|
    requires forall j :: 0 <= j < |c| ==> c[p].address <= c[j].address
    ensures Unified(c) == Rotate(c, p)
  {
    UniqueMinimum(c, p);
  }

  /**
   * All rotations of a cycle whose objects are distinct unify to the same
   * sequence: a cycle reached from different entry points is reported once.
   */
  lemma UnifiedIgnoresRotation(c: Cycle, k: nat)
    requires k <= |c| && DistinctAddresses(c)
    ensures Unified(Rotate(c, k)) == Unified(c)
  {
    var n := |c|;
    if n > 0 {
      var m := MinAddressIndex(c);
      var mk := if m >= k then m - k else m + n - k;
      var s := if k + mk <= n then k + mk else k + mk - n;
      calc {
        Unified(Rotate(c, k));
        { UnifiedOfRotation(c, k, m, mk); }
        Rotate(Rotate(c, k), mk);
        { RotateRotate(c, k, mk); }
        Rotate(c, s);
        { SameRotation(c, s, m); }
        Rotate(c, m);
      }
    }
  }

  /** Rotating by the whole length is rotating by nothing. */
  lemma SameRotation(c: Cycle, s: nat, m: nat)
    requires s <= |c| && m < |c|
    requires s == m || (s == |c| && m == 0)
    ensures Rotate(c, s) == Rotate(c, m)
  {
    if s != m {
      RotateByNothing(c);
    }
  }

  /** A rotated cycle unifies by rotating on to where the original minimum went. */
  lemma UnifiedOfRotation(c: Cycle, k: nat, m: nat, mk: nat)
    requires k <= |c| && DistinctAddresses(c) && m < |c|
    requires forall j :: 0 <= j < |c| ==> c[m].address <= c[j].address
    requires mk == if m >= k then m - k else m + |c| - k
    ensures mk < |c| && Unified(Rotate(c, k)) == Rotate(Rotate(c, k), mk)
  {
    RotationKeepsMinimum(c, k, m, mk);
    RotatePreservesDistinct(c, k);
    UnifiedAtMinimum(Rotate(c, k), mk);
  }

  /** Unifying a unified cycle changes nothing. */
  lemma UnifiedIsIdempotent(c: Cycle)
    ensures Unified(Unified(c)) == Unified(c)
  {
    if c != [] {
      var u := Unified(c);
      UnifiedIsRotation(c);
      assert MinAddressIndex(u) == 0;
      assert Rotate(u, 0) == u;
    }
  }

  // ---------------------------------------------------------------------
  // Depth-first search

  /** The first position on the stack of an object at the address, if any. */
  function IndexOnPath(path: seq<Element>, a: Address): (r: Option<nat>)
    ensures r.Some? ==> r.value < |path| && path[r.value].address == a
    ensures r.Some? ==> forall j :: 0 <= j < r.value ==> path[j].address != a
    ensures r.None? ==> forall j :: 0 <= j < |path| ==> path[j].address != a
    decreases |path|
  {
    if path == [] then None
    else if path[0].address == a then Some(0)
    else
      var rest := IndexOnPath(path[1..], a);
      if rest.Some? then Some(rest.value + 1) else None
  }

  /** The cycles found below the top of the stack `path`. */
  function Explore(succ: Element -> seq<Element>, path: seq<Element>, depth: nat): set<Cycle>
    requires |path| > 0
    decreases depth - |path|, 2
  {
    ExploreFrom(succ, path, succ(path[|path| - 1]), depth)
  }

  /** The cycles found from the remaining retained objects `ws` of the top of the stack. */
  function ExploreFrom(succ: Element -> seq<Element>, path: seq<Element>, ws: seq<Element>, depth: nat): set<Cycle>
    requires |path| > 0
    decreases depth - |path|, 1, |ws|
  {
    if ws == [] then {}
    else Visit(succ, path, ws[0], depth) + ExploreFrom(succ, path, ws[1..], depth)
  }

  /**
   * The cycles found through one retained object `w` of the top of the
   * stack: when an object at its address is already on the stack, `w`
   * closes a cycle; otherwise it is pushed and explored while the stack is
   * below `depth`, and ignored once the stack is full.
   */
  function Visit(succ: Element -> seq<Element>, path: seq<Element>, w: Element, depth: nat): set<Cycle>
    requires |path| > 0
    decreases depth - |path|, 0
  {
    var index := IndexOnPath(path, w.address);
    if index.Some? then {Unified([w] + path[index.value + 1..])}
    else if |path| < depth then Explore(succ, path + [w], depth)
    else {}
  }

  /** The cycles found from every candidate. */
  function CyclesFromCandidates(succ: Element -> seq<Element>, candidates: seq<Element>, depth: nat): set<Cycle>
    decreases |candidates|
  {
    if candidates == [] then {}
    else
      (CyclesFromCandidates(succ, candidates[..|candidates| - 1], depth)
       + Explore(succ, [candidates[|candidates| - 1]], depth))
  }

  /** The elements an element retains in the configured runtime. */
  function Successors(rt: Runtime, cfg: Configuration): Element -> seq<Element> {
    e => AllRetainedObjects(rt, cfg, e)
  }

  // ---------------------------------------------------------------------
  // What the search reports

  /** What an element retains depends only on its object, not on the name it was reached by. */
  ghost predicate AddressDetermined(succ: Element -> seq<Element>) {
    forall x: Element, y: Element :: x.address == y.address ==> succ(x) == succ(y)
  }

  /** Each element of the stack retains the next. */
  ghost predicate IsPath(succ: Element -> seq<Element>, path: seq<Element>) {
    forall j :: 0 <= j < |path| - 1 ==> path[j + 1] in succ(path[j])
  }

  /** Each element retains the next, and the last retains the first. */
  ghost predicate ClosedWalk(succ: Element -> seq<Element>, c: Cycle) {
    && |c| > 0
    && (forall j :: 0 <= j < |c| - 1 ==> c[j + 1] in succ(c[j]))
    && c[0] in succ(c[|c| - 1])
  }

  /** A rotation of a closed walk is a closed walk. */
  lemma RotateClosedWalk(succ: Element -> seq<Element>, c: Cycle, k: nat)
    requires k <= |c| && ClosedWalk(succ, c)
    ensures ClosedWalk(succ, Rotate(c, k))
  {
    var n := |c|;
    var d := Rotate(c, k);
    forall j | 0 <= j < n - 1
      ensures d[j + 1] in succ(d[j])
    {
      if j + 1 < n - k {
        assert d[j] == c[j + k] && d[j + 1] == c[j + 1 + k];
      } else if j + 1 == n - k {
        assert d[j] == c[n - 1] && d[j + 1] == c[0];
      } else {
        assert d[j] == c[j + k - n] && d[j + 1] == c[j + 1 + k - n];
      }
    }
    if k == 0 || k == n {
      assert d[0] == c[0 + k - (if k == n then n else 0)];
      assert d[n - 1] == c[n - 1];
    } else {
      assert d[0] == c[k] && d[n - 1] == c[k - 1];
    }
  }

  /** A unified cycle is a closed walk with distinct objects when its input was. */
  lemma UnifiedKeepsCycles(succ: Element -> seq<Element>, c: Cycle)
    requires ClosedWalk(succ, c) && DistinctAddresses(c)
    ensures ClosedWalk(succ, Unified(c)) && DistinctAddresses(Unified(c)) && |Unified(c)| == |c|
  {
    RotateClosedWalk(succ, c, MinAddressIndex(c));
    RotatePreservesDistinct(c, MinAddressIndex(c));
  }

  /** The cycle closed by `w` on the stack is a closed walk of distinct objects. */
  lemma ClosedCycleIsWalk(succ: Element -> seq<Element>, path: seq<Element>, w: Element, i: nat)
    requires AddressDetermined(succ) && IsPath(succ, path) && DistinctAddresses(path)
    requires |path| > 0 && w in succ(path[|path| - 1])
    requires i < |path| && path[i].address == w.address
    ensures ClosedWalk(succ, [w] + path[i + 1..]) && DistinctAddresses([w] + path[i + 1..])
  {
    var c := [w] + path[i + 1..];
    assert succ(w) == succ(path[i]);
    forall j | 0 <= j < |c| - 1
      ensures c[j + 1] in succ(c[j])
    {
      assert c[j + 1] == path[i + j + 1];
      if j > 0 {
        assert c[j] == path[i + j];
      }
    }
    if i + 1 < |path| {
      assert c[|c| - 1] == path[|path| - 1];
    }
    forall a, b | 0 <= a < b < |c|
      ensures c[a].address != c[b].address
    {
      assert c[b] == path[i + b];
      if a > 0 {
        assert c[a] == path[i + a];
      }
    }
  }

  /**
   * Soundness of the search: from a stack of distinct objects each
   * retaining the next, every reported cycle is a closed walk of distinct
   * objects in unified form, no longer than the stack may grow.
   */
  lemma {:induction false} ExploreIsSound(succ: Element -> seq<Element>, path: seq<Element>, depth: nat, c: Cycle)
    requires AddressDetermined(succ)
    requires |path| > 0 && IsPath(succ, path) && DistinctAddresses(path) && |path| <= depth
    requires c in Explore(succ, path, depth)
    ensures ClosedWalk(succ, c) && DistinctAddresses(c) && |c| <= depth
    ensures Unified(c) == c
    decreases depth - |path|, 1
  {
    var ws := succ(path[|path| - 1]);
    ExploreFromMembership(succ, path, ws, depth, c);
    var j :| 0 <= j < |ws| && c in Visit(succ, path, ws[j], depth);
    VisitIsSound(succ, path, ws[j], depth, c);
  }

  lemma {:induction false} VisitIsSound(succ: Element -> seq<Element>, path: seq<Element>, w: Element, depth: nat, c: Cycle)
    requires AddressDetermined(succ)
    requires |path| > 0 && IsPath(succ, path) && DistinctAddresses(path) && |path| <= depth
    requires w in succ(path[|path| - 1])
    requires c in Visit(succ, path, w, depth)
    ensures ClosedWalk(succ, c) && DistinctAddresses(c) && |c| <= depth
    ensures Unified(c) == c
    decreases depth - |path|, 0
  {
    var index := IndexOnPath(path, w.address);
    if index.Some? {
      var k := [w] + path[index.value + 1..];
      assert c == Unified(k);
      ClosedCycleIsWalk(succ, path, w, index.value);
      UnifiedKeepsCycles(succ, k);
      UnifiedIsIdempotent(k);
    } else {
      var next := path + [w];
      assert |path| < depth;
      assert IsPath(succ, next) by {
        forall j | 0 <= j < |next| - 1
          ensures next[j + 1] in succ(next[j])
        {
          if j + 1 < |path| {
            assert next[j] == path[j] && next[j + 1] == path[j + 1];
          } else {
            assert next[j] == path[|path| - 1] && next[j + 1] == w;
          }
        }
      }
      assert DistinctAddresses(next);
      ExploreIsSound(succ, next, depth, c);
    }
  }

  /** A cycle is reported from a list of retained objects exactly when it is reported through one of them. */
  lemma {:induction false} ExploreFromMembership(succ: Element -> seq<Element>, path: seq<Element>, ws: seq<Element>, depth: nat, c: Cycle)
    requires |path| > 0
    ensures c in ExploreFrom(succ, path, ws, depth) <==>
      exists j :: 0 <= j < |ws| && c in Visit(succ, path, ws[j], depth)
    decreases |ws|
  {
    if ws != [] {
      ExploreFromMembership(succ, path, ws[1..], depth, c);
      if exists j :: 0 <= j < |ws| && c in Visit(succ, path, ws[j], depth) {
        var j :| 0 <= j < |ws| && c in Visit(succ, path, ws[j], depth);
        if j > 0 {
          assert ws[1..][j - 1] == ws[j];
        }
      }
      if c in ExploreFrom(succ, path, ws[1..], depth) {
        var j :| 0 <= j < |ws[1..]| && c in Visit(succ, path, ws[1..][j], depth);
        assert ws[j + 1] == ws[1..][j];
      }
    }
  }

  /** An object that retains itself is reported as a one-element cycle of the element that closed it. */
  lemma SelfRetainIsReported(succ: Element -> seq<Element>, root: Element, w: Element, depth: nat)
    requires w in succ(root) && w.address == root.address
    ensures [w] in Explore(succ, [root], depth)
  {
    var ws := succ(root);
    var j :| 0 <= j < |ws| && ws[j] == w;
    assert [root][0 + 1..] == [];
    assert [w] + [root][0 + 1..] == [w];
    assert Unified([w]) == [w];
    assert [w] in Visit(succ, [root], ws[j], depth);
    ExploreFromMembership(succ, [root], ws, depth, [w]);
  }

  /** The cycles of every candidate: a cycle is reported exactly when some candidate's search reports it. */
  lemma {:induction false} CandidatesMembership(succ: Element -> seq<Element>, candidates: seq<Element>, depth: nat, c: Cycle)
    ensures c in CyclesFromCandidates(succ, candidates, depth) <==>
      exists i :: 0 <= i < |candidates| && c in Explore(succ, [candidates[i]], depth)
    decreases |candidates|
  {
    if candidates != [] {
      var init := candidates[..|candidates| - 1];
      CandidatesMembership(succ, init, depth, c);
      if exists i :: 0 <= i < |candidates| && c in Explore(succ, [candidates[i]], depth) {
        var i :| 0 <= i < |candidates| && c in Explore(succ, [candidates[i]], depth);
        if i < |candidates| - 1 {
          assert init[i] == candidates[i];
        }
      }
      if c in CyclesFromCandidates(succ, init, depth) {
        var i :| 0 <= i < |init| && c in Explore(succ, [init[i]], depth);
        assert candidates[i] == init[i];
      }
    }
  }

  // ---------------------------------------------------------------------
  // The detector

  class Detector {
    const configuration: Configuration
    var candidates: seq<Element>

    constructor (configuration: Configuration)
      ensures this.configuration == configuration && candidates == []
    {
      this.configuration := configuration;
      candidates := [];
    }

    /** The candidate is wrapped like a root object; a candidate the configuration drops is not added. */
    method AddCandidate(rt: Runtime, candidate: Address)
      modifies this
      ensures candidates == old(candidates) + RootElements(rt, configuration, [candidate])
    {
      var wrapped := Wrap(rt, configuration, None, Referent(candidate, []));
      var roots := [Referent(candidate, [])];
      assert seq(1, i requires 0 <= i < 1 => Referent([candidate][i], [])) == roots;
      assert roots[1..] == [];
      assert WrapAll(rt, configuration, None, roots) == (if wrapped.Some? then [wrapped.value] else []) + WrapAll(rt, configuration, None, roots[1..]);
      if wrapped.Some? {
        candidates := candidates + [wrapped.value];
      }
    }

    /** Searches from every candidate with a stack of at most `length` elements, then forgets the candidates. */
    method FindRetainCyclesWithMaxCycleLength(rt: Runtime, length: nat) returns (cycles: set<Cycle>)
      modifies this
      ensures cycles == CyclesFromCandidates(Successors(rt, configuration), old(candidates), length)
      ensures candidates == []
    {
      var succ := Successors(rt, configuration);
      cycles := {};
      var i := 0;
      while i < |candidates|
        invariant 0 <= i <= |candidates|
        invariant cycles == CyclesFromCandidates(succ, candidates[..i], length)
      {
        assert candidates[..i + 1][..i] == candidates[..i];
        cycles := cycles + Explore(succ, [candidates[i]], length);
        i := i + 1;
      }
      assert candidates[..i] == candidates;
      candidates := [];
    }

    method FindRetainCycles(rt: Runtime) returns (cycles: set<Cycle>)
      modifies this
      ensures cycles == CyclesFromCandidates(Successors(rt, configuration), old(candidates), DefaultStackDepth)
      ensures candidates == []
    {
      cycles := FindRetainCyclesWithMaxCycleLength(rt, DefaultStackDepth);
    }
  }
}
