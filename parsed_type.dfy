/**
 * The token objects the struct parser builds. One class stands for both the
 * C++ `Type` and the Objective-C `FBParsedType`/`FBParsedStruct` pair: a
 * token's name, encoding, struct type name and contents are fixed when it
 * is created, and only its type path is assigned afterwards, by
 * `passTypePath` walking down from the root.
 */
module ParsedTypes {
  import opened Wrappers
  import opened TypeTokens

  class ParsedType {
    const name: Option<string>
    const typeEncoding: string
    const isStruct: bool
    const structTypeName: Option<string>
    const typesContainedInStruct: seq<ParsedType>
    var typePath: seq<string>

    /** This token and every token nested in it. */
    ghost const Repr: set<object>

    /** A well-formed tree: basic tokens contain nothing, and sibling subtrees share no object. */
    ghost predicate Valid()
      decreases Repr
    {
      var cs := typesContainedInStruct;
      && this in Repr
      && (!isStruct ==> cs == [] && structTypeName == None)
      && (forall i :: 0 <= i < |cs| ==>
            && cs[i].Repr < Repr
            && this !in cs[i].Repr
            && cs[i].Valid())
      && (forall i, j :: 0 <= i < j < |cs| ==> cs[i].Repr !! cs[j].Repr)
    }

    /** The tree as a value, with the current type paths. */
    ghost function View(): Token
      requires Valid()
      reads Repr
      decreases Repr
    {
      var cs := typesContainedInStruct;
      if !isStruct then Basic(name, typeEncoding, typePath)
      else Struct(name, typeEncoding, typePath, structTypeName,
        seq(|cs|, i requires 0 <= i < |cs| reads if 0 <= i < |cs| then cs[i].Repr else {} => cs[i].View()))
    }

    /** A basic token; its type path is empty until one is passed. */
    constructor InitType(name: Option<string>, typeEncoding: string)
      ensures Valid() && fresh(Repr)
      ensures View() == Basic(name, typeEncoding, [])
    {
      this.name := name;
      this.typeEncoding := typeEncoding;
      this.isStruct := false;
      this.structTypeName := None;
      this.typesContainedInStruct := [];
      this.typePath := [];
      this.Repr := {this};
    }

    /** A struct token over already-built, separate subtrees. */
    constructor InitStruct(name: Option<string>, typeEncoding: string,
                           structTypeName: Option<string>, contained: seq<ParsedType>)
      requires forall i :: 0 <= i < |contained| ==> contained[i].Valid()
      requires forall i, j :: 0 <= i < j < |contained| ==> contained[i].Repr !! contained[j].Repr
      ensures Valid()
      ensures name == this.name && typeEncoding == this.typeEncoding && isStruct
      ensures structTypeName == this.structTypeName && typesContainedInStruct == contained
      ensures typePath == []
      ensures Repr == {this} + ReprOf(contained)
    {
      this.name := name;
      this.typeEncoding := typeEncoding;
      this.isStruct := true;
      this.structTypeName := structTypeName;
      this.typesContainedInStruct := contained;
      this.typePath := [];
      this.Repr := {this} + ReprOf(contained);
      new;
      forall i | 0 <= i < |contained|
        ensures contained[i].Repr <= ReprOf(contained)
      {
        ReprOfCovers(contained, i);
      }
    }

    /**
     * Assigns `p` to this token and hands every contained token the path
     * extended by this token's name and struct type name.
     */
    method PassTypePath(p: seq<string>)
      requires Valid()
      modifies Repr
      ensures View() == WithPath(old(View()), p)
      decreases Repr
    {
      typePath := p;
      if isStruct {
        var cs := typesContainedInStruct;
        var q := InnerPath(name, structTypeName, p);
        var i := 0;
        while i < |cs|
          invariant 0 <= i <= |cs|
          invariant typePath == p
          invariant forall j :: 0 <= j < i ==> cs[j].View() == WithPath(old(cs[j].View()), q)
          invariant forall j :: i <= j < |cs| ==> cs[j].View() == old(cs[j].View())
        {
          cs[i].PassTypePath(q);
          i := i + 1;
        }
        assert old(View()).contained == seq(|cs|, j requires 0 <= j < |cs| => old(cs[j].View()));
      }
    }

    /** The basic tokens under this one, left to right; a basic token flattens to itself. */
    function FlattenTypes(): (r: seq<ParsedType>)
      requires Valid()
      ensures forall k :: 0 <= k < |r| ==> !r[k].isStruct && r[k].Valid() && r[k].Repr <= Repr
      decreases Repr, 1
    {
      if !isStruct then [this] else FlattenFrom(0)
    }

    function FlattenFrom(i: nat): (r: seq<ParsedType>)
      requires Valid() && i <= |typesContainedInStruct|
      ensures forall k :: 0 <= k < |r| ==> !r[k].isStruct && r[k].Valid() && r[k].Repr <= Repr
      decreases Repr, 0, |typesContainedInStruct| - i
    {
      if i == |typesContainedInStruct| then []
      else typesContainedInStruct[i].FlattenTypes() + FlattenFrom(i + 1)
    }

    /** flattenTypes returns exactly the leaves of the tree, in order. */
    lemma FlattenTypesAreLeaves()
      requires Valid()
      ensures ViewsOf(FlattenTypes()) == Leaves(View())
      decreases Repr, 1
    {
      if isStruct {
        FlattenFromAreLeaves(0);
        assert View().contained[0..] == View().contained;
      }
    }

    lemma FlattenFromAreLeaves(i: nat)
      requires Valid() && isStruct && i <= |typesContainedInStruct|
      ensures ViewsOf(FlattenFrom(i)) == LeavesOf(View().contained[i..])
      decreases Repr, 0, |typesContainedInStruct| - i
    {
      var cs := typesContainedInStruct;
      var vs := View().contained;
      if i < |cs| {
        cs[i].FlattenTypesAreLeaves();
        FlattenFromAreLeaves(i + 1);
        ViewsOfAppend(cs[i].FlattenTypes(), FlattenFrom(i + 1));
        assert vs[i..][0] == cs[i].View();
        assert vs[i..][1..] == vs[i + 1..];
      } else {
        assert vs[i..] == [];
      }
    }
  }

  /** The objects of a list of subtrees. */
  ghost function ReprOf(cs: seq<ParsedType>): set<object> {
    if cs == [] then {} else cs[0].Repr + ReprOf(cs[1..])
  }

  lemma ReprOfCovers(cs: seq<ParsedType>, i: nat)
    requires i < |cs|
    ensures cs[i].Repr <= ReprOf(cs)
  {
    if i > 0 {
      ReprOfCovers(cs[1..], i - 1);
    }
  }

  lemma ReprOfWithin(cs: seq<ParsedType>, bound: set<object>)
    requires forall k :: 0 <= k < |cs| ==> cs[k].Repr <= bound
    ensures ReprOf(cs) <= bound
  {
    if cs != [] {
      ReprOfWithin(cs[1..], bound);
    }
  }

  /** The values of a list of valid tokens. */
  ghost function ViewsOf(ts: seq<ParsedType>): seq<Token>
    requires forall k :: 0 <= k < |ts| ==> ts[k].Valid()
    reads set k, o | 0 <= k < |ts| && o in ts[k].Repr :: o
  {
    seq(|ts|, k requires 0 <= k < |ts| reads if 0 <= k < |ts| then ts[k].Repr else {} => ts[k].View())
  }

  lemma ViewsOfAppend(a: seq<ParsedType>, b: seq<ParsedType>)
    requires forall k :: 0 <= k < |a| ==> a[k].Valid()
    requires forall k :: 0 <= k < |b| ==> b[k].Valid()
    ensures ViewsOf(a + b) == ViewsOf(a) + ViewsOf(b)
  {
  }
}
