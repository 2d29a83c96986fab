/**
 * What the struct-encoding parser guarantees: writing a well-formed token
 * tree out as an ivar encoding and parsing it back gives the same tree with
 * its paths passed, so nested `{...}` groups come back as nested structs,
 * every member keeps its name, and the root name leads every path.
 */
module StructEncodingLaws {
  import opened Wrappers
  import opened TypeTokens
  import opened StructEncodingParser

  function NameText(n: Option<string>): string {
    if n.Some? then n.value else []
  }

  /** A struct type name as written: the anonymous struct is `?`. */
  function TypeNameText(n: Option<string>): string {
    if n.Some? then n.value else "?"
  }

  /** The ivar encoding of a token: basic tokens are their own code, structs are `{Name="member"type...}`. */
  function EncodeToken(t: Token): string
    decreases t, 1
  {
    match t
    case Basic(_, e, _) => e
    case Struct(_, _, _, s, cs) => "{" + TypeNameText(s) + "=" + EncodeMembers(cs) + "}"
  }

  function EncodeMembers(cs: seq<Token>): string
    decreases cs, 0
  {
    if cs == [] then []
    else "\"" + NameText(cs[0].name) + "\"" + EncodeToken(cs[0]) + EncodeMembers(cs[1..])
  }

  predicate Avoids(s: string, c: char) {
    forall k :: 0 <= k < |s| ==> s[k] != c
  }

  /** A literal type code: non-empty, not a struct, and free of the characters that end a literal. */
  predicate ValidLiteral(e: string) {
    e != [] && e[0] != '{' && Avoids(e, '"') && Avoids(e, '}')
  }

  predicate ValidTypeName(n: Option<string>) {
    n.None? || (TypeNameOf(n.value) == n && Avoids(n.value, '='))
  }

  /** A member as the runtime encodes ivars: named, with no path yet, and with well-formed contents. */
  predicate WellFormedMember(t: Token)
    decreases t
  {
    && t.typePath == []
    && t.name.Some? && t.name.value != [] && Avoids(t.name.value, '"')
    && (t.Basic? ==> ValidLiteral(t.typeEncoding))
    && (t.Struct? ==>
          && t.typeEncoding == EncodeToken(t)
          && ValidTypeName(t.structTypeName)
          && forall i :: 0 <= i < |t.contained| ==> WellFormedMember(t.contained[i]))
  }

  /** A root struct whose recorded encoding is its own encoding. */
  predicate WellFormedRoot(t: Token) {
    && t.Struct?
    && t.typeEncoding == EncodeToken(t)
    && ValidTypeName(t.structTypeName)
    && forall i :: 0 <= i < |t.contained| ==> WellFormedMember(t.contained[i])
  }

  function Resolveds(cs: seq<Token>): seq<Item> {
    seq(|cs|, i requires 0 <= i < |cs| => Resolved(cs[i]))
  }

  lemma {:induction false} ScanUpToExact(a: string, b: string, stop: set<char>)
    requires forall k :: 0 <= k < |a| ==> a[k] !in stop
    requires b == [] || b[0] in stop
    ensures ScanUpTo(a + b, stop) == (a, b)
  {
    if a != [] {
      assert (a + b)[0] == a[0] && a[0] !in stop;
      assert (a + b)[1..] == a[1..] + b;
      ScanUpToExact(a[1..], b, stop);
      assert [a[0]] + a[1..] == a;
    } else {
      assert a + b == b;
    }
  }

  lemma {:induction false} ResolvedTokensOfResolveds(cs: seq<Token>)
    ensures ResolvedTokens(Resolveds(cs)) == cs
  {
    if cs != [] {
      assert Resolveds(cs)[1..] == Resolveds(cs[1..]);
      ResolvedTokensOfResolveds(cs[1..]);
    }
  }

  lemma RegroupMember<T>(q: seq<T>, n: seq<T>, e: seq<T>, m: seq<T>, close: seq<T>, rest: seq<T>)
    ensures q + n + q + e + m + close + rest == q + (n + (q + (e + (m + close + rest))))
  {
  }

  /** The members of a body are read back in order, each paired with its name, up to the `}`. */
  lemma {:induction false} MembersRoundTrip(cs: seq<Token>, rest: string, acc: seq<Item>)
    requires forall i :: 0 <= i < |cs| ==> WellFormedMember(cs[i])
    requires forall k :: 0 <= k < |acc| ==> acc[k].Resolved?
    ensures ParseItems(EncodeMembers(cs) + "}" + rest, acc) == (acc + Resolveds(cs), rest)
    decreases cs, 0
  {
    if cs == [] {
      assert EncodeMembers(cs) + "}" + rest == ['}'] + rest;
      assert acc + Resolveds(cs) == acc;
    } else {
      var c := cs[0];
      var tail := EncodeMembers(cs[1..]) + "}" + rest;
      assert tail[0] == '"' || tail[0] == '}' by {
        if cs[1..] != [] {
          assert tail[0] == EncodeMembers(cs[1..])[0];
        }
      }
      assert EncodeMembers(cs) == ['"'] + c.name.value + ['"'] + EncodeToken(c) + EncodeMembers(cs[1..]);
      RegroupMember(['"'], c.name.value, EncodeToken(c), EncodeMembers(cs[1..]), "}", rest);
      MemberRoundTrip(c, tail, acc);
      MembersRoundTrip(cs[1..], rest, acc + [Resolved(c)]);
      assert Resolveds(cs) == [Resolved(c)] + Resolveds(cs[1..]);
      AppendAssociative(acc, [Resolved(c)], Resolveds(cs[1..]));
    }
  }

  /** One named member: its name is scanned, then its type claims it. */
  lemma MemberRoundTrip(c: Token, tail: string, acc: seq<Item>)
    requires WellFormedMember(c)
    requires tail != [] && (tail[0] == '"' || tail[0] == '}')
    requires forall k :: 0 <= k < |acc| ==> acc[k].Resolved?
    ensures ParseItems(['"'] + (c.name.value + (['"'] + (EncodeToken(c) + tail))), acc)
         == ParseItems(tail, acc + [Resolved(c)])
    decreases c, 4
  {
    var n := c.name.value;
    var afterName := EncodeToken(c) + tail;
    var s := ['"'] + (n + (['"'] + afterName));
    assert s[1..] == n + (['"'] + afterName);
    ScanUpToExact(n, ['"'] + afterName, {'"'});
    assert Skip(['"'] + afterName, '"') == afterName;
    var acc1 := acc + [Pending(n)];
    assert TakePendingName(acc1) == (Some(n), acc);
    assert ParseItems(s, acc) == ParseItems(afterName, acc1);
    if c.Basic? {
      BasicMemberRoundTrip(c, tail, acc1);
    } else {
      StructMemberRoundTrip(c, tail, acc1);
    }
  }

  lemma BasicMemberRoundTrip(c: Token, tail: string, acc1: seq<Item>)
    requires WellFormedMember(c) && c.Basic?
    requires tail != [] && (tail[0] == '"' || tail[0] == '}')
    requires acc1 != [] && acc1[|acc1| - 1] == Pending(c.name.value)
    ensures ParseItems(EncodeToken(c) + tail, acc1) == ParseItems(tail, acc1[..|acc1| - 1] + [Resolved(c)])
  {
    var e := c.typeEncoding;
    assert (e + tail)[0] == e[0];
    ScanUpToExact(e, tail, {'"', '}'});
    assert Basic(c.name, e, []) == c;
  }

  lemma StructMemberRoundTrip(c: Token, tail: string, acc1: seq<Item>)
    requires WellFormedMember(c) && c.Struct?
    requires acc1 != [] && acc1[|acc1| - 1] == Pending(c.name.value)
    ensures ParseItems(EncodeToken(c) + tail, acc1) == ParseItems(tail, acc1[..|acc1| - 1] + [Resolved(c)])
    decreases c, 3
  {
    var s := EncodeToken(c) + tail;
    NestedStructToken(c, s, tail);
    var before := acc1[..|acc1| - 1];
    assert TakePendingName(acc1) == (c.name, before);
    var body := ParseBody(s[1..]);
    var token := Struct(c.name, s[..|s| - |body.rest|], [], TypeNameOf(body.typeName), ResolvedTokens(body.items));
    assert token == c;
    assert ParseNested(s, acc1) == ParseItems(body.rest, before + [Resolved(token)]);
  }

  /** The `{…}` group at the head of `EncodeToken(c) + tail` is read back as the token `c`, leaving `tail`. */
  lemma NestedStructToken(c: Token, s: string, tail: string)
    requires WellFormedMember(c) && c.Struct? && s == EncodeToken(c) + tail
    ensures s != [] && s[0] == '{'
    ensures ParseBody(s[1..]).rest == tail
    ensures Struct(c.name, s[..|s| - |tail|], [], TypeNameOf(ParseBody(s[1..]).typeName), ResolvedTokens(ParseBody(s[1..]).items)) == c
    decreases c, 2
  {
    var e := EncodeToken(c);
    RegroupBody('{', TypeNameText(c.structTypeName), "=", EncodeMembers(c.contained), "}", tail);
    assert s[1..] == e[1..] + tail;
    BodyRoundTrip(c, tail);
    PrefixOfAppend(e, tail);
    ResolvedTokensOfResolveds(c.contained);
  }

  lemma PrefixOfAppend<T>(a: seq<T>, b: seq<T>)
    ensures (a + b)[..|a + b| - |b|] == a && (a + b)[|a|..] == b
  {
  }

  lemma RegroupBody<T>(open: T, text: seq<T>, eq: seq<T>, members: seq<T>, close: seq<T>, rest: seq<T>)
    ensures ([open] + text + eq + members + close)[0] == open
    ensures ([open] + text + eq + members + close)[1..] + rest == text + (eq + (members + close + rest))
  {
    assert ([open] + text + eq + members + close)[1..] == text + eq + members + close;
  }

  /** A struct body is read back as its type name and its members, stopping right after its `}`. */
  lemma {:induction false} BodyRoundTrip(t: Token, rest: string)
    requires t.Struct? && ValidTypeName(t.structTypeName)
    requires forall i :: 0 <= i < |t.contained| ==> WellFormedMember(t.contained[i])
    ensures ParseBody(EncodeToken(t)[1..] + rest)
      == Body(TypeNameText(t.structTypeName), Resolveds(t.contained), rest)
    decreases t, 1
  {
    var text := TypeNameText(t.structTypeName);
    var members := EncodeMembers(t.contained) + "}" + rest;
    RegroupBody('{', text, "=", EncodeMembers(t.contained), "}", rest);
    ScanUpToExact(text, ['='] + members, {'='});
    assert Skip(['='] + members, '=') == members;
    MembersRoundTrip(t.contained, rest, []);
    assert [] + Resolveds(t.contained) == Resolveds(t.contained);
  }

  /**
   * Parsing the encoding of a well-formed struct, under its own name,
   * reproduces the struct with every path passed from the root.
   */
  lemma ParseEncodeRoundTrip(t: Token)
    requires WellFormedRoot(t)
    ensures ParsedStructEncoding(EncodeToken(t), t.name) == WithPath(t, [])
  {
    var e := EncodeToken(t);
    assert Skip(e, '{') == e[1..] + [];
    BodyRoundTrip(t, []);
    ResolvedTokensOfResolveds(t.contained);
    assert TypeNameOf(TypeNameText(t.structTypeName)) == t.structTypeName;
    assert ParsedRoot(e, t.name) == t.(typePath := []);
  }

  /** The parsed tree has exactly as many leaves as the encoded one, and flattening keeps them in order. */
  lemma ParseKeepsEveryLeaf(t: Token)
    requires WellFormedRoot(t)
    ensures |Leaves(ParsedStructEncoding(EncodeToken(t), t.name))| == |Leaves(t)|
    ensures forall k :: 0 <= k < |Leaves(t)| ==>
      && Leaves(ParsedStructEncoding(EncodeToken(t), t.name))[k].name == Leaves(t)[k].name
      && Leaves(ParsedStructEncoding(EncodeToken(t), t.name))[k].typeEncoding == Leaves(t)[k].typeEncoding
  {
    var parsed := ParsedStructEncoding(EncodeToken(t), t.name);
    ParseEncodeRoundTrip(t);
    LeavesUnderPassedPath(t, []);
    assert Leaves(parsed) == Leaves(WithPath(t, []));
    forall k | 0 <= k < |Leaves(t)|
      ensures Leaves(parsed)[k].name == Leaves(t)[k].name
      ensures Leaves(parsed)[k].typeEncoding == Leaves(t)[k].typeEncoding
    {
      var leaf := Leaves(t)[k];
      assert Leaves(parsed)[k] == WithPath(leaf, Leaves(parsed)[k].typePath);
      assert WithPath(leaf, Leaves(parsed)[k].typePath).name == leaf.name;
    }
  }

  /**
   * Whatever the input, the parse is a struct whose every token carries a
   * path, and a supplied root name heads the path of every token inside it.
   */
  lemma RootNameLeadsEveryPath(encoding: string, structName: Option<string>)
    ensures ConsistentPaths(ParsedStructEncoding(encoding, structName))
    ensures forall i :: 0 <= i < |ParsedStructEncoding(encoding, structName).contained| ==>
      Segment(structName) <= ParsedStructEncoding(encoding, structName).contained[i].typePath
    ensures forall k :: 0 <= k < |Leaves(ParsedStructEncoding(encoding, structName))| ==>
      Segment(structName) <= Leaves(ParsedStructEncoding(encoding, structName))[k].typePath
  {
    var root := ParsedRoot(encoding, structName);
    PassedPathReachesEveryToken(root, []);
    LeavesOfUnderPath(root.contained, InnerPath(structName, root.structTypeName, []), Segment(structName));
  }

  function Quoted(n: string): string {
    ['"'] + n + ['"']
  }

  /** `{O="field"{S="member"code}}` as a tree, before any path is passed. */
  function NestedExample(outerType: string, field: string, innerType: string, member: string, code: string): Token {
    var leaf := Basic(Some(member), code, []);
    var innerCode := "{" + innerType + "=" + Quoted(member) + code + "}";
    var inner := Struct(Some(field), innerCode, [], Some(innerType), [leaf]);
    Struct(None, "{" + outerType + "=" + Quoted(field) + innerCode + "}", [], Some(outerType), [inner])
  }

  lemma NestedExampleWellFormed(outerType: string, field: string, innerType: string, member: string, code: string)
    requires ValidTypeName(Some(outerType)) && ValidTypeName(Some(innerType))
    requires field != [] && Avoids(field, '"') && member != [] && Avoids(member, '"')
    requires ValidLiteral(code)
    ensures WellFormedRoot(NestedExample(outerType, field, innerType, member, code))
  {
    var outer := NestedExample(outerType, field, innerType, member, code);
    var inner := outer.contained[0];
    var leaf := inner.contained[0];
    assert [leaf][1..] == [] && [inner][1..] == [];
    assert EncodeMembers([leaf]) == Quoted(member) + code;
    assert EncodeToken(inner) == inner.typeEncoding;
    assert EncodeMembers([inner]) == Quoted(field) + inner.typeEncoding;
    assert WellFormedMember(leaf);
    assert WellFormedMember(inner);
  }

  /**
   * The nesting of the documented example: a member of struct type S, held
   * as member `field` of struct type O, gets the path [O, field, S]; with
   * O = SomeOtherStruct, field = someStruct, S = SomeStruct the encoding is
   * `{SomeOtherStruct="someStruct"{SomeStruct="object"@}}`.
   */
  lemma NestedStructTypePath(outerType: string, field: string, innerType: string, member: string, code: string)
    requires ValidTypeName(Some(outerType)) && ValidTypeName(Some(innerType))
    requires field != [] && Avoids(field, '"') && member != [] && Avoids(member, '"')
    requires ValidLiteral(code)
    ensures Leaves(ParsedStructEncoding(
        "{" + outerType + "=" + Quoted(field) + "{" + innerType + "=" + Quoted(member) + code + "}" + "}", None))
      == [Basic(Some(member), code, [outerType, field, innerType])]
  {
    var outer := NestedExample(outerType, field, innerType, member, code);
    NestedExampleWellFormed(outerType, field, innerType, member, code);
    ParseEncodeRoundTrip(outer);
    NestedExampleEncoding(outerType, field, innerType, member, code);
    NestedExampleLeaves(outerType, field, innerType, member, code);
  }

  lemma NestedExampleEncoding(outerType: string, field: string, innerType: string, member: string, code: string)
    requires ValidTypeName(Some(outerType)) && ValidTypeName(Some(innerType))
    requires field != [] && Avoids(field, '"') && member != [] && Avoids(member, '"')
    requires ValidLiteral(code)
    ensures EncodeToken(NestedExample(outerType, field, innerType, member, code))
      == "{" + outerType + "=" + Quoted(field) + "{" + innerType + "=" + Quoted(member) + code + "}" + "}"
  {
    NestedExampleWellFormed(outerType, field, innerType, member, code);
    var innerCode := "{" + innerType + "=" + Quoted(member) + code + "}";
    assert "{" + outerType + "=" + Quoted(field) + innerCode + "}"
        == "{" + outerType + "=" + Quoted(field) + "{" + innerType + "=" + Quoted(member) + code + "}" + "}";
  }

  lemma NestedExampleLeaves(outerType: string, field: string, innerType: string, member: string, code: string)
    ensures Leaves(WithPath(NestedExample(outerType, field, innerType, member, code), []))
      == [Basic(Some(member), code, [outerType, field, innerType])]
  {
    var outer := NestedExample(outerType, field, innerType, member, code);
    var inner := outer.contained[0];
    var passed := Basic(Some(member), code, [outerType, field, innerType]);
    assert InnerPath(None, Some(outerType), []) == [outerType];
    assert InnerPath(Some(field), Some(innerType), [outerType]) == [outerType, field, innerType];
    assert WithPath(outer, []).contained == [WithPath(inner, [outerType])];
    assert WithPath(inner, [outerType]).contained == [passed];
    assert LeavesOf([passed]) == [passed];
    assert [WithPath(inner, [outerType])][1..] == [];
    assert Leaves(WithPath(outer, [])) == Leaves(WithPath(inner, [outerType])) + [];
  }

  /** The body `T="m"@"C"}` yields the member and the unclaimed class name. */
  lemma ObjectMemberBody(typeName: string, member: string, className: string)
    requires ValidTypeName(Some(typeName))
    requires member != [] && Avoids(member, '"') && className != [] && Avoids(className, '"')
    ensures ParseBody(typeName + "=" + Quoted(member) + "@" + Quoted(className) + "}")
      == Body(typeName, [Resolved(Basic(Some(member), "@", [])), Pending(className)], [])
  {
    var leaf := Basic(Some(member), "@", []);
    var tail := Quoted(className) + "}";
    var members := Quoted(member) + "@" + tail;
    assert typeName + "=" + Quoted(member) + "@" + Quoted(className) + "}" == typeName + (['='] + members);
    ScanUpToExact(typeName, ['='] + members, {'='});
    assert WellFormedMember(leaf);
    assert members == ['"'] + (member + (['"'] + (EncodeToken(leaf) + tail)));
    MemberRoundTrip(leaf, tail, []);
    assert [] + [Resolved(leaf)] == [Resolved(leaf)];
    assert tail == ['"'] + (className + ['"', '}']) + [];
    UnclaimedName(className, [], [Resolved(leaf)]);
    assert [Resolved(leaf)] + [Pending(className)] == [Resolved(leaf), Pending(className)];
  }

  /**
   * A class-typed member `"m"@"C"`: the class name C is scanned like a
   * member name, claimed by nobody, and dropped; the member keeps the path
   * that starts with the ivar's name, so its name path reads [ivar, T, m].
   */
  lemma ClassNameOfObjectMemberIsDropped(typeName: string, member: string, className: string, ivar: string)
    requires ValidTypeName(Some(typeName))
    requires member != [] && Avoids(member, '"') && className != [] && Avoids(className, '"')
    ensures Leaves(ParsedStructEncoding(
        "{" + typeName + "=" + Quoted(member) + "@" + Quoted(className) + "}", Some(ivar)))
      == [Basic(Some(member), "@", [ivar, typeName])]
  {
    var leaf := Basic(Some(member), "@", []);
    var encoding := "{" + typeName + "=" + Quoted(member) + "@" + Quoted(className) + "}";
    assert Skip(encoding, '{') == typeName + "=" + Quoted(member) + "@" + Quoted(className) + "}";
    ObjectMemberBody(typeName, member, className);
    var items := [Resolved(leaf), Pending(className)];
    assert items[1..] == [Pending(className)] && items[1..][1..] == [];
    assert ResolvedTokens(items[1..]) == [];
    assert ResolvedTokens(items) == [leaf];
    var root := ParsedRoot(encoding, Some(ivar));
    assert root == Struct(Some(ivar), encoding, [], Some(typeName), [leaf]);
    var passed := Basic(Some(member), "@", [ivar, typeName]);
    assert InnerPath(Some(ivar), Some(typeName), []) == [ivar, typeName];
    assert WithPath(root, []).contained == [passed];
    assert LeavesOf([passed]) == [passed];
  }

  /** A quoted name that no type follows is left pending, and so is not a member. */
  lemma UnclaimedName(n: string, rest: string, acc: seq<Item>)
    requires n != [] && Avoids(n, '"')
    ensures ParseItems(['"'] + (n + ['"', '}']) + rest, acc) == (acc + [Pending(n)], rest)
  {
    var s := ['"'] + (n + ['"', '}']) + rest;
    assert s[1..] == n + (['"', '}'] + rest);
    ScanUpToExact(n, ['"', '}'] + rest, {'"'});
    assert Skip(['"', '}'] + rest, '"') == ['}'] + rest;
    assert ParseItems(s, acc) == ParseItems(['}'] + rest, acc + [Pending(n)]);
  }
}
