/**
 * The struct-encoding parser: it turns the type encoding of a struct ivar,
 * such as `{SomeStruct="object"@"NSObject""count"i}`, into a token tree and
 * then passes the empty type path to the root.
 *
 * The parser is a single left-to-right scan. A quoted segment is a member
 * name waiting for its type; a `{` opens a nested struct; anything else is
 * a literal type code running up to the next `"` or `}`. A type takes the
 * pending name just before it, if any; names left unclaimed at the end of
 * a struct (the class name in `@"NSObject"` is one) are dropped. The scan
 * never fails: malformed input yields whatever tokens it could read.
 */
module StructEncodingParser {
  import opened Wrappers
  import opened TypeTokens
  import opened ParsedTypes

  /** The longest prefix of `s` free of `stop` characters, and the remainder. */
  function ScanUpTo(s: string, stop: set<char>): (r: (string, string))
    ensures r.0 + r.1 == s
    ensures forall k :: 0 <= k < |r.0| ==> r.0[k] !in stop
    ensures r.1 == [] || r.1[0] in stop
  {
    if s == [] || s[0] in stop then ([], s)
    else
      var (a, b) := ScanUpTo(s[1..], stop);
      assert s == [s[0]] + s[1..];
      ([s[0]] + a, b)
  }

  /** Consumes `c` if it comes next. */
  function Skip(s: string, c: char): string {
    if s != [] && s[0] == c then s[1..] else s
  }

  /** A scanned member name that no type has claimed yet, or a finished token. */
  datatype Item = Pending(fieldName: string) | Resolved(token: Token)

  /** What one struct body yields: its type name, its items, and the input after its `}`. */
  datatype Body = Body(typeName: string, items: seq<Item>, rest: string)

  /** The empty type name and the anonymous `?` both mean the struct type has no name. */
  function TypeNameOf(text: string): Option<string> {
    if text == [] || text == "?" then None else Some(text)
  }

  /** The name waiting just before a type, removed from the items. */
  function TakePendingName(acc: seq<Item>): (Option<string>, seq<Item>) {
    if acc != [] && acc[|acc| - 1].Pending? then (Some(acc[|acc| - 1].fieldName), acc[..|acc| - 1])
    else (None, acc)
  }

  function ResolvedTokens(items: seq<Item>): seq<Token> {
    if items == [] then []
    else (if items[0].Resolved? then [items[0].token] else []) + ResolvedTokens(items[1..])
  }

  /** A struct body after its `{`: the type name up to `=`, then members up to the closing `}`. */
  function ParseBody(s: string): (r: Body)
    ensures |r.rest| <= |s|
    decreases |s|, 2
  {
    var (typeName, afterName) := ScanUpTo(s, {'='});
    var (items, rest) := ParseItems(Skip(afterName, '='), []);
    Body(typeName, items, rest)
  }

  /** Members of a struct body, appended to `acc`, until `}` or the end of the input. */
  function ParseItems(s: string, acc: seq<Item>): (r: (seq<Item>, string))
    ensures |r.1| <= |s|
    decreases |s|, 1
  {
    if s == [] then (acc, [])
    else if s[0] == '}' then (acc, s[1..])
    else if s[0] == '"' then ParseName(s, acc)
    else if s[0] == '{' then ParseNested(s, acc)
    else ParseLiteral(s, acc)
  }

  /** `"name"`: a member name, held until the next type claims it; an empty name is ignored. */
  function ParseName(s: string, acc: seq<Item>): (r: (seq<Item>, string))
    requires s != [] && s[0] == '"'
    ensures |r.1| <= |s|
    decreases |s|, 0
  {
    var (fieldName, after) := ScanUpTo(s[1..], {'"'});
    ParseItems(Skip(after, '"'), if fieldName == [] then acc else acc + [Pending(fieldName)])
  }

  /** `{...}`: a nested struct, whose encoding is the text up to its matching `}`. */
  function ParseNested(s: string, acc: seq<Item>): (r: (seq<Item>, string))
    requires s != [] && s[0] == '{'
    ensures |r.1| <= |s|
    decreases |s|, 0
  {
    var body := ParseBody(s[1..]);
    var (name, before) := TakePendingName(acc);
    var token := Struct(name, s[..|s| - |body.rest|], [], TypeNameOf(body.typeName), ResolvedTokens(body.items));
    ParseItems(body.rest, before + [Resolved(token)])
  }

  /** Any other type code runs up to the next `"` or `}`. */
  function ParseLiteral(s: string, acc: seq<Item>): (r: (seq<Item>, string))
    requires s != [] && s[0] !in {'"', '}'}
    ensures |r.1| <= |s|
    decreases |s|, 0
  {
    var (literal, after) := ScanUpTo(s, {'"', '}'});
    var (name, before) := TakePendingName(acc);
    ParseItems(after, before + [Resolved(Basic(name, literal, []))])
  }

  /** The root struct as parsed, before any type path is passed. */
  function ParsedRoot(encoding: string, structName: Option<string>): Token {
    var body := ParseBody(Skip(encoding, '{'));
    Struct(structName, encoding, [], TypeNameOf(body.typeName), ResolvedTokens(body.items))
  }

  /** FBParseStructEncodingWithName as a value: always a struct, with every path passed. */
  function ParsedStructEncoding(encoding: string, structName: Option<string>): (r: Token)
    ensures r.Struct? && r.name == structName && r.typeEncoding == encoding && r.typePath == []
  {
    WithPath(ParsedRoot(encoding, structName), [])
  }

  // ---------------------------------------------------------------------
  // Building the objects

  /** No token of the tree has been given a path yet. */
  predicate Unpassed(t: Token)
    decreases t
  {
    t.typePath == [] && (t.Struct? ==> forall i :: 0 <= i < |t.contained| ==> Unpassed(t.contained[i]))
  }

  lemma {:induction false} ResolvedTokensUnpassed(items: seq<Item>)
    requires forall k :: 0 <= k < |items| ==> items[k].Resolved? ==> Unpassed(items[k].token)
    ensures forall i :: 0 <= i < |ResolvedTokens(items)| ==> Unpassed(ResolvedTokens(items)[i])
  {
    if items != [] {
      ResolvedTokensUnpassed(items[1..]);
    }
  }

  lemma {:induction false} TakePendingNameKeepsResolved(acc: seq<Item>)
    ensures forall k :: 0 <= k < |TakePendingName(acc).1| ==> TakePendingName(acc).1[k] in acc
  {
  }

  /** Every token the scan produces is still without a path. */
  lemma {:induction false} ParseBodyUnpassed(s: string)
    ensures forall k :: 0 <= k < |ParseBody(s).items| ==>
      ParseBody(s).items[k].Resolved? ==> Unpassed(ParseBody(s).items[k].token)
    decreases |s|, 2
  {
    var (typeName, afterName) := ScanUpTo(s, {'='});
    ParseItemsUnpassed(Skip(afterName, '='), []);
  }

  lemma {:induction false} ParseItemsUnpassed(s: string, acc: seq<Item>)
    requires forall k :: 0 <= k < |acc| ==> acc[k].Resolved? ==> Unpassed(acc[k].token)
    ensures forall k :: 0 <= k < |ParseItems(s, acc).0| ==>
      ParseItems(s, acc).0[k].Resolved? ==> Unpassed(ParseItems(s, acc).0[k].token)
    decreases |s|, 1
  {
    if s == [] || s[0] == '}' {
    } else if s[0] == '"' {
      var (fieldName, after) := ScanUpTo(s[1..], {'"'});
      var acc' := if fieldName == [] then acc else acc + [Pending(fieldName)];
      assert ParseItems(s, acc) == ParseItems(Skip(after, '"'), acc');
      ParseItemsUnpassed(Skip(after, '"'), acc');
    } else if s[0] == '{' {
      var body := ParseBody(s[1..]);
      ParseBodyUnpassed(s[1..]);
      ResolvedTokensUnpassed(body.items);
      var (name, before) := TakePendingName(acc);
      TakePendingNameKeepsResolved(acc);
      var token := Struct(name, s[..|s| - |body.rest|], [], TypeNameOf(body.typeName), ResolvedTokens(body.items));
      assert ParseItems(s, acc) == ParseItems(body.rest, before + [Resolved(token)]);
      ParseItemsUnpassed(body.rest, before + [Resolved(token)]);
    } else {
      var (literal, after) := ScanUpTo(s, {'"', '}'});
      var (name, before) := TakePendingName(acc);
      TakePendingNameKeepsResolved(acc);
      assert ParseItems(s, acc) == ParseItems(after, before + [Resolved(Basic(name, literal, []))]);
      ParseItemsUnpassed(after, before + [Resolved(Basic(name, literal, []))]);
    }
  }

  lemma ParsedRootUnpassed(encoding: string, structName: Option<string>)
    ensures Unpassed(ParsedRoot(encoding, structName))
  {
    var body := ParseBody(Skip(encoding, '{'));
    ParseBodyUnpassed(Skip(encoding, '{'));
    ResolvedTokensUnpassed(body.items);
  }

  /** Allocates one token object per token of a tree that has no paths yet. */
  method Build(t: Token) returns (o: ParsedType)
    requires Unpassed(t)
    ensures o.Valid() && fresh(o.Repr)
    ensures o.View() == t
    decreases t
  {
    if t.Basic? {
      o := new ParsedType.InitType(t.name, t.typeEncoding);
    } else {
      var cs := t.contained;
      var built: seq<ParsedType> := [];
      ghost var used: set<object> := {};
      var i := 0;
      while i < |cs|
        invariant 0 <= i <= |cs| && |built| == i
        invariant forall k :: 0 <= k < i ==> built[k].Valid() && built[k].View() == cs[k]
        invariant forall k :: 0 <= k < i ==> built[k].Repr <= used
        invariant forall j, k :: 0 <= j < k < i ==> built[j].Repr !! built[k].Repr
        invariant fresh(used)
      {
        var child := Build(cs[i]);
        built := built + [child];
        used := used + child.Repr;
        i := i + 1;
      }
      ReprOfWithin(built, used);
      o := new ParsedType.InitStruct(t.name, t.typeEncoding, t.structTypeName, built);
      assert o.View().contained == cs;
    }
  }

  /** Parses an ivar's struct encoding, names the root, and passes the empty path down the tree. */
  method ParseStructEncodingWithName(encoding: string, structName: Option<string>) returns (root: ParsedType)
    ensures root.Valid() && fresh(root.Repr)
    ensures root.View() == ParsedStructEncoding(encoding, structName)
  {
    ParsedRootUnpassed(encoding, structName);
    root := Build(ParsedRoot(encoding, structName));
    root.PassTypePath([]);
  }

  /** FBParseStructEncoding: the same parse with no root name. */
  method ParseStructEncoding(encoding: string) returns (root: ParsedType)
    ensures root.Valid() && fresh(root.Repr)
    ensures root.View() == ParsedStructEncoding(encoding, None)
  {
    root := ParseStructEncodingWithName(encoding, None);
  }
}
