/**
 * The token tree the struct-encoding parser produces: basic tokens (one
 * encoded member) and struct tokens (a struct type with the tokens it
 * contains, nested structs included). This module states, on values, what
 * passing a type path and flattening do; the objects that carry a mutable
 * type path are in module ParsedTypes.
 */
module TypeTokens {
  import opened Wrappers

  datatype Token =
    | Basic(name: Option<string>, typeEncoding: string, typePath: seq<string>)
    | Struct(name: Option<string>, typeEncoding: string, typePath: seq<string>,
             structTypeName: Option<string>, contained: seq<Token>)

  function Segment(s: Option<string>): seq<string> {
    if s.Some? then [s.value] else []
  }

  /**
   * The path a struct hands to the tokens it contains: its own path, then
   * its member name and its struct type name when it has them.
   */
  function InnerPath(name: Option<string>, structTypeName: Option<string>, p: seq<string>): seq<string> {
    p + Segment(name) + Segment(structTypeName)
  }

  /** The tree after passTypePath(p) on its root. */
  function WithPath(t: Token, p: seq<string>): Token
    decreases t
  {
    match t
    case Basic(n, e, _) => Basic(n, e, p)
    case Struct(n, e, _, s, cs) =>
      var q := InnerPath(n, s, p);
      Struct(n, e, p, s, seq(|cs|, i requires 0 <= i < |cs| => WithPath(cs[i], q)))
  }

  /** The basic tokens of a tree, left to right, with every struct wrapper dropped. */
  function Leaves(t: Token): seq<Token>
    decreases t, 1
  {
    match t
    case Basic(_, _, _) => [t]
    case Struct(_, _, _, _, cs) => LeavesOf(cs)
  }

  function LeavesOf(cs: seq<Token>): seq<Token>
    decreases cs, 0
  {
    if cs == [] then [] else Leaves(cs[0]) + LeavesOf(cs[1..])
  }

  /** `x` is `t` or a token somewhere inside it. */
  predicate Occurs(x: Token, t: Token)
    decreases t
  {
    x == t || (t.Struct? && exists i :: 0 <= i < |t.contained| && Occurs(x, t.contained[i]))
  }

  /** Every token's path is the one its enclosing struct hands down. */
  predicate ConsistentPaths(t: Token)
    decreases t
  {
    t.Struct? ==>
      forall i :: 0 <= i < |t.contained| ==>
        && t.contained[i].typePath == InnerPath(t.name, t.structTypeName, t.typePath)
        && ConsistentPaths(t.contained[i])
  }

  // ---------------------------------------------------------------------
  // passTypePath

  /** Passing a path sets the root's path to exactly that path and leaves every other field alone. */
  lemma PassedPathIsExact(t: Token, p: seq<string>)
    ensures WithPath(t, p).typePath == p
    ensures WithPath(t, p).name == t.name && WithPath(t, p).typeEncoding == t.typeEncoding
    ensures WithPath(t, p).Struct? == t.Struct?
    ensures t.Struct? ==>
      WithPath(t, p).structTypeName == t.structTypeName && |WithPath(t, p).contained| == |t.contained|
  {
  }

  /** A second pass overwrites the first: paths are assigned, never appended. */
  lemma {:induction false} SecondPassOverwrites(t: Token, p: seq<string>, q: seq<string>)
    ensures WithPath(WithPath(t, p), q) == WithPath(t, q)
    decreases t
  {
    match t
    case Basic(_, _, _) =>
    case Struct(n, e, _, s, cs) =>
      var inner := WithPath(t, p).contained;
      forall i | 0 <= i < |cs|
        ensures WithPath(inner[i], InnerPath(n, s, q)) == WithPath(cs[i], InnerPath(n, s, q))
      {
        SecondPassOverwrites(cs[i], InnerPath(n, s, p), InnerPath(n, s, q));
      }
  }

  /** Passing a path on the root delivers it to every token in the tree. */
  lemma {:induction false} PassedPathReachesEveryToken(t: Token, p: seq<string>)
    ensures ConsistentPaths(WithPath(t, p))
    decreases t
  {
    match t
    case Basic(_, _, _) =>
    case Struct(n, e, _, s, cs) =>
      forall i | 0 <= i < |cs|
        ensures ConsistentPaths(WithPath(cs[i], InnerPath(n, s, p)))
      {
        PassedPathReachesEveryToken(cs[i], InnerPath(n, s, p));
      }
  }

  /**
   * Conversely a tree whose paths are consistent is exactly what passing
   * its root's path produces: passTypePath is the only consistent assignment.
   */
  lemma {:induction false} ConsistentTreeIsPassed(t: Token)
    requires ConsistentPaths(t)
    ensures WithPath(t, t.typePath) == t
    decreases t
  {
    match t
    case Basic(_, _, _) =>
    case Struct(n, e, p, s, cs) =>
      forall i | 0 <= i < |cs|
        ensures WithPath(cs[i], InnerPath(n, s, p)) == cs[i]
      {
        ConsistentTreeIsPassed(cs[i]);
      }
      assert seq(|cs|, i requires 0 <= i < |cs| => WithPath(cs[i], InnerPath(n, s, p))) == cs;
  }

  // ---------------------------------------------------------------------
  // flattenTypes

  lemma {:induction false} LeavesOfAppend(a: seq<Token>, b: seq<Token>)
    ensures LeavesOf(a + b) == LeavesOf(a) + LeavesOf(b)
  {
    if a == [] {
      assert a + b == b;
    } else {
      assert (a + b)[0] == a[0];
      assert (a + b)[1..] == a[1..] + b;
      LeavesOfAppend(a[1..], b);
    }
  }

  lemma {:induction false} LeavesOfMembership(cs: seq<Token>, x: Token)
    ensures x in LeavesOf(cs) <==> exists i :: 0 <= i < |cs| && x in Leaves(cs[i])
  {
    if cs != [] {
      LeavesOfMembership(cs[1..], x);
      if x in LeavesOf(cs[1..]) {
        var i :| 0 <= i < |cs[1..]| && x in Leaves(cs[1..][i]);
        assert cs[i + 1] == cs[1..][i];
      }
      if exists i :: 0 <= i < |cs| && x in Leaves(cs[i]) {
        var i :| 0 <= i < |cs| && x in Leaves(cs[i]);
        if i > 0 {
          assert cs[1..][i - 1] == cs[i];
        }
      }
    }
  }

  /** The flattened list holds exactly the basic tokens of the tree, and only basic tokens. */
  lemma {:induction false} LeavesAreTheBasicTokens(t: Token, x: Token)
    ensures x in Leaves(t) <==> x.Basic? && Occurs(x, t)
    decreases t
  {
    match t
    case Basic(_, _, _) =>
    case Struct(_, _, _, _, cs) =>
      LeavesOfMembership(cs, x);
      forall i | 0 <= i < |cs|
        ensures x in Leaves(cs[i]) <==> x.Basic? && Occurs(x, cs[i])
      {
        LeavesAreTheBasicTokens(cs[i], x);
      }
  }

  /** Flattening a struct whose contents are all basic returns those contents; no contents flatten to nothing. */
  lemma {:induction false} FlattenOfBasicContents(cs: seq<Token>)
    requires forall i :: 0 <= i < |cs| ==> cs[i].Basic?
    ensures LeavesOf(cs) == cs
  {
    if cs != [] {
      FlattenOfBasicContents(cs[1..]);
    }
  }

  /**
   * Passing a path does not change which leaves there are: the flattened
   * lists before and after agree position by position in everything but
   * the path, and every leaf's path extends the path passed to the root.
   */
  lemma {:induction false} LeavesUnderPassedPath(t: Token, p: seq<string>)
    ensures |Leaves(WithPath(t, p))| == |Leaves(t)|
    ensures forall k :: 0 <= k < |Leaves(t)| ==>
      && Leaves(WithPath(t, p))[k] == WithPath(Leaves(t)[k], Leaves(WithPath(t, p))[k].typePath)
      && p <= Leaves(WithPath(t, p))[k].typePath
    decreases t
  {
    match t
    case Basic(_, _, _) =>
    case Struct(n, e, _, s, cs) =>
      LeavesOfUnderPath(cs, InnerPath(n, s, p), p);
  }

  lemma {:induction false} LeavesOfUnderPath(cs: seq<Token>, q: seq<string>, p: seq<string>)
    requires p <= q
    ensures var ws := seq(|cs|, i requires 0 <= i < |cs| => WithPath(cs[i], q));
      && |LeavesOf(ws)| == |LeavesOf(cs)|
      && forall k :: 0 <= k < |LeavesOf(cs)| ==>
        && LeavesOf(ws)[k] == WithPath(LeavesOf(cs)[k], LeavesOf(ws)[k].typePath)
        && p <= LeavesOf(ws)[k].typePath
    decreases cs
  {
    var ws := seq(|cs|, i requires 0 <= i < |cs| => WithPath(cs[i], q));
    if cs != [] {
      var ws' := seq(|cs| - 1, i requires 0 <= i < |cs| - 1 => WithPath(cs[1..][i], q));
      assert ws[1..] == ws';
      assert ws[0] == WithPath(cs[0], q);
      LeavesUnderPassedPath(cs[0], q);
      LeavesOfUnderPath(cs[1..], q, p);
      var a: seq<Token>, b: seq<Token> := Leaves(ws[0]), LeavesOf(ws');
      var a0: seq<Token>, b0: seq<Token> := Leaves(cs[0]), LeavesOf(cs[1..]);
      assert LeavesOf(ws) == a + b;
      assert LeavesOf(cs) == a0 + b0;
      forall k | 0 <= k < |a0 + b0|
        ensures (a + b)[k] == WithPath((a0 + b0)[k], (a + b)[k].typePath)
        ensures p <= (a + b)[k].typePath
      {
        if k < |a0| {
          assert (a + b)[k] == a[k] && (a0 + b0)[k] == a0[k];
          assert q <= a[k].typePath;
        } else {
          assert (a + b)[k] == b[k - |a|] && (a0 + b0)[k] == b0[k - |a0|];
        }
      }
    }
  }
}
