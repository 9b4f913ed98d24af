/**
 When exactly a path is answered. In a storage whose patterns do not clash, a lookup that makes no slash
 recommendation finds a handler exactly when some stored pattern fits the path and no dead end hangs off its
 branch.
 */
module DeadEnds {
  import opened Text
  import opened WildPath
  import opened Pattern
  import opened Trie
  import opened Conservation
  import opened TrailingSlash
  import opened Lookup
  import opened TidyTree
  import opened Answered
  import opened Precedence

  /** A dead end is where the loop over its siblings ends. */
  lemma {:induction false} DeadEndStops(n: Trie, path: string)
    requires WellFormed(n) && Searchable(n) && Tidy(n) && StaticFirst(n) && path != "" && HasDeadEnd(n, path)
    ensures GetFrom(n, 0, path) == MISS
  {
    var k :| 0 <= k < |n.kids| && DeadEnd(n.kids[k], path);
    PassesTo(n, k, path);
  }

  /** A pattern has one branch, a bare marker beside it aside. */
  lemma {:induction false} OneBranch(n: Trie, j: nat, k: nat, ps: Pattern)
    requires WellFormed(n) && Tidy(n) && j < |n.kids| && k < |n.kids| && j != k && n.kids[k] != MARKER
    requires TextOf(n.kids[j]) <= ps && TextOf(n.kids[k]) <= ps
    ensures n.kids[j] == MARKER
  {
    var a, b := n.kids[j], n.kids[k];
    KidIsWellFormed(n, j);
    KidIsWellFormed(n, k);
    assert TextOf(a)[0] == ps[0] == TextOf(b)[0];
    assert SameStart(a, b) && SameStart(b, a);
  }

  /** No dead end here, none below the child the pattern goes on at. */
  lemma {:induction false} NotStuck(n: Trie, k: nat, ps: Pattern, vals: seq<string>, path: string)
    requires WellFormed(n) && Tidy(n) && k < |n.kids| && n.kids[k] != MARKER && TextOf(n.kids[k]) <= ps
    requires !HasDeadEnd(n, path) && !StuckVia(n.kids[k], ps, vals, path)
    ensures !Stuck(n, ps, vals, path)
  {
    forall j | 0 <= j < |n.kids| && TextOf(n.kids[j]) <= ps
      ensures !StuckVia(n.kids[j], ps, vals, path)
    {
      if j != k { OneBranch(n, j, k, ps); }
    }
  }

  /** A stored route that the rest of the path fits, with no dead end off its branch. */
  ghost predicate FreeRoute(n: Trie, pre: Pattern, ps: Pattern, vals: seq<string>, path: string, h: Handler) {
    && (pre + TextOf(n) + ps, h) in Routes(n, pre)
    && Fits(ps, vals, path, false) && KeyFilled(ps, vals) && !Stuck(n, ps, vals, path)
  }

  lemma {:induction false} FreeWildcard(n: Trie, path: string, pre: Pattern)
    requires WellFormed(n) && n.wildcard.Some? && !HasDeadEnd(n, path)
    ensures FreeRoute(n, pre, [Rest(n.wildcard.value.key)], [path], path, n.wildcard.value.handler)
  {
    var ps := [Rest(n.wildcard.value.key)];
    OwnHandler(n, pre);
    CaptureRest(n.wildcard.value.key, path);
    forall k | 0 <= k < |n.kids|
      ensures !(TextOf(n.kids[k]) <= ps)
    {
      KidIsWellFormed(n, k);
      var t := TextOf(n.kids[k]);
      assert t != [] && !t[0].Rest?;
    }
  }

  /** The pattern a child stores, seen from its parent. */
  lemma {:induction false} FreeText(
    n: Trie, k: nat, pre: Pattern, sub: Pattern, vals: seq<string>, rest: string, h: Handler)
    requires WellFormed(n) && Tidy(n) && k < |n.kids| && n.kids[k].kind == Static && n.kids[k] != MARKER
    requires FreeRoute(n.kids[k], pre + TextOf(n), sub, vals, rest, h)
    requires !HasDeadEnd(n, n.kids[k].path + rest)
    ensures FreeRoute(n, pre, Lits(n.kids[k].path) + sub, vals, n.kids[k].path + rest, h)
  {
    var c := n.kids[k];
    var ps, path := Lits(c.path) + sub, c.path + rest;
    Descend(n, k, pre, sub, ps, h);
    FitsLits(c.path, c.path, false);
    FitsConcat(Lits(c.path), [], c.path, sub, vals, rest, false);
    assert [] + vals == vals;
    assert ps[|c.path|..] == sub && path[|c.path|..] == rest;
    assert sub != [] ==> ps[|ps| - 1] == sub[|sub| - 1];
    assert sub == [] && c.path != "" ==> ps[|ps| - 1] == Lit(c.path[|c.path| - 1]);
    KidIsWellFormed(n, k);
    NotStuck(n, k, ps, vals, path);
  }

  lemma {:induction false} FreeKey(
    n: Trie, k: nat, pre: Pattern, sub: Pattern, vals: seq<string>, v: string, rest: string, h: Handler)
    requires WellFormed(n) && Tidy(n) && k < |n.kids| && n.kids[k].kind == Param && |n.kids[k].keys| == 1
    requires FreeRoute(n.kids[k], pre + TextOf(n), sub, vals, rest, h) && '/' !in v
    requires !HasDeadEnd(n, v + rest) && (sub == [] ==> vals == [] && v != "")
    requires sub != [] && sub[|sub| - 1].Key? ==> vals != []
    ensures FreeRoute(n, pre, [Key(n.kids[k].keys[0])] + sub, [v] + vals, v + rest, h)
  {
    var c := n.kids[k];
    var ps, ws, path := [Key(c.keys[0])] + sub, [v] + vals, v + rest;
    Descend(n, k, pre, sub, ps, h);
    assert ps[1..] == sub && ws[1..] == vals && path[|v|..] == rest;
    assert sub != [] ==> ps[|ps| - 1] == sub[|sub| - 1];
    assert vals != [] ==> ws[|ws| - 1] == vals[|vals| - 1];
    NotStuck(n, k, ps, ws, path);
  }

  lemma {:induction false} LastIsCaptured(ps: Pattern, vals: seq<string>, path: string)
    requires Fits(ps, vals, path, false) && ps != [] && ps[|ps| - 1].Key?
    ensures vals != []
  {
    if ps[0].Lit? {
      assert ps[1..][|ps| - 2] == ps[|ps| - 1];
      LastIsCaptured(ps[1..], vals, path[1..]);
    }
  }

  /** What a lookup leaves open at the end of a node's text. */
  function SpelledEnd(c: Trie): Pattern {
    if c.handler.Some? then [] else match c.wildcard case Some(w) => [Rest(w.key)] case None => []
  }

  /** The pattern a successful search spells on its way. */
  function Spelled(n: Trie, k: nat, path: string): Pattern
    requires Searchable(n) && path != "" && k <= |n.kids|
    decreases n, |n.kids| - k
  {
    if k == |n.kids| then (match n.wildcard case Some(w) => [Rest(w.key)] case None => [])
    else
      var c, end := n.kids[k], SegmentEnd(path, false);
      if c.kind == Static && path == c.path then Lits(c.path) + SpelledEnd(c)
      else if c.kind == Static && c.path < path && Settled(GetFromChild(c, path[|c.path|..])) then
        Lits(c.path) + Spelled(c, 0, path[|c.path|..])
      else if c.kind == Param && end < |path| && Settled(GetFromChild(c, path[end..])) then
        [Key(c.keys[0])] + Spelled(c, 0, path[end..])
      else if c.kind == Param && end == |path| && (c.tsr || c.handler.Some?) then [Key(c.keys[0])]
      else Spelled(n, k + 1, path)
  }

  /** A static child in which the search settles. */
  lemma {:induction false} TextSettles(n: Trie, k: nat, path: string)
    requires Searchable(n) && path != "" && k < |n.kids| && n.kids[k].kind == Static && n.kids[k].path < path
    requires Settled(GetFromChild(n.kids[k], path[|n.kids[k].path|..]))
    ensures var c := n.kids[k]; var rest := path[|c.path|..];
      GetFrom(n, k, path) == GetFromChild(c, rest) && Spelled(n, k, path) == Lits(c.path) + Spelled(c, 0, rest)
  {
  }

  /** A parameter in which the search settles. */
  lemma {:induction false} KeySettles(n: Trie, k: nat, path: string)
    requires Searchable(n) && path != "" && k < |n.kids| && n.kids[k].kind == Param
    requires SegmentEnd(path, false) < |path| && Settled(GetFromChild(n.kids[k], path[SegmentEnd(path, false)..]))
    ensures var c, rest := n.kids[k], path[SegmentEnd(path, false)..];
      && Spelled(n, k, path) == [Key(c.keys[0])] + Spelled(c, 0, rest)
      && GetFrom(n, k, path).handler == if GetFromChild(c, rest).tsr then None else GetFromChild(c, rest).handler
  {
  }

  /** A child the search goes on after. */
  predicate Passed(n: Trie, k: nat, path: string)
    requires Searchable(n) && path != "" && k < |n.kids|
  {
    var c, end := n.kids[k], SegmentEnd(path, false);
    if c.kind == Static then path != c.path && (c.path < path ==> !Settled(GetFromChild(c, path[|c.path|..])))
    else if end < |path| then !Settled(GetFromChild(c, path[end..])) else !c.tsr && c.handler == None
  }

  lemma {:induction false} PassedOver(n: Trie, k: nat, path: string)
    requires Searchable(n) && path != "" && k < |n.kids| && Passed(n, k, path)
    ensures GetFrom(n, k, path) == GetFrom(n, k + 1, path) && Spelled(n, k, path) == Spelled(n, k + 1, path)
  {
  }

  /** Where the search finds a handler: at the end of a child's text, in a child, at a parameter, or later. */
  lemma {:induction false} WhereFound(n: Trie, k: nat, path: string)
    requires Searchable(n) && path != "" && k < |n.kids| && GetFrom(n, k, path).handler.Some?
    ensures Passed(n, k, path) || (var c, end := n.kids[k], SegmentEnd(path, false);
      if c.kind == Static then path == c.path || (c.path < path && GetFromChild(c, path[|c.path|..]).handler.Some?)
      else if end < |path| then var r := GetFromChild(c, path[end..]); r.handler.Some? && !r.tsr
      else c.handler.Some?)
  {
  }

  /** What the search finds is stored under a pattern with no dead end off its branch. */
  lemma {:induction false} FreeSearch(n: Trie, k: nat, path: string, pre: Pattern)
    returns (ps: Pattern, vals: seq<string>)
    requires WellFormed(n) && Searchable(n) && Tidy(n) && StaticFirst(n) && path != "" && k <= |n.kids|
    requires !HasDeadEnd(n, path) && GetFrom(n, k, path).handler.Some?
    ensures FreeRoute(n, pre, ps, vals, path, GetFrom(n, k, path).handler.value) && ps == Spelled(n, k, path)
    decreases n, |n.kids| - k
  {
    if k == |n.kids| {
      FreeWildcard(n, path, pre);
      ps, vals := [Rest(n.wildcard.value.key)], [path];
    } else {
      WhereFound(n, k, path);
      KidIsWellFormed(n, k);
      var c := n.kids[k];
      if Passed(n, k, path) {
        PassedOver(n, k, path);
        ps, vals := FreeSearch(n, k + 1, path, pre);
      } else if c.kind == Static {
        if path == c.path {
          ps, vals := FreeAtText(n, k, path, pre);
        } else {
          ps, vals := FreeBelowText(n, k, path, pre);
        }
      } else if SegmentEnd(path, false) < |path| {
        ps, vals := FreeBelowKey(n, k, path, pre);
      } else {
        FreeAtKey(n, k, path, pre);
        ps, vals := [Key(c.keys[0])], [path];
      }
    }
  }

  lemma {:induction false} FreeAtText(n: Trie, k: nat, path: string, pre: Pattern)
    returns (ps: Pattern, vals: seq<string>)
    requires WellFormed(n) && Searchable(n) && Tidy(n) && path != "" && k < |n.kids| && n.kids[k].kind == Static
    requires path == n.kids[k].path && !HasDeadEnd(n, path) && GetFrom(n, k, path).handler.Some?
    ensures FreeRoute(n, pre, ps, vals, path, GetFrom(n, k, path).handler.value) && ps == Spelled(n, k, path)
  {
    var c, full := n.kids[k], pre + TextOf(n);
    var sub;
    sub, vals := EndSound(c, full);
    assert path == c.path + "";
    FreeText(n, k, pre, sub, vals, "", AtEnd(c).handler.value);
    ps := Lits(c.path) + sub;
  }

  lemma {:induction false} FreeBelowText(n: Trie, k: nat, path: string, pre: Pattern)
    returns (ps: Pattern, vals: seq<string>)
    requires WellFormed(n) && Searchable(n) && Tidy(n) && StaticFirst(n) && path != "" && k < |n.kids|
    requires n.kids[k].kind == Static && n.kids[k].path < path && !HasDeadEnd(n, path)
    requires GetFromChild(n.kids[k], path[|n.kids[k].path|..]).handler.Some?
    ensures FreeRoute(n, pre, ps, vals, path, GetFrom(n, k, path).handler.value) && ps == Spelled(n, k, path)
    decreases n, |n.kids| - k, 0
  {
    var c, full := n.kids[k], pre + TextOf(n);
    var rest := path[|c.path|..];
    var sub;
    sub, vals := FreeInside(n, k, rest, pre);
    TextSettles(n, k, path);
    assert path == c.path + rest;
    FreeText(n, k, pre, sub, vals, rest, GetFromChild(c, rest).handler.value);
    ps := Lits(c.path) + sub;
  }

  /** A kid the search finds something in has no dead end that would stop it. */
  lemma {:induction false} FreeInside(n: Trie, k: nat, rest: string, pre: Pattern)
    returns (ps: Pattern, vals: seq<string>)
    requires WellFormed(n) && Searchable(n) && Tidy(n) && StaticFirst(n) && rest != "" && k < |n.kids|
    requires GetFromChild(n.kids[k], rest).handler.Some?
    ensures FreeRoute(n.kids[k], pre + TextOf(n), ps, vals, rest, GetFromChild(n.kids[k], rest).handler.value)
    ensures ps != [] && (ps[|ps| - 1].Key? ==> vals != []) && ps == Spelled(n.kids[k], 0, rest)
    decreases n, 0
  {
    var c := n.kids[k];
    KidIsWellFormed(n, k);
    if HasDeadEnd(c, rest) { DeadEndStops(c, rest); }
    ps, vals := FreeSearch(c, 0, rest, pre + TextOf(n));
    if ps != [] && ps[|ps| - 1].Key? { LastIsCaptured(ps, vals, rest); }
  }

  lemma {:induction false} FreeBelowKey(n: Trie, k: nat, path: string, pre: Pattern)
    returns (ps: Pattern, vals: seq<string>)
    requires WellFormed(n) && Searchable(n) && Tidy(n) && StaticFirst(n) && path != "" && k < |n.kids|
    requires n.kids[k].kind == Param && SegmentEnd(path, false) < |path| && !HasDeadEnd(n, path)
    requires var r := GetFromChild(n.kids[k], path[SegmentEnd(path, false)..]); r.handler.Some? && !r.tsr
    ensures FreeRoute(n, pre, ps, vals, path, GetFrom(n, k, path).handler.value) && ps == Spelled(n, k, path)
    decreases n, |n.kids| - k, 0
  {
    var c, end := n.kids[k], SegmentEnd(path, false);
    var sub, vs := FreeInside(n, k, path[end..], pre);
    FreeAfterKey(n, k, path, pre, sub, vs);
    KeySettles(n, k, path);
    ps, vals := [Key(c.keys[0])] + sub, [path[..end]] + vs;
  }

  lemma {:induction false} FreeAfterKey(
    n: Trie, k: nat, path: string, pre: Pattern, sub: Pattern, vs: seq<string>)
    requires WellFormed(n) && Searchable(n) && Tidy(n) && path != "" && k < |n.kids| && n.kids[k].kind == Param
    requires SegmentEnd(path, false) < |path| && !HasDeadEnd(n, path)
    requires GetFromChild(n.kids[k], path[SegmentEnd(path, false)..]).handler.Some?
    requires var rest := path[SegmentEnd(path, false)..];
      FreeRoute(n.kids[k], pre + TextOf(n), sub, vs, rest, GetFromChild(n.kids[k], rest).handler.value)
    requires sub != [] && (sub[|sub| - 1].Key? ==> vs != [])
    ensures var end, c := SegmentEnd(path, false), n.kids[k];
      FreeRoute(n, pre, [Key(c.keys[0])] + sub, [path[..end]] + vs, path, GetFromChild(c, path[end..]).handler.value)
  {
    var c, end := n.kids[k], SegmentEnd(path, false);
    KidIsWellFormed(n, k);
    assert path == path[..end] + path[end..];
    FreeKey(n, k, pre, sub, vs, path[..end], path[end..], GetFromChild(c, path[end..]).handler.value);
  }

  lemma {:induction false} FreeAtKey(n: Trie, k: nat, path: string, pre: Pattern)
    requires WellFormed(n) && Tidy(n) && path != "" && k < |n.kids| && n.kids[k].kind == Param
    requires WellFormed(n.kids[k]) && SegmentEnd(path, false) == |path| && n.kids[k].handler.Some?
    requires !HasDeadEnd(n, path)
    ensures FreeRoute(n, pre, [Key(n.kids[k].keys[0])], [path], path, n.kids[k].handler.value)
  {
    var c, full := n.kids[k], pre + TextOf(n);
    OwnHandler(c, full);
    assert full + TextOf(c) + [] == full + TextOf(c) && path[..|path|] == path && path + "" == path;
    FreeKey(n, k, pre, [], [], path, "", c.handler.value);
    assert [Key(c.keys[0])] + [] == [Key(c.keys[0])] && [path] + [] == [path];
  }

  // ----- the whole tree ------------------------------------------------------------------------------------

  /** Some stored pattern fits the path, with no dead end off its branch. */
  ghost predicate FreelyServed(root: Trie, path: string) {
    exists ps, vals ::
      ps in Stored(root) && Fits(ps, vals, path, false) && KeyFilled(ps, vals) && !StuckAtRoot(root, ps, vals, path)
  }

  lemma {:induction false} FoundIsFree(root: Trie, path: string)
    requires WellFormed(root) && root.kind == Root && Searchable(root) && Tidy(root) && StaticFirst(root)
    requires Get(root, path).handler.Some?
    ensures FreelyServed(root, path)
  {
    var sub, vals, rest, h := [], [], path[|root.path|..], Get(root, path).handler.value;
    assert path == root.path + rest && [] + TextOf(root) == Lits(root.path);
    if rest == "" {
      assert path == root.path;
      sub, vals := EndSound(root, []);
      assert FreeRoute(root, [], sub, vals, "", h);
    } else {
      if HasDeadEnd(root, rest) { DeadEndStops(root, rest); }
      sub, vals := FreeSearch(root, 0, rest, []);
    }
    FreeFromRoot(root, sub, vals, rest, h);
  }

  lemma {:induction false} FreeFromRoot(root: Trie, sub: Pattern, vals: seq<string>, rest: string, h: Handler)
    requires root.kind == Root && FreeRoute(root, [], sub, vals, rest, h)
    ensures FreelyServed(root, root.path + rest)
  {
    var ps, path := Lits(root.path) + sub, root.path + rest;
    assert [] + TextOf(root) + sub == ps;
    assert (ps, h) in Routes(root, []);
    FitsLits(root.path, root.path, false);
    FitsConcat(Lits(root.path), [], root.path, sub, vals, rest, false);
    assert [] + vals == vals;
    assert ps[|root.path|..] == sub && path[|root.path|..] == rest;
    assert sub != [] ==> ps[|ps| - 1] == sub[|sub| - 1];
    assert sub == [] && root.path != "" ==> ps[|ps| - 1] == Lit(root.path[|root.path| - 1]);
    assert ps in Stored(root) && Fits(ps, vals, path, false) && KeyFilled(ps, vals);
    assert !StuckAtRoot(root, ps, vals, path);
  }

  /**
   In a tidy storage with static children first, a lookup that makes no slash recommendation finds a handler
   exactly when some stored pattern fits the path, its last parameter not empty, with no dead end off its branch.
   */
  lemma {:induction false} AnsweredIffFree(root: Trie, path: string)
    requires WellFormed(root) && root.kind == Root && Searchable(root) && Tidy(root) && StaticFirst(root)
    requires (forall ps :: ps in Stored(root) ==> Good(ps)) && !Get(root, path).tsr
    ensures Get(root, path).handler.Some? <==> FreelyServed(root, path)
  {
    if Get(root, path).handler.Some? {
      FoundIsFree(root, path);
    } else if FreelyServed(root, path) {
      var ps, vals :| ps in Stored(root) && Fits(ps, vals, path, false) && KeyFilled(ps, vals)
        && !StuckAtRoot(root, ps, vals, path);
      GetIsComplete(root, ps, vals, path);
    }
  }
}
