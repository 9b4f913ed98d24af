/**
 Which paths are answered. A search goes down every child the path fits until something is found, but for one
 exception: a static child whose text is the whole rest of the path and that carries nothing ends the loop over
 its siblings. So a path that fits a stored pattern is answered, unless such a dead end hangs off the branch
 that spells the pattern. The case-insensitive search has no such exception.
 */
module Answered {
  import opened Text
  import opened WildPath
  import opened Pattern
  import opened Trie
  import opened Conservation
  import opened TrailingSlash
  import opened Lookup
  import opened TidyTree

  // ----- where a pattern leads -----------------------------------------------------------------------------

  /** The walk of `ps` below `n` ends at a handler or a mark, or at a wildcard of this name. */
  predicate Leads(n: Trie, ps: Pattern)
    decreases n, 0
  {
    || (ps == [] && (n.handler.Some? || n.tsr))
    || (n.wildcard.Some? && ps == [Rest(n.wildcard.value.key)])
    || exists k :: 0 <= k < |n.kids| && LeadsVia(n.kids[k], ps)
  }

  /** The same from before the text of `c` on. */
  predicate LeadsVia(c: Trie, ps: Pattern)
    decreases c, 1
  {
    TextOf(c) <= ps && Leads(c, ps[|TextOf(c)|..])
  }

  lemma {:induction false} LeadsBelow(n: Trie, k: nat, ps: Pattern)
    requires k < |n.kids| && LeadsVia(n.kids[k], ps)
    ensures Leads(n, ps)
  {
  }

  /** A stored route is led to. */
  lemma {:induction false} RouteLeads(n: Trie, ps: Pattern, pre: Pattern, h: Handler)
    requires WellFormed(n) && (pre + TextOf(n) + ps, h) in Routes(n, pre)
    ensures Leads(n, ps)
    decreases n
  {
    var full := pre + TextOf(n);
    if (full + ps, h) in Own(n, full) {
      OwnLeads(n, ps, full, h);
    } else {
      var k := RoutesOfWitness(n.kids, full, (full + ps, h));
      var c := n.kids[k];
      KidIsWellFormed(n, k);
      TextBefore(c, full, ps, h);
      RouteLeads(c, ps[|TextOf(c)|..], full, h);
      LeadsBelow(n, k, ps);
    }
  }

  lemma {:induction false} OwnLeads(n: Trie, ps: Pattern, full: Pattern, h: Handler)
    requires (full + ps, h) in Own(n, full)
    ensures Leads(n, ps)
  {
    if n.handler.Some? && (full + ps, h) == (full, n.handler.value) {
      assert |full + ps| == |full|;
    } else {
      assert full + ps == full + [Rest(n.wildcard.value.key)];
      assert ps == (full + ps)[|full|..] == [Rest(n.wildcard.value.key)];
    }
  }

  lemma {:induction false} StoredLeads(root: Trie, ps: Pattern)
    requires WellFormed(root) && ps in Stored(root)
    ensures LeadsVia(root, ps)
  {
    var r :| r in Routes(root, []) && r.0 == ps;
    assert [] + ps == ps && [] + TextOf(root) == TextOf(root);
    TextBefore(root, [], ps, r.1);
    assert [] + TextOf(root) + ps[|TextOf(root)|..] == ps;
    RouteLeads(root, ps[|TextOf(root)|..], [], r.1);
  }

  /** The last parameter is not captured empty. */
  predicate KeyFilled(ps: Pattern, vals: seq<string>) {
    ps != [] && ps[|ps| - 1].Key? && vals != [] ==> vals[|vals| - 1] != ""
  }

  /** The last parameter or wildcard is not captured empty. */
  predicate Filled(ps: Pattern, vals: seq<string>) {
    ps != [] && !ps[|ps| - 1].Lit? && vals != [] ==> vals[|vals| - 1] != ""
  }

  /** A path that fits text and more starts with the text. */
  lemma {:induction false} FitsText(s: string, rest: Pattern, vals: seq<string>, path: string, fold: bool)
    requires Fits(Lits(s) + rest, vals, path, fold)
    ensures |s| <= |path| && Fits(rest, vals, path[|s|..], fold)
    ensures if fold then EqualFold(path[..|s|], s) else path[..|s|] == s
  {
    var ps := Lits(s) + rest;
    if s == "" {
      assert ps == rest && path[0..] == path;
    } else {
      var t, tail := s[1..], path[1..];
      assert ps[0] == Lit(s[0]) && ps[1..] == Lits(t) + rest;
      FitsText(t, rest, vals, tail, fold);
      assert tail[|t|..] == path[|s|..];
      assert path[..|s|] == [path[0]] + tail[..|t|] && s == [s[0]] + t;
    }
  }

  /** The text of a static child, taken off a pattern and off the path. */
  lemma {:induction false} AfterChildText(c: Trie, ps: Pattern, vals: seq<string>, path: string, fold: bool)
    requires c.kind != Param && Good(ps) && TextOf(c) <= ps && Fits(ps, vals, path, fold)
    ensures var rest := ps[|c.path|..];
      && |c.path| <= |path| && Good(rest) && Fits(rest, vals, path[|c.path|..], fold)
      && (if fold then EqualFold(path[..|c.path|], c.path) else path[..|c.path|] == c.path)
      && (KeyFilled(ps, vals) ==> KeyFilled(rest, vals)) && (Filled(ps, vals) ==> Filled(rest, vals))
  {
    var rest := ps[|c.path|..];
    assert ps == Lits(c.path) + rest;
    GoodSuffix(ps, |c.path|);
    FitsText(c.path, rest, vals, path, fold);
  }

  /** A parameter, taken off a pattern and off the path: it captures the whole segment. */
  lemma {:induction false} AfterSegment(ps: Pattern, vals: seq<string>, path: string, fold: bool)
    requires Good(ps) && ps != [] && ps[0].Key? && Fits(ps, vals, path, fold)
    ensures var rest := path[SegmentEnd(path, false)..];
      && vals[0] == path[..SegmentEnd(path, false)] && Good(ps[1..]) && Fits(ps[1..], vals[1..], rest, fold)
      && (KeyFilled(ps, vals) ==> KeyFilled(ps[1..], vals[1..])) && (Filled(ps, vals) ==> Filled(ps[1..], vals[1..]))
      && (rest == "" <==> ps[1..] == [])
  {
    var v, end := vals[0], SegmentEnd(path, false);
    GoodSuffix(ps, 1);
    if |ps| > 1 {
      assert ps[1..][0] == Lit('/');
      FoldSlash(path[|v|]);
      assert path[|v|] == '/';
    }
    SegmentIs(path, |v|);
    assert path[..end] == v;
  }

  lemma {:induction false} SegmentIs(path: string, i: nat)
    requires i <= |path| && '/' !in path[..i] && (i < |path| ==> path[i] == '/')
    ensures SegmentEnd(path, false) == i
  {
    var end := SegmentEnd(path, false);
    forall k | 0 <= k < i
      ensures path[k] != '/'
    {
      assert path[..i][k] in path[..i];
    }
    forall k | 0 <= k < end
      ensures path[k] != '/'
    {
      assert path[..end][k] in path[..end];
    }
  }

  /** What is left of a pattern when the path is used up. */
  lemma {:induction false} FitsNothing(ps: Pattern, vals: seq<string>, fold: bool)
    requires Good(ps) && Fits(ps, vals, "", fold) && KeyFilled(ps, vals)
    ensures ps == [] || (|ps| == 1 && ps[0].Rest? && !Filled(ps, vals))
  {
    if ps != [] && ps[0].Key? { AfterSegment(ps, vals, "", fold); }
  }

  /** No child is meant when nothing, or just a wildcard, is left of the pattern. */
  lemma {:induction false} LeadsHere(n: Trie, ps: Pattern)
    requires WellFormed(n) && Leads(n, ps) && (ps == [] || ps[0].Rest?)
    ensures if ps == [] then n.handler.Some? || n.tsr else n.wildcard.Some?
  {
    forall k | 0 <= k < |n.kids|
      ensures !LeadsVia(n.kids[k], ps)
    {
      KidIsWellFormed(n, k);
      var t := TextOf(n.kids[k]);
      assert t != [] && !t[0].Rest?;
    }
  }

  // ----- the search of `Get` -------------------------------------------------------------------------------

  predicate Settled(g: Found) { g.handler.Some? || g.tsr }

  /** A static node whose text is the whole rest of the path, and that carries nothing. */
  predicate DeadEnd(c: Trie, path: string) {
    c.kind == Static && c.path == path && !c.tsr && c.handler == None && c.wildcard == None
  }

  predicate HasDeadEnd(n: Trie, path: string) { exists k :: 0 <= k < |n.kids| && DeadEnd(n.kids[k], path) }

  /**
   A dead end hangs off the branch that spells `ps` below `n`, where the rest of the path is its text; `vals` are
   the values the path takes for the parameters of `ps`.
   */
  predicate Stuck(n: Trie, ps: Pattern, vals: seq<string>, path: string)
    decreases n, 0
  {
    path != "" && (HasDeadEnd(n, path) || exists k :: 0 <= k < |n.kids| && StuckVia(n.kids[k], ps, vals, path))
  }

  predicate StuckVia(c: Trie, ps: Pattern, vals: seq<string>, path: string)
    decreases c, 1
  {
    TextOf(c) <= ps &&
    if c.kind == Param then
      ps != [] && vals != [] && |vals[0]| <= |path| && Stuck(c, ps[1..], vals[1..], path[|vals[0]|..])
    else |c.path| <= |path| && |c.path| <= |ps| && Stuck(c, ps[|c.path|..], vals, path[|c.path|..])
  }

  /** A child settles the search, is a dead end, or is passed over. */
  lemma {:induction false} ChildSettles(n: Trie, k: nat, path: string)
    requires Searchable(n) && path != "" && k < |n.kids|
    ensures Settled(GetFrom(n, k, path)) || DeadEnd(n.kids[k], path) || GetFrom(n, k, path) == GetFrom(n, k + 1, path)
  {
  }

  lemma {:induction false} SearchReaches(n: Trie, j: nat, k: nat, path: string)
    requires Searchable(n) && path != "" && j <= k <= |n.kids|
    ensures Settled(GetFrom(n, j, path)) || HasDeadEnd(n, path) || GetFrom(n, j, path) == GetFrom(n, k, path)
    decreases k - j
  {
    if j < k {
      ChildSettles(n, j, path);
      SearchReaches(n, j + 1, k, path);
    }
  }

  /** Below any well-formed node, where a pattern leads the search for a path that fits it comes. */
  lemma {:induction false} GetComplete(n: Trie, ps: Pattern, vals: seq<string>, path: string)
    requires WellFormed(n) && Searchable(n) && Leads(n, ps) && path != ""
    requires Good(ps) && Fits(ps, vals, path, false) && KeyFilled(ps, vals)
    ensures Settled(GetFrom(n, 0, path)) || Stuck(n, ps, vals, path)
    decreases n
  {
    if n.wildcard.Some? && ps == [Rest(n.wildcard.value.key)] {
      SearchReaches(n, 0, |n.kids|, path);
    } else {
      var k :| 0 <= k < |n.kids| && LeadsVia(n.kids[k], ps);
      SearchReaches(n, 0, k, path);
      KidIsWellFormed(n, k);
      if n.kids[k].kind == Param {
        KeyComplete(n, k, ps, vals, path);
      } else {
        TextComplete(n, k, ps, vals, path);
      }
    }
  }

  lemma {:induction false} TextComplete(n: Trie, k: nat, ps: Pattern, vals: seq<string>, path: string)
    requires Searchable(n) && path != "" && k < |n.kids| && n.kids[k].kind == Static && LeadsVia(n.kids[k], ps)
    requires WellFormed(n.kids[k]) && Good(ps) && Fits(ps, vals, path, false) && KeyFilled(ps, vals)
    ensures Settled(GetFrom(n, k, path)) || Stuck(n, ps, vals, path)
    decreases n, 0
  {
    var c := n.kids[k];
    AfterChildText(c, ps, vals, path, false);
    var rest := path[|c.path|..];
    assert path == c.path + rest;
    if rest == "" {
      assert DeadEnd(c, path) || Settled(AtEnd(c));
    } else {
      GetComplete(c, ps[|c.path|..], vals, rest);
      assert StuckVia(c, ps, vals, path) || Settled(GetFromChild(c, rest));
    }
  }

  lemma {:induction false} KeyComplete(n: Trie, k: nat, ps: Pattern, vals: seq<string>, path: string)
    requires Searchable(n) && path != "" && k < |n.kids| && n.kids[k].kind == Param && LeadsVia(n.kids[k], ps)
    requires WellFormed(n.kids[k]) && Good(ps) && Fits(ps, vals, path, false) && KeyFilled(ps, vals)
    ensures Settled(GetFrom(n, k, path)) || Stuck(n, ps, vals, path)
    decreases n, 0
  {
    var c, end := n.kids[k], SegmentEnd(path, false);
    assert ps[0] == TextOf(c)[0];
    AfterSegment(ps, vals, path, false);
    if end < |path| {
      GetComplete(c, ps[1..], vals[1..], path[end..]);
      assert StuckVia(c, ps, vals, path) || Settled(GetFromChild(c, path[end..]));
    } else {
      LeadsHere(c, []);
    }
  }

  /** A dead end hangs off the branch of `ps`, seen from the root. */
  predicate StuckAtRoot(root: Trie, ps: Pattern, vals: seq<string>, path: string) {
    root.path <= path && |root.path| <= |ps| && Stuck(root, ps[|root.path|..], vals, path[|root.path|..])
  }

  lemma {:induction false} GetLedTo(root: Trie, ps: Pattern, vals: seq<string>, path: string)
    requires WellFormed(root) && root.kind == Root && Searchable(root) && LeadsVia(root, ps)
    requires Good(ps) && Fits(ps, vals, path, false) && KeyFilled(ps, vals)
    ensures Settled(Get(root, path)) || StuckAtRoot(root, ps, vals, path)
  {
    AfterChildText(root, ps, vals, path, false);
    var sub, rest := ps[|root.path|..], path[|root.path|..];
    assert path == root.path + rest;
    if rest == "" {
      FitsNothing(sub, vals, false);
      LeadsHere(root, sub);
    } else {
      GetComplete(root, sub, vals, rest);
    }
  }

  /**
   On any well-formed tree, a path that fits a stored pattern, the last parameter not empty, is answered with a
   handler or a slash recommendation, unless a dead end hangs off the branch of the pattern.
   */
  lemma {:induction false} GetIsComplete(root: Trie, ps: Pattern, vals: seq<string>, path: string)
    requires WellFormed(root) && root.kind == Root && Searchable(root) && ps in Stored(root)
    requires Good(ps) && Fits(ps, vals, path, false) && KeyFilled(ps, vals)
    ensures Settled(Get(root, path)) || StuckAtRoot(root, ps, vals, path)
  {
    StoredLeads(root, ps);
    GetLedTo(root, ps, vals, path);
  }

  // ----- the case-insensitive search -----------------------------------------------------------------------

  /** What is found at a child is found. */
  lemma {:induction false} FoundLater(n: Trie, j: nat, k: nat, path: string)
    requires Searchable(n) && path != "" && j <= k <= |n.kids| && FindFrom(n, k, path).Fixed?
    ensures FindFrom(n, j, path).Fixed?
    decreases k - j
  {
    if j < k { FoundLater(n, j + 1, k, path); }
  }

  lemma {:induction false} FindComplete(n: Trie, ps: Pattern, vals: seq<string>, path: string)
    requires WellFormed(n) && Searchable(n) && Leads(n, ps) && path != ""
    requires Good(ps) && Fits(ps, vals, path, true) && Filled(ps, vals)
    ensures FindFrom(n, 0, path).Fixed?
    decreases n, 1
  {
    if n.wildcard.Some? && ps == [Rest(n.wildcard.value.key)] {
      FoundLater(n, 0, |n.kids|, path);
    } else {
      var k :| 0 <= k < |n.kids| && LeadsVia(n.kids[k], ps);
      KidIsWellFormed(n, k);
      if n.kids[k].kind == Param {
        FindKeyComplete(n, k, ps, vals, path);
      } else {
        FindLedTo(n.kids[k], ps, vals, path);
      }
      FoundLater(n, 0, k, path);
    }
  }

  lemma {:induction false} FindKeyComplete(n: Trie, k: nat, ps: Pattern, vals: seq<string>, path: string)
    requires Searchable(n) && path != "" && k < |n.kids| && n.kids[k].kind == Param && LeadsVia(n.kids[k], ps)
    requires WellFormed(n.kids[k]) && Good(ps) && Fits(ps, vals, path, true) && Filled(ps, vals)
    ensures FindFrom(n, k, path).Fixed?
    decreases n, 0
  {
    var c, end := n.kids[k], SegmentEnd(path, false);
    assert ps[0] == TextOf(c)[0];
    AfterSegment(ps, vals, path, true);
    if end < |path| {
      FindComplete(c, ps[1..], vals[1..], path[end..]);
    } else {
      LeadsHere(c, []);
    }
  }

  /** From before the text of a static node or the root on. */
  lemma {:induction false} FindLedTo(c: Trie, ps: Pattern, vals: seq<string>, path: string)
    requires WellFormed(c) && Searchable(c) && c.kind != Param && LeadsVia(c, ps)
    requires Good(ps) && Fits(ps, vals, path, true) && Filled(ps, vals)
    ensures Find(c, path).Fixed?
    decreases c, 2
  {
    AfterChildText(c, ps, vals, path, true);
    var sub, rest := ps[|c.path|..], path[|c.path|..];
    if rest == "" {
      assert path[..|c.path|] == path;
      FitsNothing(sub, vals, true);
      LeadsHere(c, sub);
    } else {
      FindComplete(c, sub, vals, rest);
    }
  }

  /**
   On any well-formed tree, a path that fits a stored pattern up to case, the last parameter or wildcard not
   empty, is found: the search goes on after every child that fails.
   */
  lemma {:induction false} FindIsComplete(root: Trie, ps: Pattern, vals: seq<string>, path: string)
    requires WellFormed(root) && root.kind == Root && Searchable(root) && ps in Stored(root)
    requires Good(ps) && Fits(ps, vals, path, true) && Filled(ps, vals)
    ensures Find(root, path).Fixed?
  {
    StoredLeads(root, ps);
    FindLedTo(root, ps, vals, path);
  }
}
