/**
 The slash marks around handlers. As long as no two patterns in use differ by a final slash, a node with a
 handler is never marked itself, and below it hangs a marked "/", which recommends dropping the slash. Every
 operation keeps that, refused or not.
 */
module Markers {
  import opened Text
  import opened WildPath
  import opened Pattern
  import opened Trie
  import opened Conservation
  import opened RouteTree
  import opened TrailingSlash
  import opened Lookup
  import opened CaseFix
  import opened TidyTree

  /** A marked "/" hangs below the node. */
  predicate Trails(n: Trie) { exists k :: 0 <= k < |n.kids| && n.kids[k].path == "/" && n.kids[k].tsr }

  /** Handlers sit at unmarked nodes, with a marked "/" below, unless the node itself is a "/". */
  predicate Held(n: Trie) {
    && (n.handler.Some? ==> !n.tsr && (n.path == "/" || Trails(n)))
    && forall k :: 0 <= k < |n.kids| ==> Held(n.kids[k])
  }

  /** No stored pattern differs from `p` by a final slash. */
  ghost predicate Twinless(stored: set<Pattern>, p: Pattern) {
    p + SLASH !in stored && (SlashEnd(p) ==> p[..|p| - 1] !in stored)
  }

  lemma {:induction false} HeldUpdate(n: Trie, k: nat, c: Trie, mark: bool)
    requires Held(n) && k < |n.kids| && Held(c) && (n.handler.Some? ==> !mark)
    requires n.kids[k].path == "/" ==> c.path == "/" && (n.kids[k].tsr ==> c.tsr)
    ensures Held(n.(kids := n.kids[k := c], tsr := mark))
  {
    var m := n.(kids := n.kids[k := c], tsr := mark);
    if j :| 0 <= j < |n.kids| && n.kids[j].path == "/" && n.kids[j].tsr {
      assert m.kids[j].path == "/" && m.kids[j].tsr;
    }
  }

  lemma {:induction false} HeldAppend(n: Trie, c: Trie, mark: bool)
    requires Held(n) && Held(c) && (n.handler.Some? ==> !mark)
    ensures Held(n.(kids := n.kids + [c], tsr := mark))
  {
    var m := n.(kids := n.kids + [c], tsr := mark);
    if j :| 0 <= j < |n.kids| && n.kids[j].path == "/" && n.kids[j].tsr {
      assert m.kids[j].path == "/" && m.kids[j].tsr;
    }
  }

  lemma {:induction false} BareHeld(n: Trie)
    requires n.kids == [] && (n.handler.Some? ==> n.path == "/" && !n.tsr)
    ensures Held(n)
  {
  }

  lemma {:induction false} OneKidHeld(n: Trie, c: Trie)
    requires n.kids == [c] && Held(c) && (n.handler.Some? ==> !n.tsr && c.path == "/" && c.tsr)
    ensures Held(n)
  {
    if n.handler.Some? { assert n.kids[0].path == "/" && n.kids[0].tsr; }
  }

  lemma {:induction false} SplitHeld(n: Trie, i: nat)
    requires Held(n) && 0 < i < |n.path|
    ensures Held(Split(n, i)) && Held(Split(n, i).(tsr := true)) && Held(Split(n, i).kids[0])
  {
    var c := Split(n, i).kids[0];
    if j :| 0 <= j < |n.kids| && n.kids[j].path == "/" && n.kids[j].tsr { assert Trails(c); }
    assert Held(c);
    OneKidHeld(Split(n, i), c);
    OneKidHeld(Split(n, i).(tsr := true), c);
  }

  // ----- the handler itself --------------------------------------------------------------------------------

  /** The "/" below a node whose pattern has no twin carries no handler. */
  lemma {:induction false} SlashIsFree(n: Trie, k: nat, pre: Pattern, stored: set<Pattern>)
    requires WellFormed(n) && k < |n.kids| && n.kids[k].path == "/"
    requires Covers(stored, n, pre) && pre + TextOf(n) + SLASH !in stored
    ensures n.kids[k].handler == None
  {
    var c, full := n.kids[k], pre + TextOf(n);
    KidIsWellFormed(n, k);
    assert TextOf(c) == SLASH;
    if c.handler.Some? {
      OwnHandler(c, full);
      KidRoute(n, k, pre, (full + SLASH, c.handler.value));
    }
  }

  lemma {:induction false} MarkSlashHeld(n: Trie, pre: Pattern, stored: set<Pattern>, h: Handler)
    requires WellFormed(n) && Held(n) && n.handler == None && !n.tsr && Covers(stored, n, pre)
    requires pre + TextOf(n) + SLASH !in stored
    ensures Held(MarkSlash(n.(handler := Some(h))))
  {
    var m, k := MarkSlash(n.(handler := Some(h))), FirstSlash(n.kids);
    if k < |n.kids| {
      SlashIsFree(n, k, pre, stored);
      HeldUpdate(n, k, n.kids[k].(tsr := true), false);
      assert m.kids[k].path == "/" && m.kids[k].tsr;
    } else if n.path != "/" {
      BareHeld(MARKER);
      HeldAppend(n, MARKER, false);
      assert m.kids[|n.kids|] == MARKER;
    }
  }

  lemma {:induction false} SetHandlerHeld(n: Trie, h: Handler, pre: Pattern, stored: set<Pattern>)
    requires WellFormed(n) && Held(n) && Covers(stored, n, pre) && Twinless(stored, pre + TextOf(n))
    ensures Held(SetHandler(n, h).node)
  {
    if !(n.handler.Some? || n.tsr) { MarkSlashHeld(n, pre, stored, h); }
  }

  // ----- insert --------------------------------------------------------------------------------------------

  lemma {:induction false} HungHeld(leaf: Trie, h: Handler)
    requires IsLeaf(leaf)
    ensures Held(Hung(leaf, h))
  {
    var c, last := Hung(leaf, h), |leaf.path| - 1;
    if leaf.path == "/" {
      BareHeld(c);
    } else if leaf.path[last] == '/' {
      assert c.kids[0].path == "/";
      BareHeld(c.kids[0]);
      OneKidHeld(c, c.kids[0]);
    } else {
      assert c.kids == [MARKER];
      BareHeld(MARKER);
      OneKidHeld(c, MARKER);
    }
  }

  /** A node that stores its own pattern is not marked for the twin of another. */
  lemma {:induction false} NoHandlerBefore(n: Trie, pre: Pattern, stored: set<Pattern>)
    requires Covers(stored, n, pre) && Twinless(stored, pre + TextOf(n) + SLASH)
    ensures n.handler == None
  {
    var full := pre + TextOf(n);
    assert (full + SLASH)[..|full|] == full;
    if n.handler.Some? { OwnHandler(n, pre); }
  }

  lemma {:induction false} AttachHeld(n: Trie, leaf: Trie, h: Handler, pre: Pattern, stored: set<Pattern>)
    requires IsLeaf(leaf) && Held(n) && Covers(stored, n, pre) && Twinless(stored, pre + TextOf(n) + LeafText(leaf))
    ensures Held(Attach(n, leaf, h).node)
  {
    AttachHangs(n, leaf, h);
    HungHeld(leaf, h);
    if leaf.path == "/" {
      assert leaf.kind != Param && LeafText(leaf) == SLASH;
      NoHandlerBefore(n, pre, stored);
    }
    HeldAppend(n, Hung(leaf, h), n.tsr || leaf.path == "/");
  }

  lemma {:induction false} InsertWildcardHeld(n: Trie, path: string, wp: WildPath, h: Handler)
    requires Held(n) && |wp.keys| > 0
    ensures Held(InsertWildcard(n, path, wp, h).node)
  {
    var last := |n.path| - 1;
    if |path| == SegmentEnd(path, true) && n.path != "" && n.path[last] == '/' {
      if n.path == "/" {
        WildcardHeld(n, path, wp, h);
      } else {
        var cut := Split(n, last).(tsr := true);
        var r := AttachWildcard(cut.kids[0], path, wp, h);
        SplitHeld(n, last);
        WildcardHeld(cut.kids[0], path, wp, h);
        HeldUpdate(cut, 0, r.node, true);
      }
    }
  }

  lemma {:induction false} WildcardHeld(n: Trie, path: string, wp: WildPath, h: Handler)
    requires Held(n) && |wp.keys| > 0
    ensures var m := AttachWildcard(n, path, wp, h).node; Held(m) && m.path == n.path && m.tsr == n.tsr
  {
    var m := AttachWildcard(n, path, wp, h).node;
    if Trails(n) { assert Trails(m); }
  }

  lemma {:induction false} LinkHeld(n: Trie, link: Trie, r: Outcome)
    requires Held(n) && Held(r.node)
    ensures Held(Under(n.(kids := n.kids + [link]), |n.kids|, r).node)
  {
    assert (n.kids + [link])[|n.kids| := r.node] == n.kids + [r.node];
    HeldAppend(n, r.node, n.tsr);
  }

  lemma {:induction false} FreshCovers(link: Trie, full: Pattern, stored: set<Pattern>)
    requires link.kids == [] && link.handler == None && link.wildcard == None
    ensures Covers(stored, link, full)
  {
  }

  lemma {:induction false} InsertHeld(n: Trie, ps: Pattern, h: Handler, pre: Pattern, stored: set<Pattern>)
    requires Good(ps) && ps != [] && Held(n) && Covers(stored, n, pre) && Twinless(stored, pre + TextOf(n) + ps)
    ensures Held(Insert(n, Print(ps), h).node)
    decreases |ps|
  {
    if ps[0].Lit? {
      InsertTextHeld(n, ps, LitPrefix(ps), h, pre, stored);
    } else if ps[0].Rest? {
      InsertRestCase(n, ps, h);
      InsertWildcardHeld(n, Print(ps), FindWild(Print(ps)).wp, h);
    } else {
      InsertKeyHeld(n, ps, h, pre, stored);
    }
  }

  lemma {:induction false} InsertTextHeld(
    n: Trie, ps: Pattern, s: string, h: Handler, pre: Pattern, stored: set<Pattern>)
    requires Good(ps) && s == LitPrefix(ps) != ""
    requires Held(n) && Covers(stored, n, pre) && Twinless(stored, pre + TextOf(n) + ps)
    ensures Held(Insert(n, Print(ps), h).node)
    decreases |ps|, 0
  {
    var link, full := NewNode(s), pre + TextOf(n);
    InsertLiteralCase(n, ps, h);
    NewNodeIsWellFormed(s);
    if |s| == |ps| {
      AttachHeld(n, link, h, pre, stored);
    } else {
      Assoc(full, Lits(s), ps[|s|..]);
      FreshCovers(link, full, stored);
      BareHeld(link);
      InsertHeld(link, ps[|s|..], h, full, stored);
      LinkHeld(n, link, Insert(link, Print(ps[|s|..]), h));
    }
  }

  lemma {:induction false} InsertKeyHeld(n: Trie, ps: Pattern, h: Handler, pre: Pattern, stored: set<Pattern>)
    requires Good(ps) && ps != [] && ps[0].Key?
    requires Held(n) && Covers(stored, n, pre) && Twinless(stored, pre + TextOf(n) + ps)
    ensures Held(Insert(n, Print(ps), h).node)
    decreases |ps|, 0
  {
    var link, full := KeyNode(ps), pre + TextOf(n);
    InsertKeyCase(n, ps, h);
    KeyNodeIsWellFormed(ps);
    if |ps| == 1 || ps[1..] == SLASH {
      KeyNodeText(ps);
      AttachHeld(n, link, h, pre, stored);
    } else {
      KeyLinkText(full, ps);
      FreshCovers(link, full, stored);
      BareHeld(link);
      InsertHeld(link, ps[1..], h, full, stored);
      LinkHeld(n, link, Insert(link, Print(ps[1..]), h));
    }
  }

  // ----- add -----------------------------------------------------------------------------------------------

  /** As long as patterns have no twins, `add` keeps handlers at unmarked nodes, refusing or not. */
  lemma {:induction false} AddHeld(n: Trie, ps: Pattern, h: Handler, pre: Pattern, stored: set<Pattern>)
    requires WellFormed(n) && Good(ps) && Held(n) && Covers(stored, n, pre) && Twinless(stored, pre + TextOf(n) + ps)
    ensures Held(Add(n, Print(ps), h).node)
    decreases |ps|, 2
  {
    var k := FirstShared(n.kids, Print(ps));
    if ps == [] {
      assert pre + TextOf(n) + ps == pre + TextOf(n);
      SetHandlerHeld(n, h, pre, stored);
    } else if k == |n.kids| {
      InsertHeld(n, ps, h, pre, stored);
    } else {
      KidIsWellFormed(n, k);
      if n.kids[k].kind == Param {
        AddAtKeyHeld(n, k, ps, h, pre, stored);
      } else {
        AddAtTextHeld(n, k, ps, h, pre, stored);
      }
    }
  }

  lemma {:induction false} AddAtKeyHeld(
    n: Trie, k: nat, ps: Pattern, h: Handler, pre: Pattern, stored: set<Pattern>)
    requires WellFormed(n) && Good(ps) && ps != [] && Held(n) && Covers(stored, n, pre)
    requires Twinless(stored, pre + TextOf(n) + ps)
    requires k < |n.kids| && k == FirstShared(n.kids, Print(ps)) && n.kids[k].kind == Param
    ensures Held(Add(n, Print(ps), h).node)
    decreases |ps|, 1
  {
    var c, r := n.kids[k], AddAtParam(n, k, Print(ps), h);
    KidIsWellFormed(n, k);
    PrintStart(ps);
    assert Add(n, Print(ps), h) == r;
    AddAtParamCases(n, k, ps, h);
    if r == Insert(n, Print(ps), h) {
      InsertHeld(n, ps, h, pre, stored);
    } else if r.node != n {
      BelowKeyHeld(n, k, ps, h, pre, stored);
      HeldUpdate(n, k, Add(c, Print(ps[1..]), h).node, n.tsr);
    }
  }

  lemma {:induction false} BelowKeyHeld(
    n: Trie, k: nat, ps: Pattern, h: Handler, pre: Pattern, stored: set<Pattern>)
    requires WellFormed(n) && Good(ps) && ps != [] && Held(n) && Covers(stored, n, pre)
    requires Twinless(stored, pre + TextOf(n) + ps) && k < |n.kids| && n.kids[k].kind == Param
    requires WellFormed(n.kids[k]) && ps[0] == Key(n.kids[k].keys[0])
    ensures Held(Add(n.kids[k], Print(ps[1..]), h).node)
    decreases |ps|, 0
  {
    var c, full := n.kids[k], pre + TextOf(n);
    CoversKid(stored, n, k, pre);
    GoodSuffix(ps, 1);
    assert TextOf(c) + ps[1..] == ps;
    Assoc(full, TextOf(c), ps[1..]);
    AddHeld(c, ps[1..], h, full, stored);
  }

  lemma {:induction false} AddAtTextHeld(
    n: Trie, k: nat, ps: Pattern, h: Handler, pre: Pattern, stored: set<Pattern>)
    requires WellFormed(n) && Good(ps) && ps != [] && Held(n) && Covers(stored, n, pre)
    requires Twinless(stored, pre + TextOf(n) + ps)
    requires k < |n.kids| && k == FirstShared(n.kids, Print(ps)) && n.kids[k].kind == Static
    ensures Held(Add(n, Print(ps), h).node)
    decreases |ps|, 1
  {
    var i := Lcp(Print(ps), n.kids[k].path);
    KidIsWellFormed(n, k);
    AddAtStaticCases(n, k, ps, h);
    BelowTextHeld(n, k, ps, i, h, pre, stored);
    var kid := Add(CutAt(n.kids[k], i), Print(ps[i..]), h).node;
    AddMarksFor(n, k, ps, h);
    if Print(ps) == "/" {
      OnlySlash(ps);
      NoHandlerBefore(n, pre, stored);
    }
    HeldUpdate(n, k, kid, n.tsr || Print(ps) == "/");
    HeldUpdate(n, k, kid, n.tsr);
  }

  /** `add` at a child with text replaces just that child, and marks its parent at most for a final slash. */
  lemma {:induction false} AddMarksFor(n: Trie, k: nat, ps: Pattern, h: Handler)
    requires WellFormed(n) && Good(ps) && ps != [] && k < |n.kids| && k == FirstShared(n.kids, Print(ps))
    requires n.kids[k].kind == Static && Lcp(Print(ps), n.kids[k].path) <= |ps|
    ensures var i := Lcp(Print(ps), n.kids[k].path);
      var m, kid := Add(n, Print(ps), h).node, Add(CutAt(n.kids[k], i), Print(ps[i..]), h).node;
      m == n.(kids := n.kids[k := kid]) || m == n.(kids := n.kids[k := kid], tsr := n.tsr || Print(ps) == "/")
  {
    var i := Lcp(Print(ps), n.kids[k].path);
    var cut := CutAt(n.kids[k], i);
    KidIsWellFormed(n, k);
    AddAtStaticCases(n, k, ps, h);
    if i < |ps| {
      CutUnder(n, k, cut, Add(cut, Print(ps[i..]), h), n.tsr);
    } else {
      CutUnder(n, k, cut, SetHandler(cut, h), n.tsr);
      CutUnder(n, k, cut, SetHandler(cut, h), true);
    }
  }

  lemma {:induction false} CutKidHeld(n: Trie, k: nat, i: nat, pre: Pattern, stored: set<Pattern>)
    requires WellFormed(n) && k < |n.kids| && n.kids[k].kind == Static && 0 < i <= |n.kids[k].path|
    requires Held(n) && Covers(stored, n, pre)
    ensures var cut := CutAt(n.kids[k], i);
      && WellFormed(cut) && Held(cut) && Covers(stored, cut, pre + TextOf(n)) && cut.kind == Static
      && cut.path == n.kids[k].path[..i] && (i == |n.kids[k].path| ==> cut == n.kids[k])
  {
    var c, full := n.kids[k], pre + TextOf(n);
    KidIsWellFormed(n, k);
    CoversKid(stored, n, k, pre);
    CutStands(c, i);
    CutKeepsRoutes(c, i, full);
    if i < |c.path| { SplitHeld(c, i); }
    assert c.path[..|c.path|] == c.path;
  }

  lemma {:induction false} BelowTextHeld(
    n: Trie, k: nat, ps: Pattern, i: nat, h: Handler, pre: Pattern, stored: set<Pattern>)
    requires WellFormed(n) && k < |n.kids| && n.kids[k].kind == Static && 0 < i <= |n.kids[k].path| && i <= |ps|
    requires Held(n) && Covers(stored, n, pre) && Twinless(stored, pre + TextOf(n) + ps)
    requires Good(ps[i..]) && ps == Lits(n.kids[k].path[..i]) + ps[i..]
    ensures var m := Add(CutAt(n.kids[k], i), Print(ps[i..]), h).node;
      Held(m) && (n.kids[k].path == "/" ==> m.path == "/" && (n.kids[k].tsr ==> m.tsr))
    decreases |ps|, 0
  {
    var full, cut := pre + TextOf(n), CutAt(n.kids[k], i);
    CutKidHeld(n, k, i, pre, stored);
    Assoc(full, TextOf(cut), ps[i..]);
    AddHeld(cut, ps[i..], h, full, stored);
    if n.kids[k].path == "/" { AddKeepsSlash(cut, Print(ps[i..]), h); }
  }

  // ----- Tree.Add ------------------------------------------------------------------------------------------

  lemma {:induction false} CutRootHeld(root: Trie, i: nat, stored: set<Pattern>)
    requires IsRoot(root) && Held(root) && Covers(stored, root, []) && i <= |root.path|
    ensures var cut := CutRoot(root, i); WellFormed(cut) && Held(cut) && Covers(stored, cut, [])
  {
    if 0 < i < |root.path| {
      SplitStands(root, i);
      SplitKeepsRoutes(root, i, []);
      SplitHeld(root, i);
    }
  }

  lemma {:induction false} AddAtRootHeld(root: Trie, ps: Pattern, h: Handler, stored: set<Pattern>)
    requires IsRoot(root) && IsRoute(ps) && Held(root) && Covers(stored, root, []) && Twinless(stored, ps)
    ensures Held(AddAtRoot(root, Print(ps), h).node)
  {
    var i := Lcp(Print(ps), root.path);
    RootIsCut(root, ps, h);
    CutRootHeld(root, i, stored);
    CutHeld(CutRoot(root, i), ps, ps[i..], h, stored);
  }

  lemma {:induction false} CutHeld(cut: Trie, ps: Pattern, rest: Pattern, h: Handler, stored: set<Pattern>)
    requires WellFormed(cut) && Held(cut) && Covers(stored, cut, []) && Good(rest) && TextOf(cut) + rest == ps
    requires Twinless(stored, ps)
    ensures Held(Add(cut, Print(rest), h).node)
  {
    assert [] + TextOf(cut) + rest == ps;
    AddHeld(cut, rest, h, [], stored);
  }

  lemma {:induction false} PromoteHeld(n: Trie)
    requires Held(n)
    ensures Held(Promote(n))
  {
    if n.path == "" && n.kids != [] {
      var c := n.kids[0];
      if Trails(c) { assert Trails(c.(kind := Root)); }
    }
  }

  lemma {:induction false} SortHeld(a: Trie, b: Trie)
    requires SortsTo(a, b) && Held(a)
    ensures Held(b)
    decreases a
  {
    var mid: seq<Trie> :| SortsEach(a, mid) && multiset(mid) == multiset(b.kids);
    forall i | 0 <= i < |mid|
      ensures Held(mid[i])
    {
      SortHeld(a.kids[i], mid[i]);
    }
    forall i | 0 <= i < |b.kids|
      ensures Held(b.kids[i])
    {
      assert b.kids[i] in multiset(mid);
    }
    if k :| 0 <= k < |a.kids| && a.kids[k].path == "/" && a.kids[k].tsr {
      SortTrails(a, mid, b, k);
    }
  }

  lemma {:induction false} SortTrails(a: Trie, mid: seq<Trie>, b: Trie, k: nat)
    requires SortsEach(a, mid) && multiset(mid) == multiset(b.kids) && k < |a.kids|
    requires a.kids[k].path == "/" && a.kids[k].tsr
    ensures Trails(b)
  {
    assert SortsTo(a.kids[k], mid[k]);
    assert mid[k] in multiset(b.kids);
    var j :| 0 <= j < |b.kids| && b.kids[j] == mid[k];
    assert b.kids[j].path == "/" && b.kids[j].tsr;
  }

  lemma {:induction false} ReplaceHeld(n: Trie, at: seq<nat>, e: AddError, h: Handler)
    requires Held(n) && NodeAt(n, at).Some? && (e == HandlerExists ==> NodeAt(n, at).value.handler.Some?)
    ensures var m := Replace(n, at, Rehandled(NodeAt(n, at).value, e, h));
      Held(m) && m.path == n.path && m.tsr == n.tsr
    decreases |at|
  {
    if at == [] {
      RehandledHeld(n, e, h);
    } else {
      var k, m := at[0], Rehandled(NodeAt(n, at).value, e, h);
      ReplaceHeld(n.kids[k], at[1..], e, h);
      HeldUpdate(n, k, Replace(n.kids[k], at[1..], m), n.tsr);
    }
  }

  lemma {:induction false} RehandledHeld(n: Trie, e: AddError, h: Handler)
    requires Held(n) && (e == HandlerExists ==> n.handler.Some?)
    ensures var m := Rehandled(n, e, h); Held(m) && m.path == n.path && m.tsr == n.tsr
  {
    if Trails(n) { assert Trails(Rehandled(n, e, h)); }
  }

  /** A call of `Tree.Add`, mutable or not and refused or not, keeps handlers at unmarked nodes. */
  lemma {:induction false} StepHeld(
    root: Trie, mutable: bool, ps: Pattern, h: Handler, root': Trie, ok: bool, stored: set<Pattern>)
    requires IsRoot(root) && Held(root) && IsRoute(ps) && Covers(stored, root, []) && Twinless(stored, ps)
    requires AddStep(root, mutable, Print(ps), h, root', ok)
    ensures Held(root')
  {
    var r := AddAtRoot(root, Print(ps), h);
    PrintStart(ps);
    AddAtRootHeld(root, ps, h, stored);
    if r.err == None {
      PromoteHeld(r.node);
      SortHeld(Promote(r.node), root');
    } else if Overrides(r, mutable) {
      AddAtRootBlames(root, ps, h);
      ReplaceHeld(r.node, r.at.value, r.err.value, h);
    }
  }
}
