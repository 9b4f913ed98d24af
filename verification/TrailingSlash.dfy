/**
 The trailing-slash marks of the tree. The invariant: every marked node is justified by a
 stored route one slash away. It is kept by split, setHandler, insert, add, override and sort.
 */
module TrailingSlash {
  import opened Text
  import opened WildPath
  import opened Pattern
  import opened Trie
  import opened Conservation
  import opened RouteTree

  /** A stored pattern continues `p` with a slash, and then ends or has a wildcard. */
  ghost predicate Slashed(stored: set<Pattern>, p: Pattern) {
    p + SLASH in stored || exists name :: p + SLASH + [Rest(name)] in stored
  }

  /** `p` without its final slash is stored. */
  ghost predicate Unslashed(stored: set<Pattern>, p: Pattern) {
    p != [] && p[|p| - 1] == Lit('/') && p[..|p| - 1] in stored
  }

  /** A marked node spelling `p`: only a node whose own text is "/" may stand for the route without it. */
  ghost predicate Justified(stored: set<Pattern>, p: Pattern, bare: bool) {
    Slashed(stored, p) || (bare && Unslashed(stored, p))
  }

  ghost predicate MarksHold(n: Trie, pre: Pattern, stored: set<Pattern>)
    decreases n, 0
  {
    && (n.tsr ==> Justified(stored, pre + TextOf(n), n.path == "/"))
    && KidMarksHold(n.kids, pre + TextOf(n), stored)
  }

  ghost predicate KidMarksHold(kids: seq<Trie>, pre: Pattern, stored: set<Pattern>)
    decreases kids, 0
  {
    forall i :: 0 <= i < |kids| ==> MarksHold(kids[i], pre, stored)
  }

  /** More routes justify more marks. */
  lemma {:induction false} MarksGrow(n: Trie, pre: Pattern, a: set<Pattern>, b: set<Pattern>)
    requires a <= b && MarksHold(n, pre, a)
    ensures MarksHold(n, pre, b)
    decreases n
  {
    forall i | 0 <= i < |n.kids|
      ensures MarksHold(n.kids[i], pre + TextOf(n), b)
    {
      MarksGrow(n.kids[i], pre + TextOf(n), a, b);
    }
  }

  lemma {:induction false} KidMarksUpdate(kids: seq<Trie>, k: nat, c: Trie, pre: Pattern, stored: set<Pattern>)
    requires KidMarksHold(kids, pre, stored) && k < |kids| && MarksHold(c, pre, stored)
    ensures KidMarksHold(kids[k := c], pre, stored)
  {
  }

  lemma {:induction false} UnderMarks(n: Trie, k: nat, r: Outcome, pre: Pattern, stored: set<Pattern>)
    requires MarksHold(n, pre, stored) && k < |n.kids| && MarksHold(r.node, pre + TextOf(n), stored)
    ensures MarksHold(Under(n, k, r).node, pre, stored)
  {
    KidMarksUpdate(n.kids, k, r.node, pre + TextOf(n), stored);
  }

  lemma {:induction false} AppendMarks(n: Trie, child: Trie, r: Outcome, pre: Pattern, stored: set<Pattern>)
    requires MarksHold(n, pre, stored) && MarksHold(r.node, pre + TextOf(n), stored)
    ensures MarksHold(Under(n.(kids := n.kids + [child]), |n.kids|, r).node, pre, stored)
  {
    assert (n.kids + [child])[|n.kids| := r.node] == n.kids + [r.node];
  }

  lemma {:induction false} BareMarks(n: Trie, pre: Pattern, stored: set<Pattern>)
    requires n.kids == [] && (n.tsr ==> Justified(stored, pre + TextOf(n), n.path == "/"))
    ensures MarksHold(n, pre, stored)
  {
  }

  lemma {:induction false} OneKidMarks(n: Trie, c: Trie, pre: Pattern, stored: set<Pattern>)
    requires n.kids == [c] && (n.tsr ==> Justified(stored, pre + TextOf(n), n.path == "/"))
    requires MarksHold(c, pre + TextOf(n), stored)
    ensures MarksHold(n, pre, stored)
  {
  }

  /** A split moves the mark with the text it was about. */
  lemma {:induction false} SplitMarks(n: Trie, i: nat, pre: Pattern, stored: set<Pattern>)
    requires MarksHold(n, pre, stored) && n.kind != Param && 0 < i < |n.path|
    ensures MarksHold(Split(n, i), pre, stored)
    ensures MarksHold(Split(n, i).kids[0], pre + TextOf(Split(n, i)), stored)
  {
    var s := Split(n, i);
    var c := s.kids[0];
    assert pre + TextOf(s) + TextOf(c) == pre + TextOf(n) by { SplitKeepsRoutes(n, i, pre); }
    assert n.tsr ==> Slashed(stored, pre + TextOf(n));
    assert MarksHold(c, pre + TextOf(s), stored);
    OneKidMarks(s, c, pre, stored);
  }

  lemma {:induction false} MarkSlashMarks(n: Trie, pre: Pattern, stored: set<Pattern>)
    requires WellFormed(n) && MarksHold(n, pre, stored) && pre + TextOf(n) in stored
    ensures MarksHold(MarkSlash(n), pre, stored)
  {
    var full, k := pre + TextOf(n), FirstSlash(n.kids);
    if k < |n.kids| {
      KidIsWellFormed(n, k);
      Unslash(full, stored);
      assert KidMarksHold(n.kids, full, stored);
      MarkedSlash(n.kids[k], full, stored);
      KidMarksUpdate(n.kids, k, n.kids[k].(tsr := true), full, stored);
    } else if n.path != "/" {
      Unslash(full, stored);
      AppendMarks(n, MARKER, Outcome(MARKER, None, None), pre, stored);
    }
  }

  lemma {:induction false} MarkedSlash(c: Trie, full: Pattern, stored: set<Pattern>)
    requires WellFormed(c) && c.path == "/" && MarksHold(c, full, stored) && Unslashed(stored, full + SLASH)
    ensures MarksHold(c.(tsr := true), full, stored)
  {
    assert TextOf(c) == SLASH;
  }

  lemma {:induction false} Unslash(full: Pattern, stored: set<Pattern>)
    requires full in stored
    ensures Unslashed(stored, full + SLASH)
  {
    assert (full + SLASH)[..|full|] == full;
  }

  lemma {:induction false} SetHandlerMarks(n: Trie, h: Handler, pre: Pattern, stored: set<Pattern>)
    requires WellFormed(n) && MarksHold(n, pre, stored) && pre + TextOf(n) in stored
    ensures MarksHold(SetHandler(n, h).node, pre, stored)
  {
    if !(n.handler.Some? || n.tsr) {
      MarkSlashMarks(n.(handler := Some(h)), pre, stored);
    }
  }

  lemma {:induction false} HungMarks(leaf: Trie, h: Handler, pre: Pattern, stored: set<Pattern>)
    requires IsLeaf(leaf) && pre + LeafText(leaf) in stored
    ensures MarksHold(Hung(leaf, h), pre, stored)
  {
    var child, last := leaf.(handler := Some(h)), |leaf.path| - 1;
    if leaf.path == "/" {
      BareMarks(child, pre, stored);
    } else if leaf.path[last] == '/' {
      HungSlashMarks(leaf, h, pre, stored);
    } else {
      assert leaf.kind == Param ==> leaf.path == PrintPart(Key(leaf.keys[0]));
      assert LeafText(leaf) == TextOf(child);
      assert child.kids + [MARKER] == [MARKER];
      OneKidMarks(child.(kids := [MARKER]), MARKER, pre, stored);
    }
  }

  lemma {:induction false} HungSlashMarks(leaf: Trie, h: Handler, pre: Pattern, stored: set<Pattern>)
    requires IsLeaf(leaf) && leaf.path != "/" && leaf.path[|leaf.path| - 1] == '/' && pre + LeafText(leaf) in stored
    ensures MarksHold(Hung(leaf, h), pre, stored)
  {
    HungSlashText(leaf, h);
    Assoc(pre, TextOf(Hung(leaf, h)), SLASH);
    SlashedMarks(Hung(leaf, h), pre, stored);
  }

  lemma {:induction false} SlashedMarks(s: Trie, pre: Pattern, stored: set<Pattern>)
    requires |s.kids| == 1 && s.kids[0].kids == [] && !s.kids[0].tsr && Slashed(stored, pre + TextOf(s))
    ensures MarksHold(s, pre, stored)
  {
    BareMarks(s.kids[0], pre + TextOf(s), stored);
    OneKidMarks(s, s.kids[0], pre, stored);
  }

  /** A leaf ending in a slash is hung as itself without the slash, and the slash. */
  lemma {:induction false} HungSlashText(leaf: Trie, h: Handler)
    requires IsLeaf(leaf) && leaf.path != "/" && leaf.path[|leaf.path| - 1] == '/'
    ensures var s := Hung(leaf, h);
      && |s.kids| == 1 && s.kids[0].kids == [] && !s.kids[0].tsr
      && TextOf(s.kids[0]) == SLASH && TextOf(s) + SLASH == LeafText(leaf)
  {
    var s, last := Hung(leaf, h), |leaf.path| - 1;
    assert leaf.path == leaf.path[..last] + "/" && s.kids[0].path == "/";
    if leaf.kind == Param {
      assert leaf.path != PrintPart(Key(leaf.keys[0]));
    } else {
      LitsConcat(leaf.path[..last], "/");
    }
    assert Lits("/") == SLASH;
  }

  lemma {:induction false} AttachMarks(n: Trie, leaf: Trie, h: Handler, pre: Pattern, stored: set<Pattern>)
    requires IsLeaf(leaf) && MarksHold(n, pre, stored) && pre + TextOf(n) + LeafText(leaf) in stored
    ensures MarksHold(Attach(n, leaf, h).node, pre, stored)
  {
    var full := pre + TextOf(n);
    AttachHangs(n, leaf, h);
    HungMarks(leaf, h, full, stored);
    if leaf.path == "/" {
      assert leaf.kind != Param;
      assert LeafText(leaf) == SLASH;
      assert Slashed(stored, full);
    }
  }

  lemma {:induction false} InsertWildcardMarks(
    n: Trie, path: string, wp: WildPath, h: Handler, pre: Pattern, stored: set<Pattern>)
    requires WellFormed(n) && |wp.keys| == 1 && MarksHold(n, pre, stored)
      && pre + TextOf(n) + [Rest(wp.keys[0])] in stored
    ensures MarksHold(InsertWildcard(n, path, wp, h).node, pre, stored)
  {
    var last := |n.path| - 1;
    if |path| == SegmentEnd(path, true) && n.path != "" && n.path[last] == '/' && n.path != "/" {
      SplitMarks(n, last, pre, stored);
      var cut := Split(n, last).(tsr := true);
      var c := cut.kids[0];
      SplitKeepsRoutes(n, last, pre);
      assert TextOf(c) == SLASH;
      assert pre + TextOf(cut) + SLASH + [Rest(wp.keys[0])] == pre + TextOf(n) + [Rest(wp.keys[0])];
      assert Slashed(stored, pre + TextOf(cut));
      var r := AttachWildcard(c, path, wp, h);
      assert r.node == c.(wildcard := r.node.wildcard);
      assert MarksHold(r.node, pre + TextOf(cut), stored);
      UnderMarks(cut, 0, r, pre, stored);
    }
  }

  lemma {:induction false} InsertMarks(n: Trie, ps: Pattern, h: Handler, pre: Pattern, stored: set<Pattern>)
    requires WellFormed(n) && Good(ps) && ps != [] && MarksHold(n, pre, stored) && pre + TextOf(n) + ps in stored
    ensures MarksHold(Insert(n, Print(ps), h).node, pre, stored)
    decreases |ps|
  {
    var s := LitPrefix(ps);
    if s != "" {
      InsertLiteralMarks(n, ps, h, pre, stored);
    } else if ps[0].Rest? {
      InsertCases(n, ps, h);
      InsertWildcardMarks(n, Print(ps), FindWild(Print(ps)).wp, h, pre, stored);
    } else {
      InsertKeyMarks(n, ps, h, pre, stored);
    }
  }

  lemma {:induction false} InsertLiteralMarks(n: Trie, ps: Pattern, h: Handler, pre: Pattern, stored: set<Pattern>)
    requires WellFormed(n) && Good(ps) && LitPrefix(ps) != ""
    requires MarksHold(n, pre, stored) && pre + TextOf(n) + ps in stored
    ensures MarksHold(Insert(n, Print(ps), h).node, pre, stored)
    decreases |ps|, 0
  {
    var s, full := LitPrefix(ps), pre + TextOf(n);
    InsertLiteralCase(n, ps, h);
    NewNodeIsWellFormed(s);
    if |s| == |ps| {
      AttachMarks(n, NewNode(s), h, pre, stored);
    } else {
      var child := NewNode(s);
      assert full + Lits(s) + ps[|s|..] == full + ps;
      BareMarks(child, full, stored);
      InsertMarks(child, ps[|s|..], h, full, stored);
      AppendMarks(n, child, Insert(child, Print(ps[|s|..]), h), pre, stored);
    }
  }

  lemma {:induction false} InsertKeyMarks(n: Trie, ps: Pattern, h: Handler, pre: Pattern, stored: set<Pattern>)
    requires WellFormed(n) && Good(ps) && ps != [] && ps[0].Key?
    requires MarksHold(n, pre, stored) && pre + TextOf(n) + ps in stored
    ensures MarksHold(Insert(n, Print(ps), h).node, pre, stored)
    decreases |ps|, 0
  {
    var full, child := pre + TextOf(n), KeyNode(ps);
    InsertKeyCase(n, ps, h);
    KeyNodeIsWellFormed(ps);
    if |ps| == 1 || ps[1..] == SLASH {
      KeyNodeText(ps);
      AttachMarks(n, child, h, pre, stored);
    } else {
      KeyLinkText(full, ps);
      BareMarks(child, full, stored);
      InsertMarks(child, ps[1..], h, full, stored);
      AppendMarks(n, child, Insert(child, Print(ps[1..]), h), pre, stored);
    }
  }

  /** `add` for a stored target leaves only justified marks, whether it succeeds or not. */
  lemma {:induction false} AddMarks(n: Trie, ps: Pattern, h: Handler, pre: Pattern, stored: set<Pattern>)
    requires WellFormed(n) && Good(ps) && MarksHold(n, pre, stored) && pre + TextOf(n) + ps in stored
    ensures MarksHold(Add(n, Print(ps), h).node, pre, stored)
    decreases |ps|
  {
    var full := pre + TextOf(n);
    var k := FirstShared(n.kids, Print(ps));
    if ps == [] {
      assert full + ps == full;
      SetHandlerMarks(n, h, pre, stored);
    } else if k == |n.kids| {
      InsertMarks(n, ps, h, pre, stored);
    } else {
      KidIsWellFormed(n, k);
      if n.kids[k].kind == Param {
        AddAtParamMarks(n, k, ps, h, pre, stored);
      } else {
        AddAtStaticMarks(n, k, ps, h, pre, stored);
      }
    }
  }

  lemma {:induction false} AddAtStaticMarks(
    n: Trie, k: nat, ps: Pattern, h: Handler, pre: Pattern, stored: set<Pattern>)
    requires k < |n.kids| && k == FirstShared(n.kids, Print(ps))
    requires WellFormed(n.kids[k]) && n.kids[k].kind == Static && Good(ps) && ps != []
    requires MarksHold(n, pre, stored) && pre + TextOf(n) + ps in stored
    ensures MarksHold(Add(n, Print(ps), h).node, pre, stored)
    decreases |ps|, 0
  {
    var full, child := pre + TextOf(n), n.kids[k];
    var i := Lcp(Print(ps), child.path);
    var cut := CutAt(child, i);
    AddAtStaticCases(n, k, ps, h);
    CutStands(child, i);
    if |child.path| > i { SplitMarks(child, i, full, stored); }
    var n1 := n.(kids := n.kids[k := cut]);
    KidMarksUpdate(n.kids, k, cut, full, stored);
    Assoc(full, TextOf(cut), ps[i..]);
    if i < |ps| {
      AddMarks(cut, ps[i..], h, full, stored);
      UnderMarks(n1, k, Add(cut, Print(ps[i..]), h), pre, stored);
    } else {
      assert full + TextOf(cut) == full + ps;
      SetHandlerMarks(cut, h, full, stored);
      if Print(ps) == "/" {
        OnlySlash(ps);
        assert Slashed(stored, full);
        UnderMarks(n1.(tsr := true), k, SetHandler(cut, h), pre, stored);
      } else {
        UnderMarks(n1, k, SetHandler(cut, h), pre, stored);
      }
    }
  }

  lemma {:induction false} OnlySlash(ps: Pattern)
    requires Good(ps) && Print(ps) == "/"
    ensures ps == SLASH
  {
    PrintStart(ps);
    assert ps == [ps[0]] + ps[1..];
  }

  lemma {:induction false} AddAtParamMarks(n: Trie, k: nat, ps: Pattern, h: Handler, pre: Pattern, stored: set<Pattern>)
    requires WellFormed(n) && k < |n.kids| && n.kids[k].kind == Param
    requires Good(ps) && ps != [] && Lcp(Print(ps), n.kids[k].path) > 0
    requires MarksHold(n, pre, stored) && pre + TextOf(n) + ps in stored
    ensures MarksHold(AddAtParam(n, k, Print(ps), h).node, pre, stored)
    decreases |ps|, 1
  {
    var child := n.kids[k];
    KidIsWellFormed(n, k);
    AddAtParamCases(n, k, ps, h);
    var r := AddAtParam(n, k, Print(ps), h);
    if r == Insert(n, Print(ps), h) {
      InsertMarks(n, ps, h, pre, stored);
    } else if r.node == n {
    } else {
      AddBelowKeyMarks(n, k, ps, h, pre, stored);
    }
  }

  lemma {:induction false} AddBelowKeyMarks(
    n: Trie, k: nat, ps: Pattern, h: Handler, pre: Pattern, stored: set<Pattern>)
    requires k < |n.kids| && WellFormed(n.kids[k]) && n.kids[k].kind == Param
    requires Good(ps) && ps != [] && ps[0] == Key(n.kids[k].keys[0]) && Good(ps[1..])
    requires MarksHold(n, pre, stored) && pre + TextOf(n) + ps in stored
    ensures |ps| > 1 ==> MarksHold(Under(n, k, Add(n.kids[k], Print(ps[1..]), h)).node, pre, stored)
    ensures |ps| == 1 ==> MarksHold(Under(n, k, SetHandler(n.kids[k], h)).node, pre, stored)
    decreases |ps|, 0
  {
    var full, child := pre + TextOf(n), n.kids[k];
    assert MarksHold(child, full, stored);
    assert ps == [ps[0]] + ps[1..];
    Assoc(full, TextOf(child), ps[1..]);
    if |ps| > 1 {
      AddMarks(child, ps[1..], h, full, stored);
      UnderMarks(n, k, Add(child, Print(ps[1..]), h), pre, stored);
    } else {
      assert full + TextOf(child) == full + ps;
      SetHandlerMarks(child, h, full, stored);
      UnderMarks(n, k, SetHandler(child, h), pre, stored);
    }
  }

  // ----- Tree.Add and runs -----------------------------------------------------------------------

  /** The patterns stored in a tree. */
  ghost function Stored(root: Trie): set<Pattern> {
    Patterns(Routes(root, []))
  }

  ghost predicate MarkedTree(root: Trie) {
    IsRoot(root) && MarksHold(root, [], Stored(root))
  }

  lemma {:induction false} SortMarks(a: Trie, b: Trie, pre: Pattern, stored: set<Pattern>)
    requires SortsTo(a, b) && MarksHold(a, pre, stored)
    ensures MarksHold(b, pre, stored)
    decreases a
  {
    var mid :| SortsEach(a, mid) && multiset(mid) == multiset(b.kids);
    var full := pre + TextOf(a);
    forall i | 0 <= i < |b.kids|
      ensures MarksHold(b.kids[i], full, stored)
    {
      assert b.kids[i] in multiset(mid);
      var j :| 0 <= j < |mid| && mid[j] == b.kids[i];
      SortMarks(a.kids[j], mid[j], full, stored);
    }
  }

  lemma {:induction false} ReplaceMarks(
    n: Trie, at: seq<nat>, e: AddError, h: Handler, pre: Pattern, stored: set<Pattern>)
    requires NodeAt(n, at).Some? && MarksHold(n, pre, stored)
    ensures MarksHold(Replace(n, at, Rehandled(NodeAt(n, at).value, e, h)), pre, stored)
  {
    if at != [] {
      var m := Rehandled(NodeAt(n, at).value, e, h);
      ReplaceMarks(n.kids[at[0]], at[1..], e, h, pre + TextOf(n), stored);
      KidMarksUpdate(n.kids, at[0], Replace(n.kids[at[0]], at[1..], m), pre + TextOf(n), stored);
    }
  }

  lemma {:induction false} PromoteMarks(n: Trie, stored: set<Pattern>)
    requires MarksHold(n, [], stored) && IsRoot(n)
    ensures MarksHold(Promote(n), [], stored)
  {
    if n.path == "" && n.kids != [] {
      var c := n.kids[0];
      assert [] + TextOf(n) == [];
      assert MarksHold(c, [], stored);
      assert TextOf(c.(kind := Root)) == TextOf(c);
    }
  }

  lemma {:induction false} SplitMarkedRoot(root: Trie, ps: Pattern, h: Handler, stored: set<Pattern>)
    returns (cut: Trie, rest: Pattern)
    requires IsRoot(root) && IsRoute(ps) && MarksHold(root, [], stored)
    ensures WellFormed(cut) && MarksHold(cut, [], stored) && Good(rest)
    ensures [] + TextOf(cut) + rest == ps && AddAtRoot(root, Print(ps), h) == Add(cut, Print(rest), h)
  {
    var i := Lcp(Print(ps), root.path);
    RootIsCut(root, ps, h);
    CutRootMarks(root, i, stored);
    cut, rest := CutRoot(root, i), ps[i..];
    assert [] + TextOf(cut) == TextOf(cut);
  }

  lemma {:induction false} AddAtRootMarks(root: Trie, ps: Pattern, h: Handler, stored: set<Pattern>)
    requires IsRoot(root) && IsRoute(ps) && MarksHold(root, [], stored) && ps in stored
    ensures MarksHold(AddAtRoot(root, Print(ps), h).node, [], stored)
  {
    var cut, rest := SplitMarkedRoot(root, ps, h, stored);
    AddMarks(cut, rest, h, [], stored);
  }

  lemma {:induction false} CutRootMarks(root: Trie, i: nat, stored: set<Pattern>)
    requires WellFormed(root) && root.kind == Root && MarksHold(root, [], stored) && i <= |root.path|
    ensures WellFormed(CutRoot(root, i)) && MarksHold(CutRoot(root, i), [], stored)
  {
    if 0 < i < |root.path| {
      SplitMarks(root, i, [], stored);
      SplitStands(root, i);
    }
  }

  /** Every `Tree.Add` call that returns leaves a tree whose marks are all justified. */
  lemma {:induction false} AddKeepsMarks(root: Trie, mutable: bool, ps: Pattern, h: Handler, root': Trie)
    requires MarkedTree(root) && IsRoute(ps) && AddStep(root, mutable, Print(ps), h, root', true)
    ensures MarkedTree(root')
  {
    AddConserves(root, mutable, ps, h, root', true);
    ConservedPatterns(Routes(root, []), Routes(root', []), ps, h, true, mutable);
    var stored := Stored(root');
    MarksGrow(root, [], Stored(root), stored);
    AddAtRootMarks(root, ps, h, stored);
    var r := AddAtRoot(root, Print(ps), h);
    if r.err == None {
      AddAtRootStands(root, ps, h);
      if root.path == "" { TextlessRootAdd(root, ps, h); }
      PromoteKeeps(root, r.node);
      PromoteMarks(r.node, stored);
      SortMarks(Promote(r.node), root', [], stored);
    } else {
      ReplaceMarks(r.node, r.at.value, r.err.value, h, [], stored);
    }
  }

  ghost predicate AllReturn(run: seq<Call>) {
    forall k :: 0 <= k < |run| ==> run[k].ok
  }

  /** In every run of returning calls, mutable or not, all marks are justified by stored routes. */
  lemma {:induction false} RunKeepsMarks(run: seq<Call>, roots: seq<Trie>, mutable: bool)
    requires IsRun(run, roots, mutable) && AllReturn(run)
    ensures MarkedTree(roots[|run|])
  {
    if run == [] {
      EmptyIsRoot();
    } else {
      var last := run[|run| - 1];
      RunKeepsMarks(run[..|run| - 1], roots[..|roots| - 1], mutable);
      AddKeepsMarks(roots[|run| - 1], mutable, last.pattern, last.handler, roots[|run|]);
    }
  }
}
