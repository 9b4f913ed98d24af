/**
 Which of several fitting routes answers. Static children come before parameters at every level, so a literal
 route is answered with its own handler, and a dead end hides every route whose branch it hangs off.
 */
module Precedence {
  import opened Text
  import opened WildPath
  import opened Pattern
  import opened Trie
  import opened Conservation
  import opened RouteTree
  import opened Lookup
  import opened Refusals
  import opened TidyTree
  import opened Markers

  // ----- static children first -----------------------------------------------------------------------------

  /** No static child comes after a parameter. */
  predicate StaticFirst(n: Trie) {
    && (forall i, j :: 0 <= i < j < |n.kids| && n.kids[j].kind == Static ==> n.kids[i].kind == Static)
    && forall i :: 0 <= i < |n.kids| ==> StaticFirst(n.kids[i])
  }

  /** Sorting puts static children first. */
  lemma {:induction false} SortStaticFirst(a: Trie, b: Trie)
    requires SortsTo(a, b) && WellFormed(a)
    ensures StaticFirst(b)
    decreases a
  {
    var mid: seq<Trie> :| SortsEach(a, mid) && multiset(mid) == multiset(b.kids);
    forall i | 0 <= i < |mid|
      ensures StaticFirst(mid[i])
    {
      KidIsWellFormed(a, i);
      SortStaticFirst(a.kids[i], mid[i]);
    }
    forall i | 0 <= i < |b.kids|
      ensures StaticFirst(b.kids[i])
    {
      assert b.kids[i] in multiset(mid);
    }
    SortStands(a, b);
    forall i, j | 0 <= i < j < |b.kids| && b.kids[j].kind == Static
      ensures b.kids[i].kind == Static
    {
      KidIsWellFormed(b, i);
      assert !Less(b.kids[j], b.kids[i]);
    }
  }

  lemma {:induction false} KindUpdate(n: Trie, k: nat, c: Trie, mark: bool)
    requires StaticFirst(n) && k < |n.kids| && StaticFirst(c) && c.kind == n.kids[k].kind
    ensures StaticFirst(n.(kids := n.kids[k := c], tsr := mark))
  {
    var m := n.(kids := n.kids[k := c], tsr := mark);
    assert forall i :: 0 <= i < |n.kids| ==> m.kids[i].kind == n.kids[i].kind;
  }

  lemma {:induction false} SplitStaticFirst(n: Trie, i: nat)
    requires StaticFirst(n) && i <= |n.path|
    ensures StaticFirst(Split(n, i)) && StaticFirst(Split(n, i).kids[0])
  {
    assert StaticFirst(Split(n, i).kids[0]);
  }

  /** A refused wildcard leaves the children in order. */
  lemma {:induction false} InsertWildcardStaticFirst(n: Trie, path: string, wp: WildPath, h: Handler)
    requires StaticFirst(n) && |wp.keys| > 0
    ensures StaticFirst(InsertWildcard(n, path, wp, h).node)
  {
    var last := |n.path| - 1;
    if |path| == SegmentEnd(path, true) && n.path != "" && n.path[last] == '/' && n.path != "/" {
      var cut := Split(n, last).(tsr := true);
      var m := AttachWildcard(cut.kids[0], path, wp, h).node;
      SplitStaticFirst(n, last);
      assert m.kids == cut.kids[0].kids && StaticFirst(m);
      assert cut.kids[0 := m] == [m];
    }
  }

  /** A refused addition moves no child. */
  lemma {:induction false} RefusedStaticFirst(n: Trie, ps: Pattern, h: Handler)
    requires WellFormed(n) && Good(ps) && Placed(ps) && (ps != [] && ps[0].Rest? ==> EndsInSlash(n.path))
    requires StaticFirst(n) && Add(n, Print(ps), h).err.Some?
    ensures StaticFirst(Add(n, Print(ps), h).node)
    decreases |ps|, 1
  {
    var k := FirstShared(n.kids, Print(ps));
    if ps == [] {
    } else if ps[0].Rest? {
      RestBlocked(n, ps, h);
      InsertRestCase(n, ps, h);
      InsertWildcardStaticFirst(n, Print(ps), FindWild(Print(ps)).wp, h);
    } else if k == |n.kids| {
      PrintStart(ps);
      var c := InsertHangs(n, ps, h);
    } else {
      KidIsWellFormed(n, k);
      if n.kids[k].kind == Param {
        RefusedAtKey(n, k, ps, h);
      } else {
        RefusedAtText(n, k, ps, h);
      }
    }
  }

  lemma {:induction false} RefusedAtKey(n: Trie, k: nat, ps: Pattern, h: Handler)
    requires WellFormed(n) && Good(ps) && Placed(ps) && ps != [] && !ps[0].Rest?
    requires k < |n.kids| && k == FirstShared(n.kids, Print(ps)) && n.kids[k].kind == Param
    requires StaticFirst(n) && Add(n, Print(ps), h).err.Some?
    ensures StaticFirst(Add(n, Print(ps), h).node)
    decreases |ps|, 0
  {
    var c := n.kids[k];
    KidIsWellFormed(n, k);
    PrintStart(ps);
    KeyMeets(n, k, ps);
    KeyMeetsKey(n, k, ps, h);
    PlacedSuffix(ps, 1);
    assert Add(n, Print(ps), h) == AddAtParam(n, k, Print(ps), h);
    if LastKey(ps) && c.handler.Some? {
    } else if ps[0] != Key(c.keys[0]) {
      var d := InsertHangs(n, ps, h);
    } else if |ps| > 1 {
      RefusedStaticFirst(c, ps[1..], h);
      AddStands(c, ps[1..], h);
      KindUpdate(n, k, Add(c, Print(ps[1..]), h).node, n.tsr);
    } else {
      assert n.kids[k := c] == n.kids;
    }
  }

  lemma {:induction false} RefusedAtText(n: Trie, k: nat, ps: Pattern, h: Handler)
    requires WellFormed(n) && Good(ps) && Placed(ps) && ps != [] && !ps[0].Rest?
    requires k < |n.kids| && k == FirstShared(n.kids, Print(ps)) && n.kids[k].kind == Static
    requires StaticFirst(n) && Add(n, Print(ps), h).err.Some?
    ensures StaticFirst(Add(n, Print(ps), h).node)
    decreases |ps|, 0
  {
    var c, i := n.kids[k], Lcp(Print(ps), n.kids[k].path);
    var cut := CutAt(c, i);
    KidIsWellFormed(n, k);
    AddAtStaticCases(n, k, ps, h);
    RestAfterText(ps, cut.path, i);
    CutStands(c, i);
    SplitStaticFirst(c, i);
    RefusedStaticFirst(cut, ps[i..], h);
    AddStands(cut, ps[i..], h);
    AddMarksFor(n, k, ps, h);
    var kid := Add(cut, Print(ps[i..]), h).node;
    KindUpdate(n, k, kid, n.tsr);
    KindUpdate(n, k, kid, n.tsr || Print(ps) == "/");
  }

  lemma {:induction false} ReplaceStaticFirst(n: Trie, at: seq<nat>, e: AddError, h: Handler)
    requires StaticFirst(n) && NodeAt(n, at).Some?
    ensures var m := Replace(n, at, Rehandled(NodeAt(n, at).value, e, h)); StaticFirst(m) && m.kind == n.kind
    decreases |at|
  {
    if at != [] {
      var k, m := at[0], Rehandled(NodeAt(n, at).value, e, h);
      ReplaceStaticFirst(n.kids[k], at[1..], e, h);
      KindUpdate(n, k, Replace(n.kids[k], at[1..], m), n.tsr);
    }
  }

  lemma {:induction false} RefusedRoot(root: Trie, ps: Pattern, h: Handler)
    requires IsRoot(root) && IsRoute(ps) && Placed(ps) && StaticFirst(root)
    requires AddAtRoot(root, Print(ps), h).err.Some?
    ensures StaticFirst(AddAtRoot(root, Print(ps), h).node)
  {
    var i := Lcp(Print(ps), root.path);
    RootIsCut(root, ps, h);
    PlacedSuffix(ps, i);
    var cut := CutRoot(root, i);
    if 0 < i < |root.path| {
      SplitStands(root, i);
      SplitStaticFirst(root, i);
    }
    if root.path != "" { RootEndsInSlash(root, ps); }
    assert root.path == "" ==> i == 0 && ps[0..] == ps;
    RefusedStaticFirst(cut, ps[i..], h);
  }

  /** A call of `Tree.Add`, mutable or not and refused or not, leaves static children first. */
  lemma {:induction false} StepStaticFirst(
    root: Trie, mutable: bool, ps: Pattern, h: Handler, root': Trie, ok: bool)
    requires IsRoot(root) && StaticFirst(root) && IsRoute(ps) && Placed(ps)
    requires AddStep(root, mutable, Print(ps), h, root', ok)
    ensures StaticFirst(root')
  {
    var r := AddAtRoot(root, Print(ps), h);
    PrintStart(ps);
    if r.err == None {
      AddAtRootStands(root, ps, h);
      if root.path == "" { TextlessRootAdd(root, ps, h); }
      PromoteKeeps(root, r.node);
      SortStaticFirst(Promote(r.node), root');
    } else {
      RefusedRoot(root, ps, h);
      if Overrides(r, mutable) { ReplaceStaticFirst(r.node, r.at.value, r.err.value, h); }
    }
  }

  // ----- a literal route -----------------------------------------------------------------------------------

  /** Children before the one with this text do not start like the path. */
  lemma {:induction false} OthersStartApart(n: Trie, i: nat, k: nat, path: string)
    requires WellFormed(n) && Tidy(n) && StaticFirst(n) && i < k < |n.kids| && n.kids[k].kind == Static
    requires n.kids[k] != MARKER && n.kids[k].path <= path
    ensures n.kids[i].kind == Static && n.kids[i].path != "" && n.kids[i].path[0] != path[0]
  {
    KidIsWellFormed(n, i);
    KidIsWellFormed(n, k);
    assert !SameStart(n.kids[i], n.kids[k]);
  }

  /** A static child whose text starts differently. */
  predicate StartsApart(c: Trie, path: string) {
    c.kind == Static && c.path != "" && (path != "" ==> c.path[0] != path[0])
  }

  lemma {:induction false} PassesAll(n: Trie, i: nat, k: nat, path: string)
    requires Searchable(n) && i <= k <= |n.kids| && path != ""
    requires forall j :: i <= j < k ==> StartsApart(n.kids[j], path)
    ensures GetFrom(n, i, path) == GetFrom(n, k, path)
    decreases k - i
  {
    if i < k {
      assert StartsApart(n.kids[i], path);
      PassesAll(n, i + 1, k, path);
    }
  }

  /** The search comes to the static child whose text the path starts with first. */
  lemma {:induction false} PassesTo(n: Trie, k: nat, path: string)
    requires WellFormed(n) && Searchable(n) && Tidy(n) && StaticFirst(n) && k < |n.kids|
    requires n.kids[k].kind == Static && n.kids[k] != MARKER && n.kids[k].path <= path && path != ""
    ensures GetFrom(n, 0, path) == GetFrom(n, k, path)
    ensures forall j :: 0 <= j < k ==> StartsApart(n.kids[j], path)
  {
    forall j | 0 <= j < k
      ensures StartsApart(n.kids[j], path)
    {
      OthersStartApart(n, j, k, path);
    }
    PassesAll(n, 0, k, path);
  }

  lemma {:induction false} LiteralIsNotOwn(n: Trie, full: Pattern, s: string, h: Handler)
    requires s != ""
    ensures (full + Lits(s), h) !in Own(n, full)
  {
    var ps := full + Lits(s);
    assert |ps| != |full| && ps[|full|].Lit?;
    if n.wildcard.Some? { assert (full + [Rest(n.wildcard.value.key)])[|full|].Rest?; }
  }

  lemma {:induction false} LiteralKid(n: Trie, s: string, pre: Pattern, h: Handler) returns (k: nat)
    requires WellFormed(n) && s != "" && (pre + TextOf(n) + Lits(s), h) in Routes(n, pre)
    ensures k < |n.kids| && n.kids[k].kind == Static && n.kids[k].path <= s && n.kids[k] != MARKER
    ensures WellFormed(n.kids[k]) && var c, full := n.kids[k], pre + TextOf(n);
      (full + TextOf(c) + Lits(s[|c.path|..]), h) in Routes(c, full)
  {
    var full := pre + TextOf(n);
    LiteralIsNotOwn(n, full, s, h);
    k := RoutesOfWitness(n.kids, full, (full + Lits(s), h));
    var c := n.kids[k];
    KidIsWellFormed(n, k);
    TextBefore(c, full, Lits(s), h);
    assert TextOf(c)[0] == Lits(s)[0];
    TextIsPrefix(Lits(s), c.path);
    AllText(s);
    assert Lits(s)[|c.path|..] == Lits(s[|c.path|..]);
  }

  lemma {:induction false} AllText(s: string)
    ensures LitPrefix(Lits(s)) == s
  {
    if s != "" {
      assert Lits(s)[1..] == Lits(s[1..]);
      AllText(s[1..]);
    }
  }

  /** Below a tidy node with static children first and handlers unmarked, a literal route is found first. */
  lemma {:induction false} LiteralFirst(n: Trie, s: string, pre: Pattern, h: Handler)
    requires WellFormed(n) && Searchable(n) && Tidy(n) && StaticFirst(n) && Held(n) && s != ""
    requires (pre + TextOf(n) + Lits(s), h) in Routes(n, pre)
    ensures GetFrom(n, 0, s) == Found(Some(h), false, [])
    decreases n
  {
    var k := LiteralKid(n, s, pre, h);
    var c, full := n.kids[k], pre + TextOf(n);
    var rest := s[|c.path|..];
    PassesTo(n, k, s);
    if rest == "" {
      assert s == c.path;
      EndsWithHandler(c, full, h);
    } else {
      LiteralFirst(c, rest, full, h);
    }
  }

  lemma {:induction false} EndsWithHandler(c: Trie, pre: Pattern, h: Handler)
    requires WellFormed(c) && Held(c) && (pre + TextOf(c) + Lits(""), h) in Routes(c, pre)
    ensures AtEnd(c) == Found(Some(h), false, [])
  {
    assert pre + TextOf(c) + Lits("") == pre + TextOf(c);
    RouteStarts(c, pre, (pre + TextOf(c), h));
  }

  /** A stored literal route is answered with its handler, whatever else is stored. */
  lemma {:induction false} LiteralIsAnswered(root: Trie, s: string, h: Handler)
    requires WellFormed(root) && root.kind == Root && Searchable(root)
    requires Tidy(root) && StaticFirst(root) && Held(root) && (Lits(s), h) in Routes(root, [])
    ensures Get(root, s) == Found(Some(h), false, [])
  {
    assert [] + Lits(s) == Lits(s) && [] + TextOf(root) == TextOf(root);
    TextBefore(root, [], Lits(s), h);
    TextIsPrefix(Lits(s), root.path);
    AllText(s);
    var rest := s[|root.path|..];
    assert Lits(s)[|root.path|..] == Lits(rest);
    if rest == "" {
      assert s == root.path;
      EndsWithHandler(root, [], h);
    } else {
      LiteralFirst(root, rest, [], h);
    }
  }
}
