/**
 Which slash recommendations a run of static registrations leaves: exactly those its calls, read one after the
 other, say for a path, without any tree. The documented redirect to a route with or without the final slash is
 given when they say so, and is missing otherwise.
 */
module SlashAdvice {
  import opened Text
  import opened WildPath
  import opened Pattern
  import opened Trie
  import opened Conservation
  import opened RouteTree
  import opened TrailingSlash
  import opened Lookup
  import opened StaticRoutes
  import opened StaticMap
  import opened Walks
  import opened SlashMarks
  import opened SlashOrder
  import opened Spots
  import Precedence
  import Redirect

  // ----- sorting, and exchanged handlers -------------------------------------------------------------------

  lemma {:induction false} SortedMarker(a: Trie, b: Trie)
    requires SortsTo(a, b)
    ensures a == MARKER <==> b == MARKER
  {
    var mid: seq<Trie> :| SortsEach(a, mid) && multiset(mid) == multiset(b.kids);
    SortSameSize(mid, b.kids);
  }

  lemma {:induction false} SortSpot(a: Trie, b: Trie, u: string)
    requires SortsTo(a, b) && StaticKids(a.kids) && StaticKids(b.kids) && u != ""
    ensures SpotBelow(b, u) == SpotBelow(a, u)
    decreases |u|
  {
    var mid: seq<Trie> :| SortsEach(a, mid) && multiset(mid) == multiset(b.kids);
    SortedMarkers(a, mid, b);
    var k := FirstReal(a.kids, u);
    if k < |a.kids| {
      var c, d := a.kids[k], mid[k];
      assert SortsTo(c, d);
      SortedMarker(c, d);
      var j := KeptKid(mid, b.kids, k);
      RealIs(b.kids, j, u);
      if c.path < u { SortSpot(c, d, u[|c.path|..]); }
    } else {
      NoneKept(a, mid, b, u);
    }
  }

  lemma {:induction false} KeptKid(mid: seq<Trie>, kids: seq<Trie>, k: nat) returns (j: nat)
    requires multiset(mid) == multiset(kids) && k < |mid|
    ensures j < |kids| && kids[j] == mid[k]
  {
    assert mid[k] in multiset(kids);
    j :| 0 <= j < |kids| && kids[j] == mid[k];
  }

  lemma {:induction false} SortedMarkers(a: Trie, mid: seq<Trie>, b: Trie)
    requires SortsEach(a, mid) && multiset(mid) == multiset(b.kids)
    ensures MARKER in a.kids <==> MARKER in b.kids
  {
    if MARKER in a.kids {
      var i :| 0 <= i < |a.kids| && a.kids[i] == MARKER;
      SortedMarker(a.kids[i], mid[i]);
      var j := KeptKid(mid, b.kids, i);
    }
    if MARKER in b.kids {
      var j :| 0 <= j < |b.kids| && b.kids[j] == MARKER;
      var i := KeptKid(b.kids, mid, j);
      SortedMarker(a.kids[i], mid[i]);
    }
  }

  lemma {:induction false} NoneKept(a: Trie, mid: seq<Trie>, b: Trie, u: string)
    requires SortsEach(a, mid) && multiset(mid) == multiset(b.kids) && FirstReal(a.kids, u) == |a.kids|
    ensures FirstReal(b.kids, u) == |b.kids|
  {
    forall j | 0 <= j < |b.kids|
      ensures !Meets(b.kids[j], u)
    {
      var i := KeptKid(b.kids, mid, j);
      assert SortsTo(a.kids[i], mid[i]) && !Meets(a.kids[i], u);
      SortedMarker(a.kids[i], mid[i]);
    }
    FirstIs(b.kids, |b.kids|, u);
  }

  lemma {:induction false} SortRootSpot(a: Trie, b: Trie, u: string)
    requires SortsTo(a, b) && StaticKids(a.kids) && StaticKids(b.kids) && a.path != ""
    ensures SpotVia(b, u) == SpotVia(a, u)
  {
    if a.path < u { SortSpot(a, b, u[|a.path|..]); }
  }

  /** The tree with the handler of a node exchanged for another. */
  lemma {:induction false} RehandledSpot(n: Trie, at: seq<nat>, h: Handler, u: string)
    requires NodeAt(n, at).Some? && NodeAt(n, at).value.handler.Some? && u != ""
    ensures var m := Replace(n, at, NodeAt(n, at).value.(handler := Some(h)));
      m.path == n.path && m.tsr == n.tsr && m != MARKER && n != MARKER && SpotBelow(m, u) == SpotBelow(n, u)
    decreases |at|
  {
    if at == [] {
      KidsOnly(n, n.(handler := Some(h)), u);
    } else {
      var k, c := at[0], n.kids[at[0]];
      var d := Replace(c, at[1..], NodeAt(n, at).value.(handler := Some(h)));
      RehandledSpot(c, at[1..], h, if c.path < u then u[|c.path|..] else u);
      RehandledKid(n, k, d, u);
    }
  }

  lemma {:induction false} RehandledKid(n: Trie, k: nat, d: Trie, u: string)
    requires k < |n.kids| && u != "" && d != MARKER && n.kids[k] != MARKER && d.path == n.kids[k].path
    requires d.path != "" ==> SpotVia(d, u) == SpotVia(n.kids[k], u)
    ensures SpotBelow(n.(kids := n.kids[k := d]), u) == SpotBelow(n, u)
  {
    var kids := n.kids[k := d];
    SameFirst(n.kids, kids, u);
    assert MARKER in n.kids ==> MARKER in kids by {
      if MARKER in n.kids {
        var j :| 0 <= j < |n.kids| && n.kids[j] == MARKER;
        assert kids[j] == MARKER;
      }
    }
  }

  // ----- lookups -------------------------------------------------------------------------------------------

  /** A child that a text can only meet as a bare marker. */
  predicate PassedBy(c: Trie, u: string) { c == MARKER || Precedence.StartsApart(c, u) }

  /** Among such children only a bare marker is found. */
  lemma {:induction false} OnlyMarkers(n: Trie, j: nat, u: string)
    requires Searchable(n) && n.wildcard == None && u != "" && j <= |n.kids|
    requires forall i :: j <= i < |n.kids| ==> PassedBy(n.kids[i], u)
    ensures GetFrom(n, j, u) == if u == "/" && MARKER in n.kids[j..] then Found(None, true, []) else MISS
    decreases |n.kids| - j
  {
    if j < |n.kids| {
      assert PassedBy(n.kids[j], u) && n.kids[j..] == [n.kids[j]] + n.kids[j + 1..];
      OnlyMarkers(n, j + 1, u);
    }
  }

  lemma {:induction false} OthersArePassed(n: Trie, k: nat, u: string)
    requires StaticNode(n) && Ordered(n.kids) && u != "" && k == FirstReal(n.kids, u) < |n.kids|
    ensures forall j :: 0 <= j < k ==> Precedence.StartsApart(n.kids[j], u)
    ensures forall i :: k < i < |n.kids| ==> PassedBy(n.kids[i], u)
  {
    assert StaticKids(n.kids);
    forall j | 0 <= j < k
      ensures Precedence.StartsApart(n.kids[j], u)
    {
      FirstOfItsKind(n.kids, j, k);
    }
    forall i | k < i < |n.kids|
      ensures PassedBy(n.kids[i], u)
    {
      assert Apart(n.kids[k], n.kids[i]);
    }
  }

  /** A lookup recommends a slash exactly when the spot of the rest of the path says so. */
  lemma {:induction false} GetSpot(n: Trie, u: string)
    requires StaticNode(n) && Searchable(n) && Sorted(n) && u != ""
    ensures GetFrom(n, 0, u).tsr <==> Recommends(SpotBelow(n, u))
    decreases |u|
  {
    var k := FirstReal(n.kids, u);
    assert StaticKids(n.kids);
    if k < |n.kids| {
      var c := n.kids[k];
      OthersArePassed(n, k, u);
      Precedence.PassesAll(n, 0, k, u);
      OnlyMarkers(n, k + 1, u);
      if u == "/" { MarkerBehind(n.kids, k); }
      if c.path < u {
        GetSpot(c, u[|c.path|..]);
        NoStrayWrites(c, 0, u[|c.path|..]);
      }
    } else {
      NoneIsPassed(n, u);
      OnlyMarkers(n, 0, u);
      assert n.kids[0..] == n.kids;
    }
  }

  lemma {:induction false} NoneIsPassed(n: Trie, u: string)
    requires StaticNode(n) && u != "" && FirstReal(n.kids, u) == |n.kids|
    ensures forall i :: 0 <= i < |n.kids| ==> PassedBy(n.kids[i], u)
  {
    assert StaticKids(n.kids);
    forall i | 0 <= i < |n.kids|
      ensures PassedBy(n.kids[i], u)
    {
      assert !Meets(n.kids[i], u);
    }
  }

  /** Bare markers come after the first real child that starts alike. */
  lemma {:induction false} MarkerBehind(kids: seq<Trie>, k: nat)
    requires StaticKids(kids) && Ordered(kids) && k < |kids| && kids[k] != MARKER && kids[k].path[0] == '/'
    ensures MARKER in kids <==> MARKER in kids[k + 1..]
  {
    if MARKER in kids {
      var i :| 0 <= i < |kids| && kids[i] == MARKER;
      if i < k { FirstOfItsKind(kids, i, k); }
      assert kids[k + 1..][i - k - 1] == MARKER;
    }
  }

  // ----- one call ------------------------------------------------------------------------------------------

  function SpotAtRoot(root: Trie, u: string): Spot { if root.path == "" then Off else SpotVia(root, u) }

  /** The first route of a storage. */
  lemma {:induction false} FirstSpot(s: string, h: Handler, root': Trie, u: string)
    requires StaticPath(s) && u != "" && u != s && (u == s + "/" ==> s[|s| - 1] != '/')
    requires StaticNode(root') && SortsTo(Promote(AddAtRoot(EMPTY, s, h).node), root')
    ensures SpotAtRoot(root', u) == Next(Off, s, u, true)
  {
    var c := Hung(NewNode(s), h);
    assert s[0..] == s && [] + [c] == [c];
    InsertIs(EMPTY, s, h);
    FirstStatic(s, h);
    HungSpot(s, h, u);
    var r := c.(kind := Root);
    if c.path < u { KidsOnly(r, c, u[|c.path|..]); }
    SortRootSpot(r, root', u);
  }

  /** Another one. */
  lemma {:induction false} NextSpot(root: Trie, s: string, h: Handler, u: string)
    requires StaticNode(root) && Sorted(root) && AptRoot(root) && root != EMPTY && root.path != ""
    requires root.path[0] == '/' && StaticPath(s) && u != "" && u != s && (u == s + "/" ==> s[|s| - 1] != '/')
    ensures var r := AddAtRoot(root, s, h);
      r.node.path != "" && SpotVia(r.node, u) == Next(SpotVia(root, u), s, u, r.err == None)
  {
    RootStep(root, s, h);
    GraftSpot(root, s, h, u);
  }

  /** An addition returns exactly when its path is not stored. */
  lemma {:induction false} ReturnsIffFree(root: Trie, s: string, h: Handler, m: map<string, Handler>)
    requires Holds(root, m) && root != EMPTY && StaticPath(s) && forall t :: t in m ==> !Toggles(s, t)
    ensures var r := AddAtRoot(root, s, h);
      && (r.err == None <==> s !in m)
      && (r.err == None ==> StaticNode(r.node) && Promote(r.node) == r.node)
      && (r.err.Some? ==> Refused(root, r))
  {
    if s in m {
      StoredTree(root, m, s);
      HoldsNoTwins(root, m);
      RootRefuses(root, s, h, m[s], Stored(root));
    } else {
      StoredIs(root, m);
      assert Free(Stored(root), Lits(s)) by {
        if Justified(Stored(root), Lits(s), true) { JustifiedHasTwin(Stored(root), m, s); }
      }
      RootCutStatic(root, s, h, Stored(root));
    }
  }

  /** What a call does to the spot of a path that is not registered. */
  lemma {:induction false} CallSpot(
    root: Trie, mutable: bool, s: string, h: Handler, root': Trie, ok: bool, m: map<string, Handler>, u: string)
    requires Holds(root, m) && AptRoot(root) && StaticPath(s) && (forall t :: t in m ==> !Toggles(s, t))
    requires AddStep(root, mutable, s, h, root', ok) && (root' == EMPTY || StaticTree(root'))
    requires u != "" && u != s && (u == s + "/" ==> s[|s| - 1] != '/')
    ensures SpotAtRoot(root', u) == Next(SpotAtRoot(root, u), s, u, s !in m)
  {
    var r := AddAtRoot(root, s, h);
    if root == EMPTY {
      NothingIsHeld(m, s);
      FirstStatic(s, h);
      assert StaticNode(root');
      FirstSpot(s, h, root', u);
    } else {
      NextSpot(root, s, h, u);
      ReturnsIffFree(root, s, h, m);
      if r.err == None {
        SortRootSpot(r.node, root', u);
      } else if Overrides(r, mutable) {
        OverriddenSpot(r, h, u);
      }
    }
  }

  lemma {:induction false} NothingIsHeld(m: map<string, Handler>, s: string)
    requires Holds(EMPTY, m)
    ensures s !in m
  {
    EmptyIsRoot();
    if s in m { EntriesHas(m, s, m[s]); }
  }

  lemma {:induction false} OverriddenSpot(r: Outcome, h: Handler, u: string)
    requires r.err == Some(HandlerExists) && r.at.Some? && NodeAt(r.node, r.at.value).Some? && r.node.path != ""
    requires NodeAt(r.node, r.at.value).value.handler.Some?
    ensures var n := NodeAt(r.node, r.at.value).value;
      var m := Replace(r.node, r.at.value, Rehandled(n, r.err.value, h));
      m.path == r.node.path && SpotVia(m, u) == SpotVia(r.node, u)
  {
    var below := if r.node.path < u then u[|r.node.path|..] else "/";
    RehandledSpot(r.node, r.at.value, h, below);
  }

  // ----- runs ----------------------------------------------------------------------------------------------

  predicate FirstTime(run: seq<StaticCall>, k: nat)
    requires k < |run|
  {
    forall i :: 0 <= i < k ==> run[i].path != run[k].path
  }

  /** What the calls, read one after the other, say about a path; no tree is involved. */
  function Advised(run: seq<StaticCall>, u: string): Spot
    decreases |run|
  {
    if run == [] then Off
    else
      var k := |run| - 1;
      Next(Advised(run[..k], u), run[k].path, u, FirstTime(run, k))
  }

  /** The path itself is not registered, nor does it follow a registered path that ends in a slash by another one. */
  predicate Unregistered(run: seq<StaticCall>, u: string) {
    forall k :: 0 <= k < |run| ==> run[k].path != u && !(u == run[k].path + "/" && EndsInSlash(run[k].path))
  }

  lemma {:induction false} RunApt(run: seq<StaticCall>, roots: seq<Trie>, mutable: bool, n: nat)
    requires IsStaticRun(run, roots, mutable) && n <= |run|
    ensures AptRoot(roots[n])
  {
    if n > 0 {
      RunApt(run, roots, mutable, n - 1);
      CallKeepsApt(run, roots, mutable, n - 1);
    }
  }

  lemma {:induction false} CallKeepsApt(run: seq<StaticCall>, roots: seq<Trie>, mutable: bool, k: nat)
    requires IsStaticRun(run, roots, mutable) && k < |run| && AptRoot(roots[k])
    ensures AptRoot(roots[k + 1])
  {
    var c := run[k];
    RunHolds(run, roots, mutable, k);
    NoTwinsBefore(run, roots, mutable, k);
    var q := c.path + "//";
    assert q[|c.path| + 1] == '/' && |q| != |c.path + "/"|;
    CallMarks(roots[k], mutable, c.path, c.handler, roots[k + 1], c.ok, Described(run[..k]), q);
  }

  lemma {:induction false} NoTwinsBefore(run: seq<StaticCall>, roots: seq<Trie>, mutable: bool, k: nat)
    requires IsStaticRun(run, roots, mutable) && k < |run|
    ensures forall t :: t in Described(run[..k]) ==> !Toggles(run[k].path, t)
    ensures run[k].path !in Described(run[..k]) <==> FirstTime(run, k)
  {
    forall t | t in Described(run[..k])
      ensures !Toggles(run[k].path, t)
    {
      CalledIsDescribed(run, roots, mutable, k, t);
    }
    CalledIsDescribed(run, roots, mutable, k, run[k].path);
  }

  lemma {:induction false} CallMovesSpot(run: seq<StaticCall>, roots: seq<Trie>, mutable: bool, u: string, k: nat)
    requires IsStaticRun(run, roots, mutable) && k < |run| && u != "" && Unregistered(run, u)
    ensures SpotAtRoot(roots[k + 1], u) == Next(SpotAtRoot(roots[k], u), run[k].path, u, FirstTime(run, k))
  {
    var c := run[k];
    RunApt(run, roots, mutable, k);
    RunHolds(run, roots, mutable, k);
    RunHolds(run, roots, mutable, k + 1);
    NoTwinsBefore(run, roots, mutable, k);
    CallSpot(roots[k], mutable, c.path, c.handler, roots[k + 1], c.ok, Described(run[..k]), u);
  }

  /** The tree shows what these calls say. */
  predicate Shows(root: Trie, run: seq<StaticCall>, u: string) { SpotAtRoot(root, u) == Advised(run, u) }

  lemma {:induction false} NothingShown(u: string)
    ensures Shows(EMPTY, [], u)
  {
  }

  lemma {:induction false} StillShows(run: seq<StaticCall>, roots: seq<Trie>, mutable: bool, u: string, k: nat)
    requires IsStaticRun(run, roots, mutable) && k < |run| && u != "" && Unregistered(run, u)
    requires Shows(roots[k], run[..k], u)
    ensures Shows(roots[k + 1], run[..k + 1], u)
  {
    CallMovesSpot(run, roots, mutable, u, k);
    OneCallLater(run, u, k);
  }

  /** Over every run: the spot of an unregistered path is what the calls say. */
  lemma {:induction false} SpotStands(run: seq<StaticCall>, roots: seq<Trie>, mutable: bool, u: string, n: nat)
    requires IsStaticRun(run, roots, mutable) && n <= |run| && u != "" && Unregistered(run, u)
    ensures Shows(roots[n], run[..n], u)
    decreases n
  {
    if n == 0 {
      NothingShown(u);
      assert run[..0] == [];
    } else {
      var k := n - 1;
      SpotStands(run, roots, mutable, u, k);
      StillShows(run, roots, mutable, u, k);
    }
  }

  lemma {:induction false} OneCallLater(run: seq<StaticCall>, u: string, k: nat)
    requires k < |run|
    ensures Advised(run[..k + 1], u) == Next(Advised(run[..k], u), run[k].path, u, FirstTime(run, k))
  {
    var front := run[..k + 1];
    assert front[..k] == run[..k] && front[k] == run[k];
    assert FirstTime(front, k) <==> FirstTime(run, k) by {
      forall i | 0 <= i < k
        ensures front[i] == run[i]
      {
      }
    }
  }

  lemma {:induction false} TreeAdvice(root: Trie, u: string)
    requires (root == EMPTY || StaticTree(root)) && Searchable(root) && u != ""
    ensures Get(root, u).tsr <==> Recommends(SpotAtRoot(root, u))
  {
    if root.path != "" && root.path < u { GetSpot(root, u[|root.path|..]); }
  }

  /**
   Over every run of static registrations without slash twins, mutable or not and re-registrations included: a
   lookup of an unregistered path recommends a slash exactly when the calls, read in their order, say so.
   */
  lemma {:induction false} AdviceIsExact(run: seq<StaticCall>, roots: seq<Trie>, mutable: bool, u: string)
    requires IsStaticRun(run, roots, mutable) && u != "" && Unregistered(run, u)
    ensures Searchable(roots[|run|])
    ensures Get(roots[|run|], u).tsr <==> Recommends(Advised(run, u))
  {
    RunIsSearchable(run, roots, mutable);
    RunHoldsAll(run, roots, mutable);
    SpotStands(run, roots, mutable, u, |run|);
    assert run[..|run|] == run;
    TreeAdvice(roots[|run|], u);
  }

  // ----- recommendations that are missing ------------------------------------------------------------------

  lemma {:induction false} PairIsRun(a: StaticCall, b: StaticCall, one: Trie, two: Trie)
    requires StaticPath(a.path) && StaticPath(b.path) && !Toggles(a.path, b.path) && a.path != b.path
    requires AddStep(EMPTY, false, a.path, a.handler, one, a.ok) && AddStep(one, false, b.path, b.handler, two, b.ok)
    ensures IsStaticRun([a, b], [EMPTY, one, two], false)
  {
    NotItsTwin(a.path);
    NotItsTwin(b.path);
    assert forall k :: 0 <= k < 2 ==> [a, b][k] == if k == 0 then a else b;
  }

  lemma {:induction false} NotItsTwin(s: string)
    ensures !Toggles(s, s)
  {
    assert |s + "/"| == |s| + 1;
  }

  /**
   After `s + "/b"` and then `s + "/"` have been registered, `s` is neither answered nor redirected to `s + "/"`, by
   its slash or by fixing the path.
   */
  lemma {:induction false} SlashIsNotAdded(s: string, h: Handler, g: Handler)
    requires StaticPath(s)
    ensures var root := Redirect.CutTree(s + "/", h, g);
      && IsStaticRun(
           [StaticCall(s + "/" + "b", g, true), StaticCall(s + "/", h, true)],
           [EMPTY, PlainTree(s + "/" + "b", g), root], false)
      && Searchable(root) && Get(root, s) == MISS && Find(root, s) == NotFound
  {
    var t := s + "/";
    Redirect.CutTreeIsBuilt(t, h, g);
    NoTwinOfLonger(t);
    PairIsRun(StaticCall(t + "b", g, true), StaticCall(t, h, true), PlainTree(t + "b", g), Redirect.CutTree(t, h, g));
    CutTreeMisses(s, t, h, g);
  }

  lemma {:induction false} CutTreeMisses(s: string, t: string, h: Handler, g: Handler)
    requires |s| < |t|
    ensures var root := Redirect.CutTree(t, h, g);
      Searchable(root) && Get(root, s) == MISS && Find(root, s) == NotFound
  {
    LeafSearchable("b", g);
    assert Redirect.TailNode(g) == Leaf("b", g);
  }

  lemma {:induction false} NoTwinOfLonger(t: string)
    ensures !Toggles(t + "b", t) && t + "b" != t
  {
    assert (t + "b")[|t|] == 'b' && (t + "/")[|t|] == '/' && |t + "b" + "/"| == |t| + 2;
  }

  /** A leaf with its bare marker. */
  function Leaf(text: string, g: Handler): Trie { NewNode(text).(handler := Some(g), kids := [MARKER]) }

  /** The storage after `s + "/b"` and `s`, and after `s + "/c"` besides. */
  function SideTree(s: string, h: Handler, g: Handler): Trie {
    Trie(Root, s, false, Some(h), [Leaf("/b", g), MARKER], None, [])
  }

  function ForkTree(s: string, h: Handler, g: Handler, f: Handler): Trie {
    Trie(Root, s, false, Some(h), [NewNode("/").(kids := [Leaf("b", g), Leaf("c", f)]), MARKER], None, [])
  }

  lemma {:induction false} SideTreeIsBuilt(s: string, h: Handler, g: Handler)
    requires StaticPath(s) && s[|s| - 1] != '/'
    ensures AddStep(PlainTree(s + "/b", g), false, s, h, SideTree(s, h, g), true)
  {
    var root, t := PlainTree(s + "/b", g), s + "/b";
    assert t[..|s|] == s && t[|s|..] == "/b" && s[|s|..] == "";
    assert Lcp(s, t) == |s| by { assert s[..|s|] == t[..|s|]; }
    SideIsSet(Split(root, |s|), h, g);
    LeafSorted("/b", g);
    SortedStays(SideTree(s, h, g));
  }

  lemma {:induction false} SideIsSet(n: Trie, h: Handler, g: Handler)
    requires n.kids == [Leaf("/b", g)] && n.handler == None && !n.tsr && n.path != "/"
    ensures Add(n, "", h) == Outcome(n.(handler := Some(h), kids := [Leaf("/b", g), MARKER]), None, Some([]))
  {
    assert FirstSlash(n.kids) == 1 && n.kids + [MARKER] == [Leaf("/b", g), MARKER];
  }

  lemma {:induction false} LeafSorted(text: string, g: Handler)
    ensures Sorted(Leaf(text, g)) && Sorted(MARKER)
  {
  }

  lemma {:induction false} ForkTreeIsBuilt(s: string, h: Handler, g: Handler, f: Handler)
    requires StaticPath(s) && s[|s| - 1] != '/'
    ensures AddStep(SideTree(s, h, g), false, s + "/c", f, ForkTree(s, h, g, f), true)
  {
    var root, t := SideTree(s, h, g), s + "/c";
    assert t[..|s|] == s && t[|s|..] == "/c" && Lcp(t, s) == |s|;
    ForkIsAdded(root, g, f);
    ForkSorted(s, h, g, f);
  }

  lemma {:induction false} ForkSorted(s: string, h: Handler, g: Handler, f: Handler)
    ensures SortsTo(ForkTree(s, h, g, f), ForkTree(s, h, g, f))
  {
    LeafSorted("b", g);
    LeafSorted("c", f);
    assert Sorted(ForkTree(s, h, g, f).kids[0]);
    SortedStays(ForkTree(s, h, g, f));
  }

  lemma {:induction false} ForkIsAdded(n: Trie, g: Handler, f: Handler)
    requires n.kids == [Leaf("/b", g), MARKER]
    ensures var r := Add(n, "/c", f);
      r.err == None && r.node == n.(kids := [NewNode("/").(kids := [Leaf("b", g), Leaf("c", f)]), MARKER])
  {
    var cut := Split(Leaf("/b", g), 1);
    assert Lcp("/c", "/b") == 1 && "/b"[..1] == "/" && "/b"[1..] == "b" && "/c"[1..] == "c";
    assert cut == NewNode("/").(kids := [Leaf("b", g)]);
    LeafIsAdded(cut, g, f);
  }

  lemma {:induction false} LeafIsAdded(n: Trie, g: Handler, f: Handler)
    requires n.kids == [Leaf("b", g)]
    ensures Add(n, "c", f) == Outcome(n.(kids := [Leaf("b", g), Leaf("c", f)]), None, Some([1]))
  {
    NoWildInLiterals("c");
    assert Lcp("c", "b") == 0 && [] + [MARKER] == [MARKER];
    assert FirstShared(n.kids, "c") == 1;
    assert [Leaf("b", g)] + [Leaf("c", f)] == [Leaf("b", g), Leaf("c", f)];
  }

  /**
   After `s + "/b"`, `s` and then `s + "/c"` have been registered, the lookup of `s + "/"` recommends nothing, though
   `s` is registered: a node for the "/" now stands before the mark.
   */
  lemma {:induction false} SlashIsNotDropped(s: string, h: Handler, g: Handler, f: Handler)
    requires StaticPath(s) && s[|s| - 1] != '/'
    ensures AddStep(EMPTY, false, s + "/b", g, PlainTree(s + "/b", g), true)
    ensures AddStep(PlainTree(s + "/b", g), false, s, h, SideTree(s, h, g), true)
    ensures AddStep(SideTree(s, h, g), false, s + "/c", f, ForkTree(s, h, g, f), true)
    ensures Searchable(ForkTree(s, h, g, f)) && Get(ForkTree(s, h, g, f), s + "/") == MISS
  {
    SideTreeIsBuilt(s, h, g);
    ForkTreeIsBuilt(s, h, g, f);
    PlainIsBuilt(s, g);
    ForkLookup(s, h, g, f);
  }

  lemma {:induction false} PlainIsBuilt(s: string, g: Handler)
    requires StaticPath(s)
    ensures AddStep(EMPTY, false, s + "/b", g, PlainTree(s + "/b", g), true)
  {
    PlainTreeIsBuilt(s + "/b", g);
  }

  lemma {:induction false} ForkLookup(s: string, h: Handler, g: Handler, f: Handler)
    ensures Searchable(ForkTree(s, h, g, f)) && Get(ForkTree(s, h, g, f), s + "/") == MISS
  {
    LeafSearchable("b", g);
    LeafSearchable("c", f);
    var fork := NewNode("/").(kids := [Leaf("b", g), Leaf("c", f)]);
    assert Searchable(fork);
    ForkMisses(ForkTree(s, h, g, f), s);
  }

  lemma {:induction false} LeafSearchable(text: string, g: Handler)
    ensures Searchable(Leaf(text, g))
  {
  }

  lemma {:induction false} ForkMisses(root: Trie, s: string)
    requires root.path == s && |root.kids| == 2 && root.kids[1] == MARKER
    requires Searchable(root.kids[0]) && root.kids[0] == NewNode("/").(kids := root.kids[0].kids)
    ensures Searchable(root) && Get(root, s + "/") == MISS
  {
    var t := s + "/";
    assert t[|s|..] == "/" && s < t;
    assert GetFrom(root, 0, "/") == AtEnd(root.kids[0]);
  }
}
