/**
 Routes that differ by a final slash. Registering the one with the slash marks the node of the other, which hides
 it from then on. So a set of literal paths is one whose registered paths are always answered exactly when it holds
 no such pair.
 */
module TwinRoutes {
  import opened Text
  import opened WildPath
  import opened Pattern
  import opened Trie
  import opened Conservation
  import opened RouteTree
  import opened Lookup
  import opened Refusals
  import opened StaticRoutes
  import opened StaticMap
  import opened Redirect
  import opened OneName
  import opened TidyTree
  import opened RunLookups

  // ----- the second route hides the first ------------------------------------------------------------------

  function FirstTree(s: string, h: Handler): Trie {
    if s == "/" then NewNode("/").(kind := Root, handler := Some(h))
    else if s != "" && s[|s| - 1] == '/' then SlashTree(s[..|s| - 1], h)
    else PlainTree(s, h)
  }

  lemma {:induction false} RootSlashIsBuilt(h: Handler)
    ensures AddStep(EMPTY, false, "/", h, FirstTree("/", h), true)
  {
    NoWildInLiterals("/");
    assert "/"[0..] == "/" && [] + [NewNode("/").(handler := Some(h))] == [NewNode("/").(handler := Some(h))];
    SortedStays(FirstTree("/", h));
  }

  lemma {:induction false} FirstTreeIsBuilt(s: string, h: Handler)
    requires StaticPath(s)
    ensures AddStep(EMPTY, false, s, h, FirstTree(s, h), true)
  {
    if s == "/" {
      RootSlashIsBuilt(h);
    } else if s[|s| - 1] == '/' {
      assert s == s[..|s| - 1] + "/";
      SlashTreeIsBuilt(s[..|s| - 1], h);
    } else {
      PlainTreeIsBuilt(s, h);
    }
  }

  /** The leaf of `s + "/"`. */
  function TwinLeaf(g: Handler): Trie { NewNode("/").(handler := Some(g)) }

  /** The storage after the second call, and whether it returns. */
  function BothTree(s: string, h: Handler, g: Handler): Trie {
    if s == "/" then FirstTree(s, h).(tsr := true, kids := [TwinLeaf(g)])
    else if s != "" && s[|s| - 1] == '/' then
      FirstTree(s, h).(kids := [NewNode("/").(handler := Some(h), tsr := true, kids := [TwinLeaf(g)])])
    else FirstTree(s, h).(tsr := true)
  }

  predicate BothReturn(s: string) { s != "" && s[|s| - 1] == '/' }

  lemma {:induction false} SlashIsAttached(n: Trie, g: Handler)
    requires n.kids == []
    ensures Add(n, "/", g) == Outcome(n.(kids := [TwinLeaf(g)], tsr := true), None, Some([0]))
  {
    NoWildInLiterals("/");
    assert [] + [TwinLeaf(g)] == [TwinLeaf(g)];
  }

  lemma {:induction false} SlashIsRefused(s: string, h: Handler, g: Handler)
    requires StaticPath(s) && s[|s| - 1] != '/'
    ensures AddStep(FirstTree(s, h), false, s + "/", g, BothTree(s, h, g), false)
  {
    var root, t := PlainTree(s, h), s + "/";
    assert t[..|s|] == s && t[|s|..] == "/" && Lcp(t, s) == |s|;
    assert Lcp("/", "/") == 1;
    assert root.kids[0 := MARKER] == [MARKER];
  }

  lemma {:induction false} SlashFollowsRoot(h: Handler, g: Handler)
    ensures AddStep(FirstTree("/", h), false, "/" + "/", g, BothTree("/", h, g), true)
  {
    var root, t := FirstTree("/", h), "/" + "/";
    assert t[..1] == "/" && t[1..] == "/" && Lcp(t, "/") == 1;
    SlashIsAttached(root, g);
    SortedStays(BothTree("/", h, g));
  }

  /** Two slashes below a root whose only child is a "/". */
  lemma {:induction false} SlashesAreAdded(n: Trie, c: Trie, g: Handler)
    requires n.kids == [c] && c.kind == Static && c.path == "/" && c.kids == []
    ensures var r := Add(n, "//", g);
      r.node == n.(kids := [c.(kids := [TwinLeaf(g)], tsr := true)]) && r.err == None
  {
    assert "//"[..1] == "/" && "//"[1..] == "/" && Lcp("//", "/") == 1;
    SlashIsAttached(c, g);
    assert n.kids[0 := c] == [c];
  }

  lemma {:induction false} SlashFollowsSlash(s: string, h: Handler, g: Handler)
    requires StaticPath(s) && s != "/" && s[|s| - 1] == '/'
    ensures AddStep(FirstTree(s, h), false, s + "/", g, BothTree(s, h, g), true)
  {
    var root, t, r := FirstTree(s, h), s + "/", s[..|s| - 1];
    assert t[..|r|] == r && t[|r|..] == "//" && Lcp(t, r) == |r|;
    SlashesAreAdded(root, root.kids[0], g);
    BothSorted(s, h, g);
  }

  lemma {:induction false} BothSorted(s: string, h: Handler, g: Handler)
    requires s != "/" && BothReturn(s)
    ensures SortsTo(BothTree(s, h, g), BothTree(s, h, g))
  {
    assert Sorted(BothTree(s, h, g).kids[0]);
    SortedStays(BothTree(s, h, g));
  }

  lemma {:induction false} BothTreeIsBuilt(s: string, h: Handler, g: Handler)
    requires StaticPath(s)
    ensures AddStep(FirstTree(s, h), false, s + "/", g, BothTree(s, h, g), BothReturn(s))
  {
    if s == "/" { SlashFollowsRoot(h, g); }
    else if s[|s| - 1] == '/' { SlashFollowsSlash(s, h, g); }
    else { SlashIsRefused(s, h, g); }
  }

  function TwinRun(s: string, h: Handler, g: Handler): seq<Call> {
    [Call(Lits(s), h, true), Call(Lits(s + "/"), g, BothReturn(s))]
  }

  function TwinTrees(s: string, h: Handler, g: Handler): seq<Trie> { [EMPTY, FirstTree(s, h), BothTree(s, h, g)] }

  lemma {:induction false} TwinRuns(s: string, h: Handler, g: Handler)
    requires StaticPath(s)
    ensures IsRun(TwinRun(s, h, g), TwinTrees(s, h, g), false)
  {
    var run, roots := TwinRun(s, h, g), TwinTrees(s, h, g);
    RouteOf(s);
    RouteOf(s + "/");
    FirstTreeIsBuilt(s, h);
    BothTreeIsBuilt(s, h, g);
    forall k | 0 <= k < 2
      ensures IsRoute(run[k].pattern)
      ensures AddStep(roots[k], false, Print(run[k].pattern), run[k].handler, roots[k + 1], run[k].ok)
    {
      if k == 1 { assert run[k] == Call(Lits(s + "/"), g, BothReturn(s)); }
    }
  }

  /** A call may follow a route by its twin with a slash: from then on the route itself is redirected to the twin. */
  lemma {:induction false} TwinHides(s: string, h: Handler, g: Handler)
    requires StaticPath(s)
    ensures IsRun(TwinRun(s, h, g), TwinTrees(s, h, g), false)
    ensures Searchable(BothTree(s, h, g)) && Get(BothTree(s, h, g), s) == Found(None, true, [])
  {
    TwinRuns(s, h, g);
    RunIsRoot(TwinRun(s, h, g), TwinTrees(s, h, g), false, 2);
    WellFormedIsSearchable(BothTree(s, h, g));
    if s != "/" && s[|s| - 1] == '/' {
      var root, r := BothTree(s, h, g), s[..|s| - 1];
      assert s == r + "/" && s[|r|..] == "/";
      assert GetFrom(root, 0, "/") == AtEnd(root.kids[0]);
    }
  }

  /** Where the twin is refused, as after any path without a final slash, the two are redirected to each other. */
  lemma {:induction false} TwinsRedirectInCircles(s: string, h: Handler, g: Handler)
    requires StaticPath(s) && !BothReturn(s)
    ensures IsRun(TwinRun(s, h, g), TwinTrees(s, h, g), false) && Searchable(BothTree(s, h, g))
    ensures Get(BothTree(s, h, g), s).tsr && Toggled(s) == s + "/"
    ensures Get(BothTree(s, h, g), s + "/").tsr && Toggled(s + "/") == s
  {
    var root, t := BothTree(s, h, g), s + "/";
    TwinHides(s, h, g);
    assert t[|s|..] == "/" && t[..|s|] == s && root.path < t;
    assert GetFrom(root, 0, "/") == AtEnd(MARKER);
  }

  // ----- sets without twins --------------------------------------------------------------------------------

  /** The calls register paths of the set. */
  ghost predicate RegistersOnly(run: seq<Call>, paths: iset<string>) {
    forall k :: 0 <= k < |run| ==> exists s :: s in paths && run[k].pattern == Lits(s)
  }

  /** Every run that registers paths of the set answers each path with the handler registered last for it. */
  ghost predicate AnswersAll(paths: iset<string>) {
    forall run, roots, mutable, k, s ::
      IsRun(run, roots, mutable) && RegistersOnly(run, paths) && AnswerDue(run, k, s) ==>
        Answers(roots, run, k, s)
  }

  predicate AnswerDue(run: seq<Call>, k: nat, s: string) { k < |run| && Latest(run, k) && run[k].pattern == Lits(s) }

  predicate Answers(roots: seq<Trie>, run: seq<Call>, k: nat, s: string) {
    && k < |run| < |roots| && Searchable(roots[|run|])
    && Get(roots[|run|], s) == Found(Some(run[k].handler), false, [])
  }

  ghost function Texts(paths: iset<string>): iset<Pattern> { iset s | s in paths :: Lits(s) }

  lemma {:induction false} TextsAreRoutes(paths: iset<string>)
    requires forall s :: s in paths ==> StaticPath(s)
    requires forall s :: s in paths ==> s + "/" !in paths
    ensures Registrable(Texts(paths)) && OneNamed(Texts(paths)) && TwinFree(Texts(paths))
  {
    forall ps | ps in Texts(paths)
      ensures IsRoute(ps) && Placed(ps)
    {
      var s :| s in paths && ps == Lits(s);
      RouteOf(s);
    }
    forall a, b | a in Texts(paths) && b in Texts(paths)
      ensures b != a + SLASH
    {
      var s :| s in paths && a == Lits(s);
      var t :| t in paths && b == Lits(t);
      assert a + SLASH == Lits(s + "/");
      if b == a + SLASH { LitsInjective([], t, s + "/"); }
    }
  }

  lemma {:induction false} TwinIsFound(paths: iset<string>, s: string)
    requires StaticPath(s) && s in paths && s + "/" in paths
    ensures !AnswersAll(paths)
  {
    var h := Serve(0);
    var run, roots := TwinRun(s, h, h), TwinTrees(s, h, h);
    TwinHides(s, h, h);
    if run[1].pattern == run[0].pattern { LitsInjective([], s + "/", s); }
    assert AnswerDue(run, 0, s) && !Answers(roots, run, 0, s);
    assert RegistersOnly(run, paths);
  }

  /**
   For every set of literal paths: all runs that register paths of the set, mutable or not, refused calls included,
   answer each registered path with its handler, exactly when no path of the set is another one with a slash more.
   */
  lemma {:induction false} AnswersAllIffTwinFree(paths: iset<string>)
    requires forall s :: s in paths ==> StaticPath(s)
    ensures AnswersAll(paths) <==> forall s :: s in paths ==> s + "/" !in paths
  {
    if forall s :: s in paths ==> s + "/" !in paths {
      TextsAreRoutes(paths);
      forall run, roots, mutable, k, s | IsRun(run, roots, mutable) && RegistersOnly(run, paths) && AnswerDue(run, k, s)
        ensures Answers(roots, run, k, s)
      {
        RunAnswersLiteral(run, roots, mutable, Texts(paths), k, s);
      }
    } else {
      var s :| s in paths && s + "/" in paths;
      TwinIsFound(paths, s);
    }
  }
}
