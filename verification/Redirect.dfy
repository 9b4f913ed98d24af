/**
 Redirects: the slash toggle and the case-fixed path of `TryRedirect`. On a tree of static
 routes a redirect always leads to a registered route, so no redirect leads to another one.
 */
module Redirect {
  import opened Text
  import opened WildPath
  import opened Pattern
  import opened Trie
  import opened Conservation
  import opened RouteTree
  import opened TrailingSlash
  import opened Lookup
  import opened CaseFix
  import opened StaticRoutes
  import opened StaticMap

  datatype Options = Options(redirectTrailingSlash: bool, redirectFixedPath: bool)

  /** `CleanPath`: a final '.' is dropped. */
  function CleanPath(path: string): string {
    if path != "" && path[|path| - 1] == '.' then path[..|path| - 1] else path
  }

  /** `FindCaseInsensitivePath`: the fixed path, unless fixing it would need a forbidden slash fix. */
  function FindCaseInsensitivePath(root: Trie, path: string, fixTrailingSlash: bool): Option<string>
    requires Searchable(root)
  {
    match Find(root, path)
    case NotFound => None
    case Fixed(text, tsr) => if tsr && !fixTrailingSlash then None else Some(text)
  }

  /**
   The path `TryRedirect` redirects to. `normalized` is the URI path after the HTTP library's own
   normalisation, which the case-insensitive search uses instead of the raw `path`.
   */
  function Target(root: Trie, tsr: bool, path: string, normalized: string, opts: Options): Option<string>
    requires Searchable(root)
  {
    if tsr && opts.redirectTrailingSlash then Some(Toggled(path))
    else if opts.redirectFixedPath then FindCaseInsensitivePath(root, CleanPath(normalized), opts.redirectTrailingSlash)
    else None
  }

  /** A path some stored static pattern fits is itself stored and answered. */
  lemma {:induction false} ServedIsAnswered(root: Trie, path: string)
    requires StaticTree(root) && Served(Stored(root), path)
    ensures Get(root, path).handler.Some?
  {
    var ps, vals :| ps in Stored(root) && Fits(ps, vals, path, false);
    var r :| r in Routes(root, []) && r.0 == ps;
    var s := StaticRoute(root, [], r);
    assert ps == Lits(s);
    FitsLitsOnly(s, vals, path);
    assert r == (Lits(path), r.1);
    GetIsExact(root, path, r.1);
  }

  /**
   Any redirect chosen for a path without a handler leads, in one step, to a path that is answered
   with a handler; in particular not back to the path itself.
   */
  lemma {:induction false} RedirectIsFinal(root: Trie, path: string, normalized: string, opts: Options)
    requires StaticTree(root) && DoublesCovered(Stored(root))
    requires path != "/" && Get(root, path).handler == None
    ensures var t := Target(root, Get(root, path).tsr, path, normalized, opts);
      t.Some? ==> Get(root, t.value).handler.Some? && t.value != path
  {
    var g := Get(root, path);
    var t := Target(root, g.tsr, path, normalized, opts);
    if t.Some? {
      if g.tsr && opts.redirectTrailingSlash {
        RecommendationIsServed(root, path);
      } else {
        FindIsServed(root, CleanPath(normalized));
      }
      ServedIsAnswered(root, t.value);
    }
  }

  /** A static path ending in a doubled slash. */
  predicate EndsInTwoSlashes(s: string) { |s| >= 2 && s[|s| - 2..] == "//" }

  /** Where a path of the map ends in two slashes, the path before them is in the map too. */
  predicate DoubledPathsCovered(m: map<string, Handler>) {
    forall s :: s in m && EndsInTwoSlashes(s) ==> s[..|s| - 2] in m
  }

  lemma {:induction false} StaticDoublesCovered(stored: set<Pattern>, m: map<string, Handler>)
    requires Lists(stored, m) && DoubledPathsCovered(m)
    ensures DoublesCovered(stored)
  {
    forall p | SlashEnd(p) && Slashed(stored, p)
      ensures p[..|p| - 1] in stored
    {
      assert forall name :: (p + SLASH + [Rest(name)])[|p| + 1] == Rest(name);
      DoubledIsCovered(stored, m, p);
    }
  }

  lemma {:induction false} DoubledIsCovered(stored: set<Pattern>, m: map<string, Handler>, p: Pattern)
    requires Lists(stored, m) && DoubledPathsCovered(m) && SlashEnd(p) && p + SLASH in stored
    ensures p[..|p| - 1] in stored
  {
    var s :| s in m && p + SLASH == Lits(s);
    var n := |s| - 2;
    assert Lits(s)[n] == p[|p| - 1] == Lit('/') && Lits(s)[n + 1] == Lit('/');
    assert s[n..] == "//";
    assert Lits(s[..n]) == p[..|p| - 1];
  }

  /**
   Over every run of static registrations, re-registrations included, without slash twins and with paths
   ending in a doubled slash covered: a redirect leads in one step to a registered path that is answered, so
   it is never followed by a second redirect.
   */
  lemma {:induction false} RunRedirectsOnce(
    run: seq<StaticCall>, roots: seq<Trie>, mutable: bool, path: string, normalized: string, opts: Options)
    requires IsStaticRun(run, roots, mutable) && DoubledPathsCovered(Described(run))
    requires path != "/" && Searchable(roots[|run|]) && Get(roots[|run|], path).handler == None
    ensures var t := Target(roots[|run|], Get(roots[|run|], path).tsr, path, normalized, opts);
      t.Some? ==>
        && t.value in Described(run) && t.value != path
        && Get(roots[|run|], t.value).handler == Some(Described(run)[t.value])
  {
    var root, m := roots[|run|], Described(run);
    RunHolds(run, roots, mutable, |run|);
    assert run[..|run|] == run;
    HeldRedirectsOnce(root, m, path, normalized, opts);
  }

  lemma {:induction false} HeldRedirectsOnce(
    root: Trie, m: map<string, Handler>, path: string, normalized: string, opts: Options)
    requires Holds(root, m) && DoubledPathsCovered(m)
    requires path != "/" && Searchable(root) && Get(root, path).handler == None
    ensures var t := Target(root, Get(root, path).tsr, path, normalized, opts);
      t.Some? ==> t.value in m && Get(root, t.value).handler == Some(m[t.value]) && t.value != path
  {
    var t := Target(root, Get(root, path).tsr, path, normalized, opts);
    if root == EMPTY {
      assert t == None;
    } else {
      StoredIs(root, m);
      StaticDoublesCovered(Stored(root), m);
      RedirectIsFinal(root, path, normalized, opts);
      if t.Some? { HoldsAnswers(root, m, t.value); }
    }
  }

  // ----- why routes must not end in a doubled slash ------------------------------------------------

  /** The storage after registering only `s + "/"`. */
  function SlashTree(s: string, h: Handler): Trie {
    Trie(Root, s, true, None, [NewNode("/").(handler := Some(h))], None, [])
  }

  lemma {:induction false} SlashTreeIsBuilt(s: string, h: Handler)
    requires StaticPath(s)
    ensures AddStep(EMPTY, false, s + "/", h, SlashTree(s, h), true)
  {
    var path := s + "/";
    NoWildInLiterals(path);
    NewNodeIsWellFormed(path);
    AttachHangs(EMPTY, NewNode(path), h);
    assert path[0..] == path && path[..|s|] == s && path[|s|..] == "/";
    var c, t := Hung(NewNode(path), h), SlashTree(s, h);
    assert [] + [c] == [c];
    assert c.(kind := Root) == t;
    assert Sorted(t.kids[0]);
    SortedStays(t);
  }

  /** The storage after registering only "/a//". */
  function DoubledTree(h: Handler): Trie { SlashTree("/a/", h) }

  lemma {:induction false} DoubledTreeIsBuilt(h: Handler)
    ensures AddStep(EMPTY, false, "/a//", h, DoubledTree(h), true)
  {
    assert "/a/" + "/" == "/a//";
    SlashTreeIsBuilt("/a/", h);
  }

  /** With the single route "/a//", the path "/a/" is redirected to "/a", which nothing serves. */
  lemma {:induction false} DoubledSlashMisleads(h: Handler)
    ensures AddStep(EMPTY, false, "/a//", h, DoubledTree(h), true)
    ensures Searchable(DoubledTree(h)) && Get(DoubledTree(h), "/a/").tsr
    ensures Toggled("/a/") == "/a" && !Served(Stored(DoubledTree(h)), "/a")
  {
    var t := DoubledTree(h);
    DoubledTreeIsBuilt(h);
    assert "/a/"[..2] == "/a";
    RoutesOfOne(t.kids[0], [] + TextOf(t));
    OneRoute(t.kids[0], [] + TextOf(t), h);
    forall ps, vals | ps in Stored(t) && Fits(ps, vals, "/a", false)
      ensures false
    {
      assert ps == [] + TextOf(t) + TextOf(t.kids[0]);
      assert ps == Lits("/a//");
      FitsLitsOnly("/a//", vals, "/a");
    }
  }

  // ----- why no condition on the stored routes alone is exact --------------------------------------

  function TailNode(g: Handler): Trie { NewNode("b").(handler := Some(g), kids := [MARKER]) }

  /** The storage after registering `s + "b"` and then `s`, which ends in a slash. */
  function CutTree(s: string, h: Handler, g: Handler): Trie {
    Trie(Root, s, false, Some(h), [TailNode(g), MARKER], None, [])
  }

  lemma {:induction false} CutTreeIsBuilt(s: string, h: Handler, g: Handler)
    requires StaticPath(s) && s != "/"
    ensures AddStep(EMPTY, false, s + "b", g, PlainTree(s + "b", g), true)
    ensures AddStep(PlainTree(s + "b", g), false, s, h, CutTree(s, h, g), true)
  {
    PlainTreeIsBuilt(s + "b", g);
    HandlerIsSet(s, h, g);
    CutTreeStays(s, h, g);
    assert Promote(CutTree(s, h, g)) == CutTree(s, h, g);
  }

  lemma {:induction false} CutTreeStays(s: string, h: Handler, g: Handler)
    ensures SortsTo(CutTree(s, h, g), CutTree(s, h, g))
  {
    assert Sorted(MARKER) && Sorted(TailNode(g));
    SortedStays(CutTree(s, h, g));
  }

  lemma {:induction false} HandlerIsSet(s: string, h: Handler, g: Handler)
    requires StaticPath(s) && s != "/"
    ensures var r := AddAtRoot(PlainTree(s + "b", g), s, h); r.node == CutTree(s, h, g) && r.err == None
  {
    var root := PlainTree(s + "b", g);
    assert root.path[..|s|] == s && root.path[|s|..] == "b" && s[|s|..] == "";
    assert Lcp(s, root.path) == |s| by { assert s[..|s|] == root.path[..|s|]; }
    var cut := Split(root, |s|);
    assert cut.kids == [TailNode(g)];
    assert FirstSlash(cut.kids) == 1 && cut.kids + [MARKER] == CutTree(s, h, g).kids;
  }

  /** The storage after registering "/a//" and then "/a//b". */
  function DoubledFirst(h: Handler, g: Handler): Trie {
    Trie(Root, "/a/", true, None, [NewNode("/").(handler := Some(h), kids := [TailNode(g)])], None, [])
  }

  /** The storage after registering "/a//b" and then "/a//". */
  function DoubledLast(h: Handler, g: Handler): Trie { CutTree("/a//", h, g) }

  lemma {:induction false} TailIsHung(n: Trie, g: Handler)
    ensures Insert(n, "b", g).node == n.(kids := n.kids + [TailNode(g)]) && Insert(n, "b", g).err == None
  {
    NoWildInLiterals("b");
    assert [] + [MARKER] == [MARKER];
  }

  lemma {:induction false} DoubledFirstIsBuilt(h: Handler, g: Handler)
    ensures AddStep(DoubledTree(h), false, "/a//b", g, DoubledFirst(h, g), true)
  {
    var t := DoubledFirst(h, g);
    TailIsAdded(h, g);
    assert Sorted(MARKER) && Sorted(TailNode(g)) && Sorted(t.kids[0]);
    SortedStays(t);
  }

  lemma {:induction false} TailIsAdded(h: Handler, g: Handler)
    ensures var r := AddAtRoot(DoubledTree(h), "/a//b", g); r.node == DoubledFirst(h, g) && r.err == None
  {
    var s, root := "/a//b", DoubledTree(h);
    var child := root.kids[0];
    assert Lcp(s, root.path) == 3 by { assert s[..3] == root.path; }
    assert s[3..] == "/b" && "/b"[1..] == "b";
    assert Lcp("/b", child.path) == 1 by { assert "/b"[..1] == child.path; }
    TailIsHung(child, g);
    assert [] + [TailNode(g)] == [TailNode(g)];
    assert Add(child, "b", g) == Insert(child, "b", g);
  }

  function DoubledFirstRun(h: Handler, g: Handler): seq<Call> {
    [Call(Lits("/a//"), h, true), Call(Lits("/a//b"), g, true)]
  }

  function DoubledLastRun(h: Handler, g: Handler): seq<Call> {
    [Call(Lits("/a//b"), g, true), Call(Lits("/a//"), h, true)]
  }

  lemma {:induction false} PairRun(a: Call, b: Call, mid: Trie, last: Trie)
    requires IsRoute(a.pattern) && AddStep(EMPTY, false, Print(a.pattern), a.handler, mid, true) && a.ok
    requires IsRoute(b.pattern) && AddStep(mid, false, Print(b.pattern), b.handler, last, true) && b.ok
    ensures IsRun([a, b], [EMPTY, mid, last], false) && Stored(last) == {a.pattern, b.pattern}
  {
    RunConserves([a, b], [EMPTY, mid, last], false);
    AcceptedPair(a, b);
  }

  lemma {:induction false} AcceptedPair(a: Call, b: Call)
    requires a.ok && b.ok
    ensures Patterns(Accepted([a, b])) == {a.pattern, b.pattern}
  {
    var r, s := (a.pattern, a.handler), (b.pattern, b.handler);
    assert [a, b][..1] == [a] && [a][..0] == [];
    assert Accepted([a]) == Accepted([]) + multiset{r};
    assert Accepted([a, b]) == multiset{r} + multiset{s};
    PatternsJoin(multiset{r}, multiset{s});
  }

  lemma {:induction false} PathPairRun(s: string, g: Handler, t: string, h: Handler, mid: Trie, last: Trie)
    requires StaticPath(s) && StaticPath(t)
    requires AddStep(EMPTY, false, s, g, mid, true) && AddStep(mid, false, t, h, last, true)
    ensures IsRun([Call(Lits(s), g, true), Call(Lits(t), h, true)], [EMPTY, mid, last], false)
    ensures Stored(last) == {Lits(s), Lits(t)}
  {
    RouteOf(s);
    RouteOf(t);
    PairRun(Call(Lits(s), g, true), Call(Lits(t), h, true), mid, last);
  }

  lemma {:induction false} DoubledFirstRuns(h: Handler, g: Handler)
    ensures IsRun(DoubledFirstRun(h, g), [EMPTY, DoubledTree(h), DoubledFirst(h, g)], false)
    ensures Stored(DoubledFirst(h, g)) == {Lits("/a//"), Lits("/a//b")}
  {
    DoubledTreeIsBuilt(h);
    DoubledFirstIsBuilt(h, g);
    PathPairRun("/a//", h, "/a//b", g, DoubledTree(h), DoubledFirst(h, g));
  }

  lemma {:induction false} DoubledLastRuns(h: Handler, g: Handler)
    ensures IsRun(DoubledLastRun(h, g), [EMPTY, PlainTree("/a//b", g), DoubledLast(h, g)], false)
    ensures Stored(DoubledLast(h, g)) == {Lits("/a//"), Lits("/a//b")}
  {
    assert "/a//" + "b" == "/a//b";
    CutTreeIsBuilt("/a//", h, g);
    PathPairRun("/a//b", g, "/a//", h, PlainTree("/a//b", g), DoubledLast(h, g));
  }

  /**
   The same two routes, registered in two orders. In one order the path "/a/" is redirected to "/a", which
   nothing serves; in the other every recommendation is served. So no condition on the stored routes alone
   tells when all recommendations are sound.
   */
  lemma {:induction false} OrderDecides(h: Handler, g: Handler, path: string)
    ensures IsRun(DoubledFirstRun(h, g), [EMPTY, DoubledTree(h), DoubledFirst(h, g)], false)
    ensures IsRun(DoubledLastRun(h, g), [EMPTY, PlainTree("/a//b", g), DoubledLast(h, g)], false)
    ensures Stored(DoubledFirst(h, g)) == Stored(DoubledLast(h, g))
    ensures Searchable(DoubledFirst(h, g)) && Get(DoubledFirst(h, g), "/a/").tsr
    ensures !Served(Stored(DoubledFirst(h, g)), Toggled("/a/"))
    ensures Searchable(DoubledLast(h, g))
    ensures Get(DoubledLast(h, g), path).tsr ==> Served(Stored(DoubledLast(h, g)), Toggled(path))
  {
    DoubledFirstRuns(h, g);
    DoubledLastRuns(h, g);
    DoubledFirstAdvice(h, g);
    DoubledLastAdvice(h, g, path);
  }

  lemma {:induction false} DoubledFirstAdvice(h: Handler, g: Handler)
    ensures Searchable(DoubledFirst(h, g)) && Get(DoubledFirst(h, g), "/a/").tsr
    ensures !Served({Lits("/a//"), Lits("/a//b")}, Toggled("/a/"))
  {
    assert Searchable(MARKER) && Searchable(TailNode(g)) && Searchable(DoubledFirst(h, g).kids[0]);
    assert "/a/"[..2] == "/a";
    forall ps, vals | ps in {Lits("/a//"), Lits("/a//b")} && Fits(ps, vals, "/a", false)
      ensures false
    {
      var s := if ps == Lits("/a//") then "/a//" else "/a//b";
      FitsLitsOnly(s, vals, "/a");
    }
  }

  /** A bare marker that comes last recommends nothing but dropping the slash. */
  lemma {:induction false} MarkerAdvice(n: Trie, k: nat, path: string)
    requires Searchable(n) && path != "" && |n.kids| == k + 1 && n.kids[k] == MARKER && n.wildcard == None
    ensures GetFrom(n, k, path) == if path == "/" then Found(None, true, []) else MISS
  {
    if MARKER.path < path {
      assert GetFrom(MARKER, 0, path[1..]) == MISS;
    }
  }

  lemma {:induction false} TailAdvice(h: Handler, g: Handler, rest: string)
    requires Searchable(DoubledLast(h, g)) && rest != "" && rest != "/" && GetFrom(DoubledLast(h, g), 0, rest).tsr
    ensures rest == "b/"
  {
    var root, c := DoubledLast(h, g), TailNode(g);
    MarkerAdvice(root, 1, rest);
    assert root.kids[0] == c && rest != c.path;
    assert c.path < rest && rest == "b" + rest[1..] && rest[1..] != "";
    MarkerAdvice(c, 0, rest[1..]);
  }

  lemma {:induction false} DoubledLastAdvice(h: Handler, g: Handler, path: string)
    ensures Searchable(DoubledLast(h, g))
    ensures Get(DoubledLast(h, g), path).tsr ==> Served({Lits("/a//"), Lits("/a//b")}, Toggled(path))
  {
    var root, c := DoubledLast(h, g), TailNode(g);
    assert Searchable(MARKER) && Searchable(c);
    if Get(root, path).tsr {
      var rest := path[4..];
      assert path == "/a//" + rest;
      MarkerAdvice(root, 1, rest);
      if rest == "/" {
        assert path[..|path| - 1] == "/a//";
      } else {
        TailAdvice(h, g, rest);
        assert path[..|path| - 1] == "/a//b";
      }
      FitsLits(Toggled(path), Toggled(path), false);
    }
  }
}
