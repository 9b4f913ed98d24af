/**
 Two redirects in a row: the any-method tree redirects a request to a path that the method's own tree
 redirects once more. A reachable table and the three answers show that the bound of two is met.
 */
module TwoRedirects {
  import opened Text
  import opened Trie
  import opened RouteTable
  import opened Dispatch
  import RouteTree
  import StaticMap
  import Redirect

  // ----- the run ------------------------------------------------------------------------------------------

  const GET := "GET"

  function GetTree(h: Handler, g: Handler): Trie { Redirect.CutTree("/a/", h, g) }

  function AnyTree(w: Handler): Trie { Redirect.SlashTree("/A", w) }

  function FirstTree(g: Handler): Trie { RouteTree.PlainTree("/a/b", g) }

  lemma {:induction false} TreesAreBuilt(h: Handler, g: Handler, w: Handler)
    ensures AddStep(EMPTY, false, "/a/b", g, FirstTree(g), true)
    ensures AddStep(FirstTree(g), false, "/a/", h, GetTree(h, g), true)
    ensures AddStep(EMPTY, false, "/A/", w, AnyTree(w), true)
  {
    assert "/a/" + "b" == "/a/b" && "/A" + "/" == "/A/";
    Redirect.CutTreeIsBuilt("/a/", h, g);
    Redirect.SlashTreeIsBuilt("/A", w);
  }

  lemma {:induction false} OnePathHeld(s: string, h: Handler, root: Trie)
    requires StaticMap.StaticPath(s) && AddStep(EMPTY, false, s, h, root, true)
    ensures StaticMap.Holds(root, map[s := h]) && RouteTree.IsRoot(root)
  {
    StaticMap.NothingHeld();
    StaticMap.AddNew(EMPTY, false, s, h, root, true, map[]);
    RouteTree.EmptyIsRoot();
  }

  lemma {:induction false} TwoPathsHeld(s: string, g: Handler, first: Trie, t: string, h: Handler, root: Trie)
    requires StaticMap.Holds(first, map[s := g]) && StaticMap.StaticPath(t) && s != t && !StaticMap.Toggles(t, s)
    requires AddStep(first, false, t, h, root, true)
    ensures StaticMap.Holds(root, map[s := g][t := h]) && RouteTree.IsRoot(root)
  {
    StaticMap.AddNew(first, false, t, h, root, true, map[s := g]);
    RouteTree.EmptyIsRoot();
  }

  /** The tree of GET holds a map of static paths, none of which ends in a doubled slash. */
  lemma {:induction false} GetTreeHolds(h: Handler, g: Handler)
    ensures StaticMap.Holds(GetTree(h, g), map["/a/b" := g]["/a/" := h])
    ensures RouteTree.IsRoot(FirstTree(g)) && RouteTree.IsRoot(GetTree(h, g))
  {
    TreesAreBuilt(h, g, g);
    PathsAreApart();
    TwoPathsAreHeld("/a/b", g, FirstTree(g), "/a/", h, GetTree(h, g));
  }

  lemma {:induction false} PathsAreApart()
    ensures StaticMap.StaticPath("/a/b") && StaticMap.StaticPath("/a/") && "/a/b" != "/a/"
    ensures !StaticMap.Toggles("/a/", "/a/b")
  {
    assert |"/a/"| == 3 && |"/a/b"| == 4 && |"/a/b" + "/"| == 5 && ("/a/" + "/")[3] == '/' && "/a/b"[3] == 'b';
  }

  lemma {:induction false} TwoPathsAreHeld(s: string, g: Handler, first: Trie, t: string, h: Handler, root: Trie)
    requires StaticMap.StaticPath(s) && StaticMap.StaticPath(t) && s != t && !StaticMap.Toggles(t, s)
    requires AddStep(EMPTY, false, s, g, first, true) && AddStep(first, false, t, h, root, true)
    ensures StaticMap.Holds(root, map[s := g][t := h]) && RouteTree.IsRoot(first) && RouteTree.IsRoot(root)
  {
    OnePathHeld(s, g, first);
    TwoPathsHeld(s, g, first, t, h, root);
  }

  lemma {:induction false} NoDoubledPaths(h: Handler, g: Handler, w: Handler)
    ensures Redirect.DoubledPathsCovered(map["/a/b" := g]["/a/" := h])
    ensures Redirect.DoubledPathsCovered(map["/A/" := w])
  {
    assert "/a/b"[2..] == "/b" && "/a/"[1..] == "a/" && "/A/"[1..] == "A/";
  }

  function Calls(h: Handler, g: Handler, w: Handler): seq<Op> {
    [Register(GET, "/a/b", g, true), Register(GET, "/a/", h, true), Register(WILD, "/A/", w, true)]
  }

  predicate Plain(op: Op) { op.Register? && op.ok && op.verb != "" && StaticMap.StaticPath(op.path) }

  /** Two registrations under one method and then one under another, on an empty table. */
  lemma {:induction false} TablesAreReached(x: Op, y: Op, z: Op, a: Trie, b: Trie, c: Trie)
    returns (tables: seq<Table>)
    requires Plain(x) && Plain(y) && Plain(z) && x.verb == y.verb != z.verb
    requires RouteTree.IsRoot(a) && RouteTree.IsRoot(b) && RouteTree.IsRoot(c) && a != EMPTY
    requires AddStep(EMPTY, false, x.path, x.handler, a, true) && AddStep(a, false, y.path, y.handler, b, true)
    requires AddStep(EMPTY, false, z.path, z.handler, c, true)
    ensures IsRun([x, y, z], tables) && GoodTable(tables[3])
    ensures TreeOf(tables[3], x.verb) == Some(b) && TreeOf(tables[3], z.verb) == Some(c)
  {
    NewIsGood();
    NewHasNoTree(x.verb);
    NewHasNoTree(z.verb);
    var one := RegistersPath(NEW, x.verb, x.path, x.handler, EMPTY, a);
    var two := RegistersPath(one, y.verb, y.path, y.handler, a, b);
    var three := RegistersPath(two, z.verb, z.path, z.handler, EMPTY, c);
    tables := [NEW, one, two, three];
    ThreeSteps(x, y, z, one, two, three);
  }

  lemma {:induction false} ThreeSteps(x: Op, y: Op, z: Op, one: Table, two: Table, three: Table)
    requires OpStep(NEW, x, one) && OpStep(one, y, two) && OpStep(two, z, three)
    ensures IsRun([x, y, z], [NEW, one, two, three])
  {
    var ops, tables := [x, y, z], [NEW, one, two, three];
    forall i | 0 <= i < 3
      ensures OpStep(tables[i], ops[i], tables[i + 1])
    {
      if i == 0 {
      } else if i == 1 {
      } else {
        assert i == 2;
      }
    }
  }

  lemma {:induction false} NewHasNoTree(verb: string)
    ensures TreeOf(NEW, verb) == None
  {
  }

  lemma {:induction false} BuiltTables(h: Handler, g: Handler, w: Handler) returns (tables: seq<Table>)
    ensures IsRun(Calls(h, g, w), tables) && GoodTable(tables[3])
    ensures TreeOf(tables[3], GET) == Some(GetTree(h, g)) && TreeOf(tables[3], WILD) == Some(AnyTree(w))
    ensures HoldsStatic(tables[3], GET) && HoldsStatic(tables[3], WILD)
  {
    var calls := Calls(h, g, w);
    GetTreeHolds(h, g);
    TreesAreBuilt(h, g, w);
    OnePathHeld("/A/", w, AnyTree(w));
    CallsArePlain(h, g, w);
    tables := TablesAreReached(calls[0], calls[1], calls[2], FirstTree(g), GetTree(h, g), AnyTree(w));
    TreesAreStatic(tables[3], h, g, w);
  }

  lemma {:induction false} CallsArePlain(h: Handler, g: Handler, w: Handler)
    ensures var c := Calls(h, g, w); Plain(c[0]) && Plain(c[1]) && Plain(c[2])
  {
  }

  lemma {:induction false} TreesAreStatic(t: Table, h: Handler, g: Handler, w: Handler)
    requires TreeOf(t, GET) == Some(GetTree(h, g)) && TreeOf(t, WILD) == Some(AnyTree(w))
    ensures HoldsStatic(t, GET) && HoldsStatic(t, WILD)
  {
    GetTreeHolds(h, g);
    TreesAreBuilt(h, g, w);
    OnePathHeld("/A/", w, AnyTree(w));
    NoDoubledPaths(h, g, w);
    HoldsIsStatic(t, GET, GetTree(h, g), map["/a/b" := g]["/a/" := h]);
    HoldsIsStatic(t, WILD, AnyTree(w), map["/A/" := w]);
  }

  lemma {:induction false} HoldsIsStatic(t: Table, verb: string, root: Trie, m: map<string, Handler>)
    requires TreeOf(t, verb) == Some(root) && StaticMap.Holds(root, m) && Redirect.DoubledPathsCovered(m)
    ensures HoldsStatic(t, verb)
  {
  }

  // ----- the answers ---------------------------------------------------------------------------------------

  const ALL: Options := Options(Redirect.Options(true, true), true, true)

  function Ask(path: string): Request { Request(GET, path, path, false) }

  lemma {:induction false} GetTreeAnswers(h: Handler, g: Handler)
    requires Searchable(GetTree(h, g))
    ensures TryTree(GetTree(h, g), Ask("/a"), ALL) == None
    ensures TryTree(GetTree(h, g), Ask("/A/"), ALL) == Some(Redirected(301, "/a/"))
    ensures TryTree(GetTree(h, g), Ask("/a/"), ALL) == Some(Served(h))
  {
    assert EqualFold("/A/", "/a/");
  }

  lemma {:induction false} AnyTreeAnswers(w: Handler)
    requires Searchable(AnyTree(w))
    ensures TryTree(AnyTree(w), Ask("/a"), ALL) == Some(Redirected(301, "/A/"))
  {
    assert EqualFold("/a", "/A") && "/A" + "/" == "/A/";
  }

  /**
   GET holds "/a/b" and "/a/", the any-method tree "/A/": GET "/a" is redirected to "/A/", that to "/a/", and
   that is served. Nothing here ends in a doubled slash or differs from another route of its tree by a slash
   only.
   */
  lemma {:induction false} RedirectedTwice(h: Handler, g: Handler, w: Handler) returns (tables: seq<Table>)
    ensures IsRun(Calls(h, g, w), tables) && AllSearchable(tables[3])
    ensures HoldsStatic(tables[3], GET) && HoldsStatic(tables[3], WILD)
    ensures Handled(tables[3], Ask("/a"), ALL) == Redirected(301, "/A/")
    ensures Handled(tables[3], Ask("/A/"), ALL) == Redirected(301, "/a/")
    ensures Handled(tables[3], Ask("/a/"), ALL) == Served(h)
  {
    var b, c := GetTree(h, g), AnyTree(w);
    tables := BuiltTables(h, g, w);
    GoodIsSearchable(tables[3]);
    GetTreeAnswers(h, g);
    AnyTreeAnswers(w);
    AnswersFollow(tables[3], b, c, h);
  }

  lemma {:induction false} AnswersFollow(t: Table, b: Trie, c: Trie, h: Handler)
    requires AllSearchable(t) && TreeOf(t, GET) == Some(b) && TreeOf(t, WILD) == Some(c)
    requires Searchable(b) && Searchable(c)
    requires TryTree(b, Ask("/a"), ALL) == None && TryTree(c, Ask("/a"), ALL) == Some(Redirected(301, "/A/"))
    requires TryTree(b, Ask("/A/"), ALL) == Some(Redirected(301, "/a/"))
    requires TryTree(b, Ask("/a/"), ALL) == Some(Served(h))
    ensures Handled(t, Ask("/a"), ALL) == Redirected(301, "/A/")
    ensures Handled(t, Ask("/A/"), ALL) == Redirected(301, "/a/")
    ensures Handled(t, Ask("/a/"), ALL) == Served(h)
  {
  }
}
