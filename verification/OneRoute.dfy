/**
 A storage with a single route answers every path that fits it, with its handler and exactly the values captured.
 Two routes suffice for a dead end.
 */
module OneRoute {
  import opened Text
  import opened WildPath
  import opened Pattern
  import opened Trie
  import opened Conservation
  import opened RouteTree
  import opened Lookup
  import opened Refusals
  import opened Answered

  // ----- a chain of nodes ----------------------------------------------------------------------------------

  /** No node has more than one child. */
  predicate Chain(n: Trie) { |n.kids| <= 1 && forall k :: 0 <= k < |n.kids| ==> Chain(n.kids[k]) }

  /** Sorting a chain changes nothing. */
  lemma {:induction false} SortChain(a: Trie, b: Trie)
    requires Chain(a) && SortsTo(a, b)
    ensures b == a
    decreases a
  {
    var mid: seq<Trie> :| SortsEach(a, mid) && multiset(mid) == multiset(b.kids);
    assert |multiset(mid)| == |mid| && |multiset(b.kids)| == |b.kids|;
    if |mid| == 1 {
      SortChain(a.kids[0], mid[0]);
      assert mid[0] in multiset(b.kids);
    }
  }

  lemma {:induction false} HungChain(leaf: Trie, h: Handler)
    requires IsLeaf(leaf)
    ensures Chain(Hung(leaf, h))
  {
    var c := Hung(leaf, h);
    assert Chain(MARKER);
    if leaf.path != "/" && leaf.path[|leaf.path| - 1] == '/' { assert Chain(c.kids[0]); }
  }

  lemma {:induction false} InsertChain(n: Trie, ps: Pattern, h: Handler)
    requires Good(ps) && ps != [] && n.kids == []
    ensures Chain(Insert(n, Print(ps), h).node)
    decreases |ps|
  {
    var s := LitPrefix(ps);
    InsertCases(n, ps, h);
    if |s| == |ps| {
      NewNodeIsWellFormed(s);
      LeafChain(n, NewNode(s), h);
    } else if s != "" {
      InsertChain(NewNode(s), ps[|s|..], h);
      LinkChain(n, NewNode(s), Insert(NewNode(s), Print(ps[|s|..]), h));
    } else if ps[0].Rest? {
      WildcardChain(n, Print(ps), FindWild(Print(ps)).wp, h);
    } else if LastKey(ps) {
      KeyNodeIsWellFormed(ps);
      LeafChain(n, KeyNode(ps), h);
    } else {
      InsertChain(KeyNode(ps), ps[1..], h);
      LinkChain(n, KeyNode(ps), Insert(KeyNode(ps), Print(ps[1..]), h));
    }
  }

  lemma {:induction false} LeafChain(n: Trie, leaf: Trie, h: Handler)
    requires IsLeaf(leaf) && n.kids == []
    ensures Chain(Attach(n, leaf, h).node)
  {
    AttachHangs(n, leaf, h);
    HungChain(leaf, h);
    assert [] + [Hung(leaf, h)] == [Hung(leaf, h)];
  }

  lemma {:induction false} LinkChain(n: Trie, link: Trie, r: Outcome)
    requires n.kids == [] && Chain(r.node)
    ensures Chain(Under(n.(kids := n.kids + [link]), |n.kids|, r).node)
    ensures Under(n.(kids := n.kids + [link]), |n.kids|, r).node.kids == [r.node]
  {
    assert [] + [link] == [link] && [link][0 := r.node] == [r.node];
  }

  lemma {:induction false} WildcardChain(n: Trie, path: string, wp: WildPath, h: Handler)
    requires n.kids == [] && |wp.keys| > 0
    ensures Chain(InsertWildcard(n, path, wp, h).node)
  {
    var last := |n.path| - 1;
    if |path| == SegmentEnd(path, true) && n.path != "" && n.path[last] == '/' && n.path != "/" {
      var cut := Split(n, last).(tsr := true);
      var m := AttachWildcard(cut.kids[0], path, wp, h).node;
      assert Chain(m) && cut.kids[0 := m] == [m];
    }
  }

  // ----- looking through it --------------------------------------------------------------------------------

  lemma {:induction false} OnlyText(n: Trie, c: Trie, rest: string)
    requires Searchable(n) && Searchable(c) && n.kids == [c] && c.kind == Static && c.path != ""
    requires rest == "" || Settled(GetFromChild(c, rest))
    ensures GetFrom(n, 0, c.path + rest) == if rest == "" then AtEnd(c) else GetFromChild(c, rest)
  {
    assert (c.path + rest)[|c.path|..] == rest;
  }

  lemma {:induction false} OnlyKey(n: Trie, c: Trie, v: string, rest: string)
    requires Searchable(n) && Searchable(c) && n.kids == [c] && c.kind == Param && |c.keys| == 1
    requires '/' !in v && v + rest != ""
    requires if rest == "" then c.handler.Some? && !c.tsr
             else rest[0] == '/' && GetFromChild(c, rest).handler.Some? && !GetFromChild(c, rest).tsr
    ensures GetFrom(n, 0, v + rest) ==
      if rest == "" then Found(c.handler, false, [(c.keys[0], v)])
      else GetFromChild(c, rest).(writes := GetFromChild(c, rest).writes + [(c.keys[0], v)])
  {
    var path := v + rest;
    assert path[..|v|] == v && path[|v|..] == rest && (rest == "" ==> path == v);
    SegmentIs(path, |v|);
  }

  /** A hung literal text is answered. */
  lemma {:induction false} HungTextAnswers(n: Trie, s: string, h: Handler)
    requires Searchable(n) && s != "" && '{' !in s && n.kids == [Hung(NewNode(s), h)]
    ensures GetFrom(n, 0, s) == Found(Some(h), false, [])
  {
    var c, last := Hung(NewNode(s), h), |s| - 1;
    if s != "/" && s[last] == '/' {
      var d := c.kids[0];
      assert c.kids == [d] && d.path == "/" && s == c.path + "/";
      assert "/" == d.path + "";
      OnlyText(c, d, "");
      OnlyText(n, c, "/");
    } else {
      assert s == c.path + "";
      OnlyText(n, c, "");
    }
  }

  /** A hung final parameter is answered, with a slash behind it or not. */
  lemma {:induction false} HungKeyAnswers(n: Trie, ps: Pattern, v: string, h: Handler)
    requires Good(ps) && LastKey(ps) && Searchable(n) && n.kids == [Hung(KeyNode(ps), h)] && '/' !in v
    requires |ps| == 1 ==> v != ""
    ensures GetFrom(n, 0, v + (if |ps| == 1 then "" else "/")) == Found(Some(h), false, [(ps[0].name, v)])
  {
    var c := Hung(KeyNode(ps), h);
    KeyNodeIsWellFormed(ps);
    HungKeyShape(KeyNode(ps), h);
    HungShape(KeyNode(ps), h);
    if |ps| == 1 {
      assert ps[1..] != SLASH && PrintPart(ps[0]) + "" == PrintPart(ps[0]);
      OnlyKey(n, c, v, "");
    } else {
      assert ps[1..] == SLASH;
      var d := c.kids[0];
      assert c.kids == [d] && d.path == "/" && d.path + "" == "/";
      OnlyText(c, d, "");
      OnlyKey(n, c, v, "/");
      assert [] + [(ps[0].name, v)] == [(ps[0].name, v)];
    }
  }

  /** A text child with a wildcard and nothing else is answered, whatever comes behind it. */
  lemma {:induction false} OnlyWildcard(n: Trie, d: Trie, w: WildNode, v: string)
    requires Searchable(n) && Searchable(d) && n.kids == [d]
    requires d == NewNode(d.path).(wildcard := Some(w)) && d.path != ""
    ensures GetFrom(n, 0, d.path + v) == Found(Some(w.handler), false, [(w.key, v)])
  {
    assert v != "" ==> GetFromChild(d, v) == Found(Some(w.handler), false, [(w.key, v)]);
    OnlyText(n, d, v);
  }

  /** A wildcard behind literal text is answered, whatever it captures. */
  lemma {:induction false} HungRestAnswers(n: Trie, s: string, name: string, v: string, h: Handler)
    requires s != "" && '{' !in s && EndsInSlash(s) && GoodName(name) && Searchable(n)
    requires n.kids == [Insert(NewNode(s), Print([Rest(name)]), h).node]
    ensures GetFrom(n, 0, s + v) == Found(Some(h), false, [(name, v)])
  {
    var c, w := n.kids[0], WildNode(PrintPart(Rest(name)), name, h);
    RestNode(s, name, h);
    if s == "/" {
      OnlyWildcard(n, c, w, v);
    } else {
      OnlyWildcard(c, c.kids[0], w, v);
      OnlyText(n, c, c.kids[0].path + v);
      TextMoves(s, v);
    }
  }

  lemma {:induction false} TextMoves(s: string, v: string)
    requires EndsInSlash(s)
    ensures s[..|s| - 1] + ("/" + v) == s + v
  {
  }

  /** Where the wildcard goes: to the slash, cut off the text in front. */
  lemma {:induction false} RestNode(s: string, name: string, h: Handler)
    requires s != "" && '{' !in s && EndsInSlash(s) && GoodName(name)
    ensures var slash := NewNode("/").(wildcard := Some(WildNode(PrintPart(Rest(name)), name, h)));
      Insert(NewNode(s), Print([Rest(name)]), h).node ==
        if s == "/" then slash else NewNode(s[..|s| - 1]).(tsr := true, kids := [slash])
  {
    var q := [Rest(name)];
    assert q[1..] == [] && Good(q);
    InsertRestCase(NewNode(s), q, h);
    RestPrints(name);
    RestIsSegment(name);
    if s != "/" { assert s[|s| - 1..] == "/"; }
  }

  /** The chain inserted for a pattern answers every path that fits it. */
  lemma {:induction false} ChainAnswers(n: Trie, ps: Pattern, vals: seq<string>, path: string, h: Handler)
    requires WellFormed(n) && n.kids == [] && Good(ps) && Placed(ps) && ps != [] && !ps[0].Rest?
    requires Fits(ps, vals, path, false) && KeyFilled(ps, vals)
    ensures var m := Insert(n, Print(ps), h).node;
      && Searchable(m) && path != "" && |vals| == |Names(ps)|
      && GetFrom(m, 0, path) == Found(Some(h), false, Writes(Names(ps), vals))
    decreases |ps|
  {
    InsertStands(n, ps, h);
    WellFormedIsSearchable(Insert(n, Print(ps), h).node);
    FitsFill(ps, vals, path, false);
    if path == "" { FitsNothing(ps, vals, false); }
    if ps[0].Key? {
      KeyChainAnswers(n, ps, vals, path, h);
    } else {
      TextChainAnswers(n, ps, LitPrefix(ps), vals, path, h);
    }
  }

  /** A pattern and its path, cut behind the parameter in front. */
  lemma {:induction false} CutKey(ps: Pattern, vals: seq<string>, path: string)
    requires Good(ps) && ps != [] && ps[0].Key?
    requires Fits(ps, vals, path, false) && KeyFilled(ps, vals) && |vals| == |Names(ps)|
    ensures var v, rest := vals[0], path[SegmentEnd(path, false)..];
      && path == v + rest && '/' !in v && KeyFilled(ps[1..], vals[1..]) && Fits(ps[1..], vals[1..], rest, false)
    ensures |vals[1..]| == |Names(ps[1..])|
    ensures Writes(Names(ps), vals) == Writes(Names(ps[1..]), vals[1..]) + [(ps[0].name, vals[0])]
  {
    AfterSegment(ps, vals, path, false);
    assert Names(ps) == [ps[0].name] + Names(ps[1..]);
    assert Names(ps)[1..] == Names(ps[1..]);
  }

  lemma {:induction false} KeyChainAnswers(n: Trie, ps: Pattern, vals: seq<string>, path: string, h: Handler)
    requires n.kids == [] && Good(ps) && Placed(ps) && ps != [] && ps[0].Key? && path != ""
    requires Fits(ps, vals, path, false) && KeyFilled(ps, vals) && |vals| == |Names(ps)|
    requires Searchable(Insert(n, Print(ps), h).node)
    ensures GetFrom(Insert(n, Print(ps), h).node, 0, path) == Found(Some(h), false, Writes(Names(ps), vals))
    decreases |ps|, 2
  {
    var v, rest := vals[0], path[SegmentEnd(path, false)..];
    CutKey(ps, vals, path);
    if LastKey(ps) {
      LastKeyAnswers(n, ps, v, vals[1..], rest, h);
    } else {
      BehindKey(n, ps, v, vals[1..], rest, h);
    }
  }

  lemma {:induction false} LastKeyAnswers(
    n: Trie, ps: Pattern, v: string, vals: seq<string>, rest: string, h: Handler)
    requires n.kids == [] && Good(ps) && LastKey(ps) && Fits(ps[1..], vals, rest, false) && v + rest != ""
    requires '/' !in v && Searchable(Insert(n, Print(ps), h).node) && |vals| == |Names(ps[1..])|
    ensures GetFrom(Insert(n, Print(ps), h).node, 0, v + rest) ==
      Found(Some(h), false, Writes(Names(ps[1..]), vals) + [(ps[0].name, v)])
  {
    var m := Insert(n, Print(ps), h).node;
    InsertKeyCase(n, ps, h);
    KeyNodeIsWellFormed(ps);
    AttachHangs(n, KeyNode(ps), h);
    assert m.kids == [Hung(KeyNode(ps), h)];
    LastKeyRest(ps, vals, rest);
    HungKeyAnswers(m, ps, v, h);
    assert [] + [(ps[0].name, v)] == [(ps[0].name, v)];
  }

  lemma {:induction false} BehindKey(
    n: Trie, ps: Pattern, v: string, vals: seq<string>, rest: string, h: Handler)
    requires n.kids == [] && Good(ps) && Placed(ps) && ps != [] && ps[0].Key? && !LastKey(ps)
    requires Fits(ps[1..], vals, rest, false) && KeyFilled(ps[1..], vals) && |vals| == |Names(ps[1..])|
    requires '/' !in v && v + rest != "" && Searchable(Insert(n, Print(ps), h).node)
    ensures GetFrom(Insert(n, Print(ps), h).node, 0, v + rest) ==
      Found(Some(h), false, Writes(Names(ps[1..]), vals) + [(ps[0].name, v)])
    decreases |ps|, 0
  {
    var m, r := Insert(n, Print(ps), h).node, Insert(KeyNode(ps), Print(ps[1..]), h);
    InsertKeyCase(n, ps, h);
    KeyNodeIsWellFormed(ps);
    PlacedSuffix(ps, 1);
    LinkIs(n, KeyNode(ps), r);
    KeyStays(ps, h);
    ChainAnswers(KeyNode(ps), ps[1..], vals, rest, h);
    FitsSlash(ps[1..], vals, rest);
    OnlyKey(m, r.node, v, rest);
  }

  lemma {:induction false} KeyStays(ps: Pattern, h: Handler)
    requires Good(ps) && Placed(ps) && ps != [] && ps[0].Key? && !LastKey(ps)
    ensures var m := Insert(KeyNode(ps), Print(ps[1..]), h).node;
      m.kind == Param && m.keys == [ps[0].name] && Good(ps[1..])
  {
    PlacedSuffix(ps, 1);
    GoodSuffix(ps, 1);
    var c := InsertHangs(KeyNode(ps), ps[1..], h);
  }

  lemma {:induction false} LinkIs(n: Trie, link: Trie, r: Outcome)
    requires n.kids == []
    ensures Under(n.(kids := n.kids + [link]), |n.kids|, r).node == n.(kids := [r.node])
  {
    assert [] + [link] == [link] && [link][0 := r.node] == [r.node];
  }

  /** What is left after a last parameter. */
  lemma {:induction false} LastKeyRest(ps: Pattern, vals: seq<string>, rest: string)
    requires LastKey(ps) && Fits(ps[1..], vals, rest, false)
    ensures vals == [] && rest == (if |ps| == 1 then "" else "/") && Names(ps[1..]) == []
  {
    assert Lits("") == [] && Lits("/") == SLASH;
    if |ps| == 1 { assert ps[1..] == []; } else { FitsLitsOnly("/", vals, rest); }
    NamesOfLits("/");
  }

  lemma {:induction false} FitsSlash(ps: Pattern, vals: seq<string>, path: string)
    requires Fits(ps, vals, path, false) && ps != [] && ps[0] == Lit('/')
    ensures path != "" && path[0] == '/'
  {
  }

  /** A pattern and its path, cut behind the literal text in front. */
  lemma {:induction false} CutText(ps: Pattern, s: string, vals: seq<string>, path: string)
    requires Good(ps) && s == LitPrefix(ps) && Fits(ps, vals, path, false)
    ensures s <= path && ps == Lits(s) + ps[|s|..] && Names(ps) == Names(ps[|s|..]) && Good(ps[|s|..])
    ensures Fits(ps[|s|..], vals, path[|s|..], false) && path == s + path[|s|..]
  {
    var sub := ps[|s|..];
    LitPrefixSplits(ps);
    GoodSuffix(ps, |s|);
    assert ps == Lits(s) + sub;
    NamesOfLits(s);
    NamesConcat(Lits(s), sub);
    assert [] + Names(sub) == Names(sub);
    FitsText(s, sub, vals, path, false);
  }

  lemma {:induction false} TextChainAnswers(
    n: Trie, ps: Pattern, s: string, vals: seq<string>, path: string, h: Handler)
    requires WellFormed(n) && n.kids == [] && Good(ps) && Placed(ps) && s == LitPrefix(ps) != "" && path != ""
    requires Fits(ps, vals, path, false) && KeyFilled(ps, vals) && |vals| == |Names(ps)|
    requires Searchable(Insert(n, Print(ps), h).node)
    ensures GetFrom(Insert(n, Print(ps), h).node, 0, path) == Found(Some(h), false, Writes(Names(ps), vals))
    decreases |ps|, 2
  {
    CutText(ps, s, vals, path);
    if |s| == |ps| {
      assert ps[|s|..] == [] && path == s;
      OnlyTextAnswers(n, ps, s, h);
    } else {
      InsertLiteralCase(n, ps, h);
      LinkIs(n, NewNode(s), Insert(NewNode(s), Print(ps[|s|..]), h));
      BehindText(Insert(n, Print(ps), h).node, ps, s, ps[|s|..], vals, path[|s|..], h);
    }
  }

  lemma {:induction false} OnlyTextAnswers(n: Trie, ps: Pattern, s: string, h: Handler)
    requires n.kids == [] && Good(ps) && s == LitPrefix(ps) != "" && |s| == |ps|
    requires Searchable(Insert(n, Print(ps), h).node)
    ensures GetFrom(Insert(n, Print(ps), h).node, 0, s) == Found(Some(h), false, [])
  {
    InsertLiteralCase(n, ps, h);
    NewNodeIsWellFormed(s);
    AttachHangs(n, NewNode(s), h);
    HungTextAnswers(Insert(n, Print(ps), h).node, s, h);
  }

  /** What comes after the text: the wildcard, or a parameter. */
  lemma {:induction false} BehindText(
    m: Trie, ps: Pattern, s: string, sub: Pattern, vals: seq<string>, rest: string, h: Handler)
    requires s == LitPrefix(ps) != "" && |s| < |ps| && ps == Lits(s) + sub && '{' !in s && Good(sub)
    requires Placed(ps) && Fits(sub, vals, rest, false) && KeyFilled(ps, vals) && |vals| == |Names(sub)|
    requires Searchable(m) && m.kids == [Insert(NewNode(s), Print(sub), h).node]
    ensures GetFrom(m, 0, s + rest) == Found(Some(h), false, Writes(Names(sub), vals))
    decreases |ps|, 1
  {
    BehindTextIs(ps, s, sub, vals);
    if sub[0].Rest? {
      BehindSlash(m, s, sub, vals, rest, h);
    } else {
      NewNodeIsWellFormed(s);
      ChainAnswers(NewNode(s), sub, vals, rest, h);
      TextStays(NewNode(s), sub, h);
      OnlyText(m, m.kids[0], rest);
    }
  }

  lemma {:induction false} BehindTextIs(ps: Pattern, s: string, sub: Pattern, vals: seq<string>)
    requires s == LitPrefix(ps) != "" && |s| < |ps| && ps == Lits(s) + sub && Placed(ps) && KeyFilled(ps, vals)
    ensures sub != [] && (sub[0].Rest? ==> EndsInSlash(s)) && Placed(sub) && KeyFilled(sub, vals)
  {
    assert ps[|s|..] == sub && sub[0] == ps[|s|] && sub[|sub| - 1] == ps[|ps| - 1];
    assert ps[|s| - 1] == Lit(s[|s| - 1]);
    PlacedSuffix(ps, |s|);
  }

  lemma {:induction false} BehindSlash(
    m: Trie, s: string, sub: Pattern, vals: seq<string>, rest: string, h: Handler)
    requires EndsInSlash(s) && '{' !in s && Good(sub) && sub != [] && sub[0].Rest?
    requires Fits(sub, vals, rest, false) && |vals| == |Names(sub)|
    requires Searchable(m) && m.kids == [Insert(NewNode(s), Print(sub), h).node]
    ensures GetFrom(m, 0, s + rest) == Found(Some(h), false, Writes(Names(sub), vals))
  {
    var name, v := sub[0].name, vals[0];
    assert sub == [Rest(name)] && sub[1..] == [];
    FitsRestOnly(name, vals, rest);
    HungRestAnswers(m, s, name, v, h);
    CaptureRest(name, v);
  }

  lemma {:induction false} FitsRestOnly(name: string, vals: seq<string>, path: string)
    requires Fits([Rest(name)], vals, path, false)
    ensures vals == [path]
  {
    assert [Rest(name)][1..] == [];
    if vals != [] && vals[0] == path { assert path[|path|..] == ""; }
  }

  lemma {:induction false} TextStays(n: Trie, ps: Pattern, h: Handler)
    requires n.kids == [] && Good(ps) && Placed(ps) && ps != [] && !ps[0].Rest?
    ensures var m := Insert(n, Print(ps), h).node; m.path == n.path && m.kind == n.kind
  {
    var c := InsertHangs(n, ps, h);
  }

  // ----- a storage with one route --------------------------------------------------------------------------

  /** The search looks at a node's children and wildcard only. */
  lemma {:induction false} SearchIgnoresKind(c: Trie, k: nat, path: string)
    requires Searchable(c) && path != "" && k <= |c.kids|
    ensures GetFrom(c.(kind := Root), k, path) == GetFrom(c, k, path)
    decreases |c.kids| - k
  {
    if k < |c.kids| { SearchIgnoresKind(c, k + 1, path); }
  }

  /** The only child of a root without text answers for it when it becomes the root. */
  lemma {:induction false} RootAnswers(n: Trie, c: Trie, path: string)
    requires Searchable(n) && n.kids == [c] && c.kind == Static && n.wildcard == None && path != ""
    requires Settled(GetFrom(n, 0, path))
    ensures Searchable(c.(kind := Root)) && Get(c.(kind := Root), path) == GetFrom(n, 0, path)
  {
    if c.path < path { SearchIgnoresKind(c, 0, path[|c.path|..]); }
  }

  /** The tree of a single registration. */
  lemma {:induction false} OneRouteTree(mutable: bool, ps: Pattern, h: Handler, root: Trie)
    requires IsRoute(ps) && Placed(ps) && AddStep(EMPTY, mutable, Print(ps), h, root, true)
    ensures var m := Insert(EMPTY, Print(ps), h).node;
      |m.kids| == 1 && m.kids[0].kind == Static && m.wildcard == None && root == m.kids[0].(kind := Root)
  {
    var r := AddAtRoot(EMPTY, Print(ps), h);
    PrintStart(ps);
    EmptyIsRoot();
    TextlessRootAdd(EMPTY, ps, h);
    NothingToOverride(ps, h);
    assert Print(ps)[0..] == Print(ps);
    assert r == Insert(EMPTY, Print(ps), h);
    InsertChain(EMPTY, ps, h);
    var c := r.node.kids[0];
    assert Chain(c.(kind := Root));
    SortChain(Promote(r.node), root);
  }

  /**
   A storage with one route, registered in any way that returns: every path that fits the route, the last
   parameter not empty, is answered with its handler and exactly the values captured.
   */
  lemma {:induction false} OneRouteAnswers(
    mutable: bool, ps: Pattern, h: Handler, root: Trie, vals: seq<string>, path: string)
    requires IsRoute(ps) && AddStep(EMPTY, mutable, Print(ps), h, root, true)
    requires Fits(ps, vals, path, false) && KeyFilled(ps, vals)
    ensures Searchable(root) && |vals| == |Names(ps)|
    ensures Get(root, path) == Found(Some(h), false, Writes(Names(ps), vals))
  {
    EmptyIsRoot();
    if !Placed(ps) {
      MisplacedIsRefused(EMPTY, mutable, ps, h, root, true);
    } else {
      OneRouteTree(mutable, ps, h, root);
      var m := Insert(EMPTY, Print(ps), h).node;
      ChainAnswers(EMPTY, ps, vals, path, h);
      RootAnswers(m, m.kids[0], path);
    }
  }

  // ----- two routes with a dead end ------------------------------------------------------------------------

  /** "/{p:*}". */
  function Whole(p: string): Pattern { Lits("/") + [Rest(p)] }

  /** `"/" + t + "{id}"`. */
  function Below(t: string, id: string): Pattern { Lits("/" + t) + [Key(id)] }

  function WholeTree(p: string, g: Handler): Trie {
    NewNode("/").(kind := Root, wildcard := Some(WildNode(PrintPart(Rest(p)), p, g)))
  }

  function BelowNode(t: string, id: string, h: Handler): Trie {
    NewNode(t).(kids := [Hung(KeyNode([Key(id)]), h)])
  }

  function DeadEndTree(t: string, p: string, id: string, g: Handler, h: Handler): Trie {
    WholeTree(p, g).(kids := [BelowNode(t, id, h)])
  }

  lemma {:induction false} OnePart(p: Part)
    requires !p.Lit? && GoodName(p.name)
    ensures Good([p])
  {
    assert [p][1..] == [];
  }

  lemma {:induction false} TextThenPart(s: string, p: Part)
    requires '{' !in s && !p.Lit? && GoodName(p.name)
    ensures var ps := Lits(s) + [p]; Good(ps) && LitPrefix(ps) == s && ps[|s|..] == [p]
    decreases |s|
  {
    if s == "" {
      assert Lits(s) + [p] == [p];
      OnePart(p);
    } else {
      var q := Lits(s[1..]) + [p];
      TextThenPart(s[1..], p);
      OneMore(s[0], q);
      assert Lits(s) + [p] == [Lit(s[0])] + q && s == [s[0]] + s[1..];
    }
  }

  lemma {:induction false} OneMore(c: char, q: Pattern)
    requires c != '{' && Good(q)
    ensures var ps := [Lit(c)] + q; Good(ps) && LitPrefix(ps) == [c] + LitPrefix(q)
  {
    assert ([Lit(c)] + q)[1..] == q;
  }

  /** The wildcard in an empty storage. */
  lemma {:induction false} WholeIsStored(p: string, g: Handler)
    requires GoodName(p)
    ensures IsRoute(Whole(p)) && AddStep(EMPTY, false, Print(Whole(p)), g, WholeTree(p, g), true)
  {
    var q, ps := [Rest(p)], Whole(p);
    TextThenPart("/", Rest(p));
    PrintStart(ps);
    InsertLiteralCase(EMPTY, ps, g);
    WildcardAtSlash(p, g);
    LinkIs(EMPTY, NewNode("/"), Insert(NewNode("/"), Print(q), g));
    assert Print(ps)[0..] == Print(ps) && AddAtRoot(EMPTY, Print(ps), g) == Insert(EMPTY, Print(ps), g);
    SortedStays(WholeTree(p, g));
  }

  lemma {:induction false} WildcardAtSlash(p: string, g: Handler)
    requires GoodName(p)
    ensures var r := Insert(NewNode("/"), Print([Rest(p)]), g);
      r.err == None && r.node == NewNode("/").(wildcard := Some(WildNode(PrintPart(Rest(p)), p, g)))
  {
    OnePart(Rest(p));
    InsertRestCase(NewNode("/"), [Rest(p)], g);
    RestPrints(p);
    RestIsSegment(p);
  }

  lemma {:induction false} KeyBehind(t: string, id: string, h: Handler)
    requires GoodName(id)
    ensures var r := Insert(NewNode(t), Print([Key(id)]), h); r.err == None && r.node == BelowNode(t, id, h)
  {
    var k := [Key(id)];
    OnePart(Key(id));
    InsertKeyCase(NewNode(t), k, h);
    KeyNodeIsWellFormed(k);
    AttachHangs(NewNode(t), KeyNode(k), h);
    assert [] + [Hung(KeyNode(k), h)] == [Hung(KeyNode(k), h)];
  }

  lemma {:induction false} TextPlaced(t: string, id: string)
    ensures Placed(Lits(t) + [Key(id)])
  {
  }

  /** The text and the parameter beside it. */
  lemma {:induction false} BelowIsAdded(t: string, p: string, id: string, g: Handler, h: Handler)
    requires t != "" && '{' !in t && GoodName(id) && IsRoot(WholeTree(p, g))
    ensures IsRoute(Below(t, id))
    ensures var r := AddAtRoot(WholeTree(p, g), Print(Below(t, id)), h);
      r.err == None && r.node == DeadEndTree(t, p, id, g, h)
  {
    var root, ps, rest := WholeTree(p, g), Below(t, id), Lits(t) + [Key(id)];
    TextThenPart("/" + t, Key(id));
    TextThenPart(t, Key(id));
    assert ("/" + t)[1..] == t && ps[1..] == rest;
    TextPlaced("/" + t, id);
    WholeRootAdd(root, ps, h);
    assert Add(root, Print(rest), h) == Insert(root, Print(rest), h) by { PrintStart(rest); }
    InsertLiteralCase(root, rest, h);
    KeyBehind(t, id, h);
    LinkIs(root, NewNode(t), Insert(NewNode(t), Print([Key(id)]), h));
  }

  lemma {:induction false} BelowIsStored(t: string, p: string, id: string, g: Handler, h: Handler)
    requires t != "" && '{' !in t && GoodName(id) && IsRoot(WholeTree(p, g))
    ensures IsRoute(Below(t, id))
    ensures AddStep(WholeTree(p, g), false, Print(Below(t, id)), h, DeadEndTree(t, p, id, g, h), true)
  {
    var root := DeadEndTree(t, p, id, g, h);
    BelowIsAdded(t, p, id, g, h);
    PrintStart(Below(t, id));
    KeyNodeIsWellFormed([Key(id)]);
    HungShape(KeyNode([Key(id)]), h);
    SortedStays(root);
  }

  function DeadEndRun(t: string, p: string, id: string, g: Handler, h: Handler): seq<Call> {
    [Call(Whole(p), g, true), Call(Below(t, id), h, true)]
  }

  lemma {:induction false} TwoCalls(a: Call, b: Call, one: Trie, two: Trie)
    requires IsRoute(a.pattern) && AddStep(EMPTY, false, Print(a.pattern), a.handler, one, a.ok)
    requires IsRoute(b.pattern) && AddStep(one, false, Print(b.pattern), b.handler, two, b.ok)
    ensures IsRun([a, b], [EMPTY, one, two], false)
  {
    forall k | 0 <= k < 2
      ensures IsRoute([a, b][k].pattern)
      ensures AddStep([EMPTY, one, two][k], false, Print([a, b][k].pattern), [a, b][k].handler,
                      [EMPTY, one, two][k + 1], [a, b][k].ok)
    {
      if k == 1 { assert [a, b][k] == b; }
    }
  }

  /**
   After "/{p:*}" and then any `"/" + t + "{id}"` have been registered, the path `"/" + t` is not answered, though
   it fits the first: the text `t` between the two routes is a dead end.
   */
  lemma {:induction false} DeadEndHides(t: string, p: string, id: string, g: Handler, h: Handler)
    requires t != "" && '{' !in t && GoodName(p) && GoodName(id)
    ensures var root := DeadEndTree(t, p, id, g, h);
      && IsRun(DeadEndRun(t, p, id, g, h), [EMPTY, WholeTree(p, g), root], false)
      && Searchable(root) && Get(root, "/" + t) == MISS
    ensures Fits(Whole(p), [t], "/" + t, false) && Filled(Whole(p), [t])
  {
    var one, two := WholeTree(p, g), DeadEndTree(t, p, id, g, h);
    WholeIsStored(p, g);
    EmptyIsRoot();
    AddConserves(EMPTY, false, Whole(p), g, one, true);
    BelowIsStored(t, p, id, g, h);
    AddConserves(one, false, Below(t, id), h, two, true);
    TwoCalls(Call(Whole(p), g, true), Call(Below(t, id), h, true), one, two);
    WellFormedIsSearchable(two);
    TextIsMissed(t, p, id, g, h);
    FitsWhole(t, p);
  }

  lemma {:induction false} TextIsMissed(t: string, p: string, id: string, g: Handler, h: Handler)
    requires t != "" && Searchable(DeadEndTree(t, p, id, g, h))
    ensures Get(DeadEndTree(t, p, id, g, h), "/" + t) == MISS
  {
    var root, path := DeadEndTree(t, p, id, g, h), "/" + t;
    assert root.path == "/" < path && path[|root.path|..] == t;
    assert GetFrom(root, 0, t) == AtEnd(BelowNode(t, id, h));
  }

  lemma {:induction false} FitsWhole(t: string, p: string)
    requires t != ""
    ensures Fits(Whole(p), [t], "/" + t, false) && Filled(Whole(p), [t])
  {
    assert ("/" + t)[1..] == t && Whole(p)[1..] == [Rest(p)];
    CaptureRest(p, t);
  }
}
