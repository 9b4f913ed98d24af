/**
 When a registration is refused: exactly when what stands at the end of its walk is taken. And when a route
 that is stored is refused a second time: always, as long as no two registered patterns use different
 parameter names at the same place.
 */
module Refusals {
  import opened Text
  import opened WildPath
  import opened Pattern
  import opened Trie
  import opened Conservation
  import opened RouteTree
  import opened Lookup

  /** The wildcard, if there is one, follows a slash. */
  predicate Placed(ps: Pattern) {
    forall i :: 0 < i < |ps| && ps[i].Rest? ==> ps[i - 1] == Lit('/')
  }

  /** A parameter that ends the pattern, or all but its final slash. */
  predicate LastKey(ps: Pattern) { ps != [] && ps[0].Key? && (|ps| == 1 || ps[1..] == SLASH) }

  // ----- inserting -----------------------------------------------------------------------------------------

  /** Whether a node stores any route does not depend on what is spelled above it. */
  lemma {:induction false} BearsAnywhere(c: Trie, p: Pattern, q: Pattern)
    requires Routes(c, p) != multiset{}
    ensures Routes(c, q) != multiset{}
  {
    if c.handler == None && c.wildcard == None {
      KidsBearAnywhere(c.kids, p + TextOf(c), q + TextOf(c));
    }
  }

  lemma {:induction false} KidsBearAnywhere(kids: seq<Trie>, p: Pattern, q: Pattern)
    requires RoutesOf(kids, p) != multiset{}
    ensures RoutesOf(kids, q) != multiset{}
  {
    if Routes(kids[0], p) != multiset{} {
      BearsAnywhere(kids[0], p, q);
    } else {
      KidsBearAnywhere(kids[1..], p, q);
    }
  }

  lemma {:induction false} ParentBears(n: Trie, c: Trie)
    requires n.kids == [c] && Routes(c, []) != multiset{}
    ensures Routes(n, []) != multiset{}
  {
    RoutesOfOne(c, [] + TextOf(n));
    BearsAnywhere(c, [], [] + TextOf(n));
  }

  lemma {:induction false} WildcardBears(n: Trie)
    requires n.wildcard.Some?
    ensures Routes(n, []) != multiset{}
  {
    var full := [] + TextOf(n);
    assert (full + [Rest(n.wildcard.value.key)], n.wildcard.value.handler) in Own(n, full);
  }

  /** The chain `insert` hangs for `ps`: one link per piece of the pattern, sorted, with the route at its end. */
  ghost predicate Hangs(n: Trie, r: Outcome, ps: Pattern, c: Trie)
    requires ps != []
  {
    && r.err == None && r.node == n.(kids := n.kids + [c], tsr := r.node.tsr)
    && Sorted(c) && |c.kids| <= 1 && IsChild(c) && (c.kids != [] || c.path == "/")
    && c.path != "" && c.path[0] == Print(ps)[0] && Routes(c, []) != multiset{}
    && (ps[0].Key? ==>
          c.kind == Param && c.keys == [ps[0].name] && |c.kids| == 1 && (c.handler.Some? <==> |ps| == 1))
  }

  lemma {:induction false} OnlyChildSorted(c: Trie, d: Trie)
    requires c.kids == [d] && d.kids == []
    ensures Sorted(c)
  {
    assert Sorted(d);
  }

  lemma {:induction false} HungShape(leaf: Trie, h: Handler)
    requires IsLeaf(leaf)
    ensures var c := Hung(leaf, h);
      && Sorted(c) && |c.kids| <= 1 && (c.kids != [] || c.path == "/")
      && c.path != "" && c.path[0] == leaf.path[0] && c.kind == leaf.kind && c.keys == leaf.keys
  {
    var c := Hung(leaf, h);
    if leaf.path == "/" {
      assert c.kids == [];
    } else if leaf.path[|leaf.path| - 1] == '/' {
      OnlyChildSorted(c, c.kids[0]);
    } else {
      assert c.kids == [MARKER];
      OnlyChildSorted(c, MARKER);
    }
  }

  lemma {:induction false} HungKeyShape(leaf: Trie, h: Handler)
    requires IsLeaf(leaf) && leaf.kind == Param
    ensures var c := Hung(leaf, h); |c.kids| == 1 && (c.handler.Some? <==> leaf.path[|leaf.path| - 1] != '/')
  {
    assert leaf.path[0] == '{';
  }

  lemma {:induction false} LeafHangs(n: Trie, leaf: Trie, h: Handler, ps: Pattern)
    requires IsLeaf(leaf) && ps != [] && leaf.path != "" && leaf.path[0] == Print(ps)[0]
    requires ps[0].Key? ==>
      leaf.kind == Param && leaf.keys == [ps[0].name] && (|ps| == 1 <==> leaf.path[|leaf.path| - 1] != '/')
    ensures Hangs(n, Attach(n, leaf, h), ps, Hung(leaf, h))
  {
    AttachHangs(n, leaf, h);
    HungShape(leaf, h);
    if leaf.kind == Param { HungKeyShape(leaf, h); }
    HungIsWellFormed(leaf, h);
    HungRoutes(leaf, h, []);
  }

  /** A chain hung below a fresh link. */
  lemma {:induction false} LinkHangs(n: Trie, link: Trie, r: Outcome, rest: Pattern, c: Trie, ps: Pattern)
    requires IsChild(link) && link.path != "" && link.kids == [] && link.handler == None
    requires rest != [] && Hangs(link, r, rest, c) && ps != [] && link.path[0] == Print(ps)[0]
    requires ps[0].Key? ==> link.kind == Param && link.keys == [ps[0].name] && |ps| > 1
    ensures Hangs(n, Under(n.(kids := n.kids + [link]), |n.kids|, r), ps, r.node)
  {
    assert [] + [c] == [c] && r.node.kids == [c];
    assert Sorted(r.node);
    ParentBears(r.node, c);
    assert (n.kids + [link])[|n.kids| := r.node] == n.kids + [r.node];
  }

  lemma {:induction false} RestIsSegment(name: string)
    requires GoodName(name)
    ensures SegmentEnd(PrintPart(Rest(name)), true) == |PrintPart(Rest(name))|
  {
    var s := PrintPart(Rest(name));
    assert s == "{" + name + ":*}" && ":*}"[0] == ':' && ":*}"[1] == '*' && ":*}"[2] == '}';
    forall i | 0 <= i < |s|
      ensures s[i] != '/'
    {
      if 0 < i <= |name| {
        assert s[i] == name[i - 1] && name[i - 1] in name;
      } else if i > 0 {
        assert s[i] == ":*}"[i - 1 - |name|];
      }
    }
    IndexOfNone(s, '/');
    assert s[|s|..] == "";
  }

  /** A wildcard is refused exactly where there is one already, or no slash before it. */
  lemma {:induction false} WildcardRefused(n: Trie, path: string, wp: WildPath, h: Handler)
    requires |wp.keys| > 0 && SegmentEnd(path, true) == |path|
    ensures InsertWildcard(n, path, wp, h).err.Some? <==>
      n.wildcard.Some? || n.path == "" || n.path[|n.path| - 1] != '/'
  {
    if n.path != "" && n.path[|n.path| - 1] == '/' {
      var cut := Split(n, |n.path| - 1).(tsr := true);
      assert AttachWildcard(cut.kids[0], path, wp, h).err.Some? <==> n.wildcard.Some?;
      assert AttachWildcard(n, path, wp, h).err.Some? <==> n.wildcard.Some?;
      var r := InsertWildcard(n, path, wp, h);
      assert r.err == if n.path == "/" then AttachWildcard(n, path, wp, h).err
        else AttachWildcard(cut.kids[0], path, wp, h).err;
    }
  }

  lemma {:induction false} RestRefused(n: Trie, ps: Pattern, h: Handler)
    requires Good(ps) && ps != [] && ps[0].Rest?
    ensures Insert(n, Print(ps), h).err.Some? <==> n.wildcard.Some? || n.path == "" || n.path[|n.path| - 1] != '/'
  {
    InsertRestCase(n, ps, h);
    RestPrints(ps[0].name);
    RestIsSegment(ps[0].name);
    WildcardRefused(n, Print(ps), FindWild(Print(ps)).wp, h);
  }

  lemma {:induction false} RestPrints(name: string)
    ensures Print([Rest(name)]) == PrintPart(Rest(name))
  {
    assert [Rest(name)][1..] == [];
  }

  lemma {:induction false} CutWildcard(link: Trie, path: string, wp: WildPath, h: Handler)
    requires link == NewNode(link.path) && link.path != "/" && EndsInSlash(link.path)
    requires |wp.keys| > 0 && SegmentEnd(path, true) == |path|
    ensures var c := InsertWildcard(link, path, wp, h).node;
      && |c.kids| == 1 && c.kids[0].kids == [] && c.kids[0].wildcard.Some?
      && c.kind == Static && c.path == link.path[..|link.path| - 1] != ""
  {
  }

  /** A wildcard on a fresh node that ends in a slash. */
  lemma {:induction false} FreshWildcard(link: Trie, path: string, wp: WildPath, h: Handler)
    requires link == NewNode(link.path) && EndsInSlash(link.path)
    requires |wp.keys| > 0 && SegmentEnd(path, true) == |path|
    ensures var c := InsertWildcard(link, path, wp, h).node;
      && Sorted(c) && |c.kids| <= 1 && c.kind == Static && c.path != "" && c.path[0] == link.path[0]
      && (c.kids != [] || c.path == "/") && Routes(c, []) != multiset{}
  {
    var c := InsertWildcard(link, path, wp, h).node;
    if link.path == "/" {
      WildcardBears(c);
    } else {
      CutWildcard(link, path, wp, h);
      OnlyChildSorted(c, c.kids[0]);
      WildcardBears(c.kids[0]);
      ParentBears(c, c.kids[0]);
    }
  }

  lemma {:induction false} FreshRest(s: string, name: string, h: Handler)
    requires s != "" && s[|s| - 1] == '/' && GoodName(name)
    ensures var r := Insert(NewNode(s), Print([Rest(name)]), h); var c := r.node;
      && r.err == None && Sorted(c) && |c.kids| <= 1 && c.kind == Static && c.path != "" && c.path[0] == s[0]
      && (c.kids != [] || c.path == "/") && Routes(c, []) != multiset{}
  {
    var q, link := [Rest(name)], NewNode(s);
    assert q[1..] == [] && Good(q);
    InsertRestCase(link, q, h);
    RestRefused(link, q, h);
    RestPrints(name);
    RestIsSegment(name);
    FreshWildcard(link, Print(q), FindWild(Print(q)).wp, h);
  }

  /** Literal text and the wildcard after its final slash. */
  lemma {:induction false} RestHangs(n: Trie, s: string, name: string, h: Handler, ps: Pattern)
    requires s != "" && s[|s| - 1] == '/' && GoodName(name) && ps == Lits(s) + [Rest(name)]
    ensures var r := Insert(NewNode(s), Print([Rest(name)]), h);
      Hangs(n, Under(n.(kids := n.kids + [NewNode(s)]), |n.kids|, r), ps, r.node)
  {
    var r := Insert(NewNode(s), Print([Rest(name)]), h);
    FreshRest(s, name, h);
    PrintStart(ps);
    assert ps[0] == Lit(s[0]);
    assert (n.kids + [NewNode(s)])[|n.kids| := r.node] == n.kids + [r.node];
  }

  /** A supported pattern whose wildcard follows a slash is always inserted, as one new child. */
  lemma {:induction false} InsertHangs(n: Trie, ps: Pattern, h: Handler) returns (c: Trie)
    requires Good(ps) && Placed(ps) && ps != [] && !ps[0].Rest?
    ensures Hangs(n, Insert(n, Print(ps), h), ps, c)
    decreases |ps|
  {
    if ps[0].Key? { c := InsertKeyHangs(n, ps, h); } else { c := InsertLiteralHangs(n, ps, h); }
  }

  lemma {:induction false} InsertKeyHangs(n: Trie, ps: Pattern, h: Handler) returns (c: Trie)
    requires Good(ps) && Placed(ps) && ps != [] && ps[0].Key?
    ensures Hangs(n, Insert(n, Print(ps), h), ps, c)
    decreases |ps|, 0
  {
    var link := KeyNode(ps);
    InsertKeyCase(n, ps, h);
    KeyNodeIsWellFormed(ps);
    PrintStart(ps);
    assert PrintPart(ps[0]) + "" == PrintPart(ps[0]);
    if LastKey(ps) {
      c := Hung(link, h);
      LeafHangs(n, link, h, ps);
    } else {
      var d := InsertHangs(link, ps[1..], h);
      c := Insert(link, Print(ps[1..]), h).node;
      LinkHangs(n, link, Insert(link, Print(ps[1..]), h), ps[1..], d, ps);
    }
  }

  lemma {:induction false} InsertLiteralHangs(n: Trie, ps: Pattern, h: Handler) returns (c: Trie)
    requires Good(ps) && Placed(ps) && LitPrefix(ps) != ""
    ensures Hangs(n, Insert(n, Print(ps), h), ps, c)
    decreases |ps|, 0
  {
    var s := LitPrefix(ps);
    var link, rest := NewNode(s), ps[|s|..];
    InsertLiteralCase(n, ps, h);
    PrintStart(ps);
    NewNodeIsWellFormed(s);
    if |s| == |ps| {
      c := Hung(link, h);
      LeafHangs(n, link, h, ps);
    } else if rest[0].Rest? {
      assert rest == [Rest(rest[0].name)] && ps[|s| - 1] == Lit('/');
      c := Insert(link, Print(rest), h).node;
      RestHangs(n, s, rest[0].name, h, ps);
    } else {
      var d := InsertHangs(link, rest, h);
      c := Insert(link, Print(rest), h).node;
      LinkHangs(n, link, Insert(link, Print(rest), h), rest, d, ps);
    }
  }

  // ----- what a parameter meets ---------------------------------------------------------------------------

  /**
   A parameter whose first sharing child is a parameter: as the last one it is refused by a handler there;
   otherwise it goes on below a child of the same name, and is inserted beside one of another name.
   */
  lemma {:induction false} KeyMeetsKey(n: Trie, k: nat, ps: Pattern, h: Handler)
    requires k < |n.kids| && WellFormed(n.kids[k]) && n.kids[k].kind == Param
    requires Good(ps) && ps != [] && ps[0].Key? && Lcp(Print(ps), n.kids[k].path) > 0
    ensures var c, r := n.kids[k], AddAtParam(n, k, Print(ps), h);
      if LastKey(ps) && c.handler.Some? then
        (if ps == [Key(c.keys[0])] then r == Outcome(n, Some(HandlerExists), Some([k]))
         else r == Fail(n, WildPathConflict))
      else if ps[0] != Key(c.keys[0]) then r == Insert(n, Print(ps), h)
      else if |ps| == 1 then r == Under(n, k, SetHandler(c, h))
      else Good(ps[1..]) && r == Under(n, k, Add(c, Print(ps[1..]), h))
  {
    var c, path := n.kids[k], Print(ps);
    KeyIsReported(ps);
    PrintTail(ps);
    KeySegment(ps);
    assert path == PrintPart(ps[0]) + Print(ps[1..]);
    assert path[0] == '{';
    if Lcp(path, c.path) == |path| { WholeIsKey(ps, c.keys[0]); }
    if path == c.path { assert path[..|path|] == path; WholeIsKey(ps, c.keys[0]); }
    if c.path == PrintPart(ps[0]) {
      PrintKeyInjective(ps[0].name, c.keys[0]);
      assert path[..|c.path|] == c.path[..|c.path|];
    }
    if ps == [Key(c.keys[0])] { assert path == PrintPart(ps[0]) + "" == c.path; }
  }

  // ----- when a registration is refused --------------------------------------------------------------------

  /**
   Something stands in the way of `ps` below `n`: going down the children that first share text with it, the
   walk ends at a node with a handler or mark, at a wildcard, or at a final parameter's handler.
   */
  predicate Blocked(n: Trie, ps: Pattern)
    decreases |ps|
  {
    if ps == [] then n.handler.Some? || n.tsr
    else if ps[0].Rest? then n.wildcard.Some?
    else
      var k := FirstShared(n.kids, Print(ps));
      k < |n.kids| &&
      var c := n.kids[k];
      if c.kind == Param then
        ps[0].Key? && ((LastKey(ps) && c.handler.Some?) || (c.keys == [ps[0].name] && Blocked(c, ps[1..])))
      else c.path <= LitPrefix(ps) && Blocked(c, ps[|c.path|..])
  }

  lemma {:induction false} PlacedSuffix(ps: Pattern, i: nat)
    requires Placed(ps) && i <= |ps|
    ensures Placed(ps[i..])
    ensures 0 < i < |ps| && ps[i].Rest? ==> ps[i - 1] == Lit('/')
  {
    forall j | 0 < j < |ps[i..]| && ps[i..][j].Rest?
      ensures ps[i..][j - 1] == Lit('/')
    {
      assert ps[i..][j] == ps[i + j];
    }
  }

  /** Below a well-formed node, exactly the patterns something stands in the way of are refused. */
  lemma {:induction false} AddBlocked(n: Trie, ps: Pattern, h: Handler)
    requires WellFormed(n) && Good(ps) && Placed(ps) && (ps != [] && ps[0].Rest? ==> EndsInSlash(n.path))
    ensures Add(n, Print(ps), h).err.Some? <==> Blocked(n, ps)
    decreases |ps|
  {
    var k := FirstShared(n.kids, Print(ps));
    if ps == [] {
    } else if ps[0].Rest? {
      RestBlocked(n, ps, h);
    } else if k == |n.kids| {
      PrintStart(ps);
      var c := InsertHangs(n, ps, h);
    } else {
      KidIsWellFormed(n, k);
      PrintStart(ps);
      if n.kids[k].kind == Param { KeyBlocked(n, k, ps, h); } else { LiteralBlocked(n, k, ps, h); }
    }
  }

  lemma {:induction false} RestBlocked(n: Trie, ps: Pattern, h: Handler)
    requires WellFormed(n) && Good(ps) && ps != [] && ps[0].Rest?
    ensures Add(n, Print(ps), h) == Insert(n, Print(ps), h)
    ensures Add(n, Print(ps), h).err.Some? <==> n.wildcard.Some? || !EndsInSlash(n.path)
  {
    var k := FirstShared(n.kids, Print(ps));
    RestRefused(n, ps, h);
    PrintStart(ps);
    if k < |n.kids| {
      KidIsWellFormed(n, k);
      var c := n.kids[k];
      RestMeetsKey(n, k, ps, h);
    }
  }

  /** A wildcard passes by all children. */
  lemma {:induction false} RestMeetsKey(n: Trie, k: nat, ps: Pattern, h: Handler)
    requires WellFormed(n) && k < |n.kids| && k == FirstShared(n.kids, Print(ps))
    requires Good(ps) && ps != [] && ps[0].Rest?
    ensures Add(n, Print(ps), h) == Insert(n, Print(ps), h)
  {
    var c, path := n.kids[k], Print(ps);
    KidIsWellFormed(n, k);
    SharedIsLiteral(ps, if c.kind == Param then "" else c.path);
    assert c.kind == Param;
    WildOf(ps);
    RestPrints(ps[0].name);
    assert ps == [ps[0]];
    if Lcp(path, c.path) == |path| { WholeIsKey(ps, c.keys[0]); }
  }

  lemma {:induction false} KeyBlocked(n: Trie, k: nat, ps: Pattern, h: Handler)
    requires WellFormed(n) && k < |n.kids| && k == FirstShared(n.kids, Print(ps)) && n.kids[k].kind == Param
    requires Good(ps) && Placed(ps) && ps != [] && !ps[0].Rest?
    ensures Add(n, Print(ps), h).err.Some? <==> Blocked(n, ps)
    decreases |ps|, 0
  {
    var c := n.kids[k];
    KidIsWellFormed(n, k);
    KeyMeets(n, k, ps);
    KeyMeetsKey(n, k, ps, h);
    assert Add(n, Print(ps), h) == AddAtParam(n, k, Print(ps), h) by { PrintStart(ps); }
    if LastKey(ps) && c.handler.Some? {
    } else if ps[0] != Key(c.keys[0]) {
      var d := InsertHangs(n, ps, h);
    } else if |ps| > 1 {
      PlacedSuffix(ps, 1);
      AddBlocked(c, ps[1..], h);
    }
  }

  lemma {:induction false} KeyMeets(n: Trie, k: nat, ps: Pattern)
    requires k < |n.kids| && WellFormed(n.kids[k]) && n.kids[k].kind == Param
    requires Good(ps) && ps != [] && !ps[0].Rest? && Lcp(Print(ps), n.kids[k].path) > 0
    ensures ps[0].Key?
  {
    PrintStart(ps);
    assert n.kids[k].path[0] == '{';
  }

  /** Text without braces is spelled whole exactly when all of it is shared. */
  lemma {:induction false} SpelledWhole(ps: Pattern, t: string)
    requires Good(ps) && '{' !in t
    ensures t <= LitPrefix(ps) <==> Lcp(Print(ps), t) == |t|
    ensures Lcp(Print(ps), t) < |t| ==>
      var i := Lcp(Print(ps), t); i == |Print(ps)| || Print(ps)[i] != t[i]
  {
    var i, s := Lcp(Print(ps), t), LitPrefix(ps);
    SharedIsLiteral(ps, t);
    LitPrefixSplits(ps);
    if i == |t| {
      assert t == t[..i] == Print(ps)[..i] == s[..i];
    }
  }

  lemma {:induction false} LiteralBlocked(n: Trie, k: nat, ps: Pattern, h: Handler)
    requires WellFormed(n) && k < |n.kids| && k == FirstShared(n.kids, Print(ps)) && n.kids[k].kind == Static
    requires Good(ps) && Placed(ps) && ps != [] && !ps[0].Rest?
    ensures Add(n, Print(ps), h).err.Some? <==> Blocked(n, ps)
    decreases |ps|, 0
  {
    var c := n.kids[k];
    var i := Lcp(Print(ps), c.path);
    KidIsWellFormed(n, k);
    AddAtStaticCases(n, k, ps, h);
    SpelledWhole(ps, c.path);
    PlacedSuffix(ps, i);
    if i == |c.path| {
      assert c.path == c.path[..i];
      if i < |ps| { AddBlocked(c, ps[i..], h); }
    } else if i < |ps| {
      CutLiterals(ps, i);
      PrintStart(ps[i..]);
      AddToCut(c, i, ps[i..], h);
    }
  }

  lemma {:induction false} NothingShared(kids: seq<Trie>, path: string)
    requires |kids| == 1 && path != "" && kids[0].path != "" && kids[0].path[0] != path[0]
    ensures FirstShared(kids, path) == 1
  {
  }

  /** Below a node just cut, nothing stands in the way of text that goes on differently. */
  lemma {:induction false} AddToCut(c: Trie, i: nat, rest: Pattern, h: Handler)
    requires WellFormed(c) && c.kind != Param && 0 < i < |c.path| && Good(rest) && Placed(rest) && rest != []
    requires Print(rest) != "" && Print(rest)[0] != c.path[i] && (rest[0].Rest? ==> c.path[i - 1] == '/')
    ensures Add(Split(c, i), Print(rest), h).err == None
  {
    var cut := Split(c, i);
    SplitStands(c, i);
    if rest[0].Rest? {
      assert cut.wildcard == None && EndsInSlash(cut.path);
      RestBlocked(cut, rest, h);
    } else {
      NothingShared(cut.kids, Print(rest));
      var d := InsertHangs(cut, rest, h);
      assert Add(cut, Print(rest), h) == Insert(cut, Print(rest), h);
    }
  }

  // ----- Tree.Add ------------------------------------------------------------------------------------------

  predicate BlockedAtRoot(root: Trie, ps: Pattern) {
    root.path <= LitPrefix(ps) && Blocked(root, ps[|root.path|..])
  }

  lemma {:induction false} CutRootIsFree(root: Trie, ps: Pattern, i: nat, h: Handler)
    requires IsRoot(root) && IsRoute(ps) && Placed(ps) && i == Lcp(Print(ps), root.path)
    requires 0 < i < |root.path| && i < |ps| && Good(ps[i..])
    ensures Add(CutRoot(root, i), Print(ps[i..]), h).err == None
  {
    SpelledWhole(ps, root.path);
    SharedIsLiteral(ps, root.path);
    CutLiterals(ps, i);
    PlacedSuffix(ps, i);
    PrintStart(ps[i..]);
    AddToCut(root, i, ps[i..], h);
  }

  /** A root whose text is spelled whole is not cut. */
  lemma {:induction false} WholeRootAdd(root: Trie, ps: Pattern, h: Handler)
    requires IsRoot(root) && IsRoute(ps) && Placed(ps) && root.path <= LitPrefix(ps)
    ensures var rest := ps[|root.path|..];
      Good(rest) && Placed(rest) && AddAtRoot(root, Print(ps), h) == Add(root, Print(rest), h)
    ensures ps[|root.path|..] != [] && ps[|root.path|].Rest? ==> EndsInSlash(root.path)
  {
    SpelledWhole(ps, root.path);
    RootIsCut(root, ps, h);
    PlacedSuffix(ps, |root.path|);
    RestAfterRoot(ps, root.path);
  }

  lemma {:induction false} RestAfterRoot(ps: Pattern, t: string)
    requires IsRoute(ps) && Placed(ps) && t <= LitPrefix(ps)
    ensures |t| < |ps| && ps[|t|].Rest? ==> EndsInSlash(t)
  {
    var last := |t| - 1;
    if |t| < |ps| && ps[|t|].Rest? {
      assert last >= 0 && t[last] == LitPrefix(ps)[last];
      assert ps[last] == Lit('/');
    }
  }

  lemma {:induction false} RootBlocked(root: Trie, ps: Pattern, h: Handler)
    requires IsRoot(root) && IsRoute(ps) && Placed(ps)
    ensures AddAtRoot(root, Print(ps), h).err.Some? <==> BlockedAtRoot(root, ps)
  {
    var i := Lcp(Print(ps), root.path);
    RootIsCut(root, ps, h);
    SpelledWhole(ps, root.path);
    if i == |root.path| {
      WholeRootAdd(root, ps, h);
      AddBlocked(root, ps[i..], h);
    } else {
      RootSharesText(root, ps);
      if i < |ps| { CutRootIsFree(root, ps, i, h); }
    }
  }

  lemma {:induction false} RootSharesText(root: Trie, ps: Pattern)
    requires IsRoot(root) && IsRoute(ps) && root.path != ""
    ensures Lcp(Print(ps), root.path) > 0
  {
    PrintStart(ps);
  }

  lemma {:induction false} PlacedAccepted(root: Trie, ps: Pattern, h: Handler, root': Trie, ok: bool)
    requires IsRoot(root) && IsRoute(ps) && Placed(ps) && AddStep(root, false, Print(ps), h, root', ok)
    ensures ok <==> !BlockedAtRoot(root, ps)
  {
    PrintStart(ps);
    RootBlocked(root, ps, h);
  }

  // ----- wildcards without a slash before them -------------------------------------------------------------

  /** The pattern ends in a wildcard that follows neither a slash of its own nor one that `text` ends in. */
  predicate Misplaced(ps: Pattern, text: string) {
    ps != [] && ps[|ps| - 1].Rest? && (if |ps| == 1 then !EndsInSlash(text) else ps[|ps| - 2] != Lit('/'))
  }

  lemma {:induction false} MisplacedSuffix(ps: Pattern, text: string, i: nat)
    requires Misplaced(ps, text) && 0 < i <= |LitPrefix(ps)|
    ensures i < |ps| && Misplaced(ps[i..], LitPrefix(ps)[..i])
  {
    var s, last := LitPrefix(ps), |ps| - 1;
    assert ps[i - 1] == Lit(s[i - 1]) && !ps[last].Lit?;
    assert i <= last;
    assert ps[i..][last - i] == ps[last];
    if i < last { assert ps[i..][last - i - 1] == ps[last - 1]; }
  }

  lemma {:induction false} SharedText(ps: Pattern, t: string)
    requires Good(ps) && '{' !in t
    ensures var i := Lcp(Print(ps), t); i <= |LitPrefix(ps)| && t[..i] == LitPrefix(ps)[..i]
  {
    var i := Lcp(Print(ps), t);
    SharedIsLiteral(ps, t);
    LitPrefixSplits(ps);
    assert Print(ps)[..i] == LitPrefix(ps)[..i];
  }

  lemma {:induction false} MisplacedAfterKey(ps: Pattern, text: string, below: string)
    requires Good(ps) && Misplaced(ps, text) && ps[0].Key?
    ensures |ps| > 1 && Good(ps[1..]) && Misplaced(ps[1..], below) && ps[1..][0].Lit?
  {
    assert ps[1..][|ps| - 2] == ps[|ps| - 1];
  }

  /** An error that is no "already registered". */
  predicate Rejects(r: Outcome) {
    r.err.Some? && r.err != Some(HandlerExists) && r.err != Some(WildcardHandlerExists)
  }

  lemma {:induction false} RestRejected(n: Trie, ps: Pattern, h: Handler)
    requires Good(ps) && Misplaced(ps, n.path) && ps[0].Rest?
    ensures Rejects(Insert(n, Print(ps), h))
  {
    InsertRestCase(n, ps, h);
    RestPrints(ps[0].name);
    RestIsSegment(ps[0].name);
  }

  lemma {:induction false} MisplacedInsert(n: Trie, ps: Pattern, h: Handler)
    requires Good(ps) && Misplaced(ps, n.path) && (n.kind == Param ==> ps[0].Lit?)
    ensures Rejects(Insert(n, Print(ps), h))
    decreases |ps|, 1
  {
    if ps[0].Lit? {
      MisplacedText(n, ps, LitPrefix(ps), h);
    } else if ps[0].Rest? {
      RestRejected(n, ps, h);
    } else {
      InsertKeyCase(n, ps, h);
      MisplacedAfterKey(ps, n.path, KeyNode(ps).path);
      MisplacedInsert(KeyNode(ps), ps[1..], h);
    }
  }

  lemma {:induction false} MisplacedText(n: Trie, ps: Pattern, s: string, h: Handler)
    requires Good(ps) && Misplaced(ps, n.path) && s == LitPrefix(ps) != ""
    ensures Rejects(Insert(n, Print(ps), h))
    decreases |ps|, 0
  {
    InsertLiteralCase(n, ps, h);
    MisplacedSuffix(ps, n.path, |s|);
    assert s[..|s|] == s;
    MisplacedInsert(NewNode(s), ps[|s|..], h);
  }

  /** A wildcard that does not follow a slash is never accepted. */
  lemma {:induction false} MisplacedAdd(n: Trie, ps: Pattern, h: Handler)
    requires WellFormed(n) && Good(ps) && Misplaced(ps, n.path) && (n.kind == Param ==> ps[0].Lit?)
    ensures Rejects(Add(n, Print(ps), h))
    decreases |ps|, 1
  {
    var k := FirstShared(n.kids, Print(ps));
    PrintStart(ps);
    if k == |n.kids| {
      MisplacedInsert(n, ps, h);
    } else if ps[0].Rest? {
      RestBlocked(n, ps, h);
      RestRejected(n, ps, h);
    } else {
      KidIsWellFormed(n, k);
      if n.kids[k].kind == Param { MisplacedAtKey(n, k, ps, h); } else { MisplacedAtText(n, k, ps, h); }
    }
  }

  lemma {:induction false} MisplacedAtKey(n: Trie, k: nat, ps: Pattern, h: Handler)
    requires WellFormed(n) && Good(ps) && Misplaced(ps, n.path) && (n.kind == Param ==> ps[0].Lit?)
    requires k < |n.kids| && k == FirstShared(n.kids, Print(ps)) && n.kids[k].kind == Param && !ps[0].Rest?
    ensures Rejects(Add(n, Print(ps), h))
    decreases |ps|, 0
  {
    var c := n.kids[k];
    KidIsWellFormed(n, k);
    PrintStart(ps);
    AddAtParamCases(n, k, ps, h);
    MisplacedInsert(n, ps, h);
    MisplacedAfterKey(ps, n.path, c.path);
    MisplacedAdd(c, ps[1..], h);
  }

  lemma {:induction false} MisplacedAtText(n: Trie, k: nat, ps: Pattern, h: Handler)
    requires WellFormed(n) && Good(ps) && Misplaced(ps, n.path)
    requires k < |n.kids| && k == FirstShared(n.kids, Print(ps)) && n.kids[k].kind == Static
    ensures Rejects(Add(n, Print(ps), h))
    decreases |ps|, 0
  {
    var c := n.kids[k];
    var i := Lcp(Print(ps), c.path);
    KidIsWellFormed(n, k);
    PrintStart(ps);
    AddAtStaticCases(n, k, ps, h);
    SharedText(ps, c.path);
    MisplacedSuffix(ps, n.path, i);
    CutStands(c, i);
    MisplacedAdd(CutAt(c, i), ps[i..], h);
  }

  /** A route whose wildcard does not follow a slash is refused by every storage, mutable or not. */
  lemma {:induction false} MisplacedIsRefused(
    root: Trie, mutable: bool, ps: Pattern, h: Handler, root': Trie, ok: bool)
    requires IsRoot(root) && IsRoute(ps) && !Placed(ps) && AddStep(root, mutable, Print(ps), h, root', ok)
    ensures !ok
  {
    LastIsRest(ps);
    PrintStart(ps);
    RootIsCut(root, ps, h);
    MisplacedAtRoot(root, ps, h);
  }

  lemma {:induction false} LastIsRest(ps: Pattern)
    requires IsRoute(ps) && !Placed(ps)
    ensures Misplaced(ps, "")
  {
    var j :| 0 < j < |ps| && ps[j].Rest? && ps[j - 1] != Lit('/');
    GoodSuffix(ps, j);
    assert ps[j..][0] == ps[j];
  }

  lemma {:induction false} MisplacedAtRoot(root: Trie, ps: Pattern, h: Handler)
    requires IsRoot(root) && IsRoute(ps) && Misplaced(ps, "")
    ensures var i := Lcp(Print(ps), root.path); i <= |ps| && Rejects(Add(CutRoot(root, i), Print(ps[i..]), h))
  {
    var i := Lcp(Print(ps), root.path);
    SharedText(ps, root.path);
    if root.path == "" {
      assert ps[0..] == ps;
      MisplacedAdd(root, ps, h);
    } else {
      PrintStart(ps);
      assert i > 0;
      if i < |root.path| { SplitStands(root, i); }
      assert root.path[..|root.path|] == root.path;
      MisplacedSuffix(ps, "", i);
      GoodSuffix(ps, i);
      MisplacedAdd(CutRoot(root, i), ps[i..], h);
    }
  }

  // ----- which registrations are accepted ------------------------------------------------------------------

  /**
   Registering a route in an immutable storage is accepted exactly when nothing stands in its way there and
   its wildcard, if it has one, follows a slash.
   */
  lemma {:induction false} AcceptedIffFree(root: Trie, ps: Pattern, h: Handler, root': Trie, ok: bool)
    requires IsRoot(root) && IsRoute(ps) && AddStep(root, false, Print(ps), h, root', ok)
    ensures ok <==> Placed(ps) && !BlockedAtRoot(root, ps)
  {
    if Placed(ps) {
      PlacedAccepted(root, ps, h, root', ok);
    } else {
      MisplacedIsRefused(root, false, ps, h, root', ok);
    }
  }

  /** A route that is stored but stands nowhere on the way is accepted again, and stored once more. */
  lemma {:induction false} StoredAgain(root: Trie, ps: Pattern, h: Handler, was: Handler, root': Trie, ok: bool)
    requires IsRoot(root) && IsRoute(ps) && Placed(ps) && (ps, was) in Routes(root, []) && !BlockedAtRoot(root, ps)
    requires AddStep(root, false, Print(ps), h, root', ok)
    ensures ok && Routes(root', []) == Routes(root, []) + multiset{(ps, h)}
  {
    PlacedAccepted(root, ps, h, root', ok);
    AddConserves(root, false, ps, h, root', ok);
  }
}
