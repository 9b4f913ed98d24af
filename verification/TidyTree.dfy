/**
 What registrations without clashing parameter names keep: siblings start differently, but for a bare slash
 marker sorted behind a real child. In such a tree the walk of a stored route ends where it is stored.
 */
module TidyTree {
  import opened Text
  import opened WildPath
  import opened Pattern
  import opened Trie
  import opened Conservation
  import opened RouteTree
  import opened Lookup
  import opened CaseFix
  import opened Refusals

  /** The patterns agree before place `i` and have parameters of different names there, not both as their last part. */
  predicate Clash(a: Pattern, b: Pattern, i: nat) {
    && i < |a| && i < |b| && a[..i] == b[..i]
    && a[i].Key? && b[i].Key? && a[i] != b[i]
    && (i + 1 < |a| || i + 1 < |b|)
  }

  ghost predicate OneNamed(patterns: iset<Pattern>) {
    forall a, b, i :: a in patterns && b in patterns ==> !Clash(a, b, i)
  }

  // ----- tidy trees ---------------------------------------------------------------------------------------

  predicate SameStart(a: Trie, b: Trie) { a.path != "" && b.path != "" && a.path[0] == b.path[0] }

  /** A child as `add` leaves it: with text, with children unless that is "/", and with a route unless it is bare. */
  predicate Rooted(c: Trie) {
    c.path != "" && (c.kids != [] || c.path == "/") && (c == MARKER || Routes(c, []) != multiset{})
  }

  /** Of children starting alike, the first one has children and the other is a bare marker. */
  predicate MarkersLast(kids: seq<Trie>) {
    forall i, j :: 0 <= i < j < |kids| && SameStart(kids[i], kids[j]) ==> kids[j] == MARKER && kids[i].kids != []
  }

  predicate Tidy(n: Trie) {
    MarkersLast(n.kids) && forall i :: 0 <= i < |n.kids| ==> Rooted(n.kids[i]) && Tidy(n.kids[i])
  }

  /** `m` may stand where the child `c` stood. */
  predicate Follows(c: Trie, m: Trie) {
    Rooted(m) && Tidy(m) && SameStart(c, m) && (c.kids != [] ==> m.kids != [])
  }

  lemma {:induction false} MarkerIsTidy()
    ensures Rooted(MARKER) && Tidy(MARKER)
  {
  }

  lemma {:induction false} UpdateTidy(n: Trie, k: nat, c: Trie, mark: bool)
    requires Tidy(n) && k < |n.kids| && Follows(n.kids[k], c)
    requires forall i :: 0 <= i < k ==> !SameStart(n.kids[i], n.kids[k])
    ensures Tidy(n.(kids := n.kids[k := c], tsr := mark))
  {
    var kids := n.kids[k := c];
    forall i, j | 0 <= i < j < |kids| && SameStart(kids[i], kids[j])
      ensures kids[j] == MARKER && kids[i].kids != []
    {
      assert SameStart(n.kids[i], n.kids[j]);
    }
  }

  lemma {:induction false} AppendTidy(n: Trie, c: Trie, mark: bool)
    requires Tidy(n) && Rooted(c) && Tidy(c)
    requires forall i :: 0 <= i < |n.kids| && SameStart(n.kids[i], c) ==> c == MARKER && n.kids[i].kids != []
    ensures Tidy(n.(kids := n.kids + [c], tsr := mark))
  {
  }

  lemma {:induction false} OneKidTidy(n: Trie, c: Trie)
    requires n.kids == [c] && Rooted(c) && Tidy(c)
    ensures Tidy(n)
  {
  }

  // ----- every operation keeps trees tidy ------------------------------------------------------------------

  lemma {:induction false} SplitTidy(c: Trie, i: nat)
    requires Tidy(c) && c.kind != Param && 0 < i < |c.path| && c.kids != [] && Routes(c, []) != multiset{}
    ensures Follows(c, Split(c, i))
  {
    var s := Split(c, i);
    var d := s.kids[0];
    SplitKeepsRoutes(c, i, []);
    RoutesOfOne(d, [] + TextOf(s));
    BearsAnywhere(d, [] + TextOf(s), []);
    OneKidTidy(s, d);
  }

  lemma {:induction false} MarkedFollows(c: Trie)
    requires Tidy(c) && Rooted(c) && c != MARKER
    ensures Follows(c, c.(tsr := true))
  {
    assert Routes(c.(tsr := true), []) == Routes(c, []);
  }

  lemma {:induction false} MarkSlashTidy(n: Trie)
    requires Tidy(n) && WellFormed(n)
    ensures Tidy(MarkSlash(n)) && (n.kids != [] ==> MarkSlash(n).kids != [])
  {
    var k := FirstSlash(n.kids);
    if k < |n.kids| {
      var c := n.kids[k];
      if c == MARKER {
        assert n.kids[k := c.(tsr := true)] == n.kids;
      } else {
        MarkedFollows(c);
        UpdateTidy(n, k, c.(tsr := true), n.tsr);
      }
    } else if n.path != "/" {
      MarkerIsTidy();
      AppendTidy(n, MARKER, n.tsr);
    }
  }

  lemma {:induction false} SetHandlerTidy(n: Trie, h: Handler)
    requires Tidy(n) && WellFormed(n)
    ensures Tidy(SetHandler(n, h).node) && (n.kids != [] ==> SetHandler(n, h).node.kids != [])
  {
    if !(n.handler.Some? || n.tsr) { MarkSlashTidy(n.(handler := Some(h))); }
  }

  lemma {:induction false} HungTidy(leaf: Trie, h: Handler)
    requires IsLeaf(leaf)
    ensures Tidy(Hung(leaf, h))
  {
    var child, last := leaf.(handler := Some(h)), |leaf.path| - 1;
    MarkerIsTidy();
    if leaf.path != "/" && leaf.path[last] == '/' {
      var d := child.(kind := Static, path := leaf.path[last..], keys := []);
      assert d.handler == Some(h) && Routes(d, []) != multiset{};
      OneKidTidy(Hung(leaf, h), d);
    } else if leaf.path != "/" {
      assert child.kids + [MARKER] == [MARKER];
      OneKidTidy(Hung(leaf, h), MARKER);
    }
  }

  lemma {:induction false} WildcardTidy(n: Trie, path: string, wp: WildPath, h: Handler)
    requires |wp.keys| > 0 && Tidy(n)
    ensures var m := AttachWildcard(n, path, wp, h).node;
      Tidy(m) && m.kids == n.kids && m.path == n.path && Routes(m, []) != multiset{}
  {
    var m := AttachWildcard(n, path, wp, h).node;
    assert m.wildcard.Some?;
    WildcardBears(m);
  }

  lemma {:induction false} InsertWildcardTidy(n: Trie, path: string, wp: WildPath, h: Handler)
    requires |wp.keys| > 0 && Tidy(n) && (n.path != "" && n.path != "/" ==> n.kids != [] || n == NewNode(n.path))
    ensures var m := InsertWildcard(n, path, wp, h).node; Tidy(m) && (n.kids != [] ==> m.kids != [])
  {
    var last := |n.path| - 1;
    if |path| == SegmentEnd(path, true) && n.path != "" && n.path[last] == '/' {
      if n.path == "/" {
        WildcardTidy(n, path, wp, h);
      } else {
        var cut := Split(n, last).(tsr := true);
        var r := AttachWildcard(cut.kids[0], path, wp, h);
        WildcardTidy(cut.kids[0], path, wp, h);
        OneKidTidy(Under(cut, 0, r).node, r.node);
      }
    }
  }

  lemma {:induction false} LeafTidy(n: Trie, leaf: Trie, h: Handler)
    requires IsLeaf(leaf)
    ensures var kids := Attach(n, leaf, h).node.kids; |kids| == |n.kids| + 1 && Tidy(kids[|n.kids|])
  {
    AttachHangs(n, leaf, h);
    HungTidy(leaf, h);
  }

  lemma {:induction false} UnderLink(n: Trie, link: Trie, r: Outcome)
    ensures var kids := Under(n.(kids := n.kids + [link]), |n.kids|, r).node.kids;
      |kids| == |n.kids| + 1 && kids[|n.kids|] == r.node
  {
  }

  lemma {:induction false} InsertTidy(n: Trie, ps: Pattern, h: Handler) returns (c: Trie)
    requires Good(ps) && Placed(ps) && ps != [] && !ps[0].Rest?
    ensures Hangs(n, Insert(n, Print(ps), h), ps, c) && Rooted(c) && Tidy(c)
    decreases |ps|, 1
  {
    c := InsertHangs(n, ps, h);
    InsertedIsTidy(n, ps, h);
    assert c == Insert(n, Print(ps), h).node.kids[|n.kids|];
  }

  lemma {:induction false} InsertedIsTidy(n: Trie, ps: Pattern, h: Handler)
    requires Good(ps) && Placed(ps) && ps != [] && !ps[0].Rest?
    ensures var kids := Insert(n, Print(ps), h).node.kids; |kids| == |n.kids| + 1 && Tidy(kids[|n.kids|])
    decreases |ps|, 0
  {
    var s := LitPrefix(ps);
    InsertCases(n, ps, h);
    if |s| == |ps| {
      NewNodeIsWellFormed(s);
      LeafTidy(n, NewNode(s), h);
    } else if s != "" {
      LinkTidy(NewNode(s), ps[|s|..], h);
      UnderLink(n, NewNode(s), Insert(NewNode(s), Print(ps[|s|..]), h));
    } else if LastKey(ps) {
      KeyNodeIsWellFormed(ps);
      LeafTidy(n, KeyNode(ps), h);
    } else {
      LinkTidy(KeyNode(ps), ps[1..], h);
      UnderLink(n, KeyNode(ps), Insert(KeyNode(ps), Print(ps[1..]), h));
    }
  }

  lemma {:induction false} LinkTidy(link: Trie, rest: Pattern, h: Handler)
    requires Good(rest) && Placed(rest) && rest != [] && link.kids == []
    requires rest[0].Rest? ==> link == NewNode(link.path)
    ensures Tidy(Insert(link, Print(rest), h).node)
    decreases |rest|, 2
  {
    if rest[0].Rest? {
      InsertCases(link, rest, h);
      InsertWildcardTidy(link, Print(rest), FindWild(Print(rest)).wp, h);
    } else {
      var d := InsertTidy(link, rest, h);
      OneKidTidy(Insert(link, Print(rest), h).node, d);
    }
  }

  /** The first sharing child starts like the text, and no child before it does. */
  lemma {:induction false} FirstShares(kids: seq<Trie>, path: string)
    requires path != "" && FirstShared(kids, path) < |kids|
    ensures var k := FirstShared(kids, path);
      kids[k].path != "" && kids[k].path[0] == path[0] && forall i :: 0 <= i < k ==> !SameStart(kids[i], kids[k])
  {
  }

  lemma {:induction false} NothingShares(kids: seq<Trie>, path: string, c: Trie)
    requires path != "" && c.path != "" && c.path[0] == path[0] && FirstShared(kids, path) == |kids|
    ensures forall i :: 0 <= i < |kids| ==> !SameStart(kids[i], c)
  {
  }

  /** The patterns of the run: those stored, and the one being added, are in a set without clashes. */
  ghost predicate Registering(stored: set<Pattern>, patterns: iset<Pattern>, ps: Pattern) {
    OneNamed(patterns) && ps in patterns && forall p :: p in stored ==> p in patterns
  }

  /** Routes at or below a node start with what it spells, and end there only with its handler. */
  lemma {:induction false} RouteStarts(n: Trie, pre: Pattern, r: Route)
    requires WellFormed(n) && r in Routes(n, pre)
    ensures pre + TextOf(n) <= r.0 && (r.0 == pre + TextOf(n) ==> n.handler == Some(r.1))
  {
    var full := pre + TextOf(n);
    if r !in Own(n, full) {
      var k := RoutesOfWitness(n.kids, full, r);
      KidIsWellFormed(n, k);
      RouteStarts(n.kids[k], full, r);
      assert |TextOf(n.kids[k])| > 0;
      assert full <= full + TextOf(n.kids[k]);
    }
  }

  /** A parameter child has a route behind it, and that was registered. */
  lemma {:induction false} KidIsRegistered(n: Trie, k: nat, pre: Pattern, stored: set<Pattern>) returns (p: Pattern)
    requires WellFormed(n) && Tidy(n) && k < |n.kids| && n.kids[k].kind == Param && Covers(stored, n, pre)
    ensures |n.kids[k].keys| == 1
    ensures var full := pre + TextOf(n) + [Key(n.kids[k].keys[0])];
      p in stored && full <= p && (p == full ==> n.kids[k].handler.Some?)
  {
    var c, full := n.kids[k], pre + TextOf(n);
    KidIsWellFormed(n, k);
    assert Rooted(c) && TextOf(c) == [Key(c.keys[0])];
    BearsAnywhere(c, [], full);
    var r :| r in Routes(c, full);
    RouteStarts(c, full, r);
    KidRoute(n, k, pre, r);
    p := r.0;
  }

  lemma {:induction false} NamesAgree(a: Pattern, full: Pattern, name: string, ps: Pattern)
    requires full + [Key(name)] <= a && ps != [] && ps[0].Key? && !Clash(a, full + ps, |full|)
    ensures ps[0] == Key(name) || (a == full + [Key(name)] && |ps| == 1)
  {
    var b, i := full + ps, |full|;
    assert a[..i] == (full + [Key(name)])[..i] == full == b[..i];
    assert a[i] == (full + [Key(name)])[i] && b[i] == ps[0];
  }

  /** A parameter meets no parameter of another name, unless both are last and the other has a handler. */
  lemma {:induction false} MeetsItsName(
    n: Trie, k: nat, ps: Pattern, pre: Pattern, stored: set<Pattern>, patterns: iset<Pattern>)
    requires WellFormed(n) && Tidy(n) && k < |n.kids| && n.kids[k].kind == Param && Covers(stored, n, pre)
    requires ps != [] && ps[0].Key? && Registering(stored, patterns, pre + TextOf(n) + ps)
    ensures n.kids[k].keys == [ps[0].name] || (n.kids[k].handler.Some? && |ps| == 1)
  {
    var p := KidIsRegistered(n, k, pre, stored);
    KidIsWellFormed(n, k);
    NamesAgree(p, pre + TextOf(n), n.kids[k].keys[0], ps);
  }

  lemma {:induction false} InsertKeepsSlash(n: Trie, path: string, h: Handler)
    requires n.path == "/"
    ensures var m := Insert(n, path, h).node; m.path == "/" && (n.tsr ==> m.tsr)
  {
  }

  lemma {:induction false} AddKeepsSlash(n: Trie, path: string, h: Handler)
    requires n.path == "/"
    ensures var m := Add(n, path, h).node; m.path == "/" && (n.tsr ==> m.tsr)
  {
    if path != "" {
      var k := FirstShared(n.kids, path);
      if k == |n.kids| {
        InsertKeepsSlash(n, path, h);
      } else if n.kids[k].kind == Param {
        AddAtParamKeepsSlash(n, k, path, h);
      } else {
        AddAtTextKeepsSlash(n, path, h);
      }
    }
  }

  lemma {:induction false} AddAtTextKeepsSlash(n: Trie, path: string, h: Handler)
    requires n.path == "/" && path != "" && FirstShared(n.kids, path) < |n.kids|
    requires n.kids[FirstShared(n.kids, path)].kind != Param
    ensures var m := Add(n, path, h).node; m.path == "/" && (n.tsr ==> m.tsr)
  {
  }

  lemma {:induction false} AddAtParamKeepsSlash(n: Trie, k: nat, path: string, h: Handler)
    requires n.path == "/" && k < |n.kids| && Lcp(path, n.kids[k].path) > 0
    ensures var m := AddAtParam(n, k, path, h).node; m.path == "/" && (n.tsr ==> m.tsr)
  {
    InsertKeepsSlash(n, path, h);
  }

  /** What `add` leaves below a node whose own text is not shortened. */
  ghost predicate Grows(n: Trie, m: Trie) { Tidy(m) && (n.kids != [] ==> m.kids != []) }

  /** A node whose text may be cut before a wildcard. */
  predicate Grown(n: Trie) { n.path != "" && n.path != "/" ==> n.kids != [] }

  /** As long as patterns do not clash, `add` keeps trees tidy, refusing or not. */
  lemma {:induction false} AddTidy(
    n: Trie, ps: Pattern, h: Handler, pre: Pattern, stored: set<Pattern>, patterns: iset<Pattern>)
    requires WellFormed(n) && Good(ps) && Placed(ps) && Tidy(n) && Grown(n) && Covers(stored, n, pre)
    requires Registering(stored, patterns, pre + TextOf(n) + ps)
    ensures Grows(n, Add(n, Print(ps), h).node)
    decreases |ps|, 2
  {
    var k := FirstShared(n.kids, Print(ps));
    if ps == [] {
      SetHandlerTidy(n, h);
    } else if ps[0].Rest? {
      RestBlocked(n, ps, h);
      InsertRestCase(n, ps, h);
      InsertWildcardTidy(n, Print(ps), FindWild(Print(ps)).wp, h);
    } else if k == |n.kids| {
      PrintStart(ps);
      var c := InsertTidy(n, ps, h);
      NothingShares(n.kids, Print(ps), c);
      AppendTidy(n, c, Insert(n, Print(ps), h).node.tsr);
    } else {
      KidIsWellFormed(n, k);
      PrintStart(ps);
      if n.kids[k].kind == Param {
        AddAtKeyTidy(n, k, ps, h, pre, stored, patterns);
      } else {
        AddAtStaticTidy(n, k, ps, h, pre, stored, patterns);
      }
    }
  }

  /** What `add` leaves of a child. */
  lemma {:induction false} AddFollows(
    c: Trie, ps: Pattern, h: Handler, pre: Pattern, stored: set<Pattern>, patterns: iset<Pattern>)
    requires WellFormed(c) && Good(ps) && Placed(ps) && Tidy(c) && Rooted(c) && Covers(stored, c, pre)
    requires Registering(stored, patterns, pre + TextOf(c) + ps)
    requires ps != [] && ps[0].Rest? ==> EndsInSlash(c.path)
    ensures Follows(c, Add(c, Print(ps), h).node)
    decreases |ps|, 3
  {
    var m := Add(c, Print(ps), h).node;
    AddTidy(c, ps, h, pre, stored, patterns);
    AddStands(c, ps, h);
    AddGains(c, ps, h, []);
    AddBlocked(c, ps, h);
    if c.path == "/" { AddKeepsSlash(c, Print(ps), h); }
    if c == MARKER && ps != [] { assert !Blocked(c, ps); }
  }

  /** A parameter that meets its own name, or as the last one a handler. */
  lemma {:induction false} KeyGoesOn(n: Trie, k: nat, ps: Pattern, h: Handler)
    requires WellFormed(n) && Good(ps) && ps != [] && ps[0].Key?
    requires k < |n.kids| && k == FirstShared(n.kids, Print(ps)) && n.kids[k].kind == Param
    requires n.kids[k].keys == [ps[0].name] || (n.kids[k].handler.Some? && |ps| == 1)
    ensures var c, r := n.kids[k], Add(n, Print(ps), h);
      if LastKey(ps) && c.handler.Some? then r.node == n else r == Under(n, k, Add(c, Print(ps[1..]), h))
  {
    KidIsWellFormed(n, k);
    PrintStart(ps);
    KeyMeetsKey(n, k, ps, h);
    assert Add(n, Print(ps), h) == AddAtParam(n, k, Print(ps), h);
  }

  lemma {:induction false} AddAtKeyTidy(
    n: Trie, k: nat, ps: Pattern, h: Handler, pre: Pattern, stored: set<Pattern>, patterns: iset<Pattern>)
    requires WellFormed(n) && Good(ps) && Placed(ps) && Tidy(n) && Covers(stored, n, pre) && ps != [] && !ps[0].Rest?
    requires k < |n.kids| && k == FirstShared(n.kids, Print(ps)) && n.kids[k].kind == Param
    requires Registering(stored, patterns, pre + TextOf(n) + ps)
    ensures Grows(n, Add(n, Print(ps), h).node)
    decreases |ps|, 1
  {
    var c := n.kids[k];
    StartsWithKey(n, k, ps);
    MeetsItsName(n, k, ps, pre, stored, patterns);
    KeyGoesOn(n, k, ps, h);
    if !(LastKey(ps) && c.handler.Some?) {
      BelowKeyFollows(n, k, ps, h, pre, stored, patterns);
      UpdateTidy(n, k, Add(c, Print(ps[1..]), h).node, n.tsr);
    }
  }

  lemma {:induction false} StartsWithKey(n: Trie, k: nat, ps: Pattern)
    requires WellFormed(n) && Good(ps) && ps != [] && !ps[0].Rest?
    requires k < |n.kids| && k == FirstShared(n.kids, Print(ps)) && n.kids[k].kind == Param
    ensures ps[0].Key? && forall i :: 0 <= i < k ==> !SameStart(n.kids[i], n.kids[k])
  {
    KidIsWellFormed(n, k);
    PrintStart(ps);
    FirstShares(n.kids, Print(ps));
    assert n.kids[k].path[0] == '{';
  }

  lemma {:induction false} KidKnown(n: Trie, k: nat, pre: Pattern, stored: set<Pattern>)
    requires WellFormed(n) && Tidy(n) && Covers(stored, n, pre) && k < |n.kids|
    ensures var c := n.kids[k]; WellFormed(c) && Tidy(c) && Rooted(c) && Covers(stored, c, pre + TextOf(n))
  {
    KidIsWellFormed(n, k);
    CoversKid(stored, n, k, pre);
  }

  lemma {:induction false} BelowKeyFollows(
    n: Trie, k: nat, ps: Pattern, h: Handler, pre: Pattern, stored: set<Pattern>, patterns: iset<Pattern>)
    requires WellFormed(n) && Good(ps) && Placed(ps) && Tidy(n) && Covers(stored, n, pre) && ps != [] && ps[0].Key?
    requires k < |n.kids| && n.kids[k].keys == [ps[0].name]
    requires n.kids[k].kind == Param && Registering(stored, patterns, pre + TextOf(n) + ps)
    ensures Follows(n.kids[k], Add(n.kids[k], Print(ps[1..]), h).node)
    decreases |ps|, 0
  {
    var c, full := n.kids[k], pre + TextOf(n);
    KidKnown(n, k, pre, stored);
    assert TextOf(c) + ps[1..] == ps;
    Assoc(full, TextOf(c), ps[1..]);
    AfterKey(ps);
    AddFollows(c, ps[1..], h, full, stored, patterns);
  }

  /** No wildcard comes right after a parameter. */
  lemma {:induction false} AfterKey(ps: Pattern)
    requires Good(ps) && Placed(ps) && ps != [] && ps[0].Key?
    ensures Placed(ps[1..]) && Good(ps[1..]) && (ps[1..] != [] ==> !ps[1..][0].Rest?)
  {
    PlacedSuffix(ps, 1);
    GoodSuffix(ps, 1);
  }

  lemma {:induction false} CutFollows(c: Trie, i: nat, full: Pattern, stored: set<Pattern>)
    requires WellFormed(c) && c.kind == Static && Tidy(c) && Rooted(c) && 0 < i <= |c.path| && Covers(stored, c, full)
    ensures WellFormed(CutAt(c, i)) && Follows(c, CutAt(c, i)) && Covers(stored, CutAt(c, i), full)
  {
    CutStands(c, i);
    CutKeepsRoutes(c, i, full);
    if i < |c.path| { SplitTidy(c, i); }
  }

  lemma {:induction false} AddAtStaticTidy(
    n: Trie, k: nat, ps: Pattern, h: Handler, pre: Pattern, stored: set<Pattern>, patterns: iset<Pattern>)
    requires WellFormed(n) && Good(ps) && Placed(ps) && Tidy(n) && Covers(stored, n, pre) && ps != []
    requires k < |n.kids| && k == FirstShared(n.kids, Print(ps)) && n.kids[k].kind == Static
    requires Registering(stored, patterns, pre + TextOf(n) + ps)
    ensures Grows(n, Add(n, Print(ps), h).node)
    decreases |ps|, 1
  {
    var c := n.kids[k];
    var i := Lcp(Print(ps), c.path);
    CutChildFollows(n, k, ps, h, pre, stored, patterns);
    var m := Add(CutAt(c, i), Print(ps[i..]), h).node;
    PrintStart(ps);
    FirstShares(n.kids, Print(ps));
    UpdateTidy(n, k, m, n.tsr);
    UpdateTidy(n, k, m, true);
    AddReplaces(n, k, ps, h);
  }

  /** `add` at a child with text replaces just that child; its parent may be marked. */
  lemma {:induction false} AddReplaces(n: Trie, k: nat, ps: Pattern, h: Handler)
    requires WellFormed(n) && Good(ps) && ps != [] && k < |n.kids| && k == FirstShared(n.kids, Print(ps))
    requires n.kids[k].kind == Static && Lcp(Print(ps), n.kids[k].path) <= |ps|
    ensures var i := Lcp(Print(ps), n.kids[k].path);
      var m, kid := Add(n, Print(ps), h).node, Add(CutAt(n.kids[k], i), Print(ps[i..]), h).node;
      m == n.(kids := n.kids[k := kid]) || m == n.(kids := n.kids[k := kid], tsr := true)
  {
    var i := Lcp(Print(ps), n.kids[k].path);
    var cut := CutAt(n.kids[k], i);
    KidIsWellFormed(n, k);
    AddAtStaticCases(n, k, ps, h);
    if i < |ps| {
      CutUnder(n, k, cut, Add(cut, Print(ps[i..]), h), n.tsr);
    } else {
      CutUnder(n, k, cut, SetHandler(cut, h), n.tsr);
      CutUnder(n, k, cut, SetHandler(cut, h), true);
    }
  }

  lemma {:induction false} CutUnder(n: Trie, k: nat, cut: Trie, r: Outcome, mark: bool)
    requires k < |n.kids|
    ensures Under(n.(kids := n.kids[k := cut], tsr := mark), k, r).node == n.(kids := n.kids[k := r.node], tsr := mark)
  {
    assert n.kids[k := cut][k := r.node] == n.kids[k := r.node];
  }

  lemma {:induction false} RestAfterText(ps: Pattern, t: string, i: nat)
    requires 0 < i <= |ps| && ps == Lits(t) + ps[i..] && |t| == i && Placed(ps)
    ensures Placed(ps[i..]) && (ps[i..] != [] && ps[i..][0].Rest? ==> EndsInSlash(t))
  {
    PlacedSuffix(ps, i);
    assert ps[i - 1] == Lit(t[i - 1]);
  }

  lemma {:induction false} CutChildFollows(
    n: Trie, k: nat, ps: Pattern, h: Handler, pre: Pattern, stored: set<Pattern>, patterns: iset<Pattern>)
    requires WellFormed(n) && Good(ps) && Placed(ps) && Tidy(n) && Covers(stored, n, pre) && ps != []
    requires k < |n.kids| && k == FirstShared(n.kids, Print(ps)) && n.kids[k].kind == Static
    requires Registering(stored, patterns, pre + TextOf(n) + ps)
    ensures var c := n.kids[k]; var i := Lcp(Print(ps), c.path);
      i <= |ps| && Follows(c, Add(CutAt(c, i), Print(ps[i..]), h).node)
    decreases |ps|, 0
  {
    var c, full := n.kids[k], pre + TextOf(n);
    var i := Lcp(Print(ps), c.path);
    var cut := CutAt(c, i);
    KidKnown(n, k, pre, stored);
    AddAtStaticCases(n, k, ps, h);
    CutFollows(c, i, full, stored);
    RestAfterText(ps, cut.path, i);
    Assoc(full, TextOf(cut), ps[i..]);
    AddFollows(cut, ps[i..], h, full, stored, patterns);
  }

  // ----- sort ----------------------------------------------------------------------------------------------

  /** Siblings that start alike, in either order. */
  predicate Paired(a: Trie, b: Trie) {
    SameStart(a, b) ==> (b == MARKER && a.kids != []) || (a == MARKER && b.kids != [])
  }

  predicate TidyChild(c: Trie) { Rooted(c) && Tidy(c) }

  lemma {:induction false} SortTidyChild(a: Trie, b: Trie)
    requires SortsTo(a, b) && WellFormed(a) && TidyChild(a)
    ensures TidyChild(b) && SameStart(a, b) && (a.kids != [] ==> b.kids != []) && (a == MARKER ==> b == MARKER)
    decreases a, 1
  {
    SortTidy(a, b);
    SortKeepsRoutes(a, b, []);
    SortSize(a, b);
  }

  lemma {:induction false} SortSize(a: Trie, b: Trie)
    requires SortsTo(a, b)
    ensures |b.kids| == |a.kids|
  {
    var mid :| SortsEach(a, mid) && multiset(mid) == multiset(b.kids);
    assert |multiset(mid)| == |multiset(b.kids)|;
  }

  lemma {:induction false} PairsSorted(a: seq<Trie>, mid: seq<Trie>)
    requires |a| == |mid| && MarkersLast(a)
    requires forall i :: 0 <= i < |a| ==>
      SameStart(a[i], mid[i]) && (a[i].kids != [] ==> mid[i].kids != []) && (a[i] == MARKER ==> mid[i] == MARKER)
    ensures forall i, j :: 0 <= i < j < |mid| ==> Paired(mid[i], mid[j])
  {
    forall i, j | 0 <= i < j < |mid|
      ensures Paired(mid[i], mid[j])
    {
      assert SameStart(mid[i], mid[j]) ==> SameStart(a[i], a[j]);
    }
  }

  lemma {:induction false} PairsPermuted(mid: seq<Trie>, b: seq<Trie>, i: nat, j: nat)
    requires multiset(mid) == multiset(b) && i < j < |b|
    requires forall p, q :: 0 <= p < q < |mid| ==> Paired(mid[p], mid[q])
    ensures Paired(b[i], b[j])
  {
    var p, q := PairOf(mid, b, i, j);
    if p < q { assert Paired(mid[p], mid[q]); } else { assert Paired(mid[q], mid[p]); }
  }

  /** In sorted order the bare marker comes after the child it shares its slash with. */
  lemma {:induction false} MarkerSortsLast(kids: seq<Trie>, i: nat, j: nat)
    requires Ordered(kids) && i < j < |kids| && Paired(kids[i], kids[j]) && SameStart(kids[i], kids[j])
    requires IsChild(kids[i]) && WellFormed(kids[i]) && IsChild(kids[j]) && WellFormed(kids[j])
    ensures kids[j] == MARKER && kids[i].kids != []
  {
    assert !Less(kids[j], kids[i]);
  }

  lemma {:induction false} SortTidy(a: Trie, b: Trie)
    requires SortsTo(a, b) && WellFormed(a) && Tidy(a)
    ensures Tidy(b)
    decreases a, 0
  {
    var mid: seq<Trie> :| SortsEach(a, mid) && multiset(mid) == multiset(b.kids);
    SortStands(a, b);
    forall i | 0 <= i < |mid|
      ensures TidyChild(mid[i]) && SameStart(a.kids[i], mid[i])
      ensures (a.kids[i].kids != [] ==> mid[i].kids != []) && (a.kids[i] == MARKER ==> mid[i] == MARKER)
    {
      KidIsWellFormed(a, i);
      SortTidyChild(a.kids[i], mid[i]);
    }
    PairsSorted(a.kids, mid);
    SortedKidsTidy(mid, b);
  }

  lemma {:induction false} SortedKidsTidy(mid: seq<Trie>, b: Trie)
    requires multiset(mid) == multiset(b.kids) && Ordered(b.kids) && WellFormed(b)
    requires forall i :: 0 <= i < |mid| ==> TidyChild(mid[i])
    requires forall p, q :: 0 <= p < q < |mid| ==> Paired(mid[p], mid[q])
    ensures Tidy(b)
  {
    forall i | 0 <= i < |b.kids|
      ensures TidyChild(b.kids[i])
    {
      assert b.kids[i] in multiset(mid);
    }
    forall i, j | 0 <= i < j < |b.kids| && SameStart(b.kids[i], b.kids[j])
      ensures b.kids[j] == MARKER && b.kids[i].kids != []
    {
      PairsPermuted(mid, b.kids, i, j);
      KidIsWellFormed(b, i);
      KidIsWellFormed(b, j);
      MarkerSortsLast(b.kids, i, j);
    }
  }

  // ----- Tree.Add ------------------------------------------------------------------------------------------

  /** The root of a storage, with text once a route is stored. */
  predicate TidyRoot(root: Trie) { Tidy(root) && (root.path != "" ==> Rooted(root)) }

  lemma {:induction false} CutRootTidy(root: Trie, i: nat, stored: set<Pattern>)
    requires IsRoot(root) && TidyRoot(root) && i <= |root.path| && Covers(stored, root, [])
    ensures var cut := CutRoot(root, i); WellFormed(cut) && TidyRoot(cut) && Covers(stored, cut, [])
  {
    if 0 < i < |root.path| {
      SplitStands(root, i);
      SplitKeepsRoutes(root, i, []);
      SplitTidy(root, i);
    }
  }

  lemma {:induction false} AddAtRootTidy(
    root: Trie, ps: Pattern, h: Handler, stored: set<Pattern>, patterns: iset<Pattern>)
    requires IsRoot(root) && TidyRoot(root) && IsRoute(ps) && Placed(ps) && Covers(stored, root, [])
    requires Registering(stored, patterns, ps)
    ensures TidyRoot(AddAtRoot(root, Print(ps), h).node)
  {
    if root.path == "" {
      TextlessTidy(root, ps, h, stored, patterns);
    } else {
      var i := Lcp(Print(ps), root.path);
      RootIsCut(root, ps, h);
      CutRootTidy(root, i, stored);
      PlacedSuffix(ps, i);
      RootEndsInSlash(root, ps);
      CutTidy(CutRoot(root, i), ps, i, h, stored, patterns);
    }
  }

  lemma {:induction false} CutTidy(
    cut: Trie, ps: Pattern, i: nat, h: Handler, stored: set<Pattern>, patterns: iset<Pattern>)
    requires WellFormed(cut) && TidyRoot(cut) && cut.path != "" && Covers(stored, cut, []) && i <= |ps|
    requires Good(ps[i..]) && Placed(ps[i..]) && TextOf(cut) + ps[i..] == ps && Registering(stored, patterns, ps)
    requires i < |ps| && ps[i].Rest? ==> EndsInSlash(cut.path)
    ensures TidyRoot(Add(cut, Print(ps[i..]), h).node)
  {
    assert [] + TextOf(cut) + ps[i..] == ps;
    AddFollows(cut, ps[i..], h, [], stored, patterns);
  }

  lemma {:induction false} TextlessTidy(
    root: Trie, ps: Pattern, h: Handler, stored: set<Pattern>, patterns: iset<Pattern>)
    requires IsRoot(root) && TidyRoot(root) && root.path == "" && IsRoute(ps) && Placed(ps)
    requires Covers(stored, root, []) && Registering(stored, patterns, ps)
    ensures TidyRoot(AddAtRoot(root, Print(ps), h).node)
  {
    assert Print(ps)[0..] == Print(ps);
    assert [] + TextOf(root) + ps == ps;
    AddTidy(root, ps, h, [], stored, patterns);
    TextlessRootAdd(root, ps, h);
  }

  lemma {:induction false} RootEndsInSlash(root: Trie, ps: Pattern)
    requires IsRoot(root) && root.path != "" && IsRoute(ps) && Placed(ps)
    ensures var i := Lcp(Print(ps), root.path);
      i <= |ps| && (i < |ps| && ps[i].Rest? ==> EndsInSlash(CutRoot(root, i).path))
  {
    var i := Lcp(Print(ps), root.path);
    SharedText(ps, root.path);
    PrintStart(ps);
    PlacedSuffix(ps, i);
    assert i > 0;
    assert CutRoot(root, i).path == root.path[..i];
    assert root.path[..i][i - 1] == LitPrefix(ps)[i - 1];
  }

  lemma {:induction false} PromoteTidy(n: Trie)
    requires TidyRoot(n) && IsRoot(n) && Routes(n, []) != multiset{} && (n.path == "" ==> |n.kids| == 1)
    ensures TidyRoot(Promote(n))
  {
    if n.path == "" {
      var c := n.kids[0];
      assert n.kids == [c] && [] + TextOf(n) == [];
      RoutesOfOne(c, []);
      assert TidyChild(c) && Routes(c, []) != multiset{};
      assert Routes(c.(kind := Root), []) == Routes(c, []);
      assert MarkersLast(c.kids);
    }
  }

  /** Exchanging the handler of a node that has one. */
  lemma {:induction false} RehandledTidy(m: Trie, e: AddError, h: Handler)
    requires Tidy(m) && (if e == HandlerExists then m.handler.Some? else m.wildcard.Some?)
    ensures var n := Rehandled(m, e, h); Tidy(n) && n.path == m.path && n.kids == m.kids && Routes(n, []) != multiset{}
  {
    var n := Rehandled(m, e, h);
    if e == HandlerExists { OwnHandler(n, []); } else { WildcardBears(n); }
  }

  lemma {:induction false} ReplaceTidy(n: Trie, at: seq<nat>, e: AddError, h: Handler)
    requires Tidy(n) && NodeAt(n, at).Some?
    requires var m := NodeAt(n, at).value; if e == HandlerExists then m.handler.Some? else m.wildcard.Some?
    ensures var r := Replace(n, at, Rehandled(NodeAt(n, at).value, e, h));
      Tidy(r) && r.path == n.path && |r.kids| == |n.kids| && (at == [] || n.kids != []) && Routes(r, []) != multiset{}
    decreases |at|
  {
    if at == [] {
      RehandledTidy(n, e, h);
    } else {
      var k, m := at[0], Rehandled(NodeAt(n, at).value, e, h);
      var c := Replace(n.kids[k], at[1..], m);
      ReplaceTidy(n.kids[k], at[1..], e, h);
      KidReplaced(n, k, c);
    }
  }

  /** A child with a route in place of one that had one. */
  lemma {:induction false} KidReplaced(n: Trie, k: nat, c: Trie)
    requires Tidy(n) && k < |n.kids| && Tidy(c) && c.path == n.kids[k].path && |c.kids| == |n.kids[k].kids|
    requires Routes(c, []) != multiset{} && n.kids[k] != MARKER
    ensures var m := n.(kids := n.kids[k := c]); Tidy(m) && Routes(m, []) != multiset{}
  {
    SameStarts(n.kids, k, c);
    KidBears(n.(kids := n.kids[k := c]), k);
  }

  lemma {:induction false} SameStarts(kids: seq<Trie>, k: nat, c: Trie)
    requires MarkersLast(kids) && k < |kids| && c.path == kids[k].path && |c.kids| == |kids[k].kids|
    requires kids[k] != MARKER
    ensures MarkersLast(kids[k := c])
  {
    var m := kids[k := c];
    forall i, j | 0 <= i < j < |m| && SameStart(m[i], m[j])
      ensures m[j] == MARKER && m[i].kids != []
    {
      assert SameStart(kids[i], kids[j]);
    }
  }

  lemma {:induction false} KidBears(n: Trie, k: nat)
    requires k < |n.kids| && Routes(n.kids[k], []) != multiset{}
    ensures Routes(n, []) != multiset{}
  {
    var full := [] + TextOf(n);
    BearsAnywhere(n.kids[k], [], full);
    RoutesOfAt(n.kids, k, full);
  }

  /** The root after an override. */
  lemma {:induction false} OverrideTidy(root: Trie, r: Outcome, ps: Pattern, h: Handler)
    requires IsRoot(r.node) && TidyRoot(r.node) && Blames(r, [], ps) && Overrides(r, true)
    ensures TidyRoot(Replace(r.node, r.at.value, Rehandled(NodeAt(r.node, r.at.value).value, r.err.value, h)))
  {
    ReplaceTidy(r.node, r.at.value, r.err.value, h);
  }

  /** A call of `Tree.Add`, mutable or not and refused or not, keeps the storage tidy. */
  lemma {:induction false} StepTidy(
    root: Trie, mutable: bool, ps: Pattern, h: Handler, root': Trie, ok: bool, stored: set<Pattern>,
    patterns: iset<Pattern>)
    requires IsRoot(root) && TidyRoot(root) && IsRoute(ps) && Placed(ps) && Covers(stored, root, [])
    requires Registering(stored, patterns, ps) && AddStep(root, mutable, Print(ps), h, root', ok)
    ensures TidyRoot(root')
  {
    var r := AddAtRoot(root, Print(ps), h);
    PrintStart(ps);
    AddAtRootTidy(root, ps, h, stored, patterns);
    AddAtRootStands(root, ps, h);
    if root.path == "" { TextlessRootAdd(root, ps, h); }
    PromoteKeeps(root, r.node);
    if r.err == None {
      AddAtRootGains(root, ps, h);
      PromoteTidy(r.node);
      SortTidyChild(Promote(r.node), root');
    } else if Overrides(r, mutable) {
      AddAtRootBlames(root, ps, h);
      OverrideTidy(root, r, ps, h);
    }
  }

  // ----- a stored route stands in its own way --------------------------------------------------------------

  /** In a tidy tree the walk of a stored route ends where it is stored. */
  lemma {:induction false} StoredIsBlocked(n: Trie, ps: Pattern, pre: Pattern, was: Handler)
    requires WellFormed(n) && Tidy(n) && Good(ps) && (pre + TextOf(n) + ps, was) in Routes(n, pre)
    ensures Blocked(n, ps)
    decreases |ps|
  {
    var full := pre + TextOf(n);
    if (full + ps, was) in Own(n, full) {
      OwnIsBlocked(n, ps, full, was);
    } else {
      var k := RoutesOfWitness(n.kids, full, (full + ps, was));
      KidIsBlocked(n, k, ps, pre, was);
    }
  }

  lemma {:induction false} OwnIsBlocked(n: Trie, ps: Pattern, full: Pattern, was: Handler)
    requires (full + ps, was) in Own(n, full)
    ensures Blocked(n, ps)
  {
    if n.handler.Some? && (full + ps, was) == (full, n.handler.value) {
      assert |full + ps| == |full|;
    } else {
      var name := n.wildcard.value.key;
      assert full + ps == full + [Rest(name)];
      assert ps == (full + ps)[|full|..] == [Rest(name)];
    }
  }

  lemma {:induction false} KidIsBlocked(n: Trie, k: nat, ps: Pattern, pre: Pattern, was: Handler)
    requires WellFormed(n) && Tidy(n) && Good(ps) && k < |n.kids|
    requires (pre + TextOf(n) + ps, was) in Routes(n.kids[k], pre + TextOf(n))
    ensures Blocked(n, ps)
    decreases |ps|, 0
  {
    var c, full := n.kids[k], pre + TextOf(n);
    KidIsWellFormed(n, k);
    TextBefore(c, full, ps, was);
    WalksTo(n, k, ps, pre, was);
    var rest := ps[|TextOf(c)|..];
    GoodSuffix(ps, |TextOf(c)|);
    StoredIsBlocked(c, rest, full, was);
    if c.kind == Param {
      assert ps[0] == TextOf(c)[0];
    } else {
      TextIsPrefix(ps, c.path);
    }
  }

  /** A route at or below a node goes on after the node's text. */
  lemma {:induction false} TextBefore(c: Trie, full: Pattern, ps: Pattern, was: Handler)
    requires WellFormed(c) && (full + ps, was) in Routes(c, full)
    ensures TextOf(c) <= ps && full + TextOf(c) + ps[|TextOf(c)|..] == full + ps
  {
    var text := TextOf(c);
    RouteStarts(c, full, (full + ps, was));
    assert (full + ps)[|full|..] == ps && (full + text)[|full|..] == text;
  }

  lemma {:induction false} TextIsPrefix(ps: Pattern, t: string)
    requires Lits(t) <= ps
    ensures t <= LitPrefix(ps)
  {
    if t != "" {
      assert Lits(t)[0] == ps[0];
      assert Lits(t[1..]) == Lits(t)[1..] && Lits(t)[1..] <= ps[1..];
      TextIsPrefix(ps[1..], t[1..]);
    }
  }

  /** The walk goes to the child that stores the route. */
  lemma {:induction false} WalksTo(n: Trie, k: nat, ps: Pattern, pre: Pattern, was: Handler)
    requires WellFormed(n) && Tidy(n) && k < |n.kids| && TextOf(n.kids[k]) <= ps
    requires (pre + TextOf(n) + ps, was) in Routes(n.kids[k], pre + TextOf(n))
    ensures ps != [] && !ps[0].Rest? && FirstShared(n.kids, Print(ps)) == k
  {
    var c := n.kids[k];
    KidIsWellFormed(n, k);
    assert ps[0] == TextOf(c)[0];
    PrintStart(ps);
    assert Print(ps)[0] == c.path[0];
    assert Lcp(Print(ps), c.path) > 0;
    var j := FirstShared(n.kids, Print(ps));
    FirstShares(n.kids, Print(ps));
    if j < k {
      assert SameStart(n.kids[j], c);
      assert false;
    }
  }

  lemma {:induction false} StoredIsBlockedAtRoot(root: Trie, ps: Pattern, was: Handler)
    requires IsRoot(root) && TidyRoot(root) && IsRoute(ps) && (ps, was) in Routes(root, [])
    ensures BlockedAtRoot(root, ps)
  {
    assert [] + ps == ps;
    TextBefore(root, [], ps, was);
    TextIsPrefix(ps, root.path);
    GoodSuffix(ps, |root.path|);
    StoredIsBlocked(root, ps[|root.path|..], [], was);
  }
}
