/**
 Registering a route a second time. It is refused in every run exactly when no two patterns in use have
 different parameter names at the same place; otherwise there is a run that stores a route twice.
 */
module OneName {
  import opened Text
  import opened WildPath
  import opened Pattern
  import opened Trie
  import opened Conservation
  import opened RouteTree
  import opened TrailingSlash
  import opened Lookup
  import opened Refusals
  import opened TidyTree

  // ----- runs without clashes ------------------------------------------------------------------------------

  ghost predicate Within(run: seq<Call>, patterns: iset<Pattern>) {
    forall k :: 0 <= k < |run| ==> run[k].pattern in patterns
  }

  /** A route a call has registered is refused ever after. */
  predicate RefusesAgain(run: seq<Call>) {
    forall i, j :: 0 <= i < j < |run| && run[i].ok && run[j].pattern == run[i].pattern ==> !run[j].ok
  }

  /** Patterns `Tree.Add` may accept: supported, starting with a slash, and with a slash before the wildcard. */
  ghost predicate Registrable(patterns: iset<Pattern>) {
    forall ps :: ps in patterns ==> IsRoute(ps) && Placed(ps)
  }

  /** What a storage holds was registered by a call that returned, and everything such a call registered is held. */
  lemma {:induction false} StoredIsCalled(run: seq<Call>, roots: seq<Trie>, mutable: bool, n: nat, ps: Pattern)
    requires IsRun(run, roots, mutable) && n <= |run|
    ensures IsRoot(roots[n])
    ensures ps in Stored(roots[n]) <==> exists k :: 0 <= k < n && run[k].ok && run[k].pattern == ps
  {
    RunConserves(run[..n], roots[..n + 1], mutable);
    if ps in Stored(roots[n]) {
      var r :| r in Accepted(run[..n]) && r.0 == ps;
      var k := AcceptedIsCalled(run[..n], r);
      assert run[k].pattern == ps;
    }
    if k :| 0 <= k < n && run[k].ok && run[k].pattern == ps {
      CalledIsAccepted(run[..n], k);
    }
  }

  lemma {:induction false} CalledIsAccepted(run: seq<Call>, k: nat)
    requires k < |run| && run[k].ok
    ensures (run[k].pattern, run[k].handler) in Accepted(run)
  {
    if k < |run| - 1 { CalledIsAccepted(run[..|run| - 1], k); }
  }

  lemma {:induction false} RunTidy(
    run: seq<Call>, roots: seq<Trie>, mutable: bool, patterns: iset<Pattern>, n: nat)
    requires IsRun(run, roots, mutable) && Within(run, patterns) && Registrable(patterns) && OneNamed(patterns)
    requires n <= |run|
    ensures IsRoot(roots[n]) && TidyRoot(roots[n])
  {
    if n == 0 {
      EmptyIsRoot();
    } else {
      var k := n - 1;
      var c, stored := run[k], Stored(roots[k]);
      RunTidy(run, roots, mutable, patterns, k);
      forall p | p in stored
        ensures p in patterns
      {
        StoredIsCalled(run, roots, mutable, k, p);
      }
      assert AddStep(roots[k], mutable, Print(c.pattern), c.handler, roots[k + 1], c.ok);
      StepTidy(roots[k], mutable, c.pattern, c.handler, roots[k + 1], c.ok, stored, patterns);
      RunIsRoot(run, roots, mutable, n);
    }
  }

  lemma {:induction false} RepeatIsRefused(run: seq<Call>, roots: seq<Trie>, patterns: iset<Pattern>, i: nat, j: nat)
    requires IsRun(run, roots, false) && Within(run, patterns) && Registrable(patterns) && OneNamed(patterns)
    requires i < j < |run| && run[i].ok && run[j].pattern == run[i].pattern
    ensures !run[j].ok
  {
    var ps := run[j].pattern;
    RunTidy(run, roots, false, patterns, j);
    StoredIsCalled(run, roots, false, j, ps);
    var r :| r in Routes(roots[j], []) && r.0 == ps;
    StoredIsBlockedAtRoot(roots[j], ps, r.1);
    AcceptedIffFree(roots[j], ps, run[j].handler, roots[j + 1], run[j].ok);
  }

  // ----- two names at one place ----------------------------------------------------------------------------

  /**
   The walk of `ps` goes down single children to a parameter of another name, behind which it will be inserted.
   */
  predicate Behind(n: Trie, ps: Pattern)
    decreases |ps|
  {
    ps != [] && n.kids != [] &&
    var c := n.kids[0];
    if c.kind == Param then
      ps[0].Key? &&
      if c.keys == [ps[0].name] then |n.kids| == 1 && !LastKey(ps) && Behind(c, ps[1..])
      else
        && (c.handler == None || !LastKey(ps))
        && forall i :: 0 <= i < |n.kids| ==> n.kids[i].kind == Param && |n.kids[i].kids| == 1
    else |n.kids| == 1 && c.path != "" && c.path <= LitPrefix(ps) && Behind(c, ps[|c.path|..])
  }

  /** `m` is `n` with other children. */
  predicate SameNode(n: Trie, m: Trie) { m == n.(kids := m.kids, tsr := m.tsr) && m.kids != [] }

  lemma {:induction false} FirstSharesAtOnce(kids: seq<Trie>, path: string)
    requires kids != [] && path != "" && kids[0].path != "" && kids[0].path[0] == path[0]
    ensures FirstShared(kids, path) == 0
  {
  }

  /** A pattern behind a parameter of another name is accepted, and is behind it again. */
  lemma {:induction false} BehindAccepts(n: Trie, ps: Pattern, h: Handler)
    requires WellFormed(n) && Good(ps) && Placed(ps) && Sorted(n) && Behind(n, ps)
    ensures var r := Add(n, Print(ps), h);
      r.err == None && SameNode(n, r.node) && Sorted(r.node) && Behind(r.node, ps)
    decreases |ps|
  {
    var c := n.kids[0];
    KidIsWellFormed(n, 0);
    PrintStart(ps);
    PlacedSuffix(ps, 1);
    if c.kind == Param {
      FirstSharesAtOnce(n.kids, Print(ps));
      KeyMeetsKey(n, 0, ps, h);
      if c.keys == [ps[0].name] {
        BehindAccepts(c, ps[1..], h);
        OnlyKidChanges(n, Add(c, Print(ps[1..]), h), ps);
      } else {
        BehindInserts(n, ps, h);
      }
    } else {
      BehindText(n, ps, h);
    }
  }

  lemma {:induction false} OnlyKidChanges(n: Trie, r: Outcome, ps: Pattern)
    requires |n.kids| == 1 && Sorted(n) && Sorted(r.node) && SameNode(n.kids[0], r.node)
    ensures var u := Under(n, 0, r); SameNode(n, u.node) && Sorted(u.node) && u.node.kids == [r.node]
  {
  }

  lemma {:induction false} BehindInserts(n: Trie, ps: Pattern, h: Handler)
    requires Good(ps) && Placed(ps) && Sorted(n) && Behind(n, ps) && ps[0].Key?
    requires n.kids[0].kind == Param && n.kids[0].keys != [ps[0].name]
    ensures var r := Insert(n, Print(ps), h);
      r.err == None && SameNode(n, r.node) && Sorted(r.node) && Behind(r.node, ps)
  {
    var d := InsertHangs(n, ps, h);
    var kids := n.kids + [d];
    assert kids[0] == n.kids[0];
    forall i, j | 0 <= i < j < |kids|
      ensures !Less(kids[j], kids[i])
    {
      assert kids[i].kind == Param && |kids[i].kids| == 1 && kids[j].kind == Param && |kids[j].kids| == 1;
    }
  }

  /** A child whose text is spelled whole is not cut. */
  lemma {:induction false} WholeChildAdd(n: Trie, ps: Pattern, h: Handler)
    requires WellFormed(n) && Good(ps) && Placed(ps) && n.kids != [] && n.kids[0].kind != Param
    requires n.kids[0].path != "" && n.kids[0].path <= LitPrefix(ps) && |n.kids[0].path| < |ps|
    ensures var c := n.kids[0]; var rest := ps[|c.path|..];
      Good(rest) && Placed(rest) && WellFormed(c) && Add(n, Print(ps), h) == Under(n, 0, Add(c, Print(rest), h))
  {
    var c := n.kids[0];
    KidIsWellFormed(n, 0);
    PrintStart(ps);
    SpelledWhole(ps, c.path);
    FirstSharesAtOnce(n.kids, Print(ps));
    AddAtStaticCases(n, 0, ps, h);
    PlacedSuffix(ps, |c.path|);
    assert n.kids[0 := c] == n.kids;
  }

  lemma {:induction false} BehindText(n: Trie, ps: Pattern, h: Handler)
    requires WellFormed(n) && Good(ps) && Placed(ps) && Sorted(n) && Behind(n, ps) && n.kids[0].kind != Param
    ensures var r := Add(n, Print(ps), h);
      r.err == None && SameNode(n, r.node) && Sorted(r.node) && Behind(r.node, ps)
    decreases |ps|, 0
  {
    var c := n.kids[0];
    var rest := ps[|c.path|..];
    WholeChildAdd(n, ps, h);
    BehindAccepts(c, rest, h);
    OnlyKidChanges(n, Add(c, Print(rest), h), ps);
  }

  /** Of two clashing patterns, the one that must be registered first to stand before the other. */
  predicate GoesFirst(a: Pattern, b: Pattern, i: nat) {
    Clash(a, b, i) && (i + 1 < |a| || !LastKey(b[i..]))
  }

  lemma {:induction false} OneLeads(a: Pattern, b: Pattern, i: nat)
    requires Clash(a, b, i)
    ensures Clash(b, a, i) && (GoesFirst(a, b, i) || GoesFirst(b, a, i))
  {
  }

  /** A chain hung for one pattern stands before the pattern it leads. */
  lemma {:induction false} ChainLeads(n: Trie, a: Pattern, b: Pattern, i: nat, h: Handler)
    requires Good(a) && Placed(a) && Good(b) && GoesFirst(a, b, i) && n.kids == []
    ensures Behind(Insert(n, Print(a), h).node, b)
    decreases |a|
  {
    if a[0].Lit? {
      ChainLeadsText(n, a, b, i, h);
    } else if i > 0 {
      ChainLeadsKey(n, a, b, i, h);
    } else {
      var c := InsertHangs(n, a, h);
      assert Insert(n, Print(a), h).node.kids == [c];
      assert b[0..] == b;
    }
  }

  lemma {:induction false} ChainLeadsKey(n: Trie, a: Pattern, b: Pattern, i: nat, h: Handler)
    requires Good(a) && Placed(a) && Good(b) && GoesFirst(a, b, i) && n.kids == [] && !a[0].Lit? && i > 0
    ensures Behind(Insert(n, Print(a), h).node, b)
    decreases |a|, 0
  {
    NotLastIsKey(a, 0);
    assert a[..i][0] == a[0] && b[..i][0] == b[0];
    assert a[1..][i - 1] == a[i] && b[1..][i - 1] == b[i];
    PlacedSuffix(a, 1);
    ClashBelow(a, b, i, 1);
    ChainLeads(KeyNode(a), a[1..], b[1..], i - 1, h);
    InsertKeyCase(n, a, h);
    var c := Insert(KeyNode(a), Print(a[1..]), h).node;
    var d := InsertHangs(n, a, h);
    OnlyLink(n, KeyNode(a), Insert(KeyNode(a), Print(a[1..]), h));
  }

  lemma {:induction false} OnlyLink(n: Trie, link: Trie, r: Outcome)
    requires n.kids == []
    ensures Under(n.(kids := n.kids + [link]), |n.kids|, r).node.kids == [r.node]
  {
  }

  lemma {:induction false} ClashBelow(a: Pattern, b: Pattern, i: nat, j: nat)
    requires GoesFirst(a, b, i) && j <= i
    ensures GoesFirst(a[j..], b[j..], i - j)
  {
    assert a[j..][..i - j] == a[..i][j..] && b[j..][..i - j] == b[..i][j..];
    assert b[j..][i - j..] == b[i..];
  }

  /** Two clashing patterns share the text the first one starts with. */
  lemma {:induction false} LeadsAfterText(a: Pattern, b: Pattern, i: nat, k: nat)
    requires Good(a) && Placed(a) && Good(b) && GoesFirst(a, b, i) && k == |LitPrefix(a)|
    ensures k <= i && LitPrefix(a) <= LitPrefix(b) && GoesFirst(a[k..], b[k..], i - k)
    ensures Good(a[k..]) && Placed(a[k..]) && Good(b[k..]) && a[k..] != [] && !a[k..][0].Rest?
  {
    assert k <= i;
    SameText(a, b, i);
    ClashBelow(a, b, i, k);
    GoodSuffix(a, k);
    GoodSuffix(b, k);
    PlacedSuffix(a, k);
    if k < i { NotLastIsKey(a, k); }
  }

  lemma {:induction false} BehindOver(n: Trie, c: Trie, ps: Pattern)
    requires n.kids == [c] && c.kind != Param && c.path != "" && c.path <= LitPrefix(ps)
    requires Behind(c, ps[|c.path|..])
    ensures Behind(n, ps)
  {
  }

  lemma {:induction false} ChainLeadsText(n: Trie, a: Pattern, b: Pattern, i: nat, h: Handler)
    requires Good(a) && Placed(a) && Good(b) && GoesFirst(a, b, i) && n.kids == [] && a[0].Lit?
    ensures Behind(Insert(n, Print(a), h).node, b)
    decreases |a|, 0
  {
    var s := LitPrefix(a);
    var link, rest := NewNode(s), a[|s|..];
    LeadsAfterText(a, b, i, |s|);
    ChainLeads(link, rest, b[|s|..], i - |s|, h);
    var d := InsertHangs(link, rest, h);
    var r := Insert(link, Print(rest), h);
    OnlyLink(n, link, r);
    InsertLiteralCase(n, a, h);
    BehindOver(Insert(n, Print(a), h).node, r.node, b);
  }

  lemma {:induction false} NotLastIsKey(a: Pattern, k: nat)
    requires Good(a) && k + 1 < |a|
    ensures !a[k].Rest?
  {
    GoodSuffix(a, k);
    assert a[k..][0] == a[k];
  }

  lemma {:induction false} SameText(a: Pattern, b: Pattern, i: nat)
    requires i <= |a| && i <= |b| && a[..i] == b[..i] && |LitPrefix(a)| <= i
    ensures LitPrefix(a) <= LitPrefix(b)
  {
    var s := LitPrefix(a);
    forall k | 0 <= k < |s|
      ensures b[k] == Lit(s[k])
    {
      assert a[..i][k] == b[..i][k];
    }
    assert Lits(s) <= b;
    TextIsPrefix(b, s);
  }

  // ----- the run that stores a route twice -----------------------------------------------------------------

  /** A storage in which a pattern stands behind a parameter of another name. */
  predicate Shadows(root: Trie, ps: Pattern) {
    && IsRoot(root) && Sorted(root) && root.path != "" && root.path <= LitPrefix(ps)
    && Behind(root, ps[|root.path|..])
  }

  lemma {:induction false} LeaderIsStored(a: Pattern, b: Pattern, i: nat, h: Handler) returns (root: Trie)
    requires IsRoute(a) && Placed(a) && IsRoute(b) && GoesFirst(a, b, i)
    ensures AddStep(EMPTY, false, Print(a), h, root, true) && Shadows(root, b)
  {
    EmptyIsRoot();
    PrintStart(a);
    var c := InsertHangs(EMPTY, a, h);
    var r := Insert(EMPTY, Print(a), h);
    assert Print(a)[0..] == Print(a) && AddAtRoot(EMPTY, Print(a), h) == r && r.node.kids == [c];
    ChainLeads(EMPTY, a, b, i, h);
    AddAtRootStands(EMPTY, a, h);
    TextlessRootAdd(EMPTY, a, h);
    PromoteKeeps(EMPTY, r.node);
    root := c.(kind := Root);
    SortedStays(root);
  }

  lemma {:induction false} ShadowedIsAccepted(root: Trie, ps: Pattern, h: Handler) returns (root': Trie)
    requires IsRoute(ps) && Placed(ps) && Shadows(root, ps)
    ensures AddStep(root, false, Print(ps), h, root', true) && Shadows(root', ps)
  {
    PrintStart(ps);
    WholeRootAdd(root, ps, h);
    BehindAccepts(root, ps[|root.path|..], h);
    root' := AddAtRoot(root, Print(ps), h).node;
    AddAtRootStands(root, ps, h);
    PromoteKeeps(root, root');
    SortedStays(root');
  }

  function TwiceRun(a: Pattern, b: Pattern, h: Handler): seq<Call> {
    [Call(a, h, true), Call(b, h, true), Call(b, h, true)]
  }

  /** After the leading pattern, the other one is accepted as often as it is registered. */
  lemma {:induction false} ClashStoresTwice(a: Pattern, b: Pattern, i: nat, h: Handler) returns (roots: seq<Trie>)
    requires IsRoute(a) && Placed(a) && IsRoute(b) && Placed(b) && GoesFirst(a, b, i)
    ensures IsRun(TwiceRun(a, b, h), roots, false)
    ensures Routes(roots[3], []) == multiset{(a, h), (b, h), (b, h)}
  {
    var one := LeaderIsStored(a, b, i, h);
    var two := ShadowedIsAccepted(one, b, h);
    var three := ShadowedIsAccepted(two, b, h);
    roots := [EMPTY, one, two, three];
    TwiceIsRun(a, b, h, one, two, three);
    RunConserves(TwiceRun(a, b, h), roots, false);
    TwiceAccepted(a, b, h);
  }

  lemma {:induction false} TwiceIsRun(a: Pattern, b: Pattern, h: Handler, one: Trie, two: Trie, three: Trie)
    requires IsRoute(a) && IsRoute(b) && AddStep(EMPTY, false, Print(a), h, one, true)
    requires AddStep(one, false, Print(b), h, two, true) && AddStep(two, false, Print(b), h, three, true)
    ensures IsRun(TwiceRun(a, b, h), [EMPTY, one, two, three], false)
  {
    var run, roots := TwiceRun(a, b, h), [EMPTY, one, two, three];
    forall k | 0 <= k < 3
      ensures IsRoute(run[k].pattern)
      ensures AddStep(roots[k], false, Print(run[k].pattern), run[k].handler, roots[k + 1], run[k].ok)
    {
      if k == 0 {
      } else if k == 1 {
      } else {
        assert k == 2;
      }
    }
  }

  lemma {:induction false} AcceptedThen(run: seq<Call>, c: Call)
    requires c.ok
    ensures Accepted(run + [c]) == Accepted(run) + multiset{(c.pattern, c.handler)}
  {
    assert (run + [c])[..|run|] == run;
  }

  lemma {:induction false} TwiceAccepted(a: Pattern, b: Pattern, h: Handler)
    ensures Accepted(TwiceRun(a, b, h)) == multiset{(a, h), (b, h), (b, h)}
  {
    var x, y := Call(a, h, true), Call(b, h, true);
    assert [] + [x] + [y] + [y] == TwiceRun(a, b, h);
    AcceptedThen([], x);
    AcceptedThen([] + [x], y);
    AcceptedThen([] + [x] + [y], y);
  }

  lemma {:induction false} ClashMisleads(a: Pattern, b: Pattern, i: nat, patterns: iset<Pattern>)
    requires Registrable(patterns) && a in patterns && b in patterns && Clash(a, b, i)
    ensures exists run, roots :: IsRun(run, roots, false) && Within(run, patterns) && !RefusesAgain(run)
  {
    var h := Serve(0);
    OneLeads(a, b, i);
    var x, y := if GoesFirst(a, b, i) then a else b, if GoesFirst(a, b, i) then b else a;
    var roots := ClashStoresTwice(x, y, i, h);
    var run := TwiceRun(x, y, h);
    assert run[1].ok && run[2].pattern == run[1].pattern && run[2].ok;
    assert IsRun(run, roots, false) && Within(run, patterns) && !RefusesAgain(run);
  }

  // ----- when a route is refused the second time -----------------------------------------------------------

  /**
   Every run of registrations with these patterns, in any order and with any refusals in between, refuses a
   route that is registered again, exactly when no two of the patterns have parameters of different names at
   the same place (those that both end there aside, since only one of them is ever accepted).
   */
  lemma {:induction false} RefusedAgainIffOneNamed(patterns: iset<Pattern>)
    requires Registrable(patterns)
    ensures (forall run, roots :: IsRun(run, roots, false) && Within(run, patterns) ==> RefusesAgain(run))
      <==> OneNamed(patterns)
  {
    if OneNamed(patterns) {
      forall run: seq<Call>, roots | IsRun(run, roots, false) && Within(run, patterns)
        ensures RefusesAgain(run)
      {
        forall i, j | 0 <= i < j < |run| && run[i].ok && run[j].pattern == run[i].pattern
          ensures !run[j].ok
        {
          RepeatIsRefused(run, roots, patterns, i, j);
        }
      }
    } else {
      var a, b, i :| a in patterns && b in patterns && Clash(a, b, i);
      ClashMisleads(a, b, i, patterns);
    }
  }

  /** With "/{a}/x" registered, "/{b}" is accepted twice and stored twice. */
  lemma {:induction false} StoredTwice(h: Handler) returns (roots: seq<Trie>)
    ensures var x, y := Lits("/") + [Key("a")] + Lits("/x"), Lits("/") + [Key("b")];
      && Print(x) == "/{a}/x" && Print(y) == "/{b}" && IsRun(TwiceRun(x, y, h), roots, false)
      && Routes(roots[3], []) == multiset{(x, h), (y, h), (y, h)}
  {
    var x, y := [Lit('/'), Key("a"), Lit('/'), Lit('x')], [Lit('/'), Key("b")];
    assert Lits("/") + [Key("a")] + Lits("/x") == x && Lits("/") + [Key("b")] == y;
    PatternsPrint();
    roots := ClashStoresTwice(x, y, 1, h);
  }

  lemma {:induction false} PatternsPrint()
    ensures var x, y := [Lit('/'), Key("a"), Lit('/'), Lit('x')], [Lit('/'), Key("b")];
      Good(x) && Print(x) == "/{a}/x" && Good(y) && Print(y) == "/{b}"
  {
    var x, y := [Lit('/'), Key("a"), Lit('/'), Lit('x')], [Lit('/'), Key("b")];
    assert x[1..] == [Key("a"), Lit('/'), Lit('x')] && x[1..][1..] == [Lit('/'), Lit('x')];
    assert x[1..][1..][1..] == [Lit('x')] && [Lit('x')][1..] == [] && y[1..] == [Key("b")] && y[1..][1..] == [];
    assert Good([Lit('x')]) && Good(x[1..][1..]);
    assert Print([Lit('x')]) == "x" && Print(x[1..][1..]) == "/x";
    assert Print(x[1..]) == "{a}" + "/x" && Print(y[1..]) == "{b}";
  }
}
