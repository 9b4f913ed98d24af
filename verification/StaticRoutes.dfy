/**
 Static routes: the tree is a finite map. As long as no two registered routes are equal up to
 one trailing slash, every `Add` succeeds and `Get` answers exactly the registered paths.
 */
module StaticRoutes {
  import opened Text
  import opened WildPath
  import opened Pattern
  import opened Trie
  import opened Conservation
  import opened TrailingSlash
  import opened Lookup
  import opened CaseFix

  /**
   The child invariant: siblings start with different characters, except that one bare "/" marker
   may stand beside a real child, which then has children of its own and so sorts before it.
   */
  predicate Apart(a: Trie, b: Trie)
    requires a.path != "" && b.path != ""
  {
    a.path[0] != b.path[0] || (a == MARKER && b.kids != []) || (b == MARKER && a.kids != [])
  }

  /** A node of a tree of static routes. */
  predicate StaticNode(n: Trie) {
    && n.kind != Param && n.wildcard == None && '{' !in n.path
    && (n.handler.Some? ==> !n.tsr)
    && (n.kids == [] ==> n.path == "/")
    && StaticKids(n.kids)
  }

  predicate StaticKids(kids: seq<Trie>) {
    && (forall i :: 0 <= i < |kids| ==> kids[i].kind == Static && kids[i].path != "" && StaticNode(kids[i]))
    && (forall i, j :: 0 <= i < j < |kids| ==> Apart(kids[i], kids[j]))
  }

  // ----- lookup ----------------------------------------------------------------------------------

  /** Routes below a static node are literal, start with its text, and end there only with its own handler. */
  lemma {:induction false} StaticRoute(n: Trie, pre: Pattern, r: Route) returns (s: string)
    requires StaticNode(n) && r in Routes(n, pre)
    ensures r.0 == pre + Lits(s) && n.path <= s
    ensures s == n.path ==> n.handler == Some(r.1)
    decreases n
  {
    var full := pre + TextOf(n);
    if r in Own(n, full) {
      s := n.path;
    } else {
      var k := RoutesOfWitness(n.kids, full, r);
      var t := StaticRoute(n.kids[k], full, r);
      s := n.path + t;
      assert full + Lits(t) == pre + Lits(s);
    }
  }

  lemma {:induction false} StaticKidRoute(kids: seq<Trie>, full: Pattern, path: string, h: Handler) returns (k: nat)
    requires StaticKids(kids) && (full + Lits(path), h) in RoutesOf(kids, full)
    ensures k < |kids| && kids[k].path <= path && kids[k] != MARKER
    ensures (full + Lits(path), h) in Routes(kids[k], full)
    ensures path == kids[k].path ==> kids[k].handler == Some(h)
  {
    k := RoutesOfWitness(kids, full, (full + Lits(path), h));
    var s := StaticRoute(kids[k], full, (full + Lits(path), h));
    LitsInjective(full, path, s);
  }

  lemma {:induction false} LitsInjective(full: Pattern, a: string, b: string)
    requires full + Lits(a) == full + Lits(b)
    ensures a == b
  {
    assert Lits(a) == (full + Lits(a))[|full|..];
    assert Lits(b) == (full + Lits(b))[|full|..];
    assert |a| == |Lits(a)| == |b|;
    forall i | 0 <= i < |a|
      ensures a[i] == b[i]
    {
      assert Lits(a)[i] == Lit(a[i]) && Lits(b)[i] == Lit(b[i]);
    }
  }

  /** No sibling sorted before a real child starts with the same character. */
  lemma {:induction false} FirstOfItsKind(kids: seq<Trie>, j: nat, k: nat)
    requires StaticKids(kids) && Ordered(kids) && j < k < |kids| && kids[k] != MARKER
    ensures kids[j].path != "" && kids[k].path != "" && kids[j].path[0] != kids[k].path[0]
  {
    assert Apart(kids[j], kids[k]);
    assert !Less(kids[k], kids[j]);
  }

  /** A child holding the route of `path` holds it as a handler, or hands it to one of its own children. */
  ghost predicate HoldsAt(kids: seq<Trie>, k: nat, full: Pattern, path: string, h: Handler) {
    && k < |kids| && kids[k].path <= path && kids[k] != MARKER
    && (full + Lits(path), h) in Routes(kids[k], full)
    && (path == kids[k].path ==> kids[k].handler == Some(h))
  }

  lemma {:induction false} HoldsBelow(c: Trie, full: Pattern, path: string, h: Handler) returns (j: nat)
    requires StaticNode(c) && c.path < path && (full + Lits(path), h) in Routes(c, full)
    ensures HoldsAt(c.kids, j, full + TextOf(c), path[|c.path|..], h)
  {
    var rest := path[|c.path|..];
    TextBelow(full, c, path, |c.path|);
    OwnIsShorter(c, full, rest, h);
    j := StaticKidRoute(c.kids, full + TextOf(c), rest, h);
  }

  /** Every stored static route is found. */
  lemma {:induction false} GetFinds(n: Trie, k: nat, full: Pattern, path: string, h: Handler, at: nat)
    requires StaticKids(n.kids) && Searchable(n) && Sorted(n) && path != "" && k <= at
    requires HoldsAt(n.kids, at, full, path, h)
    ensures GetFrom(n, k, path).handler == Some(h)
    decreases n, at - k
  {
    var c := n.kids[k];
    if k < at {
      FirstOfItsKind(n.kids, k, at);
      GetFinds(n, k + 1, full, path, h, at);
    } else if path != c.path {
      var j := HoldsBelow(c, full, path, h);
      GetFinds(c, 0, full + TextOf(c), path[|c.path|..], h, j);
    }
  }

  lemma {:induction false} OwnIsShorter(c: Trie, pre: Pattern, rest: string, h: Handler)
    requires c.wildcard == None && rest != "" && (pre + TextOf(c) + Lits(rest), h) in Routes(c, pre)
    ensures (pre + TextOf(c) + Lits(rest), h) in RoutesOf(c.kids, pre + TextOf(c))
  {
    var full := pre + TextOf(c);
    assert |full + Lits(rest)| > |full|;
    assert (full + Lits(rest), h) !in Own(c, full);
  }

  ghost predicate StaticTree(root: Trie) {
    MarkedTree(root) && Searchable(root) && Sorted(root) && StaticNode(root) && root.path != ""
  }

  /** `Get` answers a path exactly when it is a stored route, and with that route's handler. */
  lemma {:induction false} GetIsExact(root: Trie, path: string, h: Handler)
    requires StaticTree(root)
    ensures Get(root, path).handler == Some(h) <==> (Lits(path), h) in Routes(root, [])
  {
    if Get(root, path).handler == Some(h) {
      var ps, vals := GetIsSound(root, path);
      var s := StaticRoute(root, [], (ps, h));
      assert ps == Lits(s);
      FitsLitsOnly(s, vals, path);
    }
    if (Lits(path), h) in Routes(root, []) {
      var s := StaticRoute(root, [], (Lits(path), h));
      assert [] + Lits(path) == [] + Lits(s);
      LitsInjective([], path, s);
      if path != root.path {
        assert [] + Lits(path) == Lits(path);
        var j := HoldsBelow(root, [], path, h);
        GetFinds(root, 0, [] + TextOf(root), path[|root.path|..], h, j);
      }
    }
  }

  // ----- Add -------------------------------------------------------------------------------------

  /** Neither `p` nor `p` with its trailing slash toggled is stored. */
  ghost predicate Free(stored: set<Pattern>, p: Pattern) {
    p !in stored && !Justified(stored, p, true)
  }

  lemma {:induction false} FreeNode(n: Trie, pre: Pattern, stored: set<Pattern>)
    requires MarksHold(n, pre, stored) && Covers(stored, n, pre) && Free(stored, pre + TextOf(n))
    ensures n.handler == None && !n.tsr
  {
    OwnHandler(n, pre);
  }

  /** Any sibling starting like child `k` is a bare marker sorted after it. */
  predicate OnlyReal(kids: seq<Trie>, k: nat)
    requires StaticKids(kids) && k < |kids|
  {
    forall j :: 0 <= j < |kids| && j != k && kids[j].path[0] == kids[k].path[0] ==>
      kids[j] == MARKER && kids[k].kids != []
  }

  /** A child replaced by one starting alike, when it is the only real child starting so. */
  lemma {:induction false} StaticKidsUpdate(kids: seq<Trie>, k: nat, c: Trie)
    requires StaticKids(kids) && k < |kids| && StaticNode(c) && c.kind == Static && c.path != ""
      && c.path[0] == kids[k].path[0]
    requires kids[k].kids != [] ==> c.kids != []
    requires OnlyReal(kids, k)
    ensures StaticKids(kids[k := c])
  {
    var kids' := kids[k := c];
    forall i, j | 0 <= i < j < |kids'|
      ensures Apart(kids'[i], kids'[j])
    {
      assert Apart(kids[i], kids[j]);
    }
  }

  lemma {:induction false} StaticKidsAppend(kids: seq<Trie>, c: Trie)
    requires StaticKids(kids) && StaticNode(c) && c.kind == Static && c.path != ""
    requires forall j :: 0 <= j < |kids| ==> Apart(kids[j], c)
    ensures StaticKids(kids + [c])
  {
    var kids' := kids + [c];
    forall i, j | 0 <= i < j < |kids'|
      ensures Apart(kids'[i], kids'[j])
    {
      if j < |kids| { assert Apart(kids[i], kids[j]); }
    }
  }

  lemma {:induction false} MarkerIsStatic()
    ensures StaticNode(MARKER) && StaticKids([]) && StaticKids([MARKER])
  {
    assert StaticKids([]);
  }

  /** Setting a mark on a child that carries no handler. */
  lemma {:induction false} StaticRemark(kids: seq<Trie>, k: nat)
    requires StaticKids(kids) && k < |kids| && kids[k].handler == None
    ensures StaticKids(kids[k := kids[k].(tsr := true)])
  {
    var c := kids[k].(tsr := true);
    if kids[k] == MARKER {
      assert kids[k := c] == kids;
    } else {
      forall j | 0 <= j < |kids| && j != k && kids[j].path[0] == kids[k].path[0]
        ensures kids[j] == MARKER && kids[k].kids != []
      {
        if j < k { assert Apart(kids[j], kids[k]); } else { assert Apart(kids[k], kids[j]); }
      }
      StaticKidsUpdate(kids, k, c);
    }
  }

  /** A static node that an operation may leave where `n` stood. */
  predicate StaticStands(n: Trie, m: Trie) {
    StaticNode(m) && m.path == n.path && m.kind == n.kind && (n.kids != [] ==> m.kids != [])
  }

  lemma {:induction false} SetHandlerStatic(n: Trie, h: Handler, pre: Pattern, stored: set<Pattern>)
    requires StaticNode(n) && MarksHold(n, pre, stored) && Covers(stored, n, pre) && Free(stored, pre + TextOf(n))
    ensures SetHandler(n, h).err == None && StaticStands(n, SetHandler(n, h).node)
  {
    var k := FirstSlash(n.kids);
    FreeNode(n, pre, stored);
    if k < |n.kids| {
      var c := n.kids[k];
      assert TextOf(c) == SLASH;
      CoversKid(stored, n, k, pre);
      OwnHandler(c, pre + TextOf(n));
      StaticRemark(n.kids, k);
    } else if n.path != "/" {
      MarkerIsStatic();
      forall j | 0 <= j < |n.kids|
        ensures Apart(n.kids[j], MARKER)
      {
        assert StaticNode(n.kids[j]) && n.kids[j].path != "/";
      }
      StaticKidsAppend(n.kids, MARKER);
    }
  }

  lemma {:induction false} HungStatic(s: string, h: Handler)
    requires s != "" && '{' !in s
    ensures var c := Hung(NewNode(s), h); StaticNode(c) && c.kind == Static && c.path != "" && c.path[0] == s[0]
  {
    MarkerIsStatic();
    if s != "/" && s[|s| - 1] == '/' {
      var child := NewNode(s).(handler := Some(h));
      var c := child.(path := s[|s| - 1..]);
      assert c.path == "/" && StaticNode(c);
      StaticKidsAppend([], c);
      assert [] + [c] == [c];
    } else if s != "/" {
      assert NewNode(s).kids + [MARKER] == [MARKER];
    }
  }

  lemma {:induction false} InsertStatic(n: Trie, s: string, h: Handler, pre: Pattern, stored: set<Pattern>)
    requires StaticNode(n.(kids := [MARKER])) && StaticKids(n.kids) && s != "" && '{' !in s
    requires Covers(stored, n, pre) && Free(stored, pre + TextOf(n) + Lits(s))
    requires forall j :: 0 <= j < |n.kids| ==> n.kids[j].path[0] != s[0]
    ensures Insert(n, s, h).err == None && StaticStands(n, Insert(n, s, h).node)
  {
    NoWildInLiterals(s);
    NewNodeIsWellFormed(s);
    AttachHangs(n, NewNode(s), h);
    HungStatic(s, h);
    StaticKidsAppend(n.kids, Hung(NewNode(s), h));
    if s == "/" {
      SlashParent(n, pre, stored);
    }
  }

  /** A node that gets a "/" route below it has no handler of its own. */
  lemma {:induction false} SlashParent(n: Trie, pre: Pattern, stored: set<Pattern>)
    requires Covers(stored, n, pre) && Free(stored, pre + TextOf(n) + Lits("/"))
    ensures n.handler == None
  {
    var full := pre + TextOf(n);
    OwnHandler(n, pre);
    var p := full + Lits("/");
    assert p[..|p| - 1] == full;
  }

  /** The child `add` picks is the only real one starting alike. */
  lemma {:induction false} PicksReal(kids: seq<Trie>, path: string)
    requires StaticKids(kids) && Ordered(kids) && path != "" && FirstShared(kids, path) < |kids|
    ensures var k := FirstShared(kids, path); kids[k].path[0] == path[0] && OnlyReal(kids, k)
  {
    var k := FirstShared(kids, path);
    forall j | 0 <= j < |kids| && j != k && kids[j].path[0] == kids[k].path[0]
      ensures kids[j] == MARKER && kids[k].kids != []
    {
      assert k < j;
      assert Apart(kids[k], kids[j]) && !Less(kids[j], kids[k]);
    }
  }

  lemma {:induction false} StaticIsWellFormed(n: Trie)
    requires StaticNode(n) && n.kind != Wildcard
    ensures WellFormed(n)
    decreases n
  {
    forall i | 0 <= i < |n.kids|
      ensures IsChild(n.kids[i]) && WellFormed(n.kids[i])
    {
      assert StaticKids(n.kids);
      StaticIsWellFormed(n.kids[i]);
    }
  }

  lemma {:induction false} GoodLits(s: string)
    requires '{' !in s
    ensures Good(Lits(s)) && Print(Lits(s)) == s
  {
    PrintLits(s);
    if s != "" {
      assert Lits(s)[1..] == Lits(s[1..]);
      GoodLits(s[1..]);
    }
  }

  /** `CutAt` for a static child: sorted, static, same routes and justified marks. */
  lemma {:induction false} CutStatic(child: Trie, i: nat, full: Pattern, stored: set<Pattern>)
    requires StaticNode(child) && Sorted(child) && 0 < i <= |child.path|
    requires MarksHold(child, full, stored) && Covers(stored, child, full)
    ensures var cut := CutAt(child, i);
      && StaticNode(cut) && Sorted(cut) && cut.path == child.path[..i] && cut.kind == child.kind
      && (child.kids != [] ==> cut.kids != [])
      && MarksHold(cut, full, stored) && Covers(stored, cut, full)
  {
    if |child.path| > i {
      SplitMarks(child, i, full, stored);
      SplitKeepsRoutes(child, i, full);
    } else {
      assert child.path[..i] == child.path;
    }
  }

  /** A static route that is free, slash included, is always accepted. */
  lemma {:induction false} AddStatic(n: Trie, s: string, h: Handler, pre: Pattern, stored: set<Pattern>)
    requires StaticNode(n) && n.kind != Wildcard && Sorted(n) && '{' !in s
    requires MarksHold(n, pre, stored) && Covers(stored, n, pre) && Free(stored, pre + TextOf(n) + Lits(s))
    ensures Add(n, s, h).err == None && StaticStands(n, Add(n, s, h).node)
    decreases |s|
  {
    var full, k := pre + TextOf(n), FirstShared(n.kids, s);
    if s == "" {
      assert full + Lits(s) == full;
      SetHandlerStatic(n, h, pre, stored);
    } else if k == |n.kids| {
      assert forall j :: 0 <= j < |n.kids| ==> n.kids[j].path[0] != s[0];
      MarkerIsStatic();
      InsertStatic(n, s, h, pre, stored);
    } else {
      AddAtKidStatic(n, s, h, pre, stored);
    }
  }

  /** What `add` does at a static child, on plain text. */
  lemma {:induction false} AddAtKidCases(n: Trie, s: string, h: Handler)
    requires s != "" && FirstShared(n.kids, s) < |n.kids| && n.kids[FirstShared(n.kids, s)].kind == Static
    ensures var k := FirstShared(n.kids, s); var i := Lcp(s, n.kids[k].path); var cut := CutAt(n.kids[k], i);
      && 0 < i <= |s| && s[..i] == n.kids[k].path[..i]
      && Add(n, s, h) ==
           (if i < |s| then Under(n.(kids := n.kids[k := cut]), k, Add(cut, s[i..], h))
            else Under(n.(kids := n.kids[k := cut], tsr := n.tsr || s == "/"), k, SetHandler(cut, h)))
  {
  }

  lemma {:induction false} AddAtKidStatic(n: Trie, s: string, h: Handler, pre: Pattern, stored: set<Pattern>)
    requires StaticNode(n) && n.kind != Wildcard && Sorted(n) && '{' !in s && s != ""
      && FirstShared(n.kids, s) < |n.kids|
    requires MarksHold(n, pre, stored) && Covers(stored, n, pre) && Free(stored, pre + TextOf(n) + Lits(s))
    ensures Add(n, s, h).err == None && StaticStands(n, Add(n, s, h).node)
    decreases |s|, 0
  {
    var full, k := pre + TextOf(n), FirstShared(n.kids, s);
    var child := n.kids[k];
    var i := Lcp(s, child.path);
    var cut := CutAt(child, i);
    AddAtKidCases(n, s, h);
    CoversKid(stored, n, k, pre);
    CutStatic(child, i, full, stored);
    TextBelow(full, cut, s, i);
    PicksReal(n.kids, s);
    if i < |s| {
      AddStatic(cut, s[i..], h, full, stored);
      StaticUnder(n, k, cut, Add(cut, s[i..], h), n.tsr);
    } else {
      SetHandlerStatic(cut, h, full, stored);
      if s == "/" { SlashParent(n, pre, stored); }
      StaticUnder(n, k, cut, SetHandler(cut, h), n.tsr || s == "/");
    }
  }

  lemma {:induction false} TextBelow(full: Pattern, cut: Trie, s: string, i: nat)
    requires i <= |s| && cut.path == s[..i] && cut.kind != Param
    ensures full + TextOf(cut) + Lits(s[i..]) == full + Lits(s)
    ensures i == |s| ==> full + TextOf(cut) == full + Lits(s)
  {
    assert s == s[..i] + s[i..];
  }

  lemma {:induction false} StaticUnder(n: Trie, k: nat, cut: Trie, r: Outcome, tsr: bool)
    requires StaticNode(n) && k < |n.kids| && (tsr ==> n.handler == None) && OnlyReal(n.kids, k)
    requires cut.path != "" && cut.path[0] == n.kids[k].path[0] && cut.kind == Static
      && (n.kids[k].kids != [] ==> cut.kids != [])
    requires StaticStands(cut, r.node)
    ensures StaticStands(n, Under(n.(kids := n.kids[k := cut], tsr := tsr), k, r).node)
  {
    StaticKidsUpdate(n.kids, k, r.node);
    assert n.kids[k := cut][k := r.node] == n.kids[k := r.node];
  }

  // ----- sort --------------------------------------------------------------------------------------

  lemma {:induction false} SortOutline(a: Trie, b: Trie)
    requires SortsTo(a, b)
    ensures |b.kids| == |a.kids| && (a == MARKER ==> b == MARKER)
  {
    var mid :| SortsEach(a, mid) && multiset(mid) == multiset(b.kids);
    assert |multiset(mid)| == |multiset(b.kids)|;
  }

  lemma {:induction false} SortStaticMid(a: Trie, mid: seq<Trie>)
    requires StaticKids(a.kids) && SortsEach(a, mid)
    requires forall i :: 0 <= i < |mid| ==> StaticNode(mid[i])
    ensures StaticKids(mid)
  {
    forall i, j | 0 <= i < j < |mid|
      ensures Apart(mid[i], mid[j])
    {
      assert Apart(a.kids[i], a.kids[j]);
      SortOutline(a.kids[i], mid[i]);
      SortOutline(a.kids[j], mid[j]);
    }
  }

  lemma {:induction false} StaticPermuted(a: seq<Trie>, b: seq<Trie>)
    requires StaticKids(a) && multiset(a) == multiset(b)
    ensures StaticKids(b)
  {
    forall i | 0 <= i < |b|
      ensures b[i].kind == Static && b[i].path != "" && StaticNode(b[i])
    {
      assert b[i] in multiset(a);
    }
    forall i, j | 0 <= i < j < |b|
      ensures Apart(b[i], b[j])
    {
      var p, q := PairOf(a, b, i, j);
      if p < q { assert Apart(a[p], a[q]); } else { assert Apart(a[q], a[p]); }
    }
  }

  /** Sorting keeps a static tree static and puts every level in order. */
  lemma {:induction false} SortStatic(a: Trie, b: Trie)
    requires StaticNode(a) && SortsTo(a, b)
    ensures StaticNode(b) && Sorted(b)
    decreases a
  {
    var mid :| SortsEach(a, mid) && multiset(mid) == multiset(b.kids);
    forall i | 0 <= i < |mid|
      ensures StaticNode(mid[i]) && Sorted(mid[i])
    {
      SortStatic(a.kids[i], mid[i]);
    }
    SortStaticMid(a, mid);
    StaticPermuted(mid, b.kids);
    SortOutline(a, b);
    forall i | 0 <= i < |b.kids|
      ensures Sorted(b.kids[i])
    {
      assert b.kids[i] in multiset(mid);
    }
  }

  // ----- re-adding a route ---------------------------------------------------------------------------

  /** No two stored patterns differ by one trailing slash. */
  ghost predicate NoTwins(stored: set<Pattern>) {
    forall p :: p in stored ==> !Justified(stored, p, true)
  }

  /** A refusal: whatever handler is then put in, the tree keeps its outline and stays static and sorted. */
  ghost predicate Refused(n: Trie, r: Outcome) {
    && r.err == Some(HandlerExists) && r.at.Some? && NodeAt(r.node, r.at.value).Some?
    && var m := NodeAt(r.node, r.at.value).value;
       && m.handler.Some? && !m.tsr
       && forall h :: SameOutline(n, Rewritten(r, h))
  }

  /** The tree with the handler of the node `r` points at replaced. */
  function Rewritten(r: Outcome, h: Handler): Trie
    requires r.at.Some? && NodeAt(r.node, r.at.value).Some?
  {
    Replace(r.node, r.at.value, NodeAt(r.node, r.at.value).value.(handler := Some(h)))
  }

  predicate SameOutline(n: Trie, m: Trie) {
    StaticNode(m) && Sorted(m) && m.path == n.path && m.kind == n.kind && |m.kids| == |n.kids|
  }

  lemma {:induction false} UnderRefused(n: Trie, k: nat, r: Outcome, tsr: bool)
    requires StaticNode(n) && Sorted(n) && k < |n.kids| && OnlyReal(n.kids, k) && (tsr ==> n.handler == None)
    requires Refused(n.kids[k], r)
    ensures Refused(n, Under(n.(tsr := tsr), k, r))
  {
    var u := Under(n.(tsr := tsr), k, r);
    var at := r.at.value;
    assert ([k] + at)[0] == k && ([k] + at)[1..] == at;
    forall h
      ensures SameOutline(n, Rewritten(u, h))
    {
      var c := Rewritten(r, h);
      assert SameOutline(n.kids[k], c);
      assert u.node.kids[k := c] == n.kids[k := c];
      StaticKidsUpdate(n.kids, k, c);
      assert Ordered(n.kids[k := c]);
    }
  }

  lemma {:induction false} HoldsFirst(kids: seq<Trie>, at: nat, full: Pattern, s: string, h: Handler)
    requires StaticKids(kids) && Ordered(kids) && s != "" && HoldsAt(kids, at, full, s, h)
    ensures FirstShared(kids, s) == at && Lcp(s, kids[at].path) == |kids[at].path|
  {
    var c := kids[at];
    assert s == c.path + s[|c.path|..];
    var k := FirstShared(kids, s);
    if k < at {
      FirstOfItsKind(kids, k, at);
      assert false;
    }
  }

  lemma {:induction false} SelfRefused(n: Trie, h: Handler)
    requires StaticNode(n) && Sorted(n) && n.handler.Some?
    ensures Refused(n, SetHandler(n, h))
  {
    var r := SetHandler(n, h);
    forall g
      ensures SameOutline(n, Rewritten(r, g))
    {
      assert Rewritten(r, g) == n.(handler := Some(g));
    }
  }

  /** Adding a stored static route again is refused at the node that holds it, which carries no mark. */
  lemma {:induction false} AddAgain(n: Trie, s: string, h: Handler, pre: Pattern, stored: set<Pattern>, was: Handler)
    requires StaticNode(n) && Sorted(n) && Covers(stored, n, pre) && NoTwins(stored)
    requires (pre + TextOf(n) + Lits(s), was) in Routes(n, pre)
    ensures Refused(n, Add(n, s, h))
    decreases |s|
  {
    var full := pre + TextOf(n);
    if s == "" {
      var t := StaticRoute(n, pre, (full + Lits(s), was));
      assert full + Lits(s) == pre + Lits(n.path);
      LitsInjective(pre, n.path, t);
      SelfRefused(n, h);
    } else {
      OwnIsShorter(n, pre, s, was);
      var k := StaticKidRoute(n.kids, full, s, was);
      AddAgainBelow(n, s, h, pre, stored, was, k);
    }
  }

  lemma {:induction false} AddAgainBelow(
    n: Trie, s: string, h: Handler, pre: Pattern, stored: set<Pattern>, was: Handler, k: nat)
    requires StaticNode(n) && Sorted(n) && Covers(stored, n, pre) && NoTwins(stored) && s != ""
    requires HoldsAt(n.kids, k, pre + TextOf(n), s, was)
    ensures Refused(n, Add(n, s, h))
    decreases |s|, 0
  {
    var full, c := pre + TextOf(n), n.kids[k];
    HoldsFirst(n.kids, k, full, s, was);
    PicksReal(n.kids, s);
    AddAtKidCases(n, s, h);
    CoversKid(stored, n, k, pre);
    assert n.kids[k := c] == n.kids;
    if |c.path| < |s| {
      var rest := s[|c.path|..];
      assert s[..|c.path|] == c.path;
      TextBelow(full, c, s, |c.path|);
      AddAgain(c, rest, h, full, stored, was);
      UnderRefused(n, k, Add(c, rest, h), n.tsr);
    } else {
      if s == "/" { TwinlessParent(n, pre, stored, was, k); }
      assert Refused(c, SetHandler(c, h)) by {
        SelfRefused(c, h);
      }
      UnderRefused(n, k, SetHandler(c, h), n.tsr || s == "/");
    }
  }

  lemma {:induction false} TwinlessParent(n: Trie, pre: Pattern, stored: set<Pattern>, h: Handler, k: nat)
    requires Covers(stored, n, pre) && NoTwins(stored) && k < |n.kids|
    requires (pre + TextOf(n) + Lits("/"), h) in Routes(n.kids[k], pre + TextOf(n))
    ensures n.handler == None
  {
    var full := pre + TextOf(n);
    KidRoute(n, k, pre, (full + Lits("/"), h));
    OwnHandler(n, pre);
    var p := full + Lits("/");
    assert p in stored && p[..|p| - 1] == full;
  }
}
