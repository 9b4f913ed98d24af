/**
 What one `Handle` call stores. A pattern with optional parameters stands for several paths; the method's tree
 gains exactly one route for each of them, and nothing else, up to the first one the tree refuses.
 */
module HandleRoutes {
  import opened Text
  import opened Pattern
  import opened Trie
  import opened Conservation
  import opened RouteTree
  import opened OptionalPaths
  import opened RouteTable

  // ----- adding a list of paths ----------------------------------------------------------------------------

  /** Distinct paths of supported routes. */
  ghost predicate RoutePaths(paths: seq<string>) {
    Lengthening(paths) && forall p :: p in paths ==> IsRoutePath(p)
  }

  ghost predicate IsRoutePath(p: string) { exists ps :: IsRoute(ps) && p == Print(ps) }

  /** The route puts the handler under one of the paths. */
  predicate Adds(paths: seq<string>, h: Handler, r: Route) { r.1 == h && Good(r.0) && Print(r.0) in paths }

  /** Every route is stored once more if it is one of those added, and as often as before if not. */
  ghost predicate GainsEach(before: multiset<Route>, after: multiset<Route>, paths: seq<string>, h: Handler) {
    forall r: Route :: after[r] == before[r] + if Adds(paths, h, r) then 1 else 0
  }

  lemma {:induction false} FirstIsApart(paths: seq<string>)
    requires Lengthening(paths) && paths != []
    ensures Lengthening(paths[1..]) && paths[0] !in paths[1..]
  {
    forall i | 0 <= i < |paths[1..]|
      ensures paths[1..][i] != paths[0]
    {
      assert paths[1..][i] == paths[i + 1];
    }
  }

  lemma {:induction false} RestArePaths(paths: seq<string>)
    requires RoutePaths(paths) && paths != []
    ensures RoutePaths(paths[1..]) && IsRoutePath(paths[0])
  {
    FirstIsApart(paths);
    assert paths[0] in paths;
    forall p | p in paths[1..]
      ensures IsRoutePath(p)
    {
      assert p in paths;
    }
  }

  /** One path first, the others after it. */
  lemma {:induction false} OneThenOthers(
    before: multiset<Route>, mid: multiset<Route>, after: multiset<Route>, ps: Pattern, others: seq<string>, h: Handler)
    requires Good(ps) && Print(ps) !in others && mid == before + multiset{(ps, h)} && GainsEach(mid, after, others, h)
    ensures GainsEach(before, after, [Print(ps)] + others, h)
  {
    forall r: Route
      ensures after[r] == before[r] + if Adds([Print(ps)] + others, h, r) then 1 else 0
    {
      if Good(r.0) && Print(r.0) == Print(ps) { PrintInjective(r.0, ps); }
    }
  }

  /** The first addition, and what follows it. */
  lemma {:induction false} FirstIsAdded(
    root: Trie, mutable: bool, paths: seq<string>, h: Handler, root': Trie, ok: bool)
    returns (ps: Pattern, mid: Trie, added: bool)
    requires IsRoot(root) && RoutePaths(paths) && paths != [] && AddsAll(root, mutable, paths, h, root', ok)
    ensures Good(ps) && Print(ps) == paths[0] && Print(ps) !in paths[1..] && RoutePaths(paths[1..])
    ensures IsRoot(mid) && Conserved(Routes(root, []), Routes(mid, []), ps, h, added, mutable)
    ensures if added then AddsAll(mid, mutable, paths[1..], h, root', ok) else !ok && root' == mid
  {
    mid, added :| AddsFirst(root, mutable, paths, h, mid, added, root', ok);
    RestArePaths(paths);
    FirstIsApart(paths);
    ps :| IsRoute(ps) && paths[0] == Print(ps);
    AddConserves(root, mutable, ps, h, mid, added);
  }

  lemma {:induction false} CutList(paths: seq<string>, m: nat)
    requires m < |paths|
    ensures paths[1..][..m] == paths[1..m + 1] && paths[..m + 1] == [paths[0]] + paths[1..m + 1]
    ensures paths[0] !in paths[1..] ==> paths[0] !in paths[1..m + 1]
  {
    forall x | x in paths[1..m + 1]
      ensures x in paths[1..]
    {
      var i :| 0 <= i < m && paths[1..m + 1][i] == x;
      assert paths[1..][i] == x;
    }
  }

  /** An immutable tree gains a route for each path up to the first it refuses. */
  lemma {:induction false} AddsAllGains(root: Trie, paths: seq<string>, h: Handler, root': Trie, ok: bool)
    returns (n: nat)
    requires IsRoot(root) && RoutePaths(paths) && AddsAll(root, false, paths, h, root', ok)
    ensures n <= |paths| && (ok <==> n == |paths|)
    ensures GainsEach(Routes(root, []), Routes(root', []), paths[..n], h)
    decreases |paths|
  {
    n := 0;
    if paths != [] {
      var ps, mid, added := FirstIsAdded(root, false, paths, h, root', ok);
      if added {
        var m := AddsAllGains(mid, paths[1..], h, root', ok);
        n := m + 1;
        CutList(paths, m);
        OneThenOthers(Routes(root, []), Routes(mid, []), Routes(root', []), ps, paths[1..n], h);
      }
    }
  }

  /** Routes of other patterns are stored as often as before. */
  ghost predicate LeavesOthers(before: multiset<Route>, after: multiset<Route>, paths: seq<string>) {
    forall r: Route :: !(Good(r.0) && Print(r.0) in paths) ==> after[r] == before[r]
  }

  /** The handler is stored under every path. */
  ghost predicate HoldsEach(after: multiset<Route>, paths: seq<string>, h: Handler) {
    forall ps :: Good(ps) && Print(ps) in paths ==> (ps, h) in after
  }

  lemma {:induction false} OneStored(
    before: multiset<Route>, after: multiset<Route>, ps: Pattern, h: Handler, mutable: bool)
    requires Conserved(before, after, ps, h, true, mutable)
    ensures (ps, h) in after && forall r: Route :: r.0 != ps ==> after[r] == before[r]
  {
    if after != before + multiset{(ps, h)} {
      var was :| Exchanged(before, after, ps, was, h);
      ExchangedRoutes(before, after, ps, was, h);
      forall r: Route | r.0 != ps
        ensures after[r] == before[r]
      {
        assert (after + multiset{(ps, was)})[r] == (before + multiset{(ps, h)})[r];
      }
    }
  }

  /** A tree, mutable or not, that takes all paths holds the handler under each and leaves other routes alone. */
  lemma {:induction false} AddsAllHolds(root: Trie, mutable: bool, paths: seq<string>, h: Handler, root': Trie)
    requires IsRoot(root) && RoutePaths(paths) && AddsAll(root, mutable, paths, h, root', true)
    ensures LeavesOthers(Routes(root, []), Routes(root', []), paths) && HoldsEach(Routes(root', []), paths, h)
    decreases |paths|
  {
    if paths != [] {
      var ps, mid, added := FirstIsAdded(root, mutable, paths, h, root', true);
      AddsAllHolds(mid, mutable, paths[1..], h, root');
      OneStored(Routes(root, []), Routes(mid, []), ps, h, mutable);
      FirstAndRest(paths);
      OneThenHeld(Routes(root, []), Routes(mid, []), Routes(root', []), ps, paths[1..], h);
    }
  }

  lemma {:induction false} FirstAndRest(paths: seq<string>)
    requires paths != []
    ensures [paths[0]] + paths[1..] == paths
  {
  }

  lemma {:induction false} OneThenHeld(
    before: multiset<Route>, mid: multiset<Route>, after: multiset<Route>, ps: Pattern, others: seq<string>, h: Handler)
    requires Good(ps) && Print(ps) !in others && (ps, h) in mid
    requires forall r: Route :: r.0 != ps ==> mid[r] == before[r]
    requires LeavesOthers(mid, after, others) && HoldsEach(after, others, h)
    ensures LeavesOthers(before, after, [Print(ps)] + others) && HoldsEach(after, [Print(ps)] + others, h)
  {
    assert after[(ps, h)] == mid[(ps, h)];
    forall q | Good(q) && Print(q) in [Print(ps)] + others
      ensures (q, h) in after
    {
      if Print(q) == Print(ps) { PrintInjective(q, ps); }
    }
  }

  // ----- one registration ----------------------------------------------------------------------------------

  /** The routes a method has. */
  ghost function RoutesOf(t: Table, verb: string): multiset<Route> {
    match TreeOf(t, verb) case None => multiset{} case Some(root) => Routes(root, [])
  }

  /**
   The paths a pattern stands for: itself without optional parameters; otherwise, for every optional one, the
   path up to it, "/" if that is empty, and the path through it, without question marks.
   */
  ghost predicate StandsFor(segs: seq<Segment>, p: string) {
    if forall i :: 0 <= i < |segs| ==> segs[i].Plain? then p == Show(segs, true)
    else Offered(segs, |segs|, p)
  }

  /** All paths of a pattern are supported routes. */
  ghost predicate AllRoutes(segs: seq<Segment>) { forall p :: StandsFor(segs, p) ==> IsRoutePath(p) }

  /** The list that is added has exactly these paths. */
  lemma {:induction false} ListIsOfAll(segs: seq<Segment>) returns (paths: seq<string>)
    requires GoodSegments(segs)
    ensures AddedPaths(Show(segs, true)) == Some(paths) && Lengthening(paths)
    ensures forall p :: p in paths <==> StandsFor(segs, p)
  {
    var all := Expansion(segs);
    paths := if all == [] then [Show(segs, true)] else all;
  }

  /** What a call finds: the method's tree, new or old, with the same routes. */
  lemma {:induction false} PreparedRoutes(t: Table, verb: string, path: string)
    requires GoodTable(t)
    ensures GoodTable(Prepared(t, verb, path)) && TreeOf(Prepared(t, verb, path), verb).Some?
    ensures Prepared(t, verb, path).mutable == t.mutable
    ensures RoutesOf(Prepared(t, verb, path), verb) == RoutesOf(t, verb)
  {
    PreparedMethods(t, verb, path);
    PreparedPlaces(t, verb, path);
    EmptyIsRoot();
  }

  lemma {:induction false} StoredRoutes(
    r: Table, verb: string, paths: seq<string>, h: Handler, root': Trie, t': Table, ok: bool)
    requires GoodTable(r) && Stores(r, verb, paths, h, root', t', ok)
    ensures TreeOf(r, verb).Some? && IsRoot(TreeOf(r, verb).value) && TreeOf(t', verb) == Some(root')
    ensures AddsAll(TreeOf(r, verb).value, r.mutable, paths, h, root', ok)
  {
  }

  lemma {:induction false} StepStores(
    t: Table, verb: string, path: string, paths: seq<string>, h: Handler, t': Table, ok: bool) returns (root': Trie)
    requires Acceptable(verb, path) && AddedPaths(path) == Some(paths) && HandleStep(t, verb, path, h, t', ok)
    ensures Stores(Prepared(t, verb, path), verb, paths, h, root', t', ok)
  {
    root' :| Stores(Prepared(t, verb, path), verb, paths, h, root', t', ok);
  }

  /** The call as additions to one tree. */
  lemma {:induction false} CallAdds(t: Table, verb: string, segs: seq<Segment>, h: Handler, t': Table, ok: bool)
    returns (paths: seq<string>, root: Trie, root': Trie)
    requires GoodTable(t) && GoodSegments(segs) && segs != [] && AllRoutes(segs) && verb != ""
    requires HandleStep(t, verb, Show(segs, true), h, t', ok)
    ensures RoutePaths(paths) && (forall p :: p in paths <==> StandsFor(segs, p))
    ensures IsRoot(root) && AddsAll(root, t.mutable, paths, h, root', ok)
    ensures RoutesOf(t, verb) == Routes(root, []) && RoutesOf(t', verb) == Routes(root', [])
  {
    var path := Show(segs, true);
    paths := ListIsOfAll(segs);
    root' := StepStores(t, verb, path, paths, h, t', ok);
    PreparedRoutes(t, verb, path);
    StoredRoutes(Prepared(t, verb, path), verb, paths, h, root', t', ok);
    root := TreeOf(Prepared(t, verb, path), verb).value;
  }

  /**
   In an immutable table, a `Handle` call that returns adds exactly one route, with its handler, for each path the
   pattern stands for; every other route is stored as often as before.
   */
  lemma {:induction false} HandleStoresEach(
    t: Table, verb: string, segs: seq<Segment>, h: Handler, t': Table)
    requires GoodTable(t) && !t.mutable && GoodSegments(segs) && segs != [] && AllRoutes(segs)
    requires HandleStep(t, verb, Show(segs, true), h, t', true)
    ensures forall r: Route :: RoutesOf(t', verb)[r] ==
              RoutesOf(t, verb)[r] + if r.1 == h && Good(r.0) && StandsFor(segs, Print(r.0)) then 1 else 0
  {
    var paths, root, root' := CallAdds(t, verb, segs, h, t', true);
    var n := AddsAllGains(root, paths, h, root', true);
    assert paths[..n] == paths;
  }

  /**
   One that panics has added the paths shorter than the one refused, one route each, and nothing else.
   */
  lemma {:induction false} RefusedStoresShorter(
    t: Table, verb: string, segs: seq<Segment>, h: Handler, t': Table) returns (refused: string)
    requires GoodTable(t) && !t.mutable && GoodSegments(segs) && segs != [] && AllRoutes(segs) && verb != ""
    requires HandleStep(t, verb, Show(segs, true), h, t', false)
    ensures StandsFor(segs, refused)
    ensures forall r: Route :: RoutesOf(t', verb)[r] == RoutesOf(t, verb)[r] +
              if r.1 == h && Good(r.0) && StandsFor(segs, Print(r.0)) && |Print(r.0)| < |refused| then 1 else 0
  {
    var paths, root, root' := CallAdds(t, verb, segs, h, t', false);
    var n := AddsAllGains(root, paths, h, root', false);
    refused := paths[n];
    forall p
      ensures p in paths[..n] <==> p in paths && |p| < |refused|
    {
      ShorterAreBefore(paths, n, p);
    }
  }

  lemma {:induction false} ShorterAreBefore(paths: seq<string>, n: nat, p: string)
    requires Lengthening(paths) && n < |paths|
    ensures p in paths[..n] <==> p in paths && |p| < |paths[n]|
  {
    if p in paths {
      var i :| 0 <= i < |paths| && paths[i] == p;
      if i < n { assert paths[..n][i] == p; }
    }
    if p in paths[..n] {
      var i :| 0 <= i < n && paths[..n][i] == p;
      assert paths[i] == p;
    }
  }

  /**
   In any table, mutable or not, a call that returns leaves its handler stored under each path the pattern stands
   for, and routes of other patterns as they were.
   */
  lemma {:induction false} HandleHoldsEach(
    t: Table, verb: string, segs: seq<Segment>, h: Handler, t': Table)
    requires GoodTable(t) && GoodSegments(segs) && segs != [] && AllRoutes(segs)
    requires HandleStep(t, verb, Show(segs, true), h, t', true)
    ensures forall ps :: Good(ps) && StandsFor(segs, Print(ps)) ==> (ps, h) in RoutesOf(t', verb)
    ensures forall r: Route ::
              !(Good(r.0) && StandsFor(segs, Print(r.0))) ==> RoutesOf(t', verb)[r] == RoutesOf(t, verb)[r]
  {
    var paths, root, root' := CallAdds(t, verb, segs, h, t', true);
    AddsAllHolds(root, t.mutable, paths, h, root');
  }
}
