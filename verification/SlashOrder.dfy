/**
 Slash recommendations as a function of the order of registrations: when exactly all of them lead to
 registered paths, over every run of static routes.
 */
module SlashOrder {
  import opened Text
  import opened WildPath
  import opened Pattern
  import opened Trie
  import opened Conservation
  import opened RouteTree
  import opened TrailingSlash
  import opened Lookup
  import opened StaticRoutes
  import opened StaticMap
  import opened Walks
  import opened SlashMarks

  // ----- one call ------------------------------------------------------------------------------------------

  predicate AptRoot(root: Trie) { root == EMPTY || (Apt(root) && Purposeful(root)) }

  /** Registering `s` marks the node spelled by `s` without its final slash. */
  predicate SetsAtRoot(root: Trie, s: string) { root == EMPTY || SetsVia(root, s) }

  lemma {:induction false} KindMatters(c: Trie, q: string)
    requires Apt(c) && Purposeful(c) && c != MARKER
    ensures var r := c.(kind := Root); Apt(r) && Purposeful(r) && (ReachesVia(r, q, Mark) <==> ReachesVia(c, q, Mark))
  {
    var r := c.(kind := Root);
    if Branches(c) { assert Branches(r); }
    if c.path <= q { SameBelow(c, r, q[|c.path|..], Mark); }
  }

  lemma {:induction false} SortRoot(a: Trie, b: Trie, q: string)
    requires SortsTo(a, b) && Apt(a) && Purposeful(a)
    ensures Apt(b) && Purposeful(b) && (ReachesVia(b, q, Mark) <==> ReachesVia(a, q, Mark))
  {
    SortApt(a, b);
    SortPurpose(a, b);
    assert b.path == a.path;
    if a.path <= q { SortReaches(a, b, q[|a.path|..], Mark); }
  }

  /** The first route of a storage. */
  lemma {:induction false} FirstMarks(s: string, h: Handler, root': Trie, q: string)
    requires StaticPath(s) && q != "" && q != s + "/" && AddAtRoot(EMPTY, s, h).err == None
    requires SortsTo(Promote(AddAtRoot(EMPTY, s, h).node), root')
    ensures AptRoot(root') && (ReachesVia(root', q, Mark) <==> s == q + "/")
  {
    var c := Hung(NewNode(s), h);
    assert s[0..] == s && [] + [c] == [c];
    InsertIs(EMPTY, s, h);
    HungApt(s, h);
    HungReaches(s, h, q);
    KindMatters(c, q);
    SortRoot(c.(kind := Root), root', q);
  }

  lemma {:induction false} GraftedRoot(root: Trie, s: string, h: Handler, q: string)
    requires StaticNode(root) && AptRoot(root) && root.path != "" && root.path[0] == '/' && StaticPath(s)
    requires q != "" && q != s + "/"
    ensures var n := AddAtRoot(root, s, h).node;
      && Apt(n) && Purposeful(n) && n.path != "" && Promote(n) == n
      && (ReachesVia(n, q, Mark) <==> ReachesVia(root, q, Mark) || (s == q + "/" && SetsVia(root, s)))
  {
    RootStep(root, s, h);
    GraftApt(root, s, h);
    GraftReaches(root, s, h, q);
  }

  lemma {:induction false} ExchangedRoot(n: Trie, at: seq<nat>, h: Handler, q: string)
    requires Apt(n) && Purposeful(n) && NodeAt(n, at).Some? && NodeAt(n, at).value.handler.Some?
    ensures var m := Replace(n, at, NodeAt(n, at).value.(handler := Some(h)));
      Apt(m) && Purposeful(m) && (ReachesVia(m, q, Mark) <==> ReachesVia(n, q, Mark))
  {
    RehandledApt(n, at, h);
    KeepsPurpose(n, Replace(n, at, NodeAt(n, at).value.(handler := Some(h))));
    RehandledMarks(n, at, h, if n.path <= q then q[|n.path|..] else "");
  }

  /** A call changes at most the mark before its path's final slash, and the bare marker after its path. */
  lemma {:induction false} CallMarks(
    root: Trie, mutable: bool, s: string, h: Handler, root': Trie, ok: bool, m: map<string, Handler>, q: string)
    requires Holds(root, m) && AptRoot(root) && StaticPath(s) && (forall t :: t in m ==> !Toggles(s, t))
    requires AddStep(root, mutable, s, h, root', ok) && q != "" && q != s + "/"
    ensures AptRoot(root')
    ensures ReachesVia(root', q, Mark) <==> ReachesVia(root, q, Mark) || (s == q + "/" && SetsAtRoot(root, s))
  {
    var r := AddAtRoot(root, s, h);
    if root == EMPTY {
      FirstStatic(s, h);
      FirstMarks(s, h, root', q);
    } else {
      GraftedRoot(root, s, h, q);
      if r.err == None {
        SortRoot(r.node, root', q);
      } else if Overrides(r, mutable) {
        ErrorIsRefusal(root, s, h, m);
        ExchangedRoot(r.node, r.at.value, h, q);
      }
    }
  }

  /** The only error of a static storage without slash twins is a stored path. */
  lemma {:induction false} ErrorIsRefusal(root: Trie, s: string, h: Handler, m: map<string, Handler>)
    requires Holds(root, m) && root != EMPTY && StaticPath(s) && (forall t :: t in m ==> !Toggles(s, t))
    requires AddAtRoot(root, s, h).err.Some?
    ensures Refused(root, AddAtRoot(root, s, h))
  {
    if s in m {
      StoredTree(root, m, s);
      HoldsNoTwins(root, m);
      RootRefuses(root, s, h, m[s], Stored(root));
    } else {
      StoredIs(root, m);
      assert Free(Stored(root), Lits(s)) by {
        if Justified(Stored(root), Lits(s), true) { JustifiedHasTwin(Stored(root), m, s); }
      }
      RootCutStatic(root, s, h, Stored(root));
    }
  }

  // ----- runs ----------------------------------------------------------------------------------------------

  /** `e` goes on after `s` with something other than a slash. */
  predicate TurnsOff(e: string, s: string) { s < e && e[|s|] != '/' }

  /**
   Call `k` registers `p + "//"` and marks the node before the last slash: no earlier path goes on beyond it, or
   an earlier one goes on after the first slash with something else.
   */
  predicate MarkedBy(run: seq<StaticCall>, p: string, k: nat)
    requires k < |run|
  {
    && run[k].path == p + "//"
    && ((forall i :: 0 <= i < k ==> !(p + "//" < run[i].path))
        || exists i :: 0 <= i < k && TurnsOff(run[i].path, p + "/"))
  }

  /** A recommendation of the run leads to `p`, which is not registered. */
  predicate Misleads(run: seq<StaticCall>, p: string) {
    p != "" && p !in Described(run) && exists k :: 0 <= k < |run| && MarkedBy(run, p, k)
  }

  /** A first call always returns. */
  lemma {:induction false} CallIsDescribed(run: seq<StaticCall>, roots: seq<Trie>, mutable: bool, k: nat)
    requires IsStaticRun(run, roots, mutable) && k < |run|
    ensures Described(run[..k + 1]).Keys == Described(run[..k]).Keys + {run[k].path}
  {
    RunHolds(run, roots, mutable, k);
    CallAfter(run, roots, mutable, k);
    DescribedStep(run, k);
  }

  function Called(run: seq<StaticCall>, n: nat): set<string>
    requires n <= |run|
  {
    set i | 0 <= i < n :: run[i].path
  }

  lemma {:induction false} CalledStep(run: seq<StaticCall>, k: nat)
    requires k < |run|
    ensures Called(run, k + 1) == Called(run, k) + {run[k].path}
  {
  }

  lemma {:induction false} KeysAreCalled(run: seq<StaticCall>, roots: seq<Trie>, mutable: bool, n: nat)
    requires IsStaticRun(run, roots, mutable) && n <= |run|
    ensures Described(run[..n]).Keys == Called(run, n)
  {
    if n == 0 {
      assert run[..0] == [];
    } else {
      var k := n - 1;
      KeysAreCalled(run, roots, mutable, k);
      CallIsDescribed(run, roots, mutable, k);
      CalledStep(run, k);
      assert k + 1 == n;
    }
  }

  /** The paths described are those called. */
  lemma {:induction false} CalledIsDescribed(run: seq<StaticCall>, roots: seq<Trie>, mutable: bool, n: nat, s: string)
    requires IsStaticRun(run, roots, mutable) && n <= |run|
    ensures s in Described(run[..n]) <==> exists i :: 0 <= i < n && run[i].path == s
  {
    KeysAreCalled(run, roots, mutable, n);
    assert s in Described(run[..n]) <==> s in Called(run, n);
  }

  /** What a tree shows of the calls before, for a path `p` never registered. */
  lemma {:induction false} CallSetsMark(
    run: seq<StaticCall>, roots: seq<Trie>, mutable: bool, p: string, k: nat)
    requires IsStaticRun(run, roots, mutable) && k < |run| && p != "" && run[k].path == p + "//" && AptRoot(roots[k])
    requires ReachesVia(roots[k], p + "/", Mark) <==> exists i :: 0 <= i < k && MarkedBy(run, p, i)
    ensures ReachesVia(roots[k], p + "/", Mark) || SetsAtRoot(roots[k], run[k].path) <==>
      (exists i :: 0 <= i < k && MarkedBy(run, p, i)) || MarkedBy(run, p, k)
  {
    RunHolds(run, roots, mutable, k);
    if roots[k] == EMPTY {
      NothingBefore(run, roots, mutable, k);
    } else {
      if SetsVia(roots[k], run[k].path) { SetMeansMarked(run, roots, mutable, p, k); }
      if MarkedBy(run, p, k) { MarkedMeansSet(run, roots, mutable, p, k); }
    }
  }

  lemma {:induction false} NothingBefore(run: seq<StaticCall>, roots: seq<Trie>, mutable: bool, k: nat)
    requires IsStaticRun(run, roots, mutable) && k < |run| && roots[k] == EMPTY
    ensures k == 0
  {
    RunHolds(run, roots, mutable, k);
    EmptyIsRoot();
    if k > 0 {
      CalledIsDescribed(run, roots, mutable, k, run[0].path);
      StoredTree(roots[k], Described(run[..k]), run[0].path);
    }
  }

  lemma {:induction false} SetMeansMarked(run: seq<StaticCall>, roots: seq<Trie>, mutable: bool, p: string, k: nat)
    requires IsStaticRun(run, roots, mutable) && k < |run| && run[k].path == p + "//" && AptRoot(roots[k])
    requires roots[k] != EMPTY && SetsVia(roots[k], run[k].path)
    ensures ReachesVia(roots[k], p + "/", Mark) || MarkedBy(run, p, k)
  {
    var root, u, t := roots[k], p + "/", run[k].path;
    RunHolds(run, roots, mutable, k);
    assert t == u + "/";
    SetsIsExplained(root, u);
    if y :| y != "" && y[0] != '/' && ReachesVia(root, u + y, Holder) {
      WalkIsCalled(run, roots, mutable, k, u + y);
      var i :| 0 <= i < k && run[i].path == u + y;
      assert TurnsOff(run[i].path, u);
    } else if !GoesOn(root, t) {
      GoesIsCalled(run, roots, mutable, k, t);
    } else if ReachesVia(root, u, Holder) {
      WalkIsCalled(run, roots, mutable, k, u);
      var i :| 0 <= i < k && run[i].path == u;
      assert Toggles(run[k].path, run[i].path);
    }
  }

  lemma {:induction false} WalkIsCalled(run: seq<StaticCall>, roots: seq<Trie>, mutable: bool, k: nat, s: string)
    requires IsStaticRun(run, roots, mutable) && k < |run| && roots[k] != EMPTY
    ensures ReachesVia(roots[k], s, Holder) <==> exists i :: 0 <= i < k && run[i].path == s
  {
    RunHolds(run, roots, mutable, k);
    WalksAreEntries(roots[k], Described(run[..k]), s);
    CalledIsDescribed(run, roots, mutable, k, s);
  }

  lemma {:induction false} GoesIsCalled(run: seq<StaticCall>, roots: seq<Trie>, mutable: bool, k: nat, t: string)
    requires IsStaticRun(run, roots, mutable) && k < |run| && roots[k] != EMPTY
    ensures GoesOn(roots[k], t) <==> exists i :: 0 <= i < k && t <= run[i].path
  {
    if x :| ReachesVia(roots[k], t + x, Holder) {
      WalkIsCalled(run, roots, mutable, k, t + x);
      var i :| 0 <= i < k && run[i].path == t + x;
      assert t <= run[i].path;
    }
    if i :| 0 <= i < k && t <= run[i].path {
      WalkIsCalled(run, roots, mutable, k, run[i].path);
      assert run[i].path == t + run[i].path[|t|..];
    }
  }

  lemma {:induction false} TurnMeansSet(
    run: seq<StaticCall>, roots: seq<Trie>, mutable: bool, u: string, k: nat, i: nat)
    requires IsStaticRun(run, roots, mutable) && i < k < |run| && roots[k] != EMPTY && u != ""
    requires TurnsOff(run[i].path, u)
    ensures SetsVia(roots[k], u + "/")
  {
    var y := run[i].path[|u|..];
    assert run[i].path == u + y;
    RunHolds(run, roots, mutable, k);
    WalkIsCalled(run, roots, mutable, k, run[i].path);
    SetsWhenTurning(roots[k], u, y);
  }

  lemma {:induction false} LastMeansSet(run: seq<StaticCall>, roots: seq<Trie>, mutable: bool, t: string, k: nat)
    requires IsStaticRun(run, roots, mutable) && k < |run| && AptRoot(roots[k]) && roots[k] != EMPTY
    requires |t| >= 2 && EndsInSlash(t) && t[0] == '/' && forall i :: 0 <= i < k ==> !(t <= run[i].path)
    ensures SetsVia(roots[k], t)
  {
    RunHolds(run, roots, mutable, k);
    GoesIsCalled(run, roots, mutable, k, t);
    SetsWhenLast(roots[k], t);
  }

  lemma {:induction false} MarkedMeansSet(run: seq<StaticCall>, roots: seq<Trie>, mutable: bool, p: string, k: nat)
    requires IsStaticRun(run, roots, mutable) && k < |run| && MarkedBy(run, p, k) && AptRoot(roots[k])
    requires roots[k] != EMPTY && p != ""
    ensures SetsVia(roots[k], run[k].path) || exists i :: 0 <= i < k && MarkedBy(run, p, i)
  {
    var t := p + "//";
    assert t == p + "/" + "/" && EndsInSlash(t) && StaticPath(t);
    if i :| 0 <= i < k && TurnsOff(run[i].path, p + "/") {
      TurnMeansSet(run, roots, mutable, p + "/", k, i);
    } else if i :| 0 <= i < k && run[i].path == t {
      assert MarkedBy(run, p, i);
    } else {
      forall i | 0 <= i < k
        ensures !(t <= run[i].path)
      {
        assert !(t < run[i].path) && run[i].path != t;
      }
      LastMeansSet(run, roots, mutable, t, k);
    }
  }

  /** Over every run: the node spelled `p + "/"`, `p` not being registered, is marked exactly when a call marks it. */
  lemma {:induction false} MarksStand(run: seq<StaticCall>, roots: seq<Trie>, mutable: bool, p: string, n: nat)
    requires IsStaticRun(run, roots, mutable) && n <= |run| && p != "" && p !in Described(run)
    ensures AptRoot(roots[n])
    ensures ReachesVia(roots[n], p + "/", Mark) <==> exists i :: 0 <= i < n && MarkedBy(run, p, i)
  {
    if n > 0 {
      var k := n - 1;
      MarksStand(run, roots, mutable, p, k);
      assert run[..|run|] == run;
      CalledIsDescribed(run, roots, mutable, |run|, run[k].path);
      NextCall(run, roots, mutable, p, k);
      if run[k].path == p + "//" { CallSetsMark(run, roots, mutable, p, k); }
      OneCallMore(run, p, k);
      assert k + 1 == n;
    }
  }

  lemma {:induction false} OneCallMore(run: seq<StaticCall>, p: string, k: nat)
    requires k < |run|
    ensures (exists i :: 0 <= i < k + 1 && MarkedBy(run, p, i)) <==>
      (exists i :: 0 <= i < k && MarkedBy(run, p, i)) || MarkedBy(run, p, k)
  {
    if i :| 0 <= i < k + 1 && MarkedBy(run, p, i) {
      assert i < k || i == k;
    }
  }

  lemma {:induction false} NextCall(run: seq<StaticCall>, roots: seq<Trie>, mutable: bool, p: string, k: nat)
    requires IsStaticRun(run, roots, mutable) && k < |run| && run[k].path != p && AptRoot(roots[k])
    ensures AptRoot(roots[k + 1])
    ensures ReachesVia(roots[k + 1], p + "/", Mark) <==>
      ReachesVia(roots[k], p + "/", Mark) || (run[k].path == p + "//" && SetsAtRoot(roots[k], run[k].path))
  {
    var c, m, q := run[k], Described(run[..k]), p + "/";
    RunHolds(run, roots, mutable, k);
    assert q[..|q| - 1] == p && (c.path + "/")[..|c.path|] == c.path;
    assert q + "/" == p + "//";
    forall t | t in m
      ensures !Toggles(c.path, t)
    {
      CalledIsDescribed(run, roots, mutable, k, t);
    }
    CallMarks(roots[k], mutable, c.path, c.handler, roots[k + 1], c.ok, m, q);
  }

  // ----- when all recommendations are right ----------------------------------------------------------------

  lemma {:induction false} RunHoldsAll(run: seq<StaticCall>, roots: seq<Trie>, mutable: bool)
    requires IsStaticRun(run, roots, mutable)
    ensures Holds(roots[|run|], Described(run))
  {
    RunHolds(run, roots, mutable, |run|);
    assert run[..|run|] == run;
  }

  lemma {:induction false} MisleadsIsSeen(run: seq<StaticCall>, roots: seq<Trie>, mutable: bool, p: string)
    requires IsStaticRun(run, roots, mutable) && Misleads(run, p) && Searchable(roots[|run|])
    ensures Get(roots[|run|], p + "/").tsr && Toggled(p + "/") == p
  {
    RunHoldsAll(run, roots, mutable);
    MarksStand(run, roots, mutable, p, |run|);
    HeldMarkIsAdvice(roots[|run|], Described(run), p);
    assert (p + "/")[..|p|] == p;
  }

  lemma {:induction false} HeldMarkIsAdvice(root: Trie, m: map<string, Handler>, p: string)
    requires Holds(root, m) && AptRoot(root) && Searchable(root) && p !in m && ReachesVia(root, p + "/", Mark)
    ensures Get(root, p + "/").tsr
  {
    WalksAreEntries(root, m, p);
    TreeMarkIsAdvice(root, p);
  }

  lemma {:induction false} HeldAdviceIsMark(root: Trie, m: map<string, Handler>, path: string)
    requires Holds(root, m) && Searchable(root) && Get(root, path).tsr
    ensures ReachesVia(root, path, Mark)
  {
    if root != EMPTY { TreeAdviceIsMark(root, path); }
  }

  lemma {:induction false} AdviceDropsSlash(run: seq<StaticCall>, roots: seq<Trie>, mutable: bool, p: string)
    requires IsStaticRun(run, roots, mutable) && p != "" && !Misleads(run, p)
    requires ReachesVia(roots[|run|], p + "/", Mark)
    ensures p in Described(run)
  {
    if p !in Described(run) { MarksStand(run, roots, mutable, p, |run|); }
  }

  lemma {:induction false} MarkIsServed(root: Trie, m: map<string, Handler>, path: string)
    requires Holds(root, m) && ReachesVia(root, path, Mark) && !EndsInSlash(path)
    ensures path + "/" in m
  {
    StoredIs(root, m);
    WalkIsJustified(root, path, [], Stored(root));
    SlashedIsListed(Stored(root), m, path);
  }

  lemma {:induction false} SlashedIsListed(stored: set<Pattern>, m: map<string, Handler>, s: string)
    requires Lists(stored, m) && Slashed(stored, [] + Lits(s))
    ensures s + "/" in m
  {
    assert [] + Lits(s) == Lits(s) && Lits(s) + SLASH == Lits(s + "/");
    if Lits(s) + SLASH !in stored {
      var name :| Lits(s) + SLASH + [Rest(name)] in stored;
      var t :| t in m && Lits(s) + SLASH + [Rest(name)] == Lits(t);
      NoRestInLits(s, name, t);
      assert false;
    }
  }

  lemma {:induction false} AdviceIsWalk(run: seq<StaticCall>, roots: seq<Trie>, mutable: bool, path: string)
    requires IsStaticRun(run, roots, mutable) && Searchable(roots[|run|]) && Get(roots[|run|], path).tsr
    ensures ReachesVia(roots[|run|], path, Mark)
  {
    RunHoldsAll(run, roots, mutable);
    HeldAdviceIsMark(roots[|run|], Described(run), path);
  }

  lemma {:induction false} AdviceAddsSlash(run: seq<StaticCall>, roots: seq<Trie>, mutable: bool, path: string)
    requires IsStaticRun(run, roots, mutable) && ReachesVia(roots[|run|], path, Mark) && !EndsInSlash(path)
    ensures path + "/" in Described(run)
  {
    RunHoldsAll(run, roots, mutable);
    MarkIsServed(roots[|run|], Described(run), path);
  }

  lemma {:induction false} AdviceIsRight(run: seq<StaticCall>, roots: seq<Trie>, mutable: bool, path: string)
    requires IsStaticRun(run, roots, mutable) && Searchable(roots[|run|])
    requires path != "/" && Get(roots[|run|], path).tsr && forall p :: !Misleads(run, p)
    ensures Toggled(path) in Described(run)
  {
    AdviceIsWalk(run, roots, mutable, path);
    if EndsInSlash(path) {
      assert path == path[..|path| - 1] + "/";
      AdviceDropsSlash(run, roots, mutable, path[..|path| - 1]);
    } else {
      AdviceAddsSlash(run, roots, mutable, path);
    }
  }

  lemma {:induction false} RunIsSearchable(run: seq<StaticCall>, roots: seq<Trie>, mutable: bool)
    requires IsStaticRun(run, roots, mutable)
    ensures Searchable(roots[|run|])
  {
    RunHoldsAll(run, roots, mutable);
    EmptyIsRoot();
    WellFormedIsSearchable(roots[|run|]);
  }

  /**
   Over every run of static registrations without slash twins, mutable or not and re-registrations included:
   all slash recommendations lead to registered paths exactly when no call registers a path ending in two
   slashes, without the path before them being registered, in such an order that the node between is marked.
   */
  lemma {:induction false} AdviceIsRightIff(run: seq<StaticCall>, roots: seq<Trie>, mutable: bool)
    requires IsStaticRun(run, roots, mutable)
    ensures Searchable(roots[|run|])
    ensures (forall path :: path != "/" && Get(roots[|run|], path).tsr ==> Toggled(path) in Described(run))
      <==> !exists p :: Misleads(run, p)
  {
    RunIsSearchable(run, roots, mutable);
    if p :| Misleads(run, p) {
      MisleadsIsSeen(run, roots, mutable, p);
      assert p + "/" != "/";
    } else {
      forall path | path != "/" && Get(roots[|run|], path).tsr
        ensures Toggled(path) in Described(run)
      {
        AdviceIsRight(run, roots, mutable, path);
      }
    }
  }
}
