/**
 The storage of static routes as a finite map from paths to handlers, over every run of
 `Tree.Add` calls, mutable or not, refused re-registrations included.
 */
module StaticMap {
  import opened Text
  import opened WildPath
  import opened Pattern
  import opened Trie
  import opened Conservation
  import opened RouteTree
  import opened TrailingSlash
  import opened CaseFix
  import opened StaticRoutes

  /** A static path `Tree.Add` accepts for insertion. */
  predicate StaticPath(s: string) { s != "" && s[0] == '/' && '{' !in s }

  predicate Toggles(s: string, t: string) { t == s + "/" || s == t + "/" }

  /** The routes of a map of static paths. */
  ghost function Entries(m: map<string, Handler>): multiset<Route> {
    multiset(set s | s in m :: (Lits(s), m[s]))
  }

  /** A storage state reached with static routes: nothing yet, or a static tree; it stores exactly `m`. */
  ghost predicate Holds(root: Trie, m: map<string, Handler>) {
    && (root == EMPTY || StaticTree(root))
    && Routes(root, []) == Entries(m)
    && (forall s, t :: s in m && t in m ==> !Toggles(s, t))
  }

  lemma {:induction false} LitsSame(a: string, b: string)
    requires Lits(a) == Lits(b)
    ensures a == b
  {
    LitsInjective([], a, b);
  }

  lemma {:induction false} EntriesHas(m: map<string, Handler>, s: string, h: Handler)
    ensures (Lits(s), h) in Entries(m) <==> s in m && m[s] == h
  {
    if (Lits(s), h) in Entries(m) {
      var t :| t in m && (Lits(t), m[t]) == (Lits(s), h);
      LitsSame(t, s);
    }
  }

  ghost function Pairs(m: map<string, Handler>): set<Route> { set s | s in m :: (Lits(s), m[s]) }

  lemma {:induction false} PairsAdd(m: map<string, Handler>, s: string, h: Handler)
    requires s !in m
    ensures Pairs(m[s := h]) == Pairs(m) + {(Lits(s), h)} && (Lits(s), h) !in Pairs(m)
  {
    var n := m[s := h];
    forall r | r in Pairs(m)
      ensures r in Pairs(n) && r != (Lits(s), h)
    {
      var t :| t in m && r == (Lits(t), m[t]);
      assert t in n && n[t] == m[t];
      if Lits(t) == Lits(s) { LitsSame(t, s); }
    }
    forall r | r in Pairs(n)
      ensures r in Pairs(m) + {(Lits(s), h)}
    {
      var t :| t in n && r == (Lits(t), n[t]);
      if t != s { assert t in m && m[t] == n[t]; }
    }
    assert s in n;
  }

  lemma {:induction false} EntriesAdd(m: map<string, Handler>, s: string, h: Handler)
    requires s !in m
    ensures Entries(m[s := h]) == Entries(m) + multiset{(Lits(s), h)}
  {
    PairsAdd(m, s, h);
    assert Entries(m) == multiset(Pairs(m)) && Entries(m[s := h]) == multiset(Pairs(m[s := h]));
  }

  lemma {:induction false} EntriesSet(m: map<string, Handler>, s: string, h: Handler)
    requires s in m
    ensures Entries(m[s := h]) + multiset{(Lits(s), m[s])} == Entries(m) + multiset{(Lits(s), h)}
  {
    var rest, was := m - {s}, m[s];
    EntriesAdd(rest, s, h);
    EntriesAdd(rest, s, was);
    assert rest[s := h] == m[s := h] && rest[s := was] == m;
    Exchange(Entries(rest), multiset{(Lits(s), was)}, multiset{(Lits(s), h)});
  }

  lemma {:induction false} Exchange(a: multiset<Route>, b: multiset<Route>, c: multiset<Route>)
    ensures (a + c) + b == (a + b) + c
  {
  }

  /** `stored` are the printed paths of `m`. */
  ghost predicate Lists(stored: set<Pattern>, m: map<string, Handler>) {
    && (forall s :: Lits(s) in stored <==> s in m)
    && (forall p :: p in stored ==> exists s :: s in m && p == Lits(s))
  }

  lemma {:induction false} StoredIs(root: Trie, m: map<string, Handler>)
    requires Routes(root, []) == Entries(m)
    ensures Lists(Stored(root), m)
  {
    forall s
      ensures Lits(s) in Stored(root) <==> s in m
    {
      if s in m {
        EntriesHas(m, s, m[s]);
        assert (Lits(s), m[s]) in Routes(root, []);
      }
      if Lits(s) in Stored(root) {
        var r :| r in Routes(root, []) && r.0 == Lits(s);
        EntriesHas(m, s, r.1);
        assert r == (Lits(s), r.1);
      }
    }
  }

  lemma {:induction false} NoRestInLits(s: string, name: string, t: string)
    ensures Lits(s) + SLASH + [Rest(name)] != Lits(t)
  {
    var p := Lits(s) + SLASH + [Rest(name)];
    assert p[|s| + 1] == Rest(name);
  }

  lemma {:induction false} JustifiedHasTwin(stored: set<Pattern>, m: map<string, Handler>, s: string)
    requires Lists(stored, m) && Justified(stored, Lits(s), true)
    ensures exists t :: t in m && Toggles(s, t)
  {
    assert Lits(s) + SLASH == Lits(s + "/");
    if s + "/" in m {
      assert Toggles(s, s + "/");
    } else {
      if Slashed(stored, Lits(s)) {
        var name :| Lits(s) + SLASH + [Rest(name)] in stored;
        var t :| t in m && Lits(s) + SLASH + [Rest(name)] == Lits(t);
        NoRestInLits(s, name, t);
        assert false;
      }
      var t := s[..|s| - 1];
      assert Lits(s)[..|s| - 1] == Lits(t);
      assert Lits(s)[|s| - 1] == Lit(s[|s| - 1]);
      assert s == t + "/";
      assert t in m && Toggles(s, t);
    }
  }

  // ----- one call ---------------------------------------------------------------------------------

  lemma {:induction false} RouteOf(s: string)
    requires StaticPath(s)
    ensures IsRoute(Lits(s)) && Print(Lits(s)) == s
  {
    GoodLits(s);
  }

  /** The first route of a storage. */
  lemma {:induction false} FirstStatic(s: string, h: Handler)
    requires StaticPath(s)
    ensures AddAtRoot(EMPTY, s, h).err == None
    ensures Promote(AddAtRoot(EMPTY, s, h).node).path != ""
    ensures StaticNode(Promote(AddAtRoot(EMPTY, s, h).node))
  {
    assert s[0..] == s;
    NoWildInLiterals(s);
    NewNodeIsWellFormed(s);
    AttachHangs(EMPTY, NewNode(s), h);
    HungStatic(s, h);
    var c := Hung(NewNode(s), h);
    assert [] + [c] == [c];
    assert StaticNode(c.(kind := Root));
  }

  lemma {:induction false} RootStep(root: Trie, s: string, h: Handler)
    requires s != "" && root.path != "" && root.path[0] == s[0]
    ensures var i := Lcp(s, root.path);
      0 < i && s[..i] == root.path[..i] && AddAtRoot(root, s, h) == Add(CutAt(root, i), s[i..], h)
  {
  }

  lemma {:induction false} RootCutStatic(root: Trie, s: string, h: Handler, stored: set<Pattern>)
    requires StaticNode(root) && Sorted(root) && root.kind == Root && root.path != "" && root.path[0] == '/'
      && StaticPath(s)
    requires MarksHold(root, [], stored) && Covers(stored, root, []) && Free(stored, Lits(s))
    ensures var r := AddAtRoot(root, s, h);
      r.err == None && StaticNode(r.node) && Promote(r.node) == r.node && r.node.path != "" && r.node.kind == Root
  {
    var i := Lcp(s, root.path);
    RootStep(root, s, h);
    CutStatic(root, i, [], stored);
    TextBelow([], CutAt(root, i), s, i);
    assert [] + Lits(s) == Lits(s);
    AddStatic(CutAt(root, i), s[i..], h, [], stored);
  }

  /** The tree a returning `Add` of a new static path leaves. */
  lemma {:induction false} NewStatic(
    root: Trie, mutable: bool, s: string, h: Handler, root': Trie, ok: bool, m: map<string, Handler>)
    requires Holds(root, m) && StaticPath(s) && s !in m && (forall t :: t in m ==> !Toggles(s, t))
    requires AddStep(root, mutable, s, h, root', ok)
    ensures ok && StaticTree(root')
  {
    RouteOf(s);
    StoredIs(root, m);
    if root == EMPTY {
      EmptyIsRoot();
      FirstStatic(s, h);
    } else {
      assert Free(Stored(root), Lits(s)) by {
        if Justified(Stored(root), Lits(s), true) { JustifiedHasTwin(Stored(root), m, s); }
      }
      RootCutStatic(root, s, h, Stored(root));
    }
    var r := AddAtRoot(root, s, h);
    SortStatic(Promote(r.node), root');
    AddKeepsMarks(root, mutable, Lits(s), h, root');
    WellFormedIsSearchable(root');
  }

  /** A new static path is accepted, and the storage holds one entry more. */
  lemma {:induction false} AddNew(
    root: Trie, mutable: bool, s: string, h: Handler, root': Trie, ok: bool, m: map<string, Handler>)
    requires Holds(root, m) && StaticPath(s) && s !in m && (forall t :: t in m ==> !Toggles(s, t))
    requires AddStep(root, mutable, s, h, root', ok)
    ensures ok && Holds(root', m[s := h])
  {
    NewStatic(root, mutable, s, h, root', ok, m);
    EmptyIsRoot();
    AddedExactly(root, mutable, s, h, root', m);
    EntriesAdd(m, s, h);
  }

  lemma {:induction false} AddedExactly(
    root: Trie, mutable: bool, s: string, h: Handler, root': Trie, m: map<string, Handler>)
    requires Holds(root, m) && StaticPath(s) && s !in m && IsRoot(root)
    requires AddStep(root, mutable, s, h, root', true)
    ensures Routes(root', []) == Routes(root, []) + multiset{(Lits(s), h)}
  {
    RouteOf(s);
    AddConserves(root, mutable, Lits(s), h, root', true);
    if Routes(root', []) != Routes(root, []) + multiset{(Lits(s), h)} {
      var was :| Exchanged(Routes(root, []), Routes(root', []), Lits(s), was, h);
      EntriesHas(m, s, was);
      assert false;
    }
  }

  // ----- re-registering -----------------------------------------------------------------------------

  lemma {:induction false} ReplaceSame(n: Trie, at: seq<nat>)
    requires NodeAt(n, at).Some?
    ensures Replace(n, at, NodeAt(n, at).value) == n
  {
    if at != [] {
      ReplaceSame(n.kids[at[0]], at[1..]);
      assert n.kids[at[0] := n.kids[at[0]]] == n.kids;
    }
  }

  lemma {:induction false} RootRefuses(root: Trie, s: string, h: Handler, was: Handler, stored: set<Pattern>)
    requires StaticNode(root) && Sorted(root) && root.path != "" && Covers(stored, root, []) && NoTwins(stored)
    requires (Lits(s), was) in Routes(root, [])
    ensures Refused(root, AddAtRoot(root, s, h))
  {
    UnderRoot(root, s, was);
    assert AddAtRoot(root, s, h) == Add(root, s[|root.path|..], h);
    AddAgain(root, s[|root.path|..], h, [], stored, was);
  }

  lemma {:induction false} UnderRoot(root: Trie, s: string, was: Handler)
    requires StaticNode(root) && (Lits(s), was) in Routes(root, [])
    ensures root.path <= s && ([] + TextOf(root) + Lits(s[|root.path|..]), was) in Routes(root, [])
  {
    var t := StaticRoute(root, [], (Lits(s), was));
    assert [] + Lits(t) == Lits(t) && [] + Lits(s) == Lits(s);
    LitsSame(s, t);
    TextBelow([], root, s, |root.path|);
  }

  lemma {:induction false} HoldsNoTwins(root: Trie, m: map<string, Handler>)
    requires Holds(root, m)
    ensures NoTwins(Stored(root)) && Lists(Stored(root), m)
  {
    var stored := Stored(root);
    StoredIs(root, m);
    forall p | p in stored
      ensures !Justified(stored, p, true)
    {
      var t :| t in m && p == Lits(t);
      if Justified(stored, p, true) { JustifiedHasTwin(stored, m, t); }
    }
  }

  lemma {:induction false} StoredTree(root: Trie, m: map<string, Handler>, s: string)
    requires Holds(root, m) && s in m
    ensures StaticTree(root) && (Lits(s), m[s]) in Routes(root, [])
  {
    EntriesHas(m, s, m[s]);
    EmptyIsRoot();
  }

  /** Registering a stored static path again: refused, or (mutable) its handler is replaced. */
  lemma {:induction false} AddStored(
    root: Trie, mutable: bool, s: string, h: Handler, root': Trie, ok: bool, m: map<string, Handler>)
    requires Holds(root, m) && StaticPath(s) && s in m && AddStep(root, mutable, s, h, root', ok)
    ensures ok == mutable && Holds(root', if ok then m[s := h] else m)
  {
    StoredTree(root, m, s);
    HoldsNoTwins(root, m);
    RootRefuses(root, s, h, m[s], Stored(root));
    if mutable {
      OverriddenTree(root, s, h, root');
      OverrideEntry(root, s, h, root', m);
    } else {
      RefusedTree(root, s, h);
    }
  }

  /** The tree of an override, and of a refusal. */
  lemma {:induction false} OverriddenTree(root: Trie, s: string, h: Handler, root': Trie)
    requires StaticTree(root) && StaticPath(s) && Refused(root, AddAtRoot(root, s, h))
      && AddStep(root, true, s, h, root', true)
    ensures StaticTree(root') && root' == Rewritten(AddAtRoot(root, s, h), h)
  {
    RouteOf(s);
    AddKeepsMarks(root, true, Lits(s), h, root');
    var r := AddAtRoot(root, s, h);
    assert root' == Rewritten(r, h);
    assert SameOutline(root, Rewritten(r, h));
    WellFormedIsSearchable(root');
  }

  lemma {:induction false} OverrideEntry(root: Trie, s: string, h: Handler, root': Trie, m: map<string, Handler>)
    requires Routes(root, []) == Entries(m) && IsRoot(root) && StaticPath(s) && s in m
    requires AddStep(root, true, s, h, root', true) && AddAtRoot(root, s, h).err.Some?
    ensures Routes(root', []) == Entries(m[s := h])
  {
    var r := AddAtRoot(root, s, h);
    RouteOf(s);
    AddAtRootGains(root, Lits(s), h);
    AddAtRootStands(root, Lits(s), h);
    AddAtRootBlames(root, Lits(s), h);
    var was := OverrideSwaps(r, h, Lits(s));
    EntriesHas(m, s, was);
    EntriesSet(m, s, h);
    SameAfter(Routes(root', []), Entries(m[s := h]), (Lits(s), was));
  }

  lemma {:induction false} SameAfter(a: multiset<Route>, b: multiset<Route>, r: Route)
    requires a + multiset{r} == b + multiset{r}
    ensures a == b
  {
    assert a == (a + multiset{r}) - multiset{r};
    assert b == (b + multiset{r}) - multiset{r};
  }

  lemma {:induction false} RefusedTree(root: Trie, s: string, h: Handler)
    requires StaticTree(root) && StaticPath(s) && Refused(root, AddAtRoot(root, s, h)) && Lits(s) in Stored(root)
    ensures var r := AddAtRoot(root, s, h); StaticTree(r.node) && Routes(r.node, []) == Routes(root, [])
  {
    var r := AddAtRoot(root, s, h);
    RouteOf(s);
    RefusalKeepsOutline(root, r);
    AddAtRootGains(root, Lits(s), h);
    AddAtRootStands(root, Lits(s), h);
    AddAtRootMarks(root, Lits(s), h, Stored(root));
    assert Stored(r.node) == Stored(root);
    WellFormedIsSearchable(r.node);
  }

  lemma {:induction false} RefusalKeepsOutline(n: Trie, r: Outcome)
    requires Refused(n, r)
    ensures SameOutline(n, r.node)
  {
    var was := NodeAt(r.node, r.at.value).value.handler.value;
    ReplaceSame(r.node, r.at.value);
    assert SameOutline(n, Rewritten(r, was));
  }

  // ----- runs -----------------------------------------------------------------------------------------

  datatype StaticCall = StaticCall(path: string, handler: Handler, ok: bool)

  /** A run of `Tree.Add` calls with static paths, no two of which differ by one trailing slash. */
  ghost predicate IsStaticRun(run: seq<StaticCall>, roots: seq<Trie>, mutable: bool) {
    && |roots| == |run| + 1 && roots[0] == EMPTY
    && (forall k :: 0 <= k < |run| ==>
          StaticPath(run[k].path) && AddStep(roots[k], mutable, run[k].path, run[k].handler, roots[k + 1], run[k].ok))
    && (forall i, j :: 0 <= i < |run| && 0 <= j < |run| ==> !Toggles(run[i].path, run[j].path))
  }

  /** The map the returning calls of a run describe. */
  function Described(run: seq<StaticCall>): (m: map<string, Handler>)
    ensures forall s :: s in m ==> exists k :: 0 <= k < |run| && run[k].path == s
  {
    if run == [] then map[]
    else
      var last, m := run[|run| - 1], Described(run[..|run| - 1]);
      assert forall s :: s in m ==> exists k :: 0 <= k < |run| - 1 && run[..|run| - 1][k].path == s && run[k].path == s;
      if last.ok then m[last.path := last.handler] else m
  }

  /** Which calls of the run return: new paths always, stored ones only in a mutable storage. */
  ghost predicate ReturnsAsMap(run: seq<StaticCall>, mutable: bool) {
    forall k :: 0 <= k < |run| ==> (run[k].ok <==> mutable || run[k].path !in Described(run[..k]))
  }

  lemma {:induction false} OneCall(root: Trie, mutable: bool, c: StaticCall, root': Trie, m: map<string, Handler>)
    requires Holds(root, m) && StaticPath(c.path) && (forall t :: t in m ==> !Toggles(c.path, t))
    requires AddStep(root, mutable, c.path, c.handler, root', c.ok)
    ensures Holds(root', if c.ok then m[c.path := c.handler] else m)
    ensures c.ok <==> mutable || c.path !in m
  {
    if c.path in m {
      AddStored(root, mutable, c.path, c.handler, root', c.ok, m);
    } else {
      AddNew(root, mutable, c.path, c.handler, root', c.ok, m);
    }
  }

  /** The call after a prefix of the run, given what the storage holds before it. */
  lemma {:induction false} CallAfter(run: seq<StaticCall>, roots: seq<Trie>, mutable: bool, n: nat)
    requires IsStaticRun(run, roots, mutable) && n < |run| && Holds(roots[n], Described(run[..n]))
    ensures Holds(roots[n + 1], Described(run[..n + 1]))
    ensures run[n].ok <==> mutable || run[n].path !in Described(run[..n])
  {
    var m := Described(run[..n]);
    assert forall t :: t in m ==> !Toggles(run[n].path, t);
    OneCall(roots[n], mutable, run[n], roots[n + 1], m);
    DescribedStep(run, n);
  }

  lemma {:induction false} DescribedStep(run: seq<StaticCall>, n: nat)
    requires n < |run|
    ensures Described(run[..n + 1]) ==
      (if run[n].ok then Described(run[..n])[run[n].path := run[n].handler] else Described(run[..n]))
  {
    assert run[..n + 1][..n] == run[..n];
  }

  lemma {:induction false} NothingHeld()
    ensures Holds(EMPTY, Described([]))
  {
    EmptyIsRoot();
  }

  lemma {:induction false} RunHolds(run: seq<StaticCall>, roots: seq<Trie>, mutable: bool, n: nat)
    requires IsStaticRun(run, roots, mutable) && n <= |run|
    ensures Holds(roots[n], Described(run[..n]))
  {
    if n == 0 {
      NothingHeld();
    } else {
      var k := n - 1;
      RunHolds(run, roots, mutable, k);
      CallAfter(run, roots, mutable, k);
      assert k + 1 == n;
    }
  }

  /** The storage answers like the map: a registered path with its handler, anything else with none. */
  lemma {:induction false} HoldsAnswers(root: Trie, m: map<string, Handler>, path: string)
    requires Holds(root, m) && Searchable(root)
    ensures Get(root, path).handler == if path in m then Some(m[path]) else None
  {
    if root == EMPTY {
      EmptyIsRoot();
      if path in m { EntriesHas(m, path, m[path]); }
    } else {
      if path in m {
        GetIsExact(root, path, m[path]);
        EntriesHas(m, path, m[path]);
      }
      if Get(root, path).handler.Some? {
        var h := Get(root, path).handler.value;
        GetIsExact(root, path, h);
        EntriesHas(m, path, h);
      }
    }
  }

  /**
   The storage refines a finite map: over every run of static routes without slash twins, the calls
   return exactly as for a map, and every lookup is answered from it.
   */
  lemma {:induction false} StorageIsMap(run: seq<StaticCall>, roots: seq<Trie>, mutable: bool, path: string)
    requires IsStaticRun(run, roots, mutable)
    ensures ReturnsAsMap(run, mutable) && Searchable(roots[|run|])
    ensures Get(roots[|run|], path).handler == if path in Described(run) then Some(Described(run)[path]) else None
  {
    forall k | 0 <= k < |run|
      ensures run[k].ok <==> mutable || run[k].path !in Described(run[..k])
    {
      RunHolds(run, roots, mutable, k);
      CallAfter(run, roots, mutable, k);
    }
    RunHolds(run, roots, mutable, |run|);
    assert run[..|run|] == run;
    EmptyIsRoot();
    WellFormedIsSearchable(roots[|run|]);
    HoldsAnswers(roots[|run|], Described(run), path);
  }
}
