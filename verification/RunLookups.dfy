/**
 What every storage answers, over whole runs of registrations: a literal route always with its own handler, a
 path that fits a registered pattern unless a dead end hides it, and a path differing from one by case or a final
 slash with a redirect.
 */
module RunLookups {
  import opened Text
  import opened WildPath
  import opened Pattern
  import opened Trie
  import opened Conservation
  import opened RouteTree
  import opened TrailingSlash
  import opened Lookup
  import opened Refusals
  import opened TidyTree
  import opened OneName
  import opened Markers
  import opened Answered
  import opened Precedence
  import opened DeadEnds
  import opened MostSpecific

  // ----- what runs keep ------------------------------------------------------------------------------------

  /** No two of the patterns differ by a final slash. */
  ghost predicate TwinFree(patterns: iset<Pattern>) {
    forall a, b :: a in patterns && b in patterns ==> b != a + SLASH
  }

  /** The patterns of the calls. */
  ghost function Called(run: seq<Call>): iset<Pattern> { iset k | 0 <= k < |run| :: run[k].pattern }

  lemma {:induction false} RunStaticFirst(
    run: seq<Call>, roots: seq<Trie>, mutable: bool, patterns: iset<Pattern>, n: nat)
    requires IsRun(run, roots, mutable) && Within(run, patterns) && Registrable(patterns) && n <= |run|
    ensures IsRoot(roots[n]) && StaticFirst(roots[n])
  {
    RunIsRoot(run, roots, mutable, n);
    if n > 0 {
      var k := n - 1;
      var c := run[k];
      RunStaticFirst(run, roots, mutable, patterns, k);
      assert AddStep(roots[k], mutable, Print(c.pattern), c.handler, roots[k + 1], c.ok);
      StepStaticFirst(roots[k], mutable, c.pattern, c.handler, roots[k + 1], c.ok);
    }
  }

  lemma {:induction false} NoTwinOf(patterns: iset<Pattern>, stored: set<Pattern>, ps: Pattern)
    requires TwinFree(patterns) && ps in patterns && forall p :: p in stored ==> p in patterns
    ensures Twinless(stored, ps)
  {
    if SlashEnd(ps) { assert ps == ps[..|ps| - 1] + SLASH; }
  }

  lemma {:induction false} RunHeld(
    run: seq<Call>, roots: seq<Trie>, mutable: bool, patterns: iset<Pattern>, n: nat)
    requires IsRun(run, roots, mutable) && Within(run, patterns) && TwinFree(patterns) && n <= |run|
    ensures IsRoot(roots[n]) && Held(roots[n])
  {
    RunIsRoot(run, roots, mutable, n);
    if n > 0 {
      var k := n - 1;
      var c, stored := run[k], Stored(roots[k]);
      RunHeld(run, roots, mutable, patterns, k);
      forall p | p in stored
        ensures p in patterns
      {
        StoredIsCalled(run, roots, mutable, k, p);
      }
      NoTwinOf(patterns, stored, c.pattern);
      assert AddStep(roots[k], mutable, Print(c.pattern), c.handler, roots[k + 1], c.ok);
      StepHeld(roots[k], mutable, c.pattern, c.handler, roots[k + 1], c.ok, stored);
    }
  }

  // ----- literal routes ------------------------------------------------------------------------------------

  /**
   Over every run of registrations, mutable or not, refused ones included, with patterns that name parameters
   consistently and do not differ by a final slash: a literal route is answered on its own path with the handler
   registered last for it, whatever parameter and wildcard routes there are.
   */
  lemma {:induction false} RunAnswersLiteral(
    run: seq<Call>, roots: seq<Trie>, mutable: bool, patterns: iset<Pattern>, k: nat, s: string)
    requires IsRun(run, roots, mutable) && Within(run, patterns)
    requires Registrable(patterns) && OneNamed(patterns) && TwinFree(patterns)
    requires k < |run| && Latest(run, k) && run[k].pattern == Lits(s)
    ensures Searchable(roots[|run|]) && Get(roots[|run|], s) == Found(Some(run[k].handler), false, [])
  {
    var root := roots[|run|];
    RunTidy(run, roots, mutable, patterns, |run|);
    RunStaticFirst(run, roots, mutable, patterns, |run|);
    RunHeld(run, roots, mutable, patterns, |run|);
    RunStoresLatest(run, roots, mutable, k);
    WellFormedIsSearchable(root);
    LiteralIsAnswered(root, s, run[k].handler);
  }

  /** Patterns of calls that return have their wildcard after a slash. */
  lemma {:induction false} ReturningIsRegistrable(run: seq<Call>, roots: seq<Trie>, mutable: bool)
    requires IsRun(run, roots, mutable) && AllReturn(run)
    ensures Within(run, Called(run)) && Registrable(Called(run))
  {
    forall k | 0 <= k < |run|
      ensures run[k].pattern in Called(run) && IsRoute(run[k].pattern) && Placed(run[k].pattern)
    {
      var c := run[k];
      RunIsRoot(run, roots, mutable, k);
      if !Placed(c.pattern) {
        MisplacedIsRefused(roots[k], mutable, c.pattern, c.handler, roots[k + 1], c.ok);
      }
    }
  }

  /** The same over every run of returning calls, whatever their wildcards. */
  lemma {:induction false} ReturningAnswersLiteral(
    run: seq<Call>, roots: seq<Trie>, mutable: bool, k: nat, s: string)
    requires IsRun(run, roots, mutable) && AllReturn(run) && OneNamed(Called(run)) && TwinFree(Called(run))
    requires k < |run| && Latest(run, k) && run[k].pattern == Lits(s)
    ensures Searchable(roots[|run|]) && Get(roots[|run|], s) == Found(Some(run[k].handler), false, [])
  {
    ReturningIsRegistrable(run, roots, mutable);
    RunAnswersLiteral(run, roots, mutable, Called(run), k, s);
  }

  // ----- parameter and wildcard routes ---------------------------------------------------------------------

  lemma {:induction false} ReturnedIsStored(run: seq<Call>, roots: seq<Trie>, mutable: bool, k: nat)
    requires IsRun(run, roots, mutable) && k < |run| && run[k].ok
    ensures IsRoot(roots[|run|]) && Searchable(roots[|run|])
    ensures run[k].pattern in Stored(roots[|run|]) && Good(run[k].pattern)
  {
    StoredIsCalled(run, roots, mutable, |run|, run[k].pattern);
    WellFormedIsSearchable(roots[|run|]);
  }

  /**
   Over every run, mutable or not, refused calls included: a path that fits the pattern of a call that returned,
   the last parameter not empty, is answered with a handler or a slash recommendation, unless a dead end hangs
   off the branch of the pattern.
   */
  lemma {:induction false} RunIsComplete(
    run: seq<Call>, roots: seq<Trie>, mutable: bool, k: nat, vals: seq<string>, path: string)
    requires IsRun(run, roots, mutable) && k < |run| && run[k].ok
    requires Fits(run[k].pattern, vals, path, false) && KeyFilled(run[k].pattern, vals)
    ensures Searchable(roots[|run|])
    ensures Settled(Get(roots[|run|], path)) || StuckAtRoot(roots[|run|], run[k].pattern, vals, path)
  {
    ReturnedIsStored(run, roots, mutable, k);
    GetIsComplete(roots[|run|], run[k].pattern, vals, path);
  }

  /**
   Over every run with patterns that name parameters consistently: a lookup that makes no slash recommendation
   finds a handler exactly when the path fits the pattern of a call that returned, with no dead end off its branch.
   */
  lemma {:induction false} RunAnswersIff(
    run: seq<Call>, roots: seq<Trie>, mutable: bool, patterns: iset<Pattern>, path: string)
    requires IsRun(run, roots, mutable) && Within(run, patterns) && Registrable(patterns) && OneNamed(patterns)
    requires Searchable(roots[|run|]) && !Get(roots[|run|], path).tsr
    ensures Get(roots[|run|], path).handler.Some? <==>
      exists k, vals :: 0 <= k < |run| && run[k].ok && Freely(roots[|run|], run[k].pattern, vals, path)
  {
    var root := roots[|run|];
    RunTidy(run, roots, mutable, patterns, |run|);
    RunStaticFirst(run, roots, mutable, patterns, |run|);
    forall ps | ps in Stored(root)
      ensures Good(ps) && exists k :: 0 <= k < |run| && run[k].ok && run[k].pattern == ps
    {
      StoredIsCalled(run, roots, mutable, |run|, ps);
    }
    AnsweredIffFree(root, path);
    if FreelyServed(root, path) {
      var ps, vals :| ps in Stored(root) && Fits(ps, vals, path, false) && KeyFilled(ps, vals)
        && !StuckAtRoot(root, ps, vals, path);
      var k :| 0 <= k < |run| && run[k].ok && run[k].pattern == ps;
      assert Freely(root, run[k].pattern, vals, path);
    }
    if k, vals :| 0 <= k < |run| && run[k].ok && Freely(root, run[k].pattern, vals, path) {
      ReturnedIsStored(run, roots, mutable, k);
    }
  }

  /** The path fits, and no dead end hangs off the branch. */
  predicate Freely(root: Trie, ps: Pattern, vals: seq<string>, path: string) {
    Fits(ps, vals, path, false) && KeyFilled(ps, vals) && !StuckAtRoot(root, ps, vals, path)
  }

  /** The call answers the path, and no other call free to answer it has a more specific pattern. */
  ghost predicate AnsweredByCall(run: seq<Call>, root: Trie, path: string, k: nat, h: Handler) {
    && k < |run| && run[k] == Call(run[k].pattern, h, true) && (exists vals :: Fits(run[k].pattern, vals, path, false))
    && forall j, ws :: 0 <= j < |run| && run[j].ok && Freely(root, run[j].pattern, ws, path) ==>
         !Outranks(run[j].pattern, run[k].pattern)
  }

  /**
   Over every run with patterns that name parameters consistently: the handler of a lookup was registered by a call
   whose pattern fits, and no call whose pattern fits with no dead end off its branch has a more specific one.
   */
  lemma {:induction false} RunAnswersBest(
    run: seq<Call>, roots: seq<Trie>, mutable: bool, patterns: iset<Pattern>, path: string) returns (k: nat)
    requires IsRun(run, roots, mutable) && Within(run, patterns) && Registrable(patterns) && OneNamed(patterns)
    requires Searchable(roots[|run|]) && Get(roots[|run|], path).handler.Some?
    ensures AnsweredByCall(run, roots[|run|], path, k, Get(roots[|run|], path).handler.value)
  {
    var root := roots[|run|];
    RunTidy(run, roots, mutable, patterns, |run|);
    RunStaticFirst(run, roots, mutable, patterns, |run|);
    RunConserves(run, roots, mutable);
    var ps := AnswerIsBest(root, path);
    k := AcceptedIsCalled(run, (ps, Get(root, path).handler.value));
    forall j, ws | 0 <= j < |run| && run[j].ok && Freely(root, run[j].pattern, ws, path)
      ensures !Outranks(run[j].pattern, ps)
    {
      ReturnedIsStored(run, roots, mutable, j);
      assert FreeAtRoot(root, run[j].pattern, ws, path);
    }
  }

  /**
   Over every run, mutable or not, refused calls included: a path that fits the pattern of a call that returned up
   to case, the last parameter or wildcard not empty, is found by the case-insensitive search.
   */
  lemma {:induction false} RunFindIsComplete(
    run: seq<Call>, roots: seq<Trie>, mutable: bool, k: nat, vals: seq<string>, path: string)
    requires IsRun(run, roots, mutable) && k < |run| && run[k].ok
    requires Fits(run[k].pattern, vals, path, true) && Filled(run[k].pattern, vals)
    ensures Searchable(roots[|run|]) && Find(roots[|run|], path).Fixed?
  {
    ReturnedIsStored(run, roots, mutable, k);
    FindIsComplete(roots[|run|], run[k].pattern, vals, path);
  }

  // ----- paths with a slash too many -----------------------------------------------------------------------

  /** Neither a wildcard nor a slash at the end: such a route sits at a handler. */
  predicate EndsPlainly(ps: Pattern) { ps != [] ==> !ps[|ps| - 1].Rest? && !SlashEnd(ps) }

  /** Where a handler is held, a slash more leads to a mark. */
  lemma {:induction false} SlashLeads(n: Trie, ps: Pattern, pre: Pattern, h: Handler)
    requires WellFormed(n) && Held(n) && (pre + TextOf(n) + ps, h) in Routes(n, pre)
    requires EndsPlainly(ps) && (ps == [] ==> n.path != "/")
    ensures Leads(n, ps + SLASH)
    decreases n, 1
  {
    var full := pre + TextOf(n);
    if (full + ps, h) in Own(n, full) {
      OwnIsHandler(n, ps, full, h);
      SlashLeadsHere(n);
      assert [] + SLASH == SLASH;
    } else {
      var k := RoutesOfWitness(n.kids, full, (full + ps, h));
      SlashLeadsBelow(n, k, ps, full, h);
    }
  }

  lemma {:induction false} SlashLeadsBelow(n: Trie, k: nat, ps: Pattern, full: Pattern, h: Handler)
    requires WellFormed(n) && Held(n) && k < |n.kids| && (full + ps, h) in Routes(n.kids[k], full)
    requires EndsPlainly(ps)
    ensures Leads(n, ps + SLASH)
    decreases n, 0
  {
    var c := n.kids[k];
    KidIsWellFormed(n, k);
    TextBefore(c, full, ps, h);
    var rest := ps[|TextOf(c)|..];
    PlainRest(c, ps, rest);
    SlashLeads(c, rest, full, h);
    SlashLeadsVia(n, k, ps, rest);
  }

  lemma {:induction false} PlainRest(c: Trie, ps: Pattern, rest: Pattern)
    requires TextOf(c) + rest == ps && EndsPlainly(ps) && WellFormed(c) && TextOf(c) != []
    ensures EndsPlainly(rest) && (rest == [] ==> c.path != "/")
  {
    if rest != [] { assert rest[|rest| - 1] == ps[|ps| - 1]; }
    assert c.path == "/" ==> TextOf(c) == SLASH;
  }

  lemma {:induction false} SlashLeadsVia(n: Trie, k: nat, ps: Pattern, rest: Pattern)
    requires k < |n.kids| && TextOf(n.kids[k]) + rest == ps && Leads(n.kids[k], rest + SLASH)
    ensures Leads(n, ps + SLASH)
  {
    assert (ps + SLASH)[|TextOf(n.kids[k])|..] == rest + SLASH;
    assert TextOf(n.kids[k]) <= ps + SLASH;
    LeadsBelow(n, k, ps + SLASH);
  }

  lemma {:induction false} OwnIsHandler(n: Trie, ps: Pattern, full: Pattern, h: Handler)
    requires (full + ps, h) in Own(n, full) && EndsPlainly(ps)
    ensures ps == [] && n.handler == Some(h)
  {
    assert (full + ps)[|full|..] == ps && full[|full|..] == [];
    if n.wildcard.Some? {
      var wild := [Rest(n.wildcard.value.key)];
      assert (full + wild)[|full|..] == wild;
    }
  }

  lemma {:induction false} SlashLeadsHere(n: Trie)
    requires WellFormed(n) && Held(n) && n.handler.Some? && n.path != "/"
    ensures Leads(n, SLASH)
  {
    var k :| 0 <= k < |n.kids| && n.kids[k].path == "/" && n.kids[k].tsr;
    KidIsWellFormed(n, k);
    assert TextOf(n.kids[k]) == SLASH && SLASH[1..] == [];
    LeadsBelow(n, k, SLASH);
  }

  lemma {:induction false} GoodSlash(ps: Pattern)
    requires Good(ps) && (ps != [] ==> !ps[|ps| - 1].Rest?)
    ensures Good(ps + SLASH)
  {
    if ps == [] {
      assert ps + SLASH == SLASH;
    } else {
      assert (ps + SLASH)[1..] == ps[1..] + SLASH;
      assert ps[1..] != [] ==> ps[1..][|ps| - 2] == ps[|ps| - 1];
      GoodSlash(ps[1..]);
    }
  }

  /**
   Over every run with patterns that do not differ by a final slash: a path that fits the pattern of a call that
   returned is, with a slash more, answered with a handler or a slash recommendation too, unless a dead end hangs
   off the branch.
   */
  lemma {:induction false} RunDropsSlash(
    run: seq<Call>, roots: seq<Trie>, mutable: bool, patterns: iset<Pattern>, k: nat, vals: seq<string>,
    path: string)
    requires IsRun(run, roots, mutable) && Within(run, patterns) && TwinFree(patterns) && k < |run| && run[k].ok
    requires Fits(run[k].pattern, vals, path, false)
    requires EndsPlainly(run[k].pattern)
    ensures Searchable(roots[|run|])
    ensures Settled(Get(roots[|run|], path + "/"))
      || StuckAtRoot(roots[|run|], run[k].pattern + SLASH, vals, path + "/")
  {
    var root, ps := roots[|run|], run[k].pattern;
    ReturnedIsStored(run, roots, mutable, k);
    RunHeld(run, roots, mutable, patterns, |run|);
    SlashLeadsAtRoot(root, ps);
    GoodSlash(ps);
    FitsLits("/", "/", false);
    assert Lits("/") == SLASH && vals + [] == vals;
    FitsConcat(ps, vals, path, SLASH, [], "/", false);
    GetLedTo(root, ps + SLASH, vals, path + "/");
  }

  /** A stored route seen from behind the text of the root. */
  lemma {:induction false} StoredBelow(root: Trie, ps: Pattern) returns (h: Handler)
    requires WellFormed(root) && ps in Stored(root)
    ensures TextOf(root) <= ps && ([] + TextOf(root) + ps[|TextOf(root)|..], h) in Routes(root, [])
  {
    var r :| r in Routes(root, []) && r.0 == ps;
    h := r.1;
    assert [] + ps == ps;
    TextBefore(root, [], ps, h);
  }

  lemma {:induction false} SlashLeadsAtRoot(root: Trie, ps: Pattern)
    requires WellFormed(root) && root.kind == Root && Held(root) && ps in Stored(root) && ps != [] && EndsPlainly(ps)
    ensures LeadsVia(root, ps + SLASH)
  {
    var h := StoredBelow(root, ps);
    var text, rest := TextOf(root), ps[|TextOf(root)|..];
    RootRest(root, ps, rest);
    SlashLeads(root, rest, [], h);
    assert text <= ps + SLASH && (ps + SLASH)[|text|..] == rest + SLASH;
  }

  lemma {:induction false} RootRest(root: Trie, ps: Pattern, rest: Pattern)
    requires root.kind == Root && TextOf(root) + rest == ps && EndsPlainly(ps) && ps != []
    ensures EndsPlainly(rest) && (rest == [] ==> root.path != "/")
  {
    if rest != [] { assert rest[|rest| - 1] == ps[|ps| - 1]; }
    assert root.path == "/" ==> TextOf(root) == SLASH;
  }
}
