/**
 From `Handle` calls to answers. The tree of each method goes through a run of additions, those its `Handle` calls
 make in their order, so what holds over runs of a tree holds for the router: a literal path is served with the
 handler registered last for it.
 */
module EndToEnd {
  import opened Text
  import opened Pattern
  import opened Trie
  import opened RouteTree
  import opened OptionalPaths
  import opened RouteTable
  import opened HandleRoutes
  import opened Dispatch
  import TidyTree
  import OneName
  import RunLookups
  import Answered
  import Lookup
  import StaticRoutes

  // ----- the additions of one method -----------------------------------------------------------------------

  /** The paths a registration adds. */
  function PathsOf(op: Op): seq<string> {
    if op.Register? then match AddedPaths(op.path) case None => [] case Some(ps) => ps else []
  }

  /** A registration of a pattern of segments whose paths are all supported routes. */
  ghost predicate Shown(op: Op) { op.Register? && exists segs :: ShownBy(op.path, segs) }

  ghost predicate ShownBy(path: string, segs: seq<Segment>) {
    segs != [] && GoodSegments(segs) && AllRoutes(segs) && path == Show(segs, true)
  }

  ghost predicate AllShown(ops: seq<Op>) { forall i :: 0 <= i < |ops| ==> Shown(ops[i]) }

  lemma {:induction false} ShownPaths(op: Op)
    requires Shown(op)
    ensures AddedPaths(op.path) == Some(PathsOf(op)) && RoutePaths(PathsOf(op)) && op.path != "" && op.path[0] == '/'
  {
    var segs :| ShownBy(op.path, segs);
    var paths := ListIsOfAll(segs);
  }

  /** The call is one the registration makes. */
  ghost predicate MadeBy(op: Op, verb: string, c: Call) {
    op.Register? && op.verb == verb && Good(c.pattern) && Print(c.pattern) in PathsOf(op) && c.handler == op.handler
  }

  /** The calls come from the first `n` registrations, in their order, each pattern at most once from each. */
  ghost predicate InTurn(ops: seq<Op>, verb: string, n: nat, run: seq<Call>, src: seq<nat>) {
    && |src| == |run| && n <= |ops|
    && (forall k :: 0 <= k < |run| ==> src[k] < n && MadeBy(ops[src[k]], verb, run[k]))
    && forall j, k :: 0 <= j < k < |run| ==> src[j] < src[k] || (src[j] == src[k] && run[j].pattern != run[k].pattern)
  }

  /** What a registration that returned adds is among them. */
  ghost predicate Complete(ops: seq<Op>, verb: string, n: nat, run: seq<Call>, src: seq<nat>) {
    forall i, p :: 0 <= i < n <= |ops| && Returned(ops[i], verb, p) ==> HasCall(ops[i], i, p, run, src)
  }

  predicate Returned(op: Op, verb: string, p: string) { op.Register? && op.verb == verb && op.ok && p in PathsOf(op) }

  ghost predicate HasCall(op: Op, i: nat, p: string, run: seq<Call>, src: seq<nat>) {
    op.Register? && |src| == |run| && exists k :: 0 <= k < |run| && src[k] == i && IsCall(run[k], op.handler, p)
  }

  predicate IsCall(c: Call, h: Handler, p: string) { c.handler == h && c.ok && Print(c.pattern) == p }

  /** The calls that add these paths, up to the first refused. */
  predicate CallsFor(more: seq<Call>, paths: seq<string>, h: Handler, ok: bool) {
    && |more| <= |paths| && (ok ==> |more| == |paths|)
    && forall k :: 0 <= k < |more| ==>
         Good(more[k].pattern) && Print(more[k].pattern) == paths[k] && more[k].handler == h && (ok ==> more[k].ok)
  }

  lemma {:induction false} OneMoreFor(c: Call, rest: seq<Call>, paths: seq<string>, h: Handler, ok: bool)
    requires paths != [] && Good(c.pattern) && Print(c.pattern) == paths[0] && c.handler == h && c.ok
    requires CallsFor(rest, paths[1..], h, ok)
    ensures CallsFor([c] + rest, paths, h, ok)
  {
    var more := [c] + rest;
    forall k | 0 <= k < |more|
      ensures Good(more[k].pattern) && Print(more[k].pattern) == paths[k] && more[k].handler == h && (ok ==> more[k].ok)
    {
      if k > 0 { assert more[k] == rest[k - 1] && paths[k] == paths[1..][k - 1]; }
    }
  }

  lemma {:induction false} FirstCall(root: Trie, paths: seq<string>, h: Handler, root': Trie, ok: bool)
    returns (c: Call, mid: Trie)
    requires RoutePaths(paths) && paths != [] && AddsAll(root, false, paths, h, root', ok)
    ensures IsRoute(c.pattern) && Print(c.pattern) == paths[0] && c.handler == h && RoutePaths(paths[1..])
    ensures AddStep(root, false, Print(c.pattern), h, mid, c.ok)
    ensures if c.ok then AddsAll(mid, false, paths[1..], h, root', ok) else !ok && root' == mid
  {
    var added;
    mid, added :| AddsFirst(root, false, paths, h, mid, added, root', ok);
    RestArePaths(paths);
    var ps :| IsRoute(ps) && paths[0] == Print(ps);
    c := Call(ps, h, added);
  }

  /** The run ends with this tree. */
  ghost predicate RunsTo(run: seq<Call>, roots: seq<Trie>, root: Trie) {
    RouteTree.IsRun(run, roots, false) && roots[|run|] == root
  }

  /** Adding a list of paths to the tree of a run. */
  lemma {:induction false} AddsAllRuns(
    run: seq<Call>, roots: seq<Trie>, root: Trie, paths: seq<string>, h: Handler, root': Trie, ok: bool)
    returns (more: seq<Call>, roots': seq<Trie>)
    requires RunsTo(run, roots, root) && RoutePaths(paths) && AddsAll(root, false, paths, h, root', ok)
    ensures RunsTo(run + more, roots', root') && CallsFor(more, paths, h, ok)
    decreases |paths|
  {
    if paths == [] {
      more, roots' := [], roots;
      assert run + [] == run;
    } else {
      var c, mid := FirstCall(root, paths, h, root', ok);
      OneCallLonger(run, roots, root, c, mid);
      if c.ok {
        more, roots' := CallThenOthers(run, roots + [mid], mid, c, paths, h, root', ok);
      } else {
        more, roots' := [c], roots + [mid];
      }
    }
  }

  lemma {:induction false} CallThenOthers(
    run: seq<Call>, roots: seq<Trie>, mid: Trie, c: Call, paths: seq<string>, h: Handler, root': Trie, ok: bool)
    returns (more: seq<Call>, roots': seq<Trie>)
    requires RunsTo(run + [c], roots, mid) && paths != [] && RoutePaths(paths[1..])
    requires AddsAll(mid, false, paths[1..], h, root', ok)
    requires Good(c.pattern) && Print(c.pattern) == paths[0] && c.handler == h && c.ok
    ensures RunsTo(run + more, roots', root') && CallsFor(more, paths, h, ok)
    decreases |paths|, 0
  {
    var rest, trees := AddsAllRuns(run + [c], roots, mid, paths[1..], h, root', ok);
    more, roots' := [c] + rest, trees;
    OneMoreFor(c, rest, paths, h, ok);
    Regrouped(run, c, rest);
  }

  lemma {:induction false} Regrouped(run: seq<Call>, c: Call, rest: seq<Call>)
    ensures run + ([c] + rest) == run + [c] + rest
  {
  }

  lemma {:induction false} OneCallLonger(run: seq<Call>, roots: seq<Trie>, root: Trie, c: Call, mid: Trie)
    requires RunsTo(run, roots, root) && IsRoute(c.pattern)
    requires AddStep(root, false, Print(c.pattern), c.handler, mid, c.ok)
    ensures RunsTo(run + [c], roots + [mid], mid)
  {
    forall k | 0 <= k < |run| + 1
      ensures IsRoute((run + [c])[k].pattern) && IsStep((roots + [mid])[k], (run + [c])[k], (roots + [mid])[k + 1])
    {
      StepOfLonger(run, roots, root, c, mid, k);
    }
    LongerIsRun(run + [c], roots + [mid]);
  }

  ghost predicate IsStep(root: Trie, c: Call, mid: Trie) {
    AddStep(root, false, Print(c.pattern), c.handler, mid, c.ok)
  }

  lemma {:induction false} LongerIsRun(run: seq<Call>, roots: seq<Trie>)
    requires |roots| == |run| + 1 && roots[0] == EMPTY
    requires forall k :: 0 <= k < |run| ==> IsRoute(run[k].pattern) && IsStep(roots[k], run[k], roots[k + 1])
    ensures RouteTree.IsRun(run, roots, false)
  {
  }

  lemma {:induction false} StepOfLonger(run: seq<Call>, roots: seq<Trie>, root: Trie, c: Call, mid: Trie, k: nat)
    requires RunsTo(run, roots, root) && IsRoute(c.pattern) && IsStep(root, c, mid) && k <= |run|
    ensures IsRoute((run + [c])[k].pattern) && IsStep((roots + [mid])[k], (run + [c])[k], (roots + [mid])[k + 1])
  {
    if k < |run| {
      assert (run + [c])[k] == run[k] && (roots + [mid])[k] == roots[k] && (roots + [mid])[k + 1] == roots[k + 1];
    } else {
      assert (run + [c])[k] == c && (roots + [mid])[k] == root && (roots + [mid])[k + 1] == mid;
    }
  }

  // ----- the runs of a history -----------------------------------------------------------------------------

  ghost predicate Follows(
    ops: seq<Op>, t: Table, verb: string, n: nat, run: seq<Call>, roots: seq<Trie>, src: seq<nat>)
  {
    RunsTo(run, roots, TreeOrEmpty(t, verb)) && InTurn(ops, verb, n, run, src) && Complete(ops, verb, n, run, src)
  }

  ghost function TreeOrEmpty(t: Table, verb: string): Trie {
    match TreeOf(t, verb) case None => EMPTY case Some(root) => root
  }

  ghost predicate AddsPaths(t: Table, op: Op, t': Table)
    requires op.Register?
  {
    AddsAll(TreeOrEmpty(t, op.verb), false, PathsOf(op), op.handler, TreeOrEmpty(t', op.verb), op.ok)
  }

  /** What a registration does to the tree of a method: nothing, or the additions of its paths. */
  lemma {:induction false} StepAdds(t: Table, op: Op, t': Table, verb: string)
    requires GoodTable(t) && !t.mutable && Shown(op) && OpStep(t, op, t')
    ensures GoodTable(t') && !t'.mutable
    ensures op.verb != verb || AddsPaths(t, op, t') || (!op.ok && TreeOrEmpty(t', verb) == TreeOrEmpty(t, verb))
    ensures op.verb != verb ==> TreeOrEmpty(t', verb) == TreeOrEmpty(t, verb)
  {
    ShownPaths(op);
    HandleKeepsTable(t, op.verb, op.path, op.handler, t', op.ok);
    if Acceptable(op.verb, op.path) { PathsAreAdded(t, op, t'); }
  }

  lemma {:induction false} PathsAreAdded(t: Table, op: Op, t': Table)
    requires GoodTable(t) && !t.mutable && op.Register? && OpStep(t, op, t') && Acceptable(op.verb, op.path)
    requires AddedPaths(op.path) == Some(PathsOf(op))
    ensures AddsPaths(t, op, t') && !t'.mutable
  {
    var r := Prepared(t, op.verb, op.path);
    PreparedPlaces(t, op.verb, op.path);
    PreparedMethods(t, op.verb, op.path);
    var root' := StepStores(t, op.verb, op.path, PathsOf(op), op.handler, t', op.ok);
    StoredRoutes(r, op.verb, PathsOf(op), op.handler, root', t', op.ok);
    PreparedTree(t, op.verb, op.path);
  }

  lemma {:induction false} PreparedTree(t: Table, verb: string, path: string)
    requires GoodTable(t)
    ensures TreeOrEmpty(Prepared(t, verb, path), verb) == TreeOrEmpty(t, verb)
  {
  }

  /** The calls a registration adds come after those before it. */
  lemma {:induction false} StillInTurn(
    ops: seq<Op>, verb: string, n: nat, run: seq<Call>, src: seq<nat>, more: seq<Call>)
    requires n < |ops| && InTurn(ops, verb, n, run, src) && ops[n].Register? && ops[n].verb == verb
    requires CallsFor(more, PathsOf(ops[n]), ops[n].handler, ops[n].ok) && Lengthening(PathsOf(ops[n]))
    ensures InTurn(ops, verb, n + 1, run + more, src + seq(|more|, i => n))
  {
    var calls, from := run + more, src + seq(|more|, i => n);
    forall k | 0 <= k < |calls|
      ensures from[k] < n + 1 && MadeBy(ops[from[k]], verb, calls[k])
    {
      if k < |run| {
        assert calls[k] == run[k] && from[k] == src[k];
      } else {
        assert calls[k] == more[k - |run|] && from[k] == n;
      }
    }
    forall j, k | 0 <= j < k < |calls|
      ensures from[j] < from[k] || (from[j] == from[k] && calls[j].pattern != calls[k].pattern)
    {
      if k < |run| {
        assert calls[j] == run[j] && calls[k] == run[k] && from[j] == src[j] && from[k] == src[k];
      } else if j >= |run| {
        assert calls[j] == more[j - |run|] && calls[k] == more[k - |run|];
        assert |PathsOf(ops[n])[j - |run|]| < |PathsOf(ops[n])[k - |run|]|;
      }
    }
  }

  lemma {:induction false} StillComplete(
    ops: seq<Op>, verb: string, n: nat, run: seq<Call>, src: seq<nat>, more: seq<Call>)
    requires n < |ops| && |src| == |run| && Complete(ops, verb, n, run, src) && ops[n].Register? && ops[n].verb == verb
    requires CallsFor(more, PathsOf(ops[n]), ops[n].handler, ops[n].ok)
    ensures Complete(ops, verb, n + 1, run + more, src + seq(|more|, i => n))
  {
    var calls, from := run + more, src + seq(|more|, i => n);
    forall i, p | 0 <= i < n + 1 && Returned(ops[i], verb, p)
      ensures HasCall(ops[i], i, p, calls, from)
    {
      if i < n {
        assert HasCall(ops[i], i, p, run, src);
        var k :| 0 <= k < |run| && src[k] == i && IsCall(run[k], ops[i].handler, p);
        assert calls[k] == run[k] && from[k] == src[k];
      } else {
        var k :| 0 <= k < |PathsOf(ops[n])| && PathsOf(ops[n])[k] == p;
        assert calls[|run| + k] == more[k] && from[|run| + k] == n;
        assert IsCall(calls[|run| + k], ops[n].handler, p);
      }
    }
  }

  /** A registration that adds nothing. */
  lemma {:induction false} NothingAdded(ops: seq<Op>, verb: string, n: nat, run: seq<Call>, src: seq<nat>)
    requires n < |ops| && InTurn(ops, verb, n, run, src) && Complete(ops, verb, n, run, src)
    requires forall p :: !Returned(ops[n], verb, p)
    ensures InTurn(ops, verb, n + 1, run, src) && Complete(ops, verb, n + 1, run, src)
  {
  }

  lemma {:induction false} OneOpFurther(
    ops: seq<Op>, t: Table, t': Table, verb: string, n: nat, run: seq<Call>, roots: seq<Trie>, src: seq<nat>)
    returns (run': seq<Call>, roots': seq<Trie>, src': seq<nat>)
    requires n < |ops| && Shown(ops[n]) && GoodTable(t) && !t.mutable && OpStep(t, ops[n], t')
    requires Follows(ops, t, verb, n, run, roots, src)
    ensures GoodTable(t') && !t'.mutable && Follows(ops, t', verb, n + 1, run', roots', src')
  {
    var op := ops[n];
    StepAdds(t, op, t', verb);
    run', roots', src' := run, roots, src;
    if op.verb == verb && AddsPaths(t, op, t') {
      ShownPaths(op);
      var more, trees := AddsAllRuns(
        run, roots, TreeOrEmpty(t, verb), PathsOf(op), op.handler, TreeOrEmpty(t', verb), op.ok);
      StillInTurn(ops, verb, n, run, src, more);
      StillComplete(ops, verb, n, run, src, more);
      run', roots', src' := run + more, trees, src + seq(|more|, i => n);
    } else {
      NothingAdded(ops, verb, n, run, src);
    }
  }

  /** The tree of a method is that of a run of additions. */
  ghost predicate HasRun(ops: seq<Op>, t: Table, verb: string, n: nat) {
    GoodTable(t) && !t.mutable && exists run, roots, src :: Follows(ops, t, verb, n, run, roots, src)
  }

  lemma {:induction false} StillHasRun(ops: seq<Op>, tables: seq<Table>, verb: string, n: nat)
    requires RouteTable.IsRun(ops, tables) && n < |ops| && AllShown(ops) && HasRun(ops, tables[n], verb, n)
    ensures HasRun(ops, tables[n + 1], verb, n + 1)
  {
    var t := tables[n];
    var run: seq<Call>, roots: seq<Trie>, src: seq<nat> :| Follows(ops, t, verb, n, run, roots, src);
    HistoryStep(ops, tables, n);
    run, roots, src := OneOpFurther(ops, t, tables[n + 1], verb, n, run, roots, src);
  }

  /** In every history of registrations, the tree of a method is that of a run of additions. */
  lemma {:induction false} TreeFollows(ops: seq<Op>, tables: seq<Table>, verb: string, n: nat)
    requires RouteTable.IsRun(ops, tables) && AllShown(ops) && n <= |ops|
    ensures HasRun(ops, tables[n], verb, n)
  {
    if n == 0 {
      NothingHasRun(ops, verb);
    } else {
      var k := n - 1;
      TreeFollows(ops, tables, verb, k);
      StillHasRun(ops, tables, verb, k);
    }
  }

  lemma {:induction false} NothingHasRun(ops: seq<Op>, verb: string)
    ensures HasRun(ops, NEW, verb, 0)
  {
    NewIsGood();
    assert Follows(ops, NEW, verb, 0, [], [EMPTY], []);
  }

  lemma {:induction false} HistoryStep(ops: seq<Op>, tables: seq<Table>, k: nat)
    requires RouteTable.IsRun(ops, tables) && k < |ops| && AllShown(ops)
    ensures OpStep(tables[k], ops[k], tables[k + 1]) && Shown(ops[k])
  {
  }

  // ----- answers -------------------------------------------------------------------------------------------

  /** The patterns registered under a method, expanded. */
  ghost function InUse(ops: seq<Op>, verb: string): iset<Pattern> {
    iset ps | Good(ps) && exists i :: 0 <= i < |ops| && NamedBy(ops[i], verb, Print(ps))
  }

  predicate NamedBy(op: Op, verb: string, p: string) { op.Register? && op.verb == verb && p in PathsOf(op) }

  lemma {:induction false} WithinUse(ops: seq<Op>, verb: string, run: seq<Call>, src: seq<nat>)
    requires InTurn(ops, verb, |ops|, run, src)
    ensures OneName.Within(run, InUse(ops, verb))
  {
    forall k | 0 <= k < |run|
      ensures run[k].pattern in InUse(ops, verb)
    {
      assert MadeBy(ops[src[k]], verb, run[k]) && NamedBy(ops[src[k]], verb, Print(run[k].pattern));
    }
  }

  /** The registration is the last of its method that names the path. */
  predicate LastNaming(ops: seq<Op>, i: nat, verb: string, p: string) {
    i < |ops| && Returned(ops[i], verb, p) && forall j :: i < j < |ops| ==> !NamedBy(ops[j], verb, p)
  }

  lemma {:induction false} LastIsLatest(
    ops: seq<Op>, verb: string, run: seq<Call>, src: seq<nat>, i: nat, p: string) returns (k: nat)
    requires InTurn(ops, verb, |ops|, run, src) && Complete(ops, verb, |ops|, run, src) && LastNaming(ops, i, verb, p)
    ensures k < |run| && Latest(run, k) && IsCall(run[k], ops[i].handler, p) && Good(run[k].pattern)
  {
    assert HasCall(ops[i], i, p, run, src);
    k :| 0 <= k < |run| && src[k] == i && IsCall(run[k], ops[i].handler, p);
    assert MadeBy(ops[src[k]], verb, run[k]);
    forall j | k < j < |run| && run[j].ok
      ensures run[j].pattern != run[k].pattern
    {
      assert MadeBy(ops[src[j]], verb, run[j]);
      assert src[k] < src[j] ==> !NamedBy(ops[src[j]], verb, p);
    }
  }

  lemma {:induction false} FoundIsServed(t: Table, req: Request, opts: Options, h: Handler)
    requires GoodTable(t) && Searchable(TreeOrEmpty(t, req.verb))
    requires Get(TreeOrEmpty(t, req.verb), req.path) == Found(Some(h), false, [])
    ensures AllSearchable(t)
    ensures Handled(t, req, opts) == if req.verb == "QUERY" && req.badContent then InvalidQuery else Served(h)
  {
    GoodIsSearchable(t);
    assert TreeOf(t, req.verb).Some?;
  }

  /**
   After every history of `Handle` calls, panicking ones included, whose patterns name parameters consistently under
   the method and do not differ there by a final slash: a request for a literal path is served with the handler of the
   last call that names the path, whatever else is registered under this or any other method.
   */
  lemma {:induction false} LiteralIsServed(
    ops: seq<Op>, tables: seq<Table>, i: nat, req: Request, opts: Options)
    requires RouteTable.IsRun(ops, tables) && AllShown(ops)
    requires '{' !in req.path && LastNaming(ops, i, req.verb, req.path)
    requires var used := InUse(ops, req.verb);
      OneName.Registrable(used) && TidyTree.OneNamed(used) && RunLookups.TwinFree(used)
    ensures AllSearchable(tables[|ops|])
    ensures Handled(tables[|ops|], req, opts) ==
      if req.verb == "QUERY" && req.badContent then InvalidQuery else Served(ops[i].handler)
  {
    var verb, s, n := req.verb, req.path, |ops|;
    TreeFollows(ops, tables, verb, n);
    var run: seq<Call>, roots: seq<Trie>, src: seq<nat> :| Follows(ops, tables[n], verb, n, run, roots, src);
    WithinUse(ops, verb, run, src);
    var k := LastIsLatest(ops, verb, run, src, i, s);
    LiteralPattern(run[k].pattern, s);
    RunLookups.RunAnswersLiteral(run, roots, false, InUse(ops, verb), k, s);
    FoundIsServed(tables[n], req, opts, ops[i].handler);
  }

  lemma {:induction false} LiteralPattern(ps: Pattern, s: string)
    requires Good(ps) && Print(ps) == s && '{' !in s
    ensures ps == Lits(s)
  {
    StaticRoutes.GoodLits(s);
    PrintInjective(ps, Lits(s));
  }

  lemma {:induction false} SettledIsAnswered(t: Table, req: Request, opts: Options)
    requires GoodTable(t) && Searchable(TreeOrEmpty(t, req.verb))
    ensures AllSearchable(t)
    ensures var g := Get(TreeOrEmpty(t, req.verb), req.path);
      && (g.handler.Some? ==> Final(Handled(t, req, opts)))
      && (g.tsr && req.verb != "CONNECT" && req.path != "/" && opts.redirect.redirectTrailingSlash ==>
            Handled(t, req, opts) == Redirected(if req.verb == "GET" then 301 else 308, Lookup.Toggled(req.path)))
  {
    GoodIsSearchable(t);
    if TreeOf(t, req.verb) == None {
      assert Get(EMPTY, req.path) == MISS;
    } else if req.path != "" {
      TsrIsBare(TreeOf(t, req.verb).value, req.path);
    }
  }

  lemma {:induction false} TsrIsBare(root: Trie, path: string)
    requires Searchable(root)
    ensures Get(root, path).tsr ==> Get(root, path).handler == None
  {
    if root.path < path { NoStrayWrites(root, 0, path[|root.path|..]); }
  }

  /**
   After every history of `Handle` calls, panicking ones included: a request whose path fits a pattern registered
   under its method, expanded, the last parameter not empty, is served, unless a dead end hangs off the branch of the
   pattern or the tree recommends a slash; in the latter case it is redirected by that slash where this is allowed.
   */
  lemma {:induction false} FittingIsAnswered(
    ops: seq<Op>, tables: seq<Table>, i: nat, ps: Pattern, vals: seq<string>, req: Request, opts: Options)
    requires RouteTable.IsRun(ops, tables) && AllShown(ops) && i < |ops| && Returned(ops[i], req.verb, Print(ps))
    requires Good(ps) && Fits(ps, vals, req.path, false) && Answered.KeyFilled(ps, vals)
    ensures AllSearchable(tables[|ops|]) && Searchable(TreeOrEmpty(tables[|ops|], req.verb))
    ensures var root, a := TreeOrEmpty(tables[|ops|], req.verb), Handled(tables[|ops|], req, opts);
      && (Final(a) || Answered.StuckAtRoot(root, ps, vals, req.path) || Get(root, req.path).tsr)
      && (Get(root, req.path).tsr && req.verb != "CONNECT" && req.path != "/" && opts.redirect.redirectTrailingSlash ==>
            a == Redirected(if req.verb == "GET" then 301 else 308, Lookup.Toggled(req.path)))
  {
    var verb, n := req.verb, |ops|;
    TreeFollows(ops, tables, verb, n);
    var run: seq<Call>, roots: seq<Trie>, src: seq<nat> :| Follows(ops, tables[n], verb, n, run, roots, src);
    assert HasCall(ops[i], i, Print(ps), run, src);
    var k :| 0 <= k < |run| && src[k] == i && IsCall(run[k], ops[i].handler, Print(ps));
    assert MadeBy(ops[src[k]], verb, run[k]);
    PrintInjective(run[k].pattern, ps);
    RunLookups.RunIsComplete(run, roots, false, k, vals, req.path);
    SettledIsAnswered(tables[n], req, opts);
  }
}
