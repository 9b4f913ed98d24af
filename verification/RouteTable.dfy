/**
 The route table of the dispatcher as a value: one tree per method, custom methods behind the
 built-in ones, the paths registered per method, and the cached global Allow list. What a
 registration does to it, and what a request is answered from it.
 */
module RouteTable {
  import opened Text
  import opened Pattern
  import opened Trie
  import opened AllowList
  import OptionalPaths
  import RouteTree
  import StaticMap

  // ----- methods --------------------------------------------------------------------------------------

  const OPTIONS := "OPTIONS"
  const WILD := "*"

  /** The built-in methods' places, -1 for any other method. */
  function BuiltinIndex(verb: string): (i: int)
    ensures -1 <= i < 11
  {
    match verb
    case "GET" => 0 case "HEAD" => 1 case "POST" => 2 case "PUT" => 3 case "PATCH" => 4 case "DELETE" => 5
    case "CONNECT" => 6 case "OPTIONS" => 7 case "TRACE" => 8 case "QUERY" => 9 case "*" => 10
    case _ => -1
  }

  /** Two built-in methods never share a place. */
  lemma {:induction false} BuiltinIsInjective(m: string, n: string)
    requires BuiltinIndex(m) == BuiltinIndex(n) >= 0
    ensures m == n
  {
  }

  function MethodIndexOf(custom: map<string, nat>, verb: string): int {
    if BuiltinIndex(verb) >= 0 then BuiltinIndex(verb) else if verb in custom then custom[verb] else -1
  }

  // ----- the table -------------------------------------------------------------------------------------

  datatype Table = Table(
    trees: seq<Option<Trie>>, custom: map<string, nat>, registered: map<string, seq<string>>,
    globalAllowed: string, mutable: bool)

  const NEW: Table :=
    Table([None, None, None, None, None, None, None, None, None, None, None], map[], map[], "", false)

  function IndexIn(t: Table, verb: string): int { MethodIndexOf(t.custom, verb) }

  /** The tree of a method, if it has one. */
  function TreeOf(t: Table, verb: string): Option<Trie> {
    var i := IndexIn(t, verb);
    if 0 <= i < |t.trees| then t.trees[i] else None
  }

  /** The methods other than OPTIONS that have registrations. */
  function Listed(registered: map<string, seq<string>>): set<string> { registered.Keys - {OPTIONS} }

  /** The Allow text for a set of methods: OPTIONS joins them, and an empty set has none. */
  ghost function AllowText(methods: set<string>): string {
    if methods == {} then "" else Join(TheListing(methods + {OPTIONS}))
  }

  /** The paths `Handle` adds for a pattern; None when the expansion itself panics. */
  function AddedPaths(path: string): Option<seq<string>> {
    match OptionalPaths.Walk(path, 0, [])
    case None => None
    case Some(ps) => Some(if ps == [] then [path] else ps)
  }

  /** Adding paths one after the other, up to the first call that panics. */
  ghost predicate AddsAll(root: Trie, mutable: bool, paths: seq<string>, h: Handler, root': Trie, ok: bool)
    decreases |paths|
  {
    if paths == [] then ok && root' == root
    else exists mid, added :: AddsFirst(root, mutable, paths, h, mid, added, root', ok)
  }

  ghost predicate AddsFirst(
    root: Trie, mutable: bool, paths: seq<string>, h: Handler, mid: Trie, added: bool, root': Trie, ok: bool)
    requires paths != []
    decreases |paths|, 0
  {
    AddStep(root, mutable, paths[0], h, mid, added)
    && if added then AddsAll(mid, mutable, paths[1..], h, root', ok) else !ok && root' == mid
  }

  function Noted(t: Table, verb: string, path: string): Table {
    t.(registered := t.registered[verb := (if verb in t.registered then t.registered[verb] else []) + [path]])
  }

  /** The table once `verb` has its tree: a custom method gets a new place, a first built-in one refreshes the cache. */
  ghost function Prepared(t: Table, verb: string, path: string): Table {
    var noted := Noted(t, verb, path);
    var i := IndexIn(noted, verb);
    if i == -1 then noted.(trees := noted.trees + [Some(EMPTY)], custom := noted.custom[verb := |noted.trees|])
    else if i < |noted.trees| && noted.trees[i] == None then
      noted.(trees := noted.trees[i := Some(EMPTY)], globalAllowed := AllowText(Listed(noted.registered)))
    else noted
  }

  predicate Acceptable(verb: string, path: string) { verb != "" && path != "" && path[0] == '/' }

  /** One call of `Handle`; `ok` is false when it panics. */
  ghost predicate HandleStep(t: Table, verb: string, path: string, h: Handler, t': Table, ok: bool) {
    if !Acceptable(verb, path) then !ok && t' == t
    else
      match AddedPaths(path)
      case None => !ok && t' == Prepared(t, verb, path)
      case Some(ps) => Registers(Prepared(t, verb, path), verb, ps, h, t', ok)
  }

  ghost predicate Registers(t: Table, verb: string, ps: seq<string>, h: Handler, t': Table, ok: bool) {
    exists root' :: Stores(t, verb, ps, h, root', t', ok)
  }

  ghost predicate Stores(t: Table, verb: string, ps: seq<string>, h: Handler, root': Trie, t': Table, ok: bool) {
    var i := IndexIn(t, verb);
    && 0 <= i < |t.trees| && t.trees[i].Some?
    && AddsAll(t.trees[i].value, t.mutable, ps, h, root', ok) && t' == t.(trees := t.trees[i := Some(root')])
  }

  /** The pattern, expanded, is one the tree model covers. */
  ghost predicate Supported(path: string) {
    match AddedPaths(path) case None => true case Some(ps) => AllPrinted(ps)
  }

  ghost predicate AllPrinted(ps: seq<string>) { forall p :: p in ps ==> IsPrinted(p) }

  ghost predicate IsPrinted(p: string) { exists ps :: Good(ps) && p == Print(ps) }

  // ----- invariants ---------------------------------------------------------------------------------------

  /** Custom methods have places of their own behind the built-in ones. */
  predicate GoodPlaces(t: Table) {
    && |t.trees| >= 11
    && (forall m :: m in t.custom ==> BuiltinIndex(m) == -1 && 11 <= t.custom[m] < |t.trees|)
    && (forall m, n :: m in t.custom && n in t.custom && m != n ==> t.custom[m] != t.custom[n])
  }

  /** Methods with registrations have a tree, and built-in methods without have none. */
  ghost predicate GoodMethods(t: Table) {
    && (forall m :: m in t.registered ==> TreeOf(t, m).Some?)
    && (forall m :: BuiltinIndex(m) >= 0 && TreeOf(t, m).Some? ==> m in t.registered)
    && (forall m :: m in t.custom ==> m in t.registered)
  }

  predicate GoodTrees(t: Table) {
    forall i :: 0 <= i < |t.trees| && t.trees[i].Some? ==> RouteTree.IsRoot(t.trees[i].value)
  }

  ghost predicate GoodTable(t: Table) { GoodPlaces(t) && GoodMethods(t) && GoodTrees(t) }

  /** Different methods have different places. */
  lemma {:induction false} PlacesDiffer(t: Table, m: string, n: string)
    requires GoodPlaces(t) && m != n && IndexIn(t, m) >= 0
    ensures IndexIn(t, m) != IndexIn(t, n)
  {
    if BuiltinIndex(m) >= 0 && BuiltinIndex(m) == BuiltinIndex(n) { BuiltinIsInjective(m, n); }
  }

  lemma {:induction false} PreparedPlaces(t: Table, verb: string, path: string)
    requires GoodPlaces(t)
    ensures var r := Prepared(t, verb, path);
      && GoodPlaces(r) && 0 <= IndexIn(r, verb) < |r.trees| && r.mutable == t.mutable
      && forall m :: m != verb ==> TreeOf(r, m) == TreeOf(t, m)
  {
    var r, i := Prepared(t, verb, path), IndexIn(t, verb);
    if i == -1 {
      assert r.trees == t.trees + [Some(EMPTY)] && r.custom == t.custom[verb := |t.trees|];
    } else {
      assert r.custom == t.custom && |r.trees| == |t.trees|
        && forall j :: 0 <= j < |t.trees| && j != i ==> r.trees[j] == t.trees[j];
      forall m | m != verb
        ensures TreeOf(r, m) == TreeOf(t, m)
      {
        PlacesDiffer(t, verb, m);
      }
    }
  }

  lemma {:induction false} PreparedTrees(t: Table, verb: string, path: string)
    requires GoodTrees(t)
    ensures GoodTrees(Prepared(t, verb, path))
  {
    RouteTree.EmptyIsRoot();
  }

  lemma {:induction false} SameMethods(t: Table, r: Table, verb: string)
    requires GoodMethods(t) && TreeOf(r, verb).Some? && verb in r.registered
      && r.registered.Keys <= t.registered.Keys + {verb}
    requires t.registered.Keys <= r.registered.Keys && r.custom.Keys <= t.custom.Keys + {verb}
    requires forall m :: m != verb ==> TreeOf(r, m) == TreeOf(t, m)
    ensures GoodMethods(r)
  {
    forall m | m in r.registered
      ensures TreeOf(r, m).Some?
    {
      if m != verb { assert m in t.registered; }
    }
    forall m | BuiltinIndex(m) >= 0 && TreeOf(r, m).Some?
      ensures m in r.registered
    {
      if m != verb { assert TreeOf(t, m).Some?; }
    }
  }

  lemma {:induction false} PreparedMethods(t: Table, verb: string, path: string)
    requires GoodTable(t)
    ensures GoodTable(Prepared(t, verb, path)) && TreeOf(Prepared(t, verb, path), verb).Some?
  {
    PreparedPlaces(t, verb, path);
    PreparedTrees(t, verb, path);
    SameMethods(t, Prepared(t, verb, path), verb);
  }

  lemma {:induction false} AddsAllIsRoot(
    root: Trie, mutable: bool, paths: seq<string>, h: Handler, root': Trie, ok: bool)
    requires RouteTree.IsRoot(root) && AddsAll(root, mutable, paths, h, root', ok) && AllPrinted(paths)
    ensures RouteTree.IsRoot(root')
    decreases |paths|
  {
    if paths != [] {
      var mid, added :| AddsFirst(root, mutable, paths, h, mid, added, root', ok);
      assert IsPrinted(paths[0]);
      var ps :| Good(ps) && paths[0] == Print(ps);
      StepIsRoot(root, mutable, ps, h, mid, added);
      if added { AddsAllIsRoot(mid, mutable, paths[1..], h, root', ok); }
    }
  }

  lemma {:induction false} StepIsRoot(root: Trie, mutable: bool, ps: Pattern, h: Handler, root': Trie, ok: bool)
    requires RouteTree.IsRoot(root) && Good(ps) && AddStep(root, mutable, Print(ps), h, root', ok)
    ensures RouteTree.IsRoot(root')
  {
    if ps != [] {
      PrintStart(ps);
      if RouteTree.IsRoute(ps) { RouteTree.AddConserves(root, mutable, ps, h, root', ok); }
    }
  }

  /** A registration keeps the table good and changes no other method's tree. */
  lemma {:induction false} HandleKeepsTable(t: Table, verb: string, path: string, h: Handler, t': Table, ok: bool)
    requires GoodTable(t) && Supported(path) && HandleStep(t, verb, path, h, t', ok)
    ensures GoodTable(t') && forall m :: m != verb ==> TreeOf(t', m) == TreeOf(t, m)
  {
    if Acceptable(verb, path) {
      var r := Prepared(t, verb, path);
      PreparedPlaces(t, verb, path);
      PreparedMethods(t, verb, path);
      if AddedPaths(path).Some? {
        var ps := AddedPaths(path).value;
        var root' :| Stores(r, verb, ps, h, root', t', ok);
        AddsAllIsRoot(r.trees[IndexIn(r, verb)].value, r.mutable, ps, h, root', ok);
        StoredTable(r, verb, root', t');
      }
    }
  }

  lemma {:induction false} StoredTable(r: Table, verb: string, root': Trie, t': Table)
    requires GoodTable(r) && TreeOf(r, verb).Some? && RouteTree.IsRoot(root') && verb in r.registered
    requires 0 <= IndexIn(r, verb) < |r.trees| && t' == r.(trees := r.trees[IndexIn(r, verb) := Some(root')])
    ensures GoodTable(t') && forall m :: m != verb ==> TreeOf(t', m) == TreeOf(r, m)
  {
    forall m | m != verb
      ensures TreeOf(t', m) == TreeOf(r, m)
    {
      PlacesDiffer(r, verb, m);
    }
    SameMethods(r, t', verb);
  }

  // ----- runs, and the cached Allow list -------------------------------------------------------------------

  datatype Op = Register(verb: string, path: string, handler: Handler, ok: bool) | SetMutable(value: bool)

  ghost predicate OpStep(t: Table, op: Op, t': Table) {
    if op.Register? then Supported(op.path) && HandleStep(t, op.verb, op.path, op.handler, t', op.ok)
    else t' == t.(mutable := op.value)
  }

  ghost predicate IsRun(ops: seq<Op>, tables: seq<Table>) {
    && |tables| == |ops| + 1 && tables[0] == NEW
    && forall i :: 0 <= i < |ops| ==> OpStep(tables[i], ops[i], tables[i + 1])
  }

  lemma {:induction false} NewIsGood()
    ensures GoodTable(NEW)
  {
    assert forall i :: 0 <= i < |NEW.trees| ==> NEW.trees[i] == None;
  }

  /**
   In every reachable table each method with registrations has a tree, different methods have
   different places (custom ones behind the eleven built-in ones), and every tree is well formed.
   */
  lemma {:induction false} RunKeepsTable(ops: seq<Op>, tables: seq<Table>, n: nat)
    requires IsRun(ops, tables) && n <= |ops|
    ensures GoodTable(tables[n])
  {
    if n == 0 {
      NewIsGood();
    } else {
      RunKeepsTable(ops, tables, n - 1);
      var op := ops[n - 1];
      assert OpStep(tables[n - 1], op, tables[n - 1 + 1]);
      if op.Register? { HandleKeepsTable(tables[n - 1], op.verb, op.path, op.handler, tables[n], op.ok); }
    }
  }

  /** A first registration under a built-in method, which refreshes the cache. */
  predicate Refreshes(t: Table, op: Op) {
    op.Register? && Acceptable(op.verb, op.path) && BuiltinIndex(op.verb) >= 0 && op.verb !in t.registered
  }

  /** The methods known when the cache was last refreshed. */
  function KnownAtRefresh(ops: seq<Op>, tables: seq<Table>, n: nat): set<string>
    requires |tables| == |ops| + 1 && n <= |ops|
  {
    if n == 0 then {}
    else if Refreshes(tables[n - 1], ops[n - 1]) then Listed(tables[n].registered)
    else KnownAtRefresh(ops, tables, n - 1)
  }

  lemma {:induction false} HandleCaches(t: Table, verb: string, path: string, h: Handler, t': Table, ok: bool)
    requires GoodTable(t) && HandleStep(t, verb, path, h, t', ok)
    ensures t'.globalAllowed ==
      if Refreshes(t, Register(verb, path, h, ok)) then AllowText(Listed(t'.registered)) else t.globalAllowed
    ensures Acceptable(verb, path) ==> t'.registered.Keys == t.registered.Keys + {verb}
    ensures !Acceptable(verb, path) ==> t' == t
  {
    if Acceptable(verb, path) {
      var r := Prepared(t, verb, path);
      PreparedCaches(t, verb, path);
      assert t'.globalAllowed == r.globalAllowed && t'.registered == r.registered;
    }
  }

  lemma {:induction false} PreparedCaches(t: Table, verb: string, path: string)
    requires GoodTable(t)
    ensures var r := Prepared(t, verb, path);
      && r.registered.Keys == t.registered.Keys + {verb}
      && r.globalAllowed ==
           if BuiltinIndex(verb) >= 0 && verb !in t.registered then AllowText(Listed(r.registered)) else t.globalAllowed
  {
    assert BuiltinIndex(verb) >= 0 ==> (TreeOf(t, verb).Some? <==> verb in t.registered);
  }

  /** An accepted registration, which makes its method known even when it panics later. */
  predicate MakesKnown(op: Op, verb: string) { op.Register? && op.verb == verb && Acceptable(verb, op.path) }

  /** One step of a run: the methods known after it, and the cached text. */
  lemma {:induction false} StepCaches(ops: seq<Op>, tables: seq<Table>, n: nat)
    requires IsRun(ops, tables) && n < |ops|
    ensures forall m :: m in tables[n + 1].registered <==> m in tables[n].registered || MakesKnown(ops[n], m)
    ensures tables[n + 1].globalAllowed ==
      if Refreshes(tables[n], ops[n]) then AllowText(Listed(tables[n + 1].registered)) else tables[n].globalAllowed
  {
    RunKeepsTable(ops, tables, n);
    var op := ops[n];
    assert OpStep(tables[n], op, tables[n + 1]);
    if op.Register? { HandleCaches(tables[n], op.verb, op.path, op.handler, tables[n + 1], op.ok); }
  }

  /** The cached list is exactly the one of the methods known at the last first registration of a built-in method. */
  lemma {:induction false} CacheIsOfLastRefresh(ops: seq<Op>, tables: seq<Table>, n: nat)
    requires IsRun(ops, tables) && n <= |ops|
    ensures tables[n].globalAllowed == AllowText(KnownAtRefresh(ops, tables, n))
  {
    if n > 0 {
      var k := n - 1;
      CacheIsOfLastRefresh(ops, tables, k);
      StepCaches(ops, tables, k);
      assert KnownAtRefresh(ops, tables, n) ==
        if Refreshes(tables[k], ops[k]) then Listed(tables[n].registered) else KnownAtRefresh(ops, tables, k);
    }
  }

  lemma {:induction false} KnownIsRegistered(ops: seq<Op>, tables: seq<Table>, n: nat)
    requires IsRun(ops, tables) && n <= |ops|
    ensures KnownAtRefresh(ops, tables, n) <= Listed(tables[n].registered)
  {
    if n > 0 {
      KnownIsRegistered(ops, tables, n - 1);
      StepCaches(ops, tables, n - 1);
    }
  }

  // ----- when the cached list is fresh ---------------------------------------------------------------------

  /** Call `i` is the first accepted registration under its method. */
  predicate FirstFor(ops: seq<Op>, i: nat)
    requires i < |ops|
  {
    ops[i].Register? && MakesKnown(ops[i], ops[i].verb) && forall j :: 0 <= j < i ==> !MakesKnown(ops[j], ops[i].verb)
  }

  predicate FirstBuiltin(ops: seq<Op>, i: nat)
    requires i < |ops|
  {
    FirstFor(ops, i) && BuiltinIndex(ops[i].verb) >= 0
  }

  predicate FirstCustom(ops: seq<Op>, i: nat)
    requires i < |ops|
  {
    FirstFor(ops, i) && BuiltinIndex(ops[i].verb) == -1
  }

  /** No custom method is registered for the first time after the last first registration of a built-in one. */
  predicate CustomsBefore(ops: seq<Op>, n: nat)
    requires n <= |ops|
  {
    forall i :: 0 <= i < n && FirstCustom(ops, i) ==> exists j :: i < j < n && FirstBuiltin(ops, j)
  }

  lemma {:induction false} RegisteredAre(ops: seq<Op>, tables: seq<Table>, n: nat, m: string)
    requires IsRun(ops, tables) && n <= |ops|
    ensures m in tables[n].registered <==> exists j :: 0 <= j < n && MakesKnown(ops[j], m)
  {
    if n > 0 {
      RegisteredAre(ops, tables, n - 1, m);
      StepCaches(ops, tables, n - 1);
      if m in tables[n - 1].registered {
        var j :| 0 <= j < n - 1 && MakesKnown(ops[j], m);
      } else if MakesKnown(ops[n - 1], m) {
        assert 0 <= n - 1 < n;
      }
    }
  }

  lemma {:induction false} FirstIsNew(ops: seq<Op>, tables: seq<Table>, n: nat)
    requires IsRun(ops, tables) && n < |ops| && ops[n].Register? && Acceptable(ops[n].verb, ops[n].path)
    ensures FirstFor(ops, n) <==> ops[n].verb !in tables[n].registered
  {
    RegisteredAre(ops, tables, n, ops[n].verb);
  }

  /** How a call changes the methods known at the last refresh against those registered. */
  lemma {:induction false} StepKnows(ops: seq<Op>, tables: seq<Table>, k: nat)
    requires IsRun(ops, tables) && k < |ops|
    ensures var known, all := KnownAtRefresh(ops, tables, k + 1), Listed(tables[k + 1].registered);
      && (FirstBuiltin(ops, k) ==> known == all)
      && (FirstCustom(ops, k) ==> known != all)
      && (!FirstFor(ops, k) ==> known == KnownAtRefresh(ops, tables, k) && all == Listed(tables[k].registered))
  {
    StepCaches(ops, tables, k);
    if ops[k].Register? && Acceptable(ops[k].verb, ops[k].path) { FirstIsNew(ops, tables, k); }
    if FirstCustom(ops, k) {
      KnownIsRegistered(ops, tables, k);
      assert ops[k].verb in Listed(tables[k + 1].registered) && ops[k].verb !in KnownAtRefresh(ops, tables, k);
    } else if !FirstFor(ops, k) {
      assert tables[k + 1].registered.Keys == tables[k].registered.Keys;
    }
  }

  lemma {:induction false} CustomComesLast(ops: seq<Op>, k: nat)
    requires k < |ops| && FirstCustom(ops, k)
    ensures !CustomsBefore(ops, k + 1)
  {
  }

  /** The methods known at the last refresh are all that are registered exactly when no custom method came after it. */
  lemma {:induction false} KnowsAll(ops: seq<Op>, tables: seq<Table>, n: nat)
    requires IsRun(ops, tables) && n <= |ops|
    ensures KnownAtRefresh(ops, tables, n) == Listed(tables[n].registered) <==> CustomsBefore(ops, n)
  {
    if n > 0 {
      var k := n - 1;
      KnowsAll(ops, tables, k);
      StepKnows(ops, tables, k);
      assert k + 1 == n;
      if FirstBuiltin(ops, k) {
        RefreshedBefore(ops, k);
      } else if FirstCustom(ops, k) {
        CustomComesLast(ops, k);
      } else {
        NothingFirst(ops, k);
      }
    }
  }

  lemma {:induction false} RefreshedBefore(ops: seq<Op>, k: nat)
    requires k < |ops| && FirstBuiltin(ops, k)
    ensures CustomsBefore(ops, k + 1)
  {
    forall i | 0 <= i < k + 1 && FirstCustom(ops, i)
      ensures exists j :: i < j < k + 1 && FirstBuiltin(ops, j)
    {
      assert i < k < k + 1;
    }
  }

  lemma {:induction false} NothingFirst(ops: seq<Op>, k: nat)
    requires k < |ops| && !FirstFor(ops, k)
    ensures CustomsBefore(ops, k + 1) <==> CustomsBefore(ops, k)
  {
    if CustomsBefore(ops, k) {
      forall i | 0 <= i < k + 1 && FirstCustom(ops, i)
        ensures exists j :: i < j < k + 1 && FirstBuiltin(ops, j)
      {
        var j :| i < j < k && FirstBuiltin(ops, j);
      }
    }
    if CustomsBefore(ops, k + 1) {
      forall i | 0 <= i < k && FirstCustom(ops, i)
        ensures exists j :: i < j < k && FirstBuiltin(ops, j)
      {
        var j :| i < j < k + 1 && FirstBuiltin(ops, j);
      }
    }
  }

  /** Allow texts tell the methods apart, as long as no method name holds a comma. */
  lemma {:induction false} TextTellsMethods(a: set<string>, b: set<string>)
    requires OPTIONS !in a && OPTIONS !in b && (forall m :: m in a || m in b ==> ',' !in m)
    requires AllowText(a) == AllowText(b)
    ensures a == b
  {
    if a == {} {
      if b != {} { TextIsLonger(b); }
    } else if b == {} {
      TextIsLonger(a);
    } else {
      var k, l := TheListing(a + {OPTIONS}), TheListing(b + {OPTIONS});
      assert OPTIONS in k && OPTIONS in l;
      forall i | 0 <= i < |k|
        ensures ',' !in k[i]
      {
        assert k[i] in k;
      }
      forall i | 0 <= i < |l|
        ensures ',' !in l[i]
      {
        assert l[i] in l;
      }
      JoinInjective(k, l);
      assert forall m :: m in a <==> m in k && m != OPTIONS;
    }
  }

  lemma {:induction false} TextIsLonger(a: set<string>)
    requires a != {} && OPTIONS !in a
    ensures AllowText(a) != ""
  {
    var l := TheListing(a + {OPTIONS});
    assert OPTIONS in l;
    assert l != [];
    assert |l| > 1 ==> Join(l)[|l[0]|] == ',';
  }

  /**
   The cached list equals a fresh recomputation exactly when no custom method was registered for the
   first time after the last first registration of a built-in one. Panicking registrations count too.
   Method names hold no comma.
   */
  lemma {:induction false} FreshIffCustomsBefore(ops: seq<Op>, tables: seq<Table>, n: nat)
    requires IsRun(ops, tables) && n <= |ops| && (forall m :: m in tables[n].registered ==> ',' !in m)
    ensures tables[n].globalAllowed == AllowText(Listed(tables[n].registered)) <==> CustomsBefore(ops, n)
  {
    CacheIsOfLastRefresh(ops, tables, n);
    KnownIsRegistered(ops, tables, n);
    KnowsAll(ops, tables, n);
    if tables[n].globalAllowed == AllowText(Listed(tables[n].registered)) {
      TextTellsMethods(KnownAtRefresh(ops, tables, n), Listed(tables[n].registered));
    }
  }

  /** Only built-in methods are registered. */
  predicate OnlyBuiltin(ops: seq<Op>) {
    forall i :: 0 <= i < |ops| && ops[i].Register? ==> BuiltinIndex(ops[i].verb) >= 0
  }

  /**
   With only built-in methods the cached list always equals a fresh recomputation, panicking registrations
   included.
   */
  lemma {:induction false} CacheIsFresh(ops: seq<Op>, tables: seq<Table>)
    requires IsRun(ops, tables) && OnlyBuiltin(ops)
    ensures tables[|ops|].globalAllowed == AllowText(Listed(tables[|ops|].registered))
  {
    CacheIsOfLastRefresh(ops, tables, |ops|);
    KnowsAll(ops, tables, |ops|);
  }

  // ----- registering literal paths --------------------------------------------------------------------

  lemma {:induction false} NothingOptional(s: string, i: nat)
    requires '{' !in s && i <= |s|
    ensures OptionalPaths.Walk(s, i, []) == Some([])
    decreases |s| - i
  {
    if i < |s| { NothingOptional(s, i + 1); }
  }

  /** The table once the tree of `verb` has become `root`. */
  ghost function Grown(t: Table, verb: string, s: string, root: Trie): Table {
    var r := Prepared(t, verb, s);
    var i := IndexIn(r, verb);
    if 0 <= i < |r.trees| then r.(trees := r.trees[i := Some(root)]) else r
  }

  /** Registering a literal path is one call of `Tree.Add` on the tree of the method; no other tree changes. */
  lemma {:induction false} RegistersPath(t: Table, verb: string, s: string, h: Handler, root: Trie, root': Trie)
    returns (t': Table)
    requires GoodTable(t) && verb != "" && StaticMap.StaticPath(s) && RouteTree.IsRoot(root')
    requires TreeOf(t, verb) == if root == EMPTY then None else Some(root)
    requires AddStep(root, t.mutable, s, h, root', true)
    ensures OpStep(t, Register(verb, s, h, true), t')
    ensures GoodTable(t') && TreeOf(t', verb) == Some(root') && t'.mutable == t.mutable
    ensures forall m :: m != verb ==> TreeOf(t', m) == TreeOf(t, m)
  {
    var r := Prepared(t, verb, s);
    t' := Grown(t, verb, s, root');
    PreparedPlaces(t, verb, s);
    PreparedMethods(t, verb, s);
    StoredTable(r, verb, root', t');
    IsRegistered(t, verb, s, h, root, root');
  }

  /** A literal path has no optional parameters: it is one call of `Tree.Add`. */
  lemma {:induction false} AddsOne(root: Trie, mutable: bool, s: string, h: Handler, root': Trie)
    requires AddStep(root, mutable, s, h, root', true)
    ensures AddsAll(root, mutable, [s], h, root', true)
  {
    assert [s][1..] == [] && AddsAll(root', mutable, [], h, root', true);
    assert AddsFirst(root, mutable, [s], h, root', true, root', true);
  }

  lemma {:induction false} StoresOne(r: Table, verb: string, s: string, h: Handler, root: Trie, root': Trie, i: nat)
    requires i < |r.trees| && IndexIn(r, verb) == i && r.trees[i] == Some(root)
    requires AddStep(root, r.mutable, s, h, root', true)
    ensures Stores(r, verb, [s], h, root', r.(trees := r.trees[i := Some(root')]), true)
  {
    AddsOne(root, r.mutable, s, h, root');
  }

  lemma {:induction false} LiteralIsAdded(verb: string, s: string)
    requires verb != "" && StaticMap.StaticPath(s)
    ensures Acceptable(verb, s) && AddedPaths(s) == Some([s]) && Supported(s)
  {
    NothingOptional(s, 0);
    StaticMap.RouteOf(s);
    assert IsPrinted(s);
  }

  lemma {:induction false} IsRegistered(t: Table, verb: string, s: string, h: Handler, root: Trie, root': Trie)
    requires GoodTable(t) && verb != "" && StaticMap.StaticPath(s)
    requires TreeOf(t, verb) == if root == EMPTY then None else Some(root)
    requires AddStep(root, t.mutable, s, h, root', true)
    ensures OpStep(t, Register(verb, s, h, true), Grown(t, verb, s, root'))
  {
    var r := Prepared(t, verb, s);
    LiteralIsAdded(verb, s);
    PreparedHas(t, verb, s, root);
    StoresOne(r, verb, s, h, root, root', IndexIn(r, verb));
    assert Registers(r, verb, [s], h, Grown(t, verb, s, root'), true);
  }

  lemma {:induction false} PreparedHas(t: Table, verb: string, s: string, root: Trie)
    requires GoodTable(t) && TreeOf(t, verb) == if root == EMPTY then None else Some(root)
    ensures var r := Prepared(t, verb, s);
      && r.mutable == t.mutable && 0 <= IndexIn(r, verb) < |r.trees| && r.trees[IndexIn(r, verb)] == Some(root)
  {
    PreparedPlaces(t, verb, s);
  }

  // ----- a custom method that is not in the cached list ----------------------------------------------------

  /** The table after registering only "/x", under the custom method PURGE. */
  function PurgeTable(h: Handler): Table {
    Table(NEW.trees + [Some(RouteTree.PlainTree("/x", h))], map["PURGE" := 11], map["PURGE" := ["/x"]], "", false)
  }

  lemma {:induction false} PurgeTableIsReached(h: Handler)
    ensures IsRun([Register("PURGE", "/x", h, true)], [NEW, PurgeTable(h)])
  {
    NewIsGood();
    RouteTree.PlainTreeIsBuilt("/x", h);
    IsRegistered(NEW, "PURGE", "/x", h, EMPTY, RouteTree.PlainTree("/x", h));
    PurgeTableIsGrown(h);
  }

  lemma {:induction false} PurgeTableIsGrown(h: Handler)
    ensures Grown(NEW, "PURGE", "/x", RouteTree.PlainTree("/x", h)) == PurgeTable(h)
  {
    var r := Prepared(NEW, "PURGE", "/x");
    assert [] + ["/x"] == ["/x"];
    assert r.trees[11 := Some(RouteTree.PlainTree("/x", h))] == PurgeTable(h).trees;
  }

  /** After registering just PURGE, the cached list is empty, and a fresh one is "OPTIONS, PURGE". */
  lemma {:induction false} CustomIsNotCached(h: Handler)
    ensures IsRun([Register("PURGE", "/x", h, true)], [NEW, PurgeTable(h)])
    ensures PurgeTable(h).globalAllowed == "" && AllowText(Listed(PurgeTable(h).registered)) == "OPTIONS, PURGE"
  {
    PurgeTableIsReached(h);
    var l, s := [OPTIONS, "PURGE"], {OPTIONS, "PURGE"};
    assert Listed(PurgeTable(h).registered) == {"PURGE"} && {"PURGE"} + {OPTIONS} == s;
    assert Listing(l, s);
    ListingIsUnique(TheListing(s), l, s);
    assert l[1..] == ["PURGE"];
    assert Join(l) == "OPTIONS" + ", " + "PURGE" == "OPTIONS, PURGE";
  }
}
