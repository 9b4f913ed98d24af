/**
 The order of middlewares around a route. Middlewares are registered on the router, on its priority
 chain and on (nested) groups, in any order between the routes; a route runs inside exactly those
 registered before it.
 */
module Middleware {
  import opened Text
  import opened Trie

  /** A handler wrapped so that `mws` are entered in order. */
  function Wrapped(mws: seq<nat>, h: Handler): Handler {
    if mws == [] then h else Enter(mws[0], Wrapped(mws[1..], h))
  }

  /** `Chain` and `chain`: the loop that wraps from the last middleware to the first. */
  method WrapAll(mws: seq<nat>, handler: Handler) returns (h: Handler)
    ensures h == Wrapped(mws, handler)
  {
    h := handler;
    var i := |mws| - 1;
    assert mws[|mws|..] == [];
    while i >= 0
      invariant -1 <= i < |mws| && h == Wrapped(mws[i + 1..], handler)
    {
      assert mws[i..][1..] == mws[i + 1..];
      h := Enter(mws[i], h);
      i := i - 1;
    }
    assert mws[0..] == mws;
  }

  /** What happens when a handler runs and every middleware calls the next one. */
  datatype Event = Entered(middleware: nat) | Served(id: nat)

  function Events(h: Handler): seq<Event> {
    match h case Serve(id) => [Served(id)] case Enter(m, next) => [Entered(m)] + Events(next)
  }

  function EnteredAll(mws: seq<nat>): seq<Event> {
    seq(|mws|, i requires 0 <= i < |mws| => Entered(mws[i]))
  }

  lemma {:induction false} EventsWrapped(mws: seq<nat>, h: Handler)
    ensures Events(Wrapped(mws, h)) == EnteredAll(mws) + Events(h)
  {
    if mws != [] {
      EventsWrapped(mws[1..], h);
      assert EnteredAll(mws) == [Entered(mws[0])] + EnteredAll(mws[1..]);
    }
  }

  // ----- histories of registrations ------------------------------------------------------------------

  /** A group is known by its number, in order of creation; `None` is the router itself. */
  datatype Op =
    | Use(mws: seq<nat>)
    | UsePriority(mws: seq<nat>)
    | NewGroup(parent: Option<nat>, prefix: string)
    | GroupUse(group: nat, mws: seq<nat>)
    | Handle(within: Option<nat>, verb: string, path: string, handler: Handler)

  datatype Group = Group(prefix: string, mws: seq<nat>)

  datatype Registration = Registration(verb: string, path: string, handler: Handler)

  datatype Router = Router(priority: seq<nat>, mws: seq<nat>, groups: seq<Group>, routes: seq<Registration>)

  const NEW: Router := Router([], [], [], [])

  /** The router's own wrapping of a handler. */
  function Chained(priority: seq<nat>, mws: seq<nat>, h: Handler): Handler { Wrapped(priority, Wrapped(mws, h)) }

  /** The operation only names groups that exist. */
  predicate Possible(r: Router, op: Op) {
    match op
    case NewGroup(Some(p), _) => p < |r.groups|
    case GroupUse(g, _) => g < |r.groups|
    case Handle(Some(g), _, _, _) => g < |r.groups|
    case _ => true
  }

  function Step(r: Router, op: Op): Router
    requires Possible(r, op)
  {
    match op
    case Use(mws) => r.(mws := r.mws + mws)
    case UsePriority(mws) => r.(priority := r.priority + mws)
    case NewGroup(None, prefix) => r.(groups := r.groups + [Group(prefix, [])])
    case NewGroup(Some(p), prefix) =>
      r.(groups := r.groups + [Group(r.groups[p].prefix + prefix, r.groups[p].mws)])
    case GroupUse(g, mws) => r.(groups := r.groups[g := r.groups[g].(mws := r.groups[g].mws + mws)])
    case Handle(None, m, path, h) => r.(routes := r.routes + [Registration(m, path, Chained(r.priority, r.mws, h))])
    case Handle(Some(g), m, path, h) =>
      r.(routes := r.routes + [Registration(m, r.groups[g].prefix + path,
        Chained(r.priority, r.mws, Wrapped(r.groups[g].mws, h)))])
  }

  /** `routers` are the states a router goes through under `ops`. */
  ghost predicate IsRun(ops: seq<Op>, routers: seq<Router>) {
    && |routers| == |ops| + 1 && routers[0] == NEW
    && forall i :: 0 <= i < |ops| ==> Possible(routers[i], ops[i]) && routers[i + 1] == Step(routers[i], ops[i])
  }

  // ----- what was registered before ------------------------------------------------------------------------

  /** The middlewares passed to `Use`, in order. */
  function Used(ops: seq<Op>): seq<nat> {
    if ops == [] then []
    else Used(ops[..|ops| - 1]) + (match ops[|ops| - 1] case Use(mws) => mws case _ => [])
  }

  function UsedPriority(ops: seq<Op>): seq<nat> {
    if ops == [] then []
    else UsedPriority(ops[..|ops| - 1]) + (match ops[|ops| - 1] case UsePriority(mws) => mws case _ => [])
  }

  /** The middlewares passed to `Use` of group `g` itself. */
  function UsedInGroup(ops: seq<Op>, g: nat): seq<nat> {
    if ops == [] then []
    else UsedInGroup(ops[..|ops| - 1], g) + Added(ops[|ops| - 1], g)
  }

  /** How many groups the operations create. */
  function Groups(ops: seq<Op>): nat {
    if ops == [] then 0 else Groups(ops[..|ops| - 1]) + (if ops[|ops| - 1].NewGroup? then 1 else 0)
  }

  /** Operation `c` creates group `g`. */
  predicate Creates(ops: seq<Op>, c: nat, g: nat) { c < |ops| && ops[c].NewGroup? && Groups(ops[..c]) == g }

  /**
   `mws` are the middlewares of group `g` before operation `n`: those its parent had when it was
   created, then its own.
   */
  ghost predicate GroupHas(ops: seq<Op>, n: nat, g: nat, mws: seq<nat>)
    requires n <= |ops|
    decreases n, 1
  {
    exists c: nat, inherited: seq<nat> :: HasSince(ops, n, g, mws, c, inherited)
  }

  ghost predicate HasSince(ops: seq<Op>, n: nat, g: nat, mws: seq<nat>, c: nat, inherited: seq<nat>)
    requires n <= |ops|
    decreases n, 0
  {
    && c < n && Creates(ops, c, g) && mws == inherited + UsedInGroup(ops[c + 1..n], g)
    && match ops[c].parent case None => inherited == [] case Some(p) => GroupHas(ops, c, p, inherited)
  }

  /** What an operation adds to the list of group `g`. */
  function Added(op: Op, g: nat): seq<nat> { match op case GroupUse(h, mws) => if h == g then mws else [] case _ => [] }

  lemma {:induction false} RunCounts(ops: seq<Op>, routers: seq<Router>, n: nat)
    requires IsRun(ops, routers) && n <= |ops|
    ensures routers[n].mws == Used(ops[..n]) && routers[n].priority == UsedPriority(ops[..n])
      && |routers[n].groups| == Groups(ops[..n])
  {
    if n > 0 {
      RunCounts(ops, routers, n - 1);
      assert ops[..n][..n - 1] == ops[..n - 1] && ops[..n][n - 1] == ops[n - 1];
      assert routers[n - 1 + 1] == Step(routers[n - 1], ops[n - 1]);
    }
  }

  lemma {:induction false} UsesLater(ops: seq<Op>, c: nat, n: nat, g: nat)
    requires c <= n < |ops|
    ensures UsedInGroup(ops[c..n + 1], g) == UsedInGroup(ops[c..n], g) + Added(ops[n], g)
  {
    var later := ops[c..n + 1];
    assert later[..|later| - 1] == ops[c..n] && later[|later| - 1] == ops[n];
  }

  lemma {:induction false} SinceLater(ops: seq<Op>, n: nat, g: nat, mws: seq<nat>, c: nat, inherited: seq<nat>)
    requires n < |ops| && HasSince(ops, n, g, mws, c, inherited)
    ensures HasSince(ops, n + 1, g, mws + Added(ops[n], g), c, inherited)
  {
    var before := UsedInGroup(ops[c + 1..n], g);
    UsesLater(ops, c + 1, n, g);
    Assoc(inherited, before, Added(ops[n], g));
  }

  lemma {:induction false} GroupHasLater(ops: seq<Op>, n: nat, g: nat, mws: seq<nat>)
    requires n < |ops| && GroupHas(ops, n, g, mws)
    ensures GroupHas(ops, n + 1, g, mws + Added(ops[n], g))
  {
    var c: nat, inherited :| HasSince(ops, n, g, mws, c, inherited);
    SinceLater(ops, n, g, mws, c, inherited);
  }

  lemma {:induction false} GroupBorn(ops: seq<Op>, n: nat, inherited: seq<nat>)
    requires n < |ops| && ops[n].NewGroup?
    requires match ops[n].parent case None => inherited == [] case Some(p) => GroupHas(ops, n, p, inherited)
    ensures GroupHas(ops, n + 1, Groups(ops[..n]), inherited)
  {
    var g := Groups(ops[..n]);
    assert ops[n + 1..n + 1] == [];
    assert inherited == inherited + UsedInGroup(ops[n + 1..n + 1], g);
    assert HasSince(ops, n + 1, g, inherited, n, inherited);
  }

  /** One operation seen by group `g`. */
  lemma {:induction false} StepGroup(r: Router, op: Op, g: nat)
    requires Possible(r, op) && g < |r.groups|
    ensures g < |Step(r, op).groups| && Step(r, op).groups[g].mws == r.groups[g].mws + Added(op, g)
  {
    assert r.groups[g].mws + [] == r.groups[g].mws;
  }

  /** A group that exists already, after one more operation. */
  lemma {:induction false} OldGroup(ops: seq<Op>, n: nat, r: Router, g: nat)
    requires n < |ops| && Possible(r, ops[n]) && g < |r.groups| && GroupHas(ops, n, g, r.groups[g].mws)
    ensures g < |Step(r, ops[n]).groups| && GroupHas(ops, n + 1, g, Step(r, ops[n]).groups[g].mws)
  {
    GroupHasLater(ops, n, g, r.groups[g].mws);
    StepGroup(r, ops[n], g);
  }

  /** The group an operation creates. */
  lemma {:induction false} NewGroupHas(ops: seq<Op>, n: nat, r: Router)
    requires n < |ops| && Possible(r, ops[n]) && ops[n].NewGroup? && |r.groups| == Groups(ops[..n])
    requires ops[n].parent.Some? ==> GroupHas(ops, n, ops[n].parent.value, r.groups[ops[n].parent.value].mws)
    ensures GroupHas(ops, n + 1, |r.groups|, Step(r, ops[n]).groups[|r.groups|].mws)
  {
    GroupBorn(ops, n, Step(r, ops[n]).groups[|r.groups|].mws);
  }

  /** Every group's list is what it inherited at its creation, then its own; nothing else ever reaches it. */
  lemma {:induction false} RunGroups(ops: seq<Op>, routers: seq<Router>, n: nat, g: nat)
    requires IsRun(ops, routers) && n <= |ops| && g < |routers[n].groups|
    ensures GroupHas(ops, n, g, routers[n].groups[g].mws)
    decreases n
  {
    assert n > 0;
    var k := n - 1;
    var before := routers[k];
    assert Possible(before, ops[k]) && routers[k + 1] == Step(before, ops[k]);
    if g < |before.groups| {
      RunGroups(ops, routers, k, g);
      OldGroup(ops, k, before, g);
    } else {
      RunCounts(ops, routers, k);
      if ops[k].parent.Some? { RunGroups(ops, routers, k, ops[k].parent.value); }
      NewGroupHas(ops, k, before);
    }
  }

  /** How many routes the operations register. */
  function Routes(ops: seq<Op>): nat {
    if ops == [] then 0 else Routes(ops[..|ops| - 1]) + (if ops[|ops| - 1].Handle? then 1 else 0)
  }

  lemma {:induction false} RoutesStay(ops: seq<Op>, routers: seq<Router>, m: nat, n: nat)
    requires IsRun(ops, routers) && m <= n <= |ops|
    ensures |routers[n].routes| == Routes(ops[..n]) && routers[m].routes <= routers[n].routes
    decreases n
  {
    if n > 0 {
      var k := n - 1;
      RoutesStay(ops, routers, if m < n then m else k, k);
      assert Possible(routers[k], ops[k]) && routers[k + 1] == Step(routers[k], ops[k]);
      StepRoutes(ops, k, routers[k]);
    }
  }

  lemma {:induction false} StepRoutes(ops: seq<Op>, k: nat, r: Router)
    requires k < |ops| && Possible(r, ops[k])
    ensures |Step(r, ops[k]).routes| - |r.routes| == Routes(ops[..k + 1]) - Routes(ops[..k])
    ensures r.routes <= Step(r, ops[k]).routes
  {
    assert ops[..k + 1][..k] == ops[..k];
  }

  lemma {:induction false} EventsChained(priority: seq<nat>, mws: seq<nat>, group: seq<nat>, h: Handler)
    ensures Events(Chained(priority, mws, Wrapped(group, h))) ==
      EnteredAll(priority) + EnteredAll(mws) + EnteredAll(group) + Events(h)
  {
    EventsWrapped(group, h);
    EventsWrapped(mws, Wrapped(group, h));
    EventsWrapped(priority, Wrapped(mws, Wrapped(group, h)));
    Assoc(EnteredAll(priority), EnteredAll(mws), EnteredAll(group) + Events(h));
    Assoc(EnteredAll(priority) + EnteredAll(mws), EnteredAll(group), Events(h));
  }

  /**
   In every interleaving: the route registered by operation `k` enters, whenever it runs, the priority
   middlewares, then the router's, then the group's (inherited ones first), each in registration order
   and only those registered before `k`; then it is served. Operations after `k` change nothing.
   */
  lemma {:induction false} RouteRunsInside(ops: seq<Op>, routers: seq<Router>, k: nat) returns (group: seq<nat>)
    requires IsRun(ops, routers) && k < |ops| && ops[k].Handle?
    ensures match ops[k].within case None => group == [] case Some(g) => GroupHas(ops, k, g, group)
    ensures Routes(ops[..k]) < |routers[|ops|].routes|
    ensures Events(routers[|ops|].routes[Routes(ops[..k])].handler) ==
      EnteredAll(UsedPriority(ops[..k])) + EnteredAll(Used(ops[..k])) + EnteredAll(group) + Events(ops[k].handler)
  {
    var r, h, i := routers[k], ops[k].handler, Routes(ops[..k]);
    RunCounts(ops, routers, k);
    RoutesStay(ops, routers, k, k);
    RoutesStay(ops, routers, k + 1, |ops|);
    assert routers[k + 1] == Step(r, ops[k]);
    group := [];
    if ops[k].within.Some? {
      var g := ops[k].within.value;
      RunGroups(ops, routers, k, g);
      group := r.groups[g].mws;
    }
    var stored := Chained(r.priority, r.mws, Wrapped(group, h));
    assert routers[k + 1].routes[i].handler == stored;
    assert routers[|ops|].routes[i] == routers[k + 1].routes[i];
    EventsChained(r.priority, r.mws, group, h);
  }
}
