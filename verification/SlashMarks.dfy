/**
 Which slash marks an addition to a tree of static routes sets, which routes make it do so, and how marks show
 in lookups.
 */
module SlashMarks {
  import opened Text
  import opened Pattern
  import opened Trie
  import opened Conservation
  import opened TrailingSlash
  import opened Lookup
  import opened StaticRoutes
  import opened StaticMap
  import opened Walks

  // ----- which marks an addition sets ----------------------------------------------------------------------

  /** Adding `s`, which ends in a slash, marks the node spelled by what comes before the slash. */
  predicate Sets(n: Trie, s: string)
    decreases |s|, 1
  {
    s == "/" || (s != "" && var k := FirstShared(n.kids, s); k == |n.kids| || SetsVia(n.kids[k], s))
  }

  predicate SetsVia(c: Trie, s: string)
    decreases |s|, 0
  {
    var i := Lcp(s, c.path); 0 < i < |s| && Sets(CutAt(c, i), s[i..])
  }

  lemma {:induction false} ReachesUpdate(n: Trie, k: nat, d: Trie, mark: bool, q: string, more: bool)
    requires k < |n.kids| && q != "" && (ReachesVia(d, q, Mark) <==> ReachesVia(n.kids[k], q, Mark) || more)
    ensures Reaches(n.(kids := n.kids[k := d], tsr := mark), q, Mark) <==> Reaches(n, q, Mark) || more
  {
    var m := n.(kids := n.kids[k := d], tsr := mark);
    if Reaches(n, q, Mark) {
      var j :| 0 <= j < |n.kids| && ReachesVia(n.kids[j], q, Mark);
      assert ReachesVia(m.kids[j], q, Mark);
    }
    if Reaches(m, q, Mark) {
      var j :| 0 <= j < |m.kids| && ReachesVia(m.kids[j], q, Mark);
      assert j != k ==> ReachesVia(n.kids[j], q, Mark);
    }
    if more { assert ReachesVia(m.kids[k], q, Mark); }
  }

  lemma {:induction false} ReachesAppend(n: Trie, d: Trie, mark: bool, q: string)
    requires q != ""
    ensures Reaches(n.(kids := n.kids + [d], tsr := mark), q, Mark) <==> Reaches(n, q, Mark) || ReachesVia(d, q, Mark)
  {
    var m := n.(kids := n.kids + [d], tsr := mark);
    assert m.kids[|n.kids|] == d;
    if Reaches(n, q, Mark) {
      var j :| 0 <= j < |n.kids| && ReachesVia(n.kids[j], q, Mark);
      assert ReachesVia(m.kids[j], q, Mark);
    }
  }

  lemma {:induction false} AloneReaches(c: Trie, q: string)
    requires c.kids == [] && c.path != ""
    ensures ReachesVia(c, q, Mark) <==> q == c.path && c.tsr
  {
    if c.path <= q { BareReaches(c, q[|c.path|..], Mark); }
  }

  lemma {:induction false} PairReaches(c: Trie, d: Trie, q: string)
    requires c.kids == [d] && d.kids == [] && c.path != "" && d.path != ""
    ensures ReachesVia(c, q, Mark) <==> (q == c.path && c.tsr) || (q == c.path + d.path && d.tsr)
  {
    if c.path <= q {
      var rest := q[|c.path|..];
      assert q == c.path + rest;
      OnlyVia(c, d, rest, Mark);
      AloneReaches(d, rest);
    }
  }

  lemma {:induction false} HungReaches(s: string, h: Handler, q: string)
    requires s != "" && '{' !in s && q != s + "/"
    ensures ReachesVia(Hung(NewNode(s), h), q, Mark) <==> q != "" && s == q + "/"
  {
    var c, last := Hung(NewNode(s), h), |s| - 1;
    if s == "/" {
      AloneReaches(c, q);
    } else if s[last] == '/' {
      assert s == s[..last] + "/";
      PairReaches(c, c.kids[0], q);
    } else {
      assert c.kids == [MARKER];
      PairReaches(c, MARKER, q);
    }
  }

  lemma {:induction false} MarkSlashReaches(n: Trie, q: string)
    requires q != "/"
    ensures Reaches(MarkSlash(n), q, Mark) <==> Reaches(n, q, Mark)
  {
    var k := FirstSlash(n.kids);
    if q != "" {
      if k < |n.kids| {
        var c := n.kids[k];
        var d := c.(tsr := true);
        assert ReachesVia(d, q, Mark) <==> ReachesVia(c, q, Mark) by {
          if c.path <= q { assert q[|c.path|..] != ""; }
        }
        ReachesUpdate(n, k, d, n.tsr, q, false);
      } else if n.path != "/" {
        BareReaches(MARKER, q[1..], Mark);
        ReachesAppend(n, MARKER, n.tsr, q);
        assert q == [q[0]] + q[1..];
      }
    }
  }

  lemma {:induction false} HandlerReaches(n: Trie, h: Handler, q: string)
    requires q != "/"
    ensures Reaches(SetHandler(n, h).node, q, Mark) <==> Reaches(n, q, Mark)
  {
    if !(n.handler.Some? || n.tsr) {
      SameBelow(n, n.(handler := Some(h)), q, Mark);
      MarkSlashReaches(n.(handler := Some(h)), q);
    }
  }

  lemma {:induction false} InsertReaches(n: Trie, s: string, h: Handler, q: string)
    requires s != "" && '{' !in s && q != s + "/"
    ensures Reaches(Insert(n, s, h).node, q, Mark) <==> Reaches(n, q, Mark) || s == q + "/"
  {
    InsertIs(n, s, h);
    HungReaches(s, h, q);
    if q != "" { ReachesAppend(n, Hung(NewNode(s), h), n.tsr || s == "/", q); }
  }

  /** An addition changes at most the mark before its own final slash, and the bare marker after its text. */
  lemma {:induction false} AddReaches(n: Trie, s: string, h: Handler, q: string)
    requires StaticNode(n) && '{' !in s && q != s + "/"
    ensures Reaches(Add(n, s, h).node, q, Mark) <==> Reaches(n, q, Mark) || (s == q + "/" && Sets(n, s))
    decreases |s|
  {
    var k := FirstShared(n.kids, s);
    if s == "" {
      assert "" + "/" == "/";
      HandlerReaches(n, h, q);
    } else if k == |n.kids| {
      InsertReaches(n, s, h, q);
    } else {
      KidReaches(n, s, h, q);
    }
  }

  lemma {:induction false} KidReaches(n: Trie, s: string, h: Handler, q: string)
    requires StaticNode(n) && s != "" && '{' !in s && q != s + "/" && FirstShared(n.kids, s) < |n.kids|
    ensures Reaches(Add(n, s, h).node, q, Mark) <==> Reaches(n, q, Mark) || (s == q + "/" && Sets(n, s))
    decreases |s|, 1
  {
    var k := FirstShared(n.kids, s);
    var c := n.kids[k];
    assert StaticKids(n.kids);
    AddGrafts(n, s, h);
    if q != "" {
      GraftReaches(c, s, h, q);
      ReachesUpdate(n, k, Grafted(c, s, h), n.tsr || s == "/", q, s == q + "/" && SetsVia(c, s));
    }
  }

  lemma {:induction false} AfterText(t: string, s: string, q: string)
    requires t <= s && t <= q
    ensures s == q + "/" <==> s[|t|..] == q[|t|..] + "/"
  {
    assert s == t + s[|t|..] && q == t + q[|t|..];
    assert q + "/" == t + (q[|t|..] + "/") && (q + "/")[|t|..] == q[|t|..] + "/";
  }

  lemma {:induction false} OnlyTheSlashIsLeft(t: string, q: string)
    requires t <= q + "/" && !(t <= q)
    ensures t == q + "/"
  {
    assert q == (q + "/")[..|q|];
  }

  lemma {:induction false} GraftReaches(c: Trie, s: string, h: Handler, q: string)
    requires StaticNode(c) && '{' !in s && Lcp(s, c.path) > 0 && q != s + "/" && q != ""
    ensures ReachesVia(Grafted(c, s, h), q, Mark) <==> ReachesVia(c, q, Mark) || (s == q + "/" && SetsVia(c, s))
    decreases |s|, 0
  {
    var i := Lcp(s, c.path);
    var cut, t := CutAt(c, i), s[..i];
    assert cut.path == c.path[..i] == t && StaticNode(cut);
    AddKeepsText(cut, s[i..], h);
    CutReaches(c, i, q, Mark);
    if t <= q {
      AfterText(t, s, q);
      AfterText(t, q, s);
      AddReaches(cut, s[i..], h, q[i..]);
      if s == q + "/" { assert i < |s| by { assert |t| <= |q|; } }
    } else if s == q + "/" {
      OnlyTheSlashIsLeft(t, q);
    }
  }

  lemma {:induction false} AddKeepsText(n: Trie, s: string, h: Handler)
    requires StaticNode(n) && '{' !in s
    ensures Add(n, s, h).node.path == n.path
  {
    if s != "" {
      if FirstShared(n.kids, s) == |n.kids| { InsertIs(n, s, h); } else { AddGrafts(n, s, h); }
    }
  }

  // ----- which routes make an addition set a mark ----------------------------------------------------------

  /** A route at `s` or beyond. */
  ghost predicate GoesOn(c: Trie, s: string) { exists x :: ReachesVia(c, s + x, Holder) }

  /** A route that goes on after `u` with something other than a slash. */
  ghost predicate Turns(c: Trie, u: string) { exists y :: y != "" && y[0] != '/' && ReachesVia(c, u + y, Holder) }

  lemma {:induction false} NoMarkerRoute(s: string)
    ensures !ReachesVia(MARKER, s, Holder)
  {
    if MARKER.path <= s { BareReaches(MARKER, s[1..], Holder); }
  }

  /** The child `add` looks at is the one all routes that start alike are under. */
  lemma {:induction false} SharesWith(n: Trie, s: string, x: string, j: nat)
    requires StaticNode(n) && Sorted(n) && s != "" && j < |n.kids| && ReachesVia(n.kids[j], x, Holder)
    requires x != "" && x[0] == s[0]
    ensures FirstShared(n.kids, s) == j
  {
    var k := FirstShared(n.kids, s);
    NoMarkerRoute(x);
    assert n.kids[j].path[0] == s[0];
    assert k <= j;
    if k < j { FirstOfItsKind(n.kids, k, j); }
  }

  /** The child a walk goes on at. */
  lemma {:induction false} KidOnWay(c: Trie, s: string) returns (j: nat)
    requires s != "" && ReachesVia(c, c.path + s, Holder)
    ensures j < |c.kids| && ReachesVia(c.kids[j], s, Holder)
  {
    assert (c.path + s)[|c.path|..] == s;
    j :| 0 <= j < |c.kids| && ReachesVia(c.kids[j], s, Holder);
  }

  lemma {:induction false} TextGoesOn(c: Trie, s: string)
    requires StaticNode(c) && Apt(c) && Purposeful(c) && |s| >= 2 && s <= c.path
    ensures GoesOn(c, s)
  {
    var z := Bears(c);
    ReachesOn(c, z, Holder);
    assert c.path + z == s + (c.path[|s|..] + z);
  }

  /** Nothing at or beyond `s`: adding it sets the mark. */
  lemma {:induction false} SetsWhenLast(c: Trie, s: string)
    requires StaticNode(c) && Apt(c) && Purposeful(c) && |s| >= 2 && EndsInSlash(s) && Lcp(s, c.path) > 0
    requires !GoesOn(c, s)
    ensures SetsVia(c, s)
    decreases |s|, 1
  {
    var i := Lcp(s, c.path);
    if i == |s| {
      TextGoesOn(c, s);
    } else {
      assert s[|s| - 1..] == "/";
      if i == |c.path| && i < |s| - 1 { SetsBelow(c, s, s[i..]); }
    }
  }

  lemma {:induction false} SetsBelow(c: Trie, s: string, rest: string)
    requires StaticNode(c) && Apt(c) && c.path != "" && s == c.path + rest && |rest| >= 2 && EndsInSlash(rest)
    requires !GoesOn(c, s)
    ensures Sets(c, rest)
    decreases |s|, 0
  {
    var k := FirstShared(c.kids, rest);
    if k < |c.kids| {
      assert StaticKids(c.kids);
      BeyondLifts(c, k, s, rest);
      SetsWhenLast(c.kids[k], rest);
    }
  }

  lemma {:induction false} BeyondLifts(c: Trie, k: nat, s: string, rest: string)
    requires c.path != "" && s == c.path + rest && k < |c.kids| && rest != ""
    ensures GoesOn(c.kids[k], rest) ==> GoesOn(c, s)
  {
    if x :| ReachesVia(c.kids[k], rest + x, Holder) {
      ReachesBelow(c, k, rest + x, Holder);
      ReachesOn(c, rest + x, Holder);
      assert c.path + (rest + x) == s + x;
    }
  }

  /** A route that leaves before the slash: adding `u + "/"` sets the mark. */
  lemma {:induction false} SetsWhenTurning(c: Trie, u: string, y: string)
    requires StaticNode(c) && Sorted(c) && u != "" && y != "" && y[0] != '/' && ReachesVia(c, u + y, Holder)
    ensures SetsVia(c, u + "/")
    decreases |u|
  {
    var s, x := u + "/", u + y;
    var i := Lcp(s, c.path);
    assert x[0] == s[0] == c.path[0];
    assert c.path == x[..|c.path|];
    assert x[|u|] == y[0] && s[|u|] == '/';
    assert i < |s|;
    if i < |u| {
      assert i == |c.path|;
      var rest := x[i..];
      assert rest == u[i..] + y && s[i..] == u[i..] + "/";
      var j :| 0 <= j < |c.kids| && ReachesVia(c.kids[j], rest, Holder);
      SharesWith(c, s[i..], rest, j);
      SetsWhenTurning(c.kids[j], u[i..], y);
    } else {
      assert s[i..] == "/";
    }
  }

  /** What the child shows when adding `u + "/"` sets the mark: a turn, nothing beyond, or a mark or handler already. */
  ghost predicate Explains(c: Trie, u: string) {
    Turns(c, u) || !GoesOn(c, u + "/") || ReachesVia(c, u, Mark) || ReachesVia(c, u, Holder)
  }

  lemma {:induction false} SetsIsExplained(c: Trie, u: string)
    requires StaticNode(c) && Apt(c) && Purposeful(c) && Sorted(c) && u != "" && SetsVia(c, u + "/")
    ensures Explains(c, u)
    decreases |u|
  {
    var s := u + "/";
    var i := Lcp(s, c.path);
    var rest := s[i..];
    assert i <= |u| && rest == u[i..] + "/" && c.path[..i] == u[..i];
    if i < |c.path| {
      CutIsExplained(c, u, i);
    } else if i == |u| {
      assert c.path == u;
      NodeIsExplained(c, u);
    } else {
      assert u == c.path + u[i..];
      BelowIsExplained(c, u, u[i..]);
    }
  }

  lemma {:induction false} CutIsExplained(c: Trie, u: string, i: nat)
    requires StaticNode(c) && Apt(c) && Purposeful(c) && 0 < i < |c.path| && i <= |u| && c.path[..i] == u[..i]
    requires c.path[i] != (u + "/")[i]
    ensures Explains(c, u)
  {
    if i == |u| {
      var z := Bears(c);
      ReachesOn(c, z, Holder);
      var y := c.path[i..] + z;
      assert c.path + z == u + y && y[0] == c.path[i];
    } else if x :| ReachesVia(c, u + "/" + x, Holder) {
      assert (u + "/" + x)[i] == c.path[i];
    }
  }

  lemma {:induction false} NodeIsExplained(c: Trie, u: string)
    requires StaticNode(c) && Apt(c) && Purposeful(c) && u == c.path != ""
    ensures Explains(c, u)
  {
    assert u[|c.path|..] == "";
    if c.handler == None && !c.tsr {
      var i, j :| 0 <= i < |c.kids| && 0 <= j < |c.kids| && Forks(c.kids[i], c.kids[j]);
      var k := if c.kids[i].path[0] == '/' then j else i;
      var z := KidBears(c, k);
      ReachesOn(c, z, Holder);
    }
  }

  lemma {:induction false} BelowIsExplained(c: Trie, u: string, rest: string)
    requires StaticNode(c) && Apt(c) && Purposeful(c) && Sorted(c) && c.path != "" && u == c.path + rest && rest != ""
    requires Sets(c, rest + "/")
    ensures Explains(c, u)
    decreases |u|, 0
  {
    var s := rest + "/";
    var k := FirstShared(c.kids, s);
    assert StaticKids(c.kids) && u + "/" == c.path + s;
    if k == |c.kids| {
      NothingBeyond(c, u, s);
    } else {
      SetsIsExplained(c.kids[k], rest);
      KidExplains(c, k, u, rest);
    }
  }

  lemma {:induction false} NothingBeyond(c: Trie, u: string, s: string)
    requires StaticNode(c) && Sorted(c) && s != "" && u + "/" == c.path + s && FirstShared(c.kids, s) == |c.kids|
    ensures !GoesOn(c, u + "/")
  {
    if x :| ReachesVia(c, u + "/" + x, Holder) {
      assert u + "/" + x == c.path + (s + x);
      var j := KidOnWay(c, s + x);
      SharesWith(c, s, s + x, j);
    }
  }

  lemma {:induction false} TurnLifts(c: Trie, k: nat, u: string, rest: string)
    requires c.path != "" && u == c.path + rest && k < |c.kids| && Turns(c.kids[k], rest)
    ensures Turns(c, u)
  {
    var y :| y != "" && y[0] != '/' && ReachesVia(c.kids[k], rest + y, Holder);
    ReachesBelow(c, k, rest + y, Holder);
    ReachesOn(c, rest + y, Holder);
    assert c.path + (rest + y) == u + y;
  }

  lemma {:induction false} BeyondLowers(c: Trie, k: nat, u: string, rest: string)
    requires StaticNode(c) && Sorted(c) && c.path != "" && u == c.path + rest && rest != ""
    requires k < |c.kids| && k == FirstShared(c.kids, rest + "/") && GoesOn(c, u + "/")
    ensures GoesOn(c.kids[k], rest + "/")
  {
    var x :| ReachesVia(c, u + "/" + x, Holder);
    var s := rest + "/";
    assert u + "/" + x == c.path + (s + x);
    var j := KidOnWay(c, s + x);
    SharesWith(c, s, s + x, j);
  }

  lemma {:induction false} KidExplains(c: Trie, k: nat, u: string, rest: string)
    requires StaticNode(c) && Sorted(c) && c.path != "" && u == c.path + rest && rest != ""
    requires k < |c.kids| && k == FirstShared(c.kids, rest + "/") && Explains(c.kids[k], rest)
    ensures Explains(c, u)
  {
    var d := c.kids[k];
    if Turns(d, rest) {
      TurnLifts(c, k, u, rest);
    } else if ReachesVia(d, rest, Mark) {
      ReachesBelow(c, k, rest, Mark);
      ReachesOn(c, rest, Mark);
    } else if ReachesVia(d, rest, Holder) {
      ReachesBelow(c, k, rest, Holder);
      ReachesOn(c, rest, Holder);
    } else if GoesOn(c, u + "/") {
      BeyondLowers(c, k, u, rest);
    }
  }

  // ----- sort, and exchanged handlers ----------------------------------------------------------------------

  lemma {:induction false} SortReaches(a: Trie, b: Trie, s: string, what: Sought)
    requires SortsTo(a, b)
    ensures Reaches(a, s, what) <==> Reaches(b, s, what)
    decreases a
  {
    var mid: seq<Trie> :| SortsEach(a, mid) && multiset(mid) == multiset(b.kids);
    forall i | 0 <= i < |mid|
      ensures ReachesVia(a.kids[i], s, what) <==> ReachesVia(mid[i], s, what)
    {
      var c := a.kids[i];
      assert SortsTo(c, mid[i]) && mid[i].path == c.path;
      if c.path <= s { SortReaches(c, mid[i], s[|c.path|..], what); }
    }
    SameReach(a, mid, b, s, what);
  }

  lemma {:induction false} SameReach(a: Trie, mid: seq<Trie>, b: Trie, s: string, what: Sought)
    requires |mid| == |a.kids| && multiset(mid) == multiset(b.kids) && At(a, what) == At(b, what)
    requires forall i :: 0 <= i < |mid| ==> (ReachesVia(a.kids[i], s, what) <==> ReachesVia(mid[i], s, what))
    ensures Reaches(a, s, what) <==> Reaches(b, s, what)
  {
    if s != "" && Reaches(a, s, what) {
      var i :| 0 <= i < |a.kids| && ReachesVia(a.kids[i], s, what);
      assert mid[i] in multiset(b.kids);
      var j :| 0 <= j < |b.kids| && b.kids[j] == mid[i];
      ReachesBelow(b, j, s, what);
    }
    if s != "" && Reaches(b, s, what) {
      var j :| 0 <= j < |b.kids| && ReachesVia(b.kids[j], s, what);
      assert b.kids[j] in multiset(mid);
      var i :| 0 <= i < |mid| && mid[i] == b.kids[j];
      ReachesBelow(a, i, s, what);
    }
  }

  lemma {:induction false} SortPurpose(a: Trie, b: Trie)
    requires SortsTo(a, b)
    ensures (Purposeful(a) ==> Purposeful(b)) && (b == MARKER ==> a == MARKER)
  {
    var mid: seq<Trie> :| SortsEach(a, mid) && multiset(mid) == multiset(b.kids);
    SortSameSize(mid, b.kids);
    if Branches(a) {
      var i, j :| 0 <= i < |a.kids| && 0 <= j < |a.kids| && Forks(a.kids[i], a.kids[j]);
      assert SortsTo(a.kids[i], mid[i]) && SortsTo(a.kids[j], mid[j]);
      assert mid[i] in multiset(b.kids) && mid[j] in multiset(b.kids);
      var p :| 0 <= p < |b.kids| && b.kids[p] == mid[i];
      var q :| 0 <= q < |b.kids| && b.kids[q] == mid[j];
      assert Forks(b.kids[p], b.kids[q]);
    }
  }

  lemma {:induction false} SortSameSize<T>(a: seq<T>, b: seq<T>)
    requires multiset(a) == multiset(b)
    ensures |a| == |b|
  {
    assert |multiset(a)| == |multiset(b)|;
  }

  lemma {:induction false} SortApt(a: Trie, b: Trie)
    requires SortsTo(a, b) && Apt(a)
    ensures Apt(b)
    decreases a
  {
    var mid: seq<Trie> :| SortsEach(a, mid) && multiset(mid) == multiset(b.kids);
    forall i | 0 <= i < |mid|
      ensures Apt(mid[i]) && Purposeful(mid[i]) && (mid[i] == MARKER ==> a.handler.Some?)
    {
      SortApt(a.kids[i], mid[i]);
      SortPurpose(a.kids[i], mid[i]);
    }
    forall k | 0 <= k < |b.kids|
      ensures b.kids[k] in mid
    {
      assert b.kids[k] in multiset(mid);
    }
  }

  /** The tree with the handler of a node exchanged for another. */
  lemma {:induction false} RehandledMarks(n: Trie, at: seq<nat>, h: Handler, s: string)
    requires NodeAt(n, at).Some? && NodeAt(n, at).value.handler.Some?
    ensures var m := Replace(n, at, NodeAt(n, at).value.(handler := Some(h)));
      m.path == n.path && (Reaches(m, s, Mark) <==> Reaches(n, s, Mark))
    decreases |at|
  {
    if at == [] {
      SameBelow(n, n.(handler := Some(h)), s, Mark);
    } else {
      var k, c := at[0], n.kids[at[0]];
      var d := Replace(c, at[1..], NodeAt(n, at).value.(handler := Some(h)));
      RehandledMarks(c, at[1..], h, if c.path <= s then s[|c.path|..] else "");
      if s != "" { ReachesUpdate(n, k, d, n.tsr, s, false); }
    }
  }

  lemma {:induction false} RehandledApt(n: Trie, at: seq<nat>, h: Handler)
    requires NodeAt(n, at).Some? && NodeAt(n, at).value.handler.Some? && Apt(n)
    ensures var m := Replace(n, at, NodeAt(n, at).value.(handler := Some(h)));
      Apt(m) && Keeps(n, m) && (n != MARKER ==> m != MARKER) && (n == MARKER ==> at != [])
    decreases |at|
  {
    if at != [] {
      var k, c := at[0], n.kids[at[0]];
      var d := Replace(c, at[1..], NodeAt(n, at).value.(handler := Some(h)));
      RehandledApt(c, at[1..], h);
      KeepsPurpose(c, d);
      UpdateApt(n, k, d, n.tsr);
    }
  }

  // ----- walks, routes and lookups -------------------------------------------------------------------------

  /** A walk to a handler spells a stored route. */
  lemma {:induction false} WalkIsRoute(c: Trie, s: string, pre: Pattern) returns (h: Handler)
    requires StaticNode(c) && ReachesVia(c, s, Holder)
    ensures (pre + Lits(s), h) in Routes(c, pre)
    decreases c
  {
    var rest, full := s[|c.path|..], pre + TextOf(c);
    TextBelow(pre, c, s, |c.path|);
    if rest == "" {
      h := c.handler.value;
      OwnHandler(c, pre);
    } else {
      var k :| 0 <= k < |c.kids| && ReachesVia(c.kids[k], rest, Holder);
      assert StaticKids(c.kids);
      h := WalkIsRoute(c.kids[k], rest, full);
      KidRoute(c, k, pre, (full + Lits(rest), h));
    }
  }

  /** A stored route is reached by walking along it. */
  lemma {:induction false} RouteIsWalk(c: Trie, s: string, pre: Pattern, h: Handler)
    requires StaticNode(c) && c.path != "" && (pre + Lits(s), h) in Routes(c, pre)
    ensures ReachesVia(c, s, Holder)
    decreases c
  {
    var full := pre + TextOf(c);
    RouteHasText(c, s, pre, h);
    var rest := s[|c.path|..];
    TextBelow(pre, c, s, |c.path|);
    if rest != "" {
      OwnIsShorter(c, pre, rest, h);
      var k := StaticKidRoute(c.kids, full, rest, h);
      assert StaticKids(c.kids);
      RouteIsWalk(c.kids[k], rest, full, h);
      ReachesBelow(c, k, rest, Holder);
    }
  }

  lemma {:induction false} RouteHasText(c: Trie, s: string, pre: Pattern, h: Handler)
    requires StaticNode(c) && (pre + Lits(s), h) in Routes(c, pre)
    ensures c.path <= s && (s == c.path ==> c.handler == Some(h))
  {
    var t := StaticRoute(c, pre, (pre + Lits(s), h));
    LitsInjective(pre, s, t);
  }

  lemma {:induction false} WalksAreEntries(root: Trie, m: map<string, Handler>, s: string)
    requires Holds(root, m) && root != EMPTY
    ensures ReachesVia(root, s, Holder) <==> s in m
  {
    assert [] + Lits(s) == Lits(s);
    if ReachesVia(root, s, Holder) {
      var h := WalkIsRoute(root, s, []);
      EntriesHas(m, s, h);
    }
    if s in m {
      EntriesHas(m, s, m[s]);
      RouteIsWalk(root, s, [], m[s]);
    }
  }

  /** A recommendation comes from a marked node the walk along the path ends at. */
  lemma {:induction false} AdviceIsMark(n: Trie, k: nat, path: string)
    requires StaticNode(n) && Searchable(n) && path != "" && k <= |n.kids| && GetFrom(n, k, path).tsr
    ensures Reaches(n, path, Mark)
    decreases n, |n.kids| - k
  {
    var c := n.kids[k];
    assert StaticKids(n.kids);
    if path == c.path {
      assert path[|c.path|..] == "";
      ReachesBelow(n, k, path, Mark);
    } else if c.path < path && GetFromChild(c, path[|c.path|..]).tsr {
      AdviceIsMark(c, 0, path[|c.path|..]);
      ReachesBelow(n, k, path, Mark);
    } else {
      AdviceIsMark(n, k + 1, path);
    }
  }

  lemma {:induction false} MarkerIsBelowHandler(n: Trie, at: nat, path: string)
    requires Apt(n) && EndsInSlash(path) && at < |n.kids| && ReachesVia(n.kids[at], path, Mark)
    ensures n.kids[at] == MARKER ==> Reaches(n, path[..|path| - 1], Holder)
  {
    if n.kids[at] == MARKER {
      assert n.kids[at] in n.kids;
      BareReaches(MARKER, path[1..], Mark);
      assert path[..|path| - 1] == "";
    }
  }

  /** A mark is found by a lookup, unless it is the bare marker of the route without the slash. */
  lemma {:induction false} MarkIsAdvice(n: Trie, k: nat, at: nat, path: string)
    requires StaticNode(n) && Searchable(n) && Sorted(n) && Apt(n) && EndsInSlash(path) && k <= at < |n.kids|
    requires ReachesVia(n.kids[at], path, Mark) && !Reaches(n, path[..|path| - 1], Holder)
    ensures GetFrom(n, k, path).tsr
    decreases n, at - k + 1
  {
    var c := n.kids[at];
    assert StaticKids(n.kids);
    if k < at {
      MarkerIsBelowHandler(n, at, path);
      FirstOfItsKind(n.kids, k, at);
      MarkIsAdvice(n, k + 1, at, path);
    } else if path != c.path {
      MarkFurtherOn(n, at, path, path[|c.path|..]);
    } else {
      assert path[|c.path|..] == "";
    }
  }

  lemma {:induction false} MarkFurtherOn(n: Trie, at: nat, path: string, rest: string)
    requires StaticNode(n) && Searchable(n) && Sorted(n) && Apt(n) && EndsInSlash(path) && at < |n.kids|
    requires !Reaches(n, path[..|path| - 1], Holder) && path == n.kids[at].path + rest && rest != ""
    requires n.kids[at].path != "" && Reaches(n.kids[at], rest, Mark)
    ensures GetFrom(n, at, path).tsr
    decreases n, 0
  {
    var c := n.kids[at];
    assert StaticKids(n.kids) && path[|c.path|..] == rest && EndsInSlash(rest);
    var j :| 0 <= j < |c.kids| && ReachesVia(c.kids[j], rest, Mark);
    HolderBelow(n, at, path, rest);
    MarkIsAdvice(c, 0, j, rest);
  }

  lemma {:induction false} HolderBelow(n: Trie, at: nat, path: string, rest: string)
    requires at < |n.kids| && n.kids[at].path != "" && path == n.kids[at].path + rest && rest != ""
    ensures Reaches(n.kids[at], rest[..|rest| - 1], Holder) ==> Reaches(n, path[..|path| - 1], Holder)
  {
    var c, init := n.kids[at], rest[..|rest| - 1];
    assert path[..|path| - 1] == c.path + init;
    if Reaches(c, init, Holder) {
      ReachesOn(c, init, Holder);
      ReachesBelow(n, at, c.path + init, Holder);
    }
  }

  lemma {:induction false} TreeAdviceIsMark(root: Trie, path: string)
    requires StaticNode(root) && Searchable(root) && root.path != "" && Get(root, path).tsr
    ensures ReachesVia(root, path, Mark)
  {
    if path == root.path { assert path[|root.path|..] == ""; } else { AdviceIsMark(root, 0, path[|root.path|..]); }
  }

  lemma {:induction false} TreeMarkIsAdvice(root: Trie, p: string)
    requires StaticNode(root) && Searchable(root) && Sorted(root) && Apt(root) && root.path != ""
    requires ReachesVia(root, p + "/", Mark) && !ReachesVia(root, p, Holder)
    ensures Get(root, p + "/").tsr
  {
    var path := p + "/";
    var rest := path[|root.path|..];
    assert path == root.path + rest;
    if rest != "" { MarkBelowRoot(root, p, rest); }
  }

  lemma {:induction false} MarkBelowRoot(root: Trie, p: string, rest: string)
    requires StaticNode(root) && Searchable(root) && Sorted(root) && Apt(root) && root.path != "" && rest != ""
    requires p + "/" == root.path + rest && Reaches(root, rest, Mark) && !ReachesVia(root, p, Holder)
    ensures GetFrom(root, 0, rest).tsr
  {
    var j :| 0 <= j < |root.kids| && ReachesVia(root.kids[j], rest, Mark);
    assert rest[|rest| - 1] == (p + "/")[|p|];
    assert p == (p + "/")[..|p|] == root.path + rest[..|rest| - 1] && p[|root.path|..] == rest[..|rest| - 1];
    MarkIsAdvice(root, 0, j, rest);
  }

  lemma {:induction false} SpelledOn(c: Trie, rest: string, pre: Pattern)
    requires StaticNode(c)
    ensures pre + TextOf(c) + Lits(rest) == pre + Lits(c.path + rest)
  {
    LitsConcat(c.path, rest);
    assert TextOf(c) == Lits(c.path);
    assert pre + (Lits(c.path) + Lits(rest)) == pre + Lits(c.path) + Lits(rest);
  }

  lemma {:induction false} MarkedIsSlashed(c: Trie, pre: Pattern, stored: set<Pattern>)
    requires StaticNode(c) && c.tsr && MarksHold(c, pre, stored) && !EndsInSlash(c.path)
    ensures Slashed(stored, pre + Lits(c.path))
  {
    assert Justified(stored, pre + TextOf(c), c.path == "/");
  }

  lemma {:induction false} MarkedKid(c: Trie, rest: string, full: Pattern, stored: set<Pattern>) returns (k: nat)
    requires StaticNode(c) && rest != "" && Reaches(c, rest, Mark) && KidMarksHold(c.kids, full, stored)
    ensures k < |c.kids| && ReachesVia(c.kids[k], rest, Mark)
    ensures StaticNode(c.kids[k]) && MarksHold(c.kids[k], full, stored)
  {
    k :| 0 <= k < |c.kids| && ReachesVia(c.kids[k], rest, Mark);
    assert StaticKids(c.kids);
  }

  /** A walk that does not end in a slash ends at a mark that a longer route justifies. */
  lemma {:induction false} WalkIsJustified(c: Trie, s: string, pre: Pattern, stored: set<Pattern>)
    requires StaticNode(c) && ReachesVia(c, s, Mark) && MarksHold(c, pre, stored) && !EndsInSlash(s)
    ensures Slashed(stored, pre + Lits(s))
    decreases c
  {
    var rest, full := s[|c.path|..], pre + TextOf(c);
    assert s == c.path + rest;
    if rest == "" {
      assert s == c.path;
      MarkedIsSlashed(c, pre, stored);
    } else {
      var k := MarkedKid(c, rest, full, stored);
      assert rest[|rest| - 1] == s[|s| - 1];
      WalkIsJustified(c.kids[k], rest, full, stored);
      SpelledOn(c, rest, pre);
    }
  }
}
