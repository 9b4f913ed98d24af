/**
 Where a walk along a text ends in a tree of static routes, and how that moves when a route is added. It is all
 that decides whether a lookup of the text recommends a slash.
 */
module Spots {
  import opened Text
  import opened WildPath
  import opened Pattern
  import opened Trie
  import opened Conservation
  import opened StaticRoutes
  import opened Walks
  import opened SlashMarks

  /** Off the tree; inside the text of a node, before this character; or at the end of one. */
  datatype Spot = Off | Inside(next: char, marked: bool) | OnNode(marked: bool)

  predicate Recommends(s: Spot) { !s.Off? && s.marked }

  // ----- the spot of a text --------------------------------------------------------------------------------

  /** A child, not a bare marker, whose text starts like `u`. */
  predicate Meets(c: Trie, u: string) { c != MARKER && c.path != "" && u != "" && c.path[0] == u[0] }

  function FirstReal(kids: seq<Trie>, u: string): (k: nat)
    ensures k <= |kids| && (k < |kids| ==> Meets(kids[k], u)) && forall j :: 0 <= j < k ==> !Meets(kids[j], u)
  {
    if kids == [] || Meets(kids[0], u) then 0 else 1 + FirstReal(kids[1..], u)
  }

  /** A bare marker beside the node marks the spot inside its text that comes after the slash. */
  function Beside(s: Spot, marker: bool): Spot { if s.Inside? && marker then Inside(s.next, true) else s }

  function SpotBelow(n: Trie, u: string): Spot
    requires u != ""
    decreases |u|, 1
  {
    var k := FirstReal(n.kids, u);
    if k < |n.kids| then Beside(SpotVia(n.kids[k], u), u == "/" && MARKER in n.kids)
    else if u == "/" && MARKER in n.kids then OnNode(true)
    else Off
  }

  /** The same from before the text of `c` on. */
  function SpotVia(c: Trie, u: string): Spot
    requires c.path != ""
    decreases |u|, 0
  {
    if u == c.path then OnNode(c.tsr)
    else if c.path < u then SpotBelow(c, u[|c.path|..])
    else if u < c.path then Inside(c.path[|u|], false)
    else Off
  }

  lemma {:induction false} FirstIs(kids: seq<Trie>, k: nat, u: string)
    requires k <= |kids| && (k < |kids| ==> Meets(kids[k], u)) && forall j :: 0 <= j < k ==> !Meets(kids[j], u)
    ensures FirstReal(kids, u) == k
  {
  }

  lemma {:induction false} RealIs(kids: seq<Trie>, k: nat, u: string)
    requires StaticKids(kids) && k < |kids| && Meets(kids[k], u)
    ensures FirstReal(kids, u) == k
  {
    forall j | 0 <= j < k
      ensures !Meets(kids[j], u)
    {
      assert Apart(kids[j], kids[k]);
    }
    FirstIs(kids, k, u);
  }

  lemma {:induction false} StartsAlike(a: string, b: string)
    ensures Lcp(a, b) > 0 <==> a != "" && b != "" && a[0] == b[0]
  {
  }

  /** The child `add` descends into is the real one, or a bare marker if there is no other. */
  lemma {:induction false} SharedIsReal(n: Trie, u: string)
    requires StaticKids(n.kids) && Ordered(n.kids) && u != ""
    ensures var k, r := FirstShared(n.kids, u), FirstReal(n.kids, u);
      if r < |n.kids| then k == r else k < |n.kids| ==> n.kids[k] == MARKER
  {
    var k, r := FirstShared(n.kids, u), FirstReal(n.kids, u);
    forall j | 0 <= j < |n.kids|
      ensures Lcp(u, n.kids[j].path) > 0 <==> n.kids[j].path[0] == u[0]
    {
      StartsAlike(u, n.kids[j].path);
    }
    if r < |n.kids| {
      if k < r { FirstOfItsKind(n.kids, k, r); }
    } else if k < |n.kids| {
      assert !Meets(n.kids[k], u);
    }
  }

  lemma {:induction false} MarkerSpot(u: string)
    requires u != ""
    ensures SpotVia(MARKER, u) == if u == "/" then OnNode(true) else Off
  {
  }

  // ----- how an addition moves it --------------------------------------------------------------------------

  /** Adding `s`, which is new or not, where the spot of `u` is this one. */
  function Next(spot: Spot, s: string, u: string, isNew: bool): Spot {
    if u < s then
      match spot
      case Off => if s == u + "/" then OnNode(true) else Inside(s[|u|], false)
      case Inside(c, marked) => if s[|u|] == c then spot else OnNode(s == u + "/")
      case OnNode(marked) => OnNode(marked || s == u + "/")
    else if u == s + "/" && isNew then
      match spot
      case Inside(c, _) => Inside(c, true)
      case _ => OnNode(true)
    else spot
  }

  lemma {:induction false} SameFirst(a: seq<Trie>, b: seq<Trie>, u: string)
    requires |a| == |b| && forall i :: 0 <= i < |a| ==> (Meets(a[i], u) <==> Meets(b[i], u))
    ensures FirstReal(a, u) == FirstReal(b, u)
  {
    FirstIs(b, FirstReal(a, u), u);
  }

  lemma {:induction false} FirstAppend(kids: seq<Trie>, d: Trie, u: string)
    ensures var k := FirstReal(kids, u);
      FirstReal(kids + [d], u) == if k < |kids| || Meets(d, u) then k else |kids| + 1
  {
    var k, more := FirstReal(kids, u), kids + [d];
    assert more[|kids|] == d && forall j :: 0 <= j < |kids| ==> more[j] == kids[j];
    FirstIs(more, if k < |kids| || Meets(d, u) then k else |kids| + 1, u);
  }

  /** The chain of a new route. */
  lemma {:induction false} HungSpot(s: string, h: Handler, u: string)
    requires s != "" && u != "" && u != s && (u == s + "/" ==> s[|s| - 1] != '/')
    ensures SpotVia(Hung(NewNode(s), h), u) == Next(Off, s, u, true)
  {
    var c, last := Hung(NewNode(s), h), |s| - 1;
    if s != "/" && s[last] == '/' {
      SlashHungSpot(c, s[..last], s, u, h);
    } else if s != "/" {
      assert c.kids == [MARKER] by { assert [] + [MARKER] == [MARKER]; }
      if s < u { assert u == s + u[|s|..]; }
    }
  }

  lemma {:induction false} SlashHungSpot(c: Trie, t: string, s: string, u: string, h: Handler)
    requires t != "" && s == t + "/" && u != "" && u != s && u != s + "/"
    requires c == NewNode(t).(tsr := true, kids := [NewNode("/").(handler := Some(h))])
    ensures SpotVia(c, u) == Next(Off, s, u, true)
  {
    if t < u {
      var d, rest := c.kids[0], u[|t|..];
      assert u == t + rest && c.kids == [d];
      if d.path < rest { assert SpotBelow(d, rest[1..]) == Off; }
      assert SpotVia(d, rest).Off? || rest[0] != '/';
    } else if u < t {
      assert s[|u|] == t[|u|];
    }
  }

  /** Setting a handler marks or adds the "/" below. */
  lemma {:induction false} HandlerSpot(n: Trie, h: Handler, u: string)
    requires StaticNode(n) && Apt(n) && u != "" && (u == "/" ==> n.path != "/")
    ensures SpotBelow(SetHandler(n, h).node, u) == Next(SpotBelow(n, u), "", u, SetHandler(n, h).err == None)
  {
    if !(n.handler.Some? || n.tsr) {
      var k, m := FirstSlash(n.kids), n.(handler := Some(h));
      assert SetHandler(n, h) == Outcome(MarkSlash(m), None, Some([])) && FirstSlash(m.kids) == k;
      if k < |n.kids| {
        SlashIsMarked(n, k, h, u);
      } else if n.path != "/" {
        FirstAppend(n.kids, MARKER, u);
        SlashIsAdded(n, h, u);
      } else {
        assert SpotBelow(m, u) == SpotBelow(n, u);
      }
    } else {
      assert SetHandler(n, h) == Outcome(n, Some(HandlerExists), Some([]));
      assert Next(SpotBelow(n, u), "", u, false) == SpotBelow(n, u);
    }
  }

  lemma {:induction false} SlashIsMarked(n: Trie, k: nat, h: Handler, u: string)
    requires StaticNode(n) && Apt(n) && u != "" && n.handler == None && k < |n.kids| && n.kids[k].path == "/"
    ensures SpotBelow(n.(handler := Some(h), kids := n.kids[k := n.kids[k].(tsr := true)]), u) ==
      Next(SpotBelow(n, u), "", u, true)
  {
    var c := n.kids[k];
    var d := c.(tsr := true);
    var m := n.(handler := Some(h), kids := n.kids[k := d]);
    assert c in n.kids && c != MARKER && Purposeful(c) && MARKER !in n.kids;
    assert d != MARKER by { if c.handler == None && !c.tsr { assert Branches(c); } }
    SameFirst(n.kids, m.kids, u);
    assert MARKER !in m.kids;
    if Meets(c, u) {
      RealIs(n.kids, k, u);
      if u != "/" { KidsOnly(c, d, u[1..]); }
    } else {
      assert FirstReal(n.kids, u) != k;
    }
  }

  /** Below a node, only its children matter. */
  lemma {:induction false} KidsOnly(a: Trie, b: Trie, u: string)
    requires a.kids == b.kids && u != ""
    ensures SpotBelow(a, u) == SpotBelow(b, u)
  {
  }

  lemma {:induction false} SlashIsAdded(n: Trie, h: Handler, u: string)
    requires StaticNode(n) && Apt(n) && u != "" && n.handler == None
    requires FirstSlash(n.kids) == |n.kids| && FirstReal(n.kids + [MARKER], u) ==
      if FirstReal(n.kids, u) < |n.kids| then FirstReal(n.kids, u) else |n.kids| + 1
    ensures SpotBelow(n.(handler := Some(h), kids := n.kids + [MARKER]), u) == Next(SpotBelow(n, u), "", u, true)
  {
    var k := FirstReal(n.kids, u);
    assert MARKER !in n.kids && (n.kids + [MARKER])[|n.kids|] == MARKER;
    if k < |n.kids| && u == "/" { assert n.kids[k].path != "/"; }
  }

  lemma {:induction false} PrefixShift(t: string, a: string, b: string)
    ensures t + a <= t + b <==> a <= b
    ensures t + a == t + b <==> a == b
  {
    assert (t + a)[|t|..] == a && (t + b)[|t|..] == b;
    if t + a <= t + b { assert (t + b)[..|t + a|] == t + a && (t + b)[|t|..|t + a|] == b[..|a|]; }
    if a <= b { assert b == a + b[|a|..] && t + b == t + a + b[|a|..]; }
  }

  /** A node cut open below the text in front of `u`. */
  lemma {:induction false} CutSpot(c: Trie, i: nat, u: string)
    requires 0 < i < |c.path| && Split(c, i).kids[0] != MARKER && c.path[..i] < u
    ensures SpotBelow(Split(c, i), u[i..]) == SpotVia(c, u)
  {
    var cut, t, rest := Split(c, i), c.path[..i], u[i..];
    var low := cut.kids[0];
    assert u == t + rest && c.path == t + low.path;
    PrefixShift(t, low.path, rest);
    PrefixShift(t, rest, low.path);
    LowSpot(low, c, i, u, rest);
    assert cut.kids == [low] && MARKER !in cut.kids;
    FirstIs([low], if Meets(low, rest) then 0 else 1, rest);
  }

  lemma {:induction false} LowSpot(low: Trie, c: Trie, i: nat, u: string, rest: string)
    requires low.kids == c.kids && low.tsr == c.tsr && low.path != "" && rest != "" && |c.path| == i + |low.path|
    requires |u| == i + |rest| && u[i..] == rest && c.path[i..] == low.path
    requires (c.path <= u <==> low.path <= rest) && (u <= c.path <==> rest <= low.path)
    ensures SpotVia(low, rest) == SpotVia(c, u) && (rest[0] != low.path[0] ==> SpotVia(low, rest) == Off)
  {
    if rest == low.path {
      assert low.path <= rest && c.path <= u && |u| == |c.path| && c.path == u;
    } else if low.path < rest {
      assert rest[|low.path|..] == u[|c.path|..];
      KidsOnly(low, c, rest[|low.path|..]);
    } else if rest < low.path {
      assert c.path[i..][|rest|] == c.path[|u|];
    } else {
      assert !(c.path <= u) && !(u <= c.path);
    }
  }

  /** Common text in front does not matter. */
  lemma {:induction false} NextShift(x: Spot, t: string, s: string, u: string, isNew: bool)
    requires t <= s && t <= u
    ensures Next(x, s, u, isNew) == Next(x, s[|t|..], u[|t|..], isNew)
  {
    assert s == t + s[|t|..] && u == t + u[|t|..];
    AfterText(t, s, u);
    AfterText(t, u, s);
  }

  lemma {:induction false} BesideNext(x: Spot, s: string, u: string, isNew: bool)
    requires |u| == 1 && s != "" && u != s && s[0] == u[0] && !x.Off?
    ensures Beside(Next(x, s, u, isNew), true) == Next(Beside(x, true), s, u, isNew)
  {
    assert u < s;
  }

  lemma {:induction false} SplitSorted(c: Trie, i: nat)
    requires Sorted(c) && i <= |c.path|
    ensures Sorted(Split(c, i))
  {
    var low := Split(c, i).kids[0];
    assert Sorted(low);
  }

  /** The part cut off is no bare marker, and the cut node is as sound as the whole. */
  lemma {:induction false} CutIsSound(c: Trie, i: nat)
    requires StaticNode(c) && Sorted(c) && Apt(c) && Purposeful(c) && 0 < i <= |c.path|
    ensures var cut := CutAt(c, i); StaticNode(cut) && Sorted(cut) && Apt(cut) && cut.path == c.path[..i]
    ensures i < |c.path| ==> Split(c, i).kids[0] != MARKER
  {
    if i < |c.path| {
      SplitSorted(c, i);
      CutPurpose(c, i);
      OneKidApt(Split(c, i), Split(c, i).kids[0]);
    }
  }

  lemma {:induction false} CutPurpose(c: Trie, i: nat)
    requires Apt(c) && Purposeful(c) && 0 < i < |c.path|
    ensures var low := Split(c, i).kids[0]; Apt(low) && Purposeful(low) && low != MARKER
  {
    if Branches(c) { assert Branches(Split(c, i).kids[0]); }
  }

  /** An addition marks the node itself when only a slash is left. */
  lemma {:induction false} MarksItself(n: Trie, s: string, h: Handler)
    requires StaticNode(n) && '{' !in s
    ensures Add(n, s, h).node.tsr == (n.tsr || s == "/") && Add(n, s, h).node.path == n.path
  {
    AddKeepsText(n, s, h);
    if s != "" {
      if FirstShared(n.kids, s) == |n.kids| { InsertIs(n, s, h); } else { AddGrafts(n, s, h); }
    }
  }

  /** The slash before which a bare marker is put does not follow another one. */
  predicate NoDouble(n: Trie, s: string, u: string) {
    u == s + "/" ==> if s == "" then n.path != "/" else s[|s| - 1] != '/'
  }

  lemma {:induction false} InsertSpot(n: Trie, s: string, h: Handler, u: string)
    requires StaticNode(n) && Sorted(n) && '{' !in s && s != "" && u != "" && u != s && NoDouble(n, s, u)
    requires FirstShared(n.kids, s) == |n.kids|
    ensures SpotBelow(Add(n, s, h).node, u) == Next(SpotBelow(n, u), s, u, true) && Add(n, s, h).err == None
  {
    InsertIs(n, s, h);
    NoWildInLiterals(s);
    HungApt(s, h);
    if u[0] == s[0] {
      NothingShared(n, s, u);
      HungSpot(s, h, u);
    }
    SpotAppend(n, Hung(NewNode(s), h), n.tsr || s == "/", s, u);
  }

  lemma {:induction false} SpotAppend(n: Trie, d: Trie, mark: bool, s: string, u: string)
    requires s != "" && u != "" && d.path != "" && d.path[0] == s[0] && d != MARKER
    requires u[0] == s[0] ==> SpotVia(d, u) == Next(SpotBelow(n, u), s, u, true)
    requires u[0] == s[0] ==> FirstReal(n.kids, u) == |n.kids| && (u == "/" ==> MARKER !in n.kids)
    ensures SpotBelow(n.(kids := n.kids + [d], tsr := mark), u) == Next(SpotBelow(n, u), s, u, true)
  {
    FirstAppend(n.kids, d, u);
    assert MARKER in n.kids + [d] <==> MARKER in n.kids;
    assert (n.kids + [d])[|n.kids|] == d;
  }

  /** Where no child starts like `s`, a text that does is off the tree. */
  lemma {:induction false} NothingShared(n: Trie, s: string, u: string)
    requires StaticNode(n) && s != "" && u != "" && u[0] == s[0] && FirstShared(n.kids, s) == |n.kids|
    ensures FirstReal(n.kids, u) == |n.kids| && SpotBelow(n, u) == Off && (u == "/" ==> MARKER !in n.kids)
  {
    forall j | 0 <= j < |n.kids|
      ensures !Meets(n.kids[j], u) && (u == "/" ==> n.kids[j] != MARKER)
    {
      StartsAlike(s, n.kids[j].path);
    }
    FirstIs(n.kids, |n.kids|, u);
  }

  lemma {:induction false} AddSpot(n: Trie, s: string, h: Handler, u: string)
    requires StaticNode(n) && Sorted(n) && Apt(n) && '{' !in s && u != "" && u != s && NoDouble(n, s, u)
    ensures SpotBelow(Add(n, s, h).node, u) == Next(SpotBelow(n, u), s, u, Add(n, s, h).err == None)
    decreases |s|, 2
  {
    if s == "" {
      HandlerSpot(n, h, u);
    } else if FirstShared(n.kids, s) == |n.kids| {
      InsertSpot(n, s, h, u);
    } else {
      KidSpot(n, FirstShared(n.kids, s), s, h, u);
    }
  }

  lemma {:induction false} KidSpot(n: Trie, k: nat, s: string, h: Handler, u: string)
    requires StaticNode(n) && Sorted(n) && Apt(n) && '{' !in s && s != "" && u != "" && u != s && NoDouble(n, s, u)
    requires k == FirstShared(n.kids, s) < |n.kids|
    ensures SpotBelow(Add(n, s, h).node, u) == Next(SpotBelow(n, u), s, u, Add(n, s, h).err == None)
    decreases |s|, 1
  {
    var c := n.kids[k];
    assert StaticKids(n.kids);
    StartsAlike(s, c.path);
    AddGrafts(n, s, h);
    GraftError(n, s, h);
    GraftApt(c, s, h);
    if u[0] == s[0] { GraftSpot(c, s, h, u); }
    SpotUpdate(n, k, Grafted(c, s, h), n.tsr || s == "/", s, u, Add(n, s, h).err == None);
  }

  predicate GraftReturns(c: Trie, s: string, h: Handler) {
    var i := Lcp(s, c.path); Add(CutAt(c, i), s[i..], h).err == None
  }

  lemma {:induction false} GraftError(n: Trie, s: string, h: Handler)
    requires s != "" && FirstShared(n.kids, s) < |n.kids| && n.kids[FirstShared(n.kids, s)].kind == Static
    ensures Add(n, s, h).err == None <==> GraftReturns(n.kids[FirstShared(n.kids, s)], s, h)
  {
    AddAtKidCases(n, s, h);
  }

  /** What one child's spot says about its parent's. */
  lemma {:induction false} SpotUpdate(n: Trie, k: nat, d: Trie, mark: bool, s: string, u: string, isNew: bool)
    requires StaticKids(n.kids) && Ordered(n.kids) && s != "" && u != "" && u != s
    requires k == FirstShared(n.kids, s) < |n.kids| && d.path != "" && d.path[0] == n.kids[k].path[0] == s[0]
    requires d == MARKER ==> n.kids[k] == MARKER
    requires u[0] == s[0] ==> SpotVia(d, u) == Next(SpotVia(n.kids[k], u), s, u, isNew)
    ensures SpotBelow(n.(kids := n.kids[k := d], tsr := mark), u) == Next(SpotBelow(n, u), s, u, isNew)
  {
    if u[0] != s[0] {
      ApartUpdate(n, k, d, mark, u);
    } else if n.kids[k] == MARKER {
      MarkerUpdate(n, k, d, mark, s, u);
      if u == "/" { assert !SpotVia(d, u).Inside?; }
    } else {
      RealUpdate(n, k, d, mark, u);
      if u == "/" && MARKER in n.kids { BesideNext(SpotVia(n.kids[k], u), s, u, isNew); }
    }
  }

  lemma {:induction false} ApartUpdate(n: Trie, k: nat, d: Trie, mark: bool, u: string)
    requires k < |n.kids| && u != "" && d.path != "" && n.kids[k].path != "" && d.path[0] == n.kids[k].path[0] != u[0]
    ensures SpotBelow(n.(kids := n.kids[k := d], tsr := mark), u) == SpotBelow(n, u)
  {
    var kids := n.kids[k := d];
    SameFirst(n.kids, kids, u);
    assert FirstReal(n.kids, u) != k;
    if u == "/" {
      assert MARKER in n.kids ==> MARKER in kids by {
        if MARKER in n.kids {
          var j :| 0 <= j < |n.kids| && n.kids[j] == MARKER;
          assert kids[j] == MARKER;
        }
      }
      assert MARKER in kids ==> MARKER in n.kids;
    }
  }

  lemma {:induction false} RealUpdate(n: Trie, k: nat, d: Trie, mark: bool, u: string)
    requires StaticKids(n.kids) && k < |n.kids| && Meets(n.kids[k], u) && Meets(d, u)
    ensures SpotBelow(n.(kids := n.kids[k := d], tsr := mark), u) ==
      Beside(SpotVia(d, u), u == "/" && MARKER in n.kids)
    ensures SpotBelow(n, u) == Beside(SpotVia(n.kids[k], u), u == "/" && MARKER in n.kids)
  {
    var kids := n.kids[k := d];
    SameFirst(n.kids, kids, u);
    RealIs(n.kids, k, u);
    assert MARKER in n.kids ==> MARKER in kids by {
      if MARKER in n.kids {
        var j :| 0 <= j < |n.kids| && n.kids[j] == MARKER;
        assert kids[j] == MARKER;
      }
    }
    assert MARKER in kids ==> MARKER in n.kids;
  }

  lemma {:induction false} MarkerUpdate(n: Trie, k: nat, d: Trie, mark: bool, s: string, u: string)
    requires StaticKids(n.kids) && Ordered(n.kids) && s != "" && u != "" && u[0] == s[0] == '/'
    requires k == FirstShared(n.kids, s) < |n.kids| && n.kids[k] == MARKER && d.path != "" && d.path[0] == '/'
    ensures SpotBelow(n, u) == SpotVia(MARKER, u)
    ensures SpotBelow(n.(kids := n.kids[k := d], tsr := mark), u) == SpotVia(d, u)
      || (u == "/" && SpotVia(d, u).Inside?)
  {
    var kids := n.kids[k := d];
    SharedIsReal(n, s);
    MarkerSpot(u);
    forall j | 0 <= j < |n.kids|
      ensures !Meets(n.kids[j], u)
    {
      assert !Meets(n.kids[j], s);
    }
    FirstIs(n.kids, |n.kids|, u);
    assert n.kids[k] in n.kids && kids[k] in kids;
    if d == MARKER {
      assert kids == n.kids;
    } else {
      FirstIs(kids, k, u);
    }
  }

  /** A route added below a node moves the spot of `u` as `Next` says. */
  lemma {:induction false} GraftSpot(c: Trie, s: string, h: Handler, u: string)
    requires StaticNode(c) && Sorted(c) && Apt(c) && Purposeful(c) && '{' !in s && Lcp(s, c.path) > 0
    requires u != "" && u != s && (u == s + "/" ==> s[|s| - 1] != '/')
    ensures Grafted(c, s, h).path != ""
    ensures SpotVia(Grafted(c, s, h), u) == Next(SpotVia(c, u), s, u, GraftReturns(c, s, h))
    decreases |s|, 0
  {
    var i := Lcp(s, c.path);
    var t := s[..i];
    CutIsSound(c, i);
    MarksItself(CutAt(c, i), s[i..], h);
    if u == t {
      GraftedAtEnd(c, i, s, u, h);
    } else if t < u {
      ShiftedApart(t, s, u);
      assert NoDouble(CutAt(c, i), s[i..], u[i..]);
      AddSpot(CutAt(c, i), s[i..], h, u[i..]);
      GraftedBelow(c, i, s, u, h);
    } else if u < t {
      InsideStays(Grafted(c, s, h), c, t, s, u, GraftReturns(c, s, h));
    } else {
      ElsewhereStays(c, t, s, u, GraftReturns(c, s, h));
    }
  }

  lemma {:induction false} ShiftedApart(t: string, s: string, u: string)
    requires t <= s && t <= u && u != s
    ensures u[|t|..] != s[|t|..] && (u == s + "/" <==> u[|t|..] == s[|t|..] + "/")
  {
    assert u == t + u[|t|..] && s == t + s[|t|..];
    AfterText(t, u, s);
  }

  /** The text goes on below the node. */
  lemma {:induction false} GraftedBelow(c: Trie, i: nat, s: string, u: string, h: Handler)
    requires i == Lcp(s, c.path) > 0 && s[..i] == c.path[..i] < u && u[i..] != ""
    requires i < |c.path| ==> Split(c, i).kids[0] != MARKER
    requires Grafted(c, s, h).path == s[..i]
    requires SpotBelow(Grafted(c, s, h), u[i..]) ==
      Next(SpotBelow(CutAt(c, i), u[i..]), s[i..], u[i..], GraftReturns(c, s, h))
    ensures SpotVia(Grafted(c, s, h), u) == Next(SpotVia(c, u), s, u, GraftReturns(c, s, h))
  {
    NextShift(SpotVia(c, u), s[..i], s, u, GraftReturns(c, s, h));
    CutAtSpot(c, i, u);
  }

  lemma {:induction false} CutAtSpot(c: Trie, i: nat, u: string)
    requires 0 < i <= |c.path| && (i < |c.path| ==> Split(c, i).kids[0] != MARKER) && c.path[..i] < u
    ensures SpotBelow(CutAt(c, i), u[i..]) == SpotVia(c, u)
  {
    if i < |c.path| { CutSpot(c, i, u); } else { assert c.path[..i] == c.path; }
  }

  /** The text ends where the new route goes on. */
  lemma {:induction false} GraftedAtEnd(c: Trie, i: nat, s: string, u: string, h: Handler)
    requires i == Lcp(s, c.path) > 0 && u == s[..i] && u != s
    requires Grafted(c, s, h).path == u && Grafted(c, s, h).tsr == (CutAt(c, i).tsr || s[i..] == "/")
    ensures SpotVia(Grafted(c, s, h), u) == Next(SpotVia(c, u), s, u, GraftReturns(c, s, h))
  {
    LastSlash(s, u);
    if i < |c.path| { CutAtEnd(c, i, s, u); } else { assert c.path == u; }
  }

  lemma {:induction false} LastSlash(s: string, u: string)
    requires u <= s
    ensures s == u + "/" <==> s[|u|..] == "/"
  {
    assert s == u + s[|u|..];
  }

  lemma {:induction false} CutAtEnd(c: Trie, i: nat, s: string, u: string)
    requires i == Lcp(s, c.path) > 0 && u == s[..i] && i < |s| && i < |c.path|
    ensures SpotVia(c, u) == Inside(c.path[i], false) && s[i] != c.path[i]
  {
    LcpIsMaximal(s, c.path);
    assert c.path[..i] == u;
  }

  lemma {:induction false} LcpIsMaximal(s: string, t: string)
    requires Lcp(s, t) < |s| && Lcp(s, t) < |t|
    ensures s[Lcp(s, t)] != t[Lcp(s, t)]
  {
  }

  lemma {:induction false} InsideStays(d: Trie, c: Trie, t: string, s: string, u: string, isNew: bool)
    requires t <= c.path && t <= s && u < t && d.path == t
    ensures c.path != "" && SpotVia(d, u) == Next(SpotVia(c, u), s, u, isNew)
  {
    assert u == t[..|u|] == s[..|u|] == c.path[..|u|];
    assert s[|u|] == t[|u|] == c.path[|u|];
  }

  lemma {:induction false} ElsewhereStays(c: Trie, t: string, s: string, u: string, isNew: bool)
    requires c.path != "" && t <= c.path && t <= s && !(t <= u) && !(u <= t)
    ensures SpotVia(c, u) == Off && Next(Off, s, u, isNew) == Off
  {
  }
}
