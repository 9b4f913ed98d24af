/**
 Walking a tree of static routes along a text, to a mark or to a handler; and why each of its nodes is there.
 Every addition keeps that.
 */
module Walks {
  import opened Text
  import opened WildPath
  import opened Pattern
  import opened Trie
  import opened Conservation
  import opened StaticRoutes

  // ----- walking a tree by text ----------------------------------------------------------------------------

  /** What a walk looks for where its text ends: a mark or a handler. */
  datatype Sought = Mark | Holder

  predicate At(n: Trie, what: Sought) {
    match what case Mark => n.tsr case Holder => n.handler.Some?
  }

  /** Some walk below `n` along the text `s` ends at a node with what is sought. */
  predicate Reaches(n: Trie, s: string, what: Sought)
    decreases n, 0
  {
    if s == "" then At(n, what) else exists k :: 0 <= k < |n.kids| && ReachesVia(n.kids[k], s, what)
  }

  /** The same from before the text of `c` on. */
  predicate ReachesVia(c: Trie, s: string, what: Sought)
    decreases c, 1
  {
    c.path != "" && c.path <= s && Reaches(c, s[|c.path|..], what)
  }

  lemma {:induction false} ReachesBelow(n: Trie, k: nat, s: string, what: Sought)
    requires k < |n.kids| && ReachesVia(n.kids[k], s, what)
    ensures Reaches(n, s, what)
  {
    assert s != "";
  }

  /** The text at which a walk passes from one node to the next. */
  lemma {:induction false} ReachesOn(c: Trie, s: string, what: Sought)
    requires c.path != "" && Reaches(c, s, what)
    ensures ReachesVia(c, c.path + s, what)
  {
    assert (c.path + s)[|c.path|..] == s;
  }

  /** The walks below a node with a single child. */
  lemma {:induction false} OnlyVia(n: Trie, d: Trie, s: string, what: Sought)
    requires n.kids == [d]
    ensures Reaches(n, s, what) <==> if s == "" then At(n, what) else ReachesVia(d, s, what)
  {
    if s != "" && ReachesVia(d, s, what) { assert ReachesVia(n.kids[0], s, what); }
  }

  lemma {:induction false} BareReaches(n: Trie, q: string, what: Sought)
    requires n.kids == []
    ensures Reaches(n, q, what) <==> q == "" && At(n, what)
  {
  }

  lemma {:induction false} TextSplits(t: string, i: nat, s: string)
    requires 0 < i < |t|
    ensures t <= s <==> t[..i] <= s && t[i..] <= s[i..]
    ensures t <= s ==> s[i..][|t[i..]|..] == s[|t|..]
  {
    assert t == t[..i] + t[i..];
    if t[..i] <= s { assert s == t[..i] + s[i..]; }
  }

  /** A split moves no mark and no handler to another text. */
  lemma {:induction false} SplitReaches(c: Trie, i: nat, s: string, what: Sought)
    requires 0 < i < |c.path|
    ensures ReachesVia(Split(c, i), s, what) <==> ReachesVia(c, s, what)
  {
    var cut := Split(c, i);
    var d := cut.kids[0];
    TextSplits(c.path, i, s);
    if cut.path <= s { OnlyVia(cut, d, s[i..], what); }
    if c.path <= s { SameBelow(c, d, s[|c.path|..], what); }
  }

  lemma {:induction false} SameBelow(a: Trie, b: Trie, s: string, what: Sought)
    requires a.kids == b.kids && At(a, what) == At(b, what)
    ensures Reaches(a, s, what) <==> Reaches(b, s, what)
  {
  }

  lemma {:induction false} CutReaches(c: Trie, i: nat, s: string, what: Sought)
    requires 0 < i <= |c.path|
    ensures ReachesVia(CutAt(c, i), s, what) <==> ReachesVia(c, s, what)
  {
    if i < |c.path| { SplitReaches(c, i, s, what); }
  }

  // ----- which nodes there are -----------------------------------------------------------------------------

  /** Two children that go on differently. */
  predicate Branches(n: Trie) {
    exists i, j :: 0 <= i < |n.kids| && 0 <= j < |n.kids| && Forks(n.kids[i], n.kids[j])
  }

  predicate Forks(a: Trie, b: Trie) { a.path != "" && b.path != "" && a.path[0] != b.path[0] }

  /** Why there is a node: a handler, a mark for what comes below it, a branching, or it is a bare marker. */
  predicate Purposeful(n: Trie) {
    n == MARKER || n.handler.Some? || (n.tsr && n.kids != []) || Branches(n)
  }

  /** All nodes below `n` have a purpose, and bare markers stand below handlers. */
  predicate Apt(n: Trie) {
    (MARKER in n.kids ==> n.handler.Some?) && forall k :: 0 <= k < |n.kids| ==> Apt(n.kids[k]) && Purposeful(n.kids[k])
  }

  /** Every node but a bare marker leads to a handler. */
  lemma {:induction false} Bears(c: Trie) returns (s: string)
    requires StaticNode(c) && Apt(c) && Purposeful(c) && c != MARKER
    ensures Reaches(c, s, Holder)
    decreases c
  {
    if c.handler.Some? {
      s := "";
    } else {
      s := KidBears(c, 0);
    }
  }

  /** A child of a node without a handler leads to one. */
  lemma {:induction false} KidBears(n: Trie, k: nat) returns (s: string)
    requires StaticNode(n) && Apt(n) && n.handler == None && k < |n.kids|
    ensures s != "" && ReachesVia(n.kids[k], s, Holder) && Reaches(n, s, Holder) && s[0] == n.kids[k].path[0]
    decreases n, 0
  {
    var c := n.kids[k];
    assert c in n.kids && StaticKids(n.kids);
    var rest := Bears(c);
    s := c.path + rest;
    ReachesOn(c, rest, Holder);
    ReachesBelow(n, k, s, Holder);
  }

  // ----- what an addition does to them ---------------------------------------------------------------------

  /** What `add` does not take back: text, handlers, marks, and how children start. */
  predicate Keeps(n: Trie, m: Trie) {
    && m.path == n.path && (n.handler.Some? ==> m.handler.Some?) && (n.tsr ==> m.tsr) && |n.kids| <= |m.kids|
    && forall k :: 0 <= k < |n.kids| && n.kids[k].path != "" ==>
         m.kids[k].path != "" && m.kids[k].path[0] == n.kids[k].path[0]
  }

  lemma {:induction false} KeepsPurpose(n: Trie, m: Trie)
    requires Keeps(n, m) && Purposeful(n) && (n == MARKER ==> m == MARKER || m.kids != [])
    ensures Purposeful(m) && (m == MARKER ==> n == MARKER)
  {
    if Branches(n) {
      var i, j :| 0 <= i < |n.kids| && 0 <= j < |n.kids| && Forks(n.kids[i], n.kids[j]);
      assert Forks(m.kids[i], m.kids[j]);
    }
  }

  lemma {:induction false} UpdateApt(n: Trie, k: nat, d: Trie, mark: bool)
    requires Apt(n) && k < |n.kids| && Apt(d) && Purposeful(d) && (d == MARKER ==> n.kids[k] == MARKER)
    ensures Apt(n.(kids := n.kids[k := d], tsr := mark))
  {
    if MARKER in n.kids[k := d] { assert MARKER in n.kids; }
  }

  lemma {:induction false} AppendApt(n: Trie, d: Trie, mark: bool)
    requires Apt(n) && Apt(d) && Purposeful(d) && (d == MARKER ==> n.handler.Some?)
    ensures Apt(n.(kids := n.kids + [d], tsr := mark))
  {
  }

  lemma {:induction false} MarkSlashApt(n: Trie)
    requires Apt(n) && n.handler.Some?
    ensures Apt(MarkSlash(n)) && Keeps(n, MarkSlash(n))
  {
    var k := FirstSlash(n.kids);
    if k < |n.kids| {
      var c := n.kids[k];
      if c != MARKER {
        assert Purposeful(c.(tsr := true)) && c.(tsr := true) != MARKER by {
          if Branches(c) { assert c.kids != [] && Branches(c.(tsr := true)); }
        }
        UpdateApt(n, k, c.(tsr := true), n.tsr);
      } else {
        assert n.kids[k := c.(tsr := true)] == n.kids;
      }
    } else if n.path != "/" {
      AppendApt(n, MARKER, n.tsr);
    }
  }

  lemma {:induction false} SetHandlerApt(n: Trie, h: Handler)
    requires Apt(n)
    ensures Apt(SetHandler(n, h).node) && Keeps(n, SetHandler(n, h).node)
  {
    if !(n.handler.Some? || n.tsr) {
      var m := n.(handler := Some(h));
      MarkSlashApt(m);
    }
  }

  lemma {:induction false} EndApt(d: Trie)
    requires d.kids == [] && (d.handler.Some? || d == MARKER)
    ensures Apt(d) && Purposeful(d)
  {
  }

  lemma {:induction false} OneKidApt(c: Trie, d: Trie)
    requires c.kids == [d] && Apt(d) && Purposeful(d) && (d == MARKER ==> c.handler.Some?)
    ensures Apt(c)
  {
  }

  lemma {:induction false} HungApt(s: string, h: Handler)
    requires s != "" && '{' !in s
    ensures var c := Hung(NewNode(s), h); Apt(c) && Purposeful(c) && c != MARKER && c.path != "" && c.path[0] == s[0]
  {
    var c, leaf := Hung(NewNode(s), h), NewNode(s).(handler := Some(h));
    if s == "/" {
      EndApt(leaf);
    } else if s[|s| - 1] == '/' {
      EndApt(c.kids[0]);
      OneKidApt(c, c.kids[0]);
    } else {
      assert c.kids == [MARKER];
      EndApt(MARKER);
      OneKidApt(c, MARKER);
    }
  }

  lemma {:induction false} InsertIs(n: Trie, s: string, h: Handler)
    requires s != "" && '{' !in s
    ensures var m := Insert(n, s, h).node; m == n.(kids := n.kids + [Hung(NewNode(s), h)], tsr := n.tsr || s == "/")
  {
    NoWildInLiterals(s);
    NewNodeIsWellFormed(s);
    AttachHangs(n, NewNode(s), h);
  }

  lemma {:induction false} InsertApt(n: Trie, s: string, h: Handler)
    requires Apt(n) && s != "" && '{' !in s
    ensures Apt(Insert(n, s, h).node) && Keeps(n, Insert(n, s, h).node)
  {
    InsertIs(n, s, h);
    HungApt(s, h);
    AppendApt(n, Hung(NewNode(s), h), n.tsr || s == "/");
  }

  /** What an addition at the child `c`, which shares `i` characters with `s`, leaves in its place. */
  function Grafted(c: Trie, s: string, h: Handler): Trie {
    var i := Lcp(s, c.path); Add(CutAt(c, i), s[i..], h).node
  }

  /** `add` at a sharing child replaces just that child; its parent is marked when only a slash was left. */
  lemma {:induction false} AddGrafts(n: Trie, s: string, h: Handler)
    requires s != "" && FirstShared(n.kids, s) < |n.kids| && n.kids[FirstShared(n.kids, s)].kind == Static
    ensures var k := FirstShared(n.kids, s);
      Add(n, s, h).node == n.(kids := n.kids[k := Grafted(n.kids[k], s, h)], tsr := n.tsr || s == "/")
  {
    var k := FirstShared(n.kids, s);
    var i := Lcp(s, n.kids[k].path);
    var cut := CutAt(n.kids[k], i);
    AddAtKidCases(n, s, h);
    assert n.kids[k := cut][k := Add(cut, s[i..], h).node] == n.kids[k := Add(cut, s[i..], h).node];
  }

  lemma {:induction false} AddApt(n: Trie, s: string, h: Handler)
    requires StaticNode(n) && Apt(n) && '{' !in s
    ensures Apt(Add(n, s, h).node) && Keeps(n, Add(n, s, h).node)
    ensures n == MARKER ==> Add(n, s, h).node == MARKER || Add(n, s, h).node.kids != []
    decreases |s|
  {
    var k := FirstShared(n.kids, s);
    if s == "" {
      SetHandlerApt(n, h);
    } else if k == |n.kids| {
      InsertApt(n, s, h);
      InsertIs(n, s, h);
    } else {
      var c := n.kids[k];
      assert StaticKids(n.kids);
      AddGrafts(n, s, h);
      GraftApt(c, s, h);
      UpdateApt(n, k, Grafted(c, s, h), n.tsr || s == "/");
    }
  }

  lemma {:induction false} GraftApt(c: Trie, s: string, h: Handler)
    requires StaticNode(c) && Apt(c) && Purposeful(c) && '{' !in s && Lcp(s, c.path) > 0
    ensures var d := Grafted(c, s, h);
      Apt(d) && Purposeful(d) && (d == MARKER ==> c == MARKER) && d.path != "" && d.path[0] == c.path[0]
    decreases |s|, 0
  {
    var i := Lcp(s, c.path);
    if i < |c.path| {
      CutApt(c, i, s[i..], h);
    } else {
      AddApt(c, s[i..], h);
      KeepsPurpose(c, Grafted(c, s, h));
    }
  }

  /** A node cut open has two ways on, or a handler. */
  lemma {:induction false} CutApt(c: Trie, i: nat, rest: string, h: Handler)
    requires StaticNode(c) && Apt(c) && Purposeful(c) && 0 < i < |c.path| && '{' !in rest
    requires rest != "" ==> rest[0] != c.path[i]
    ensures var d := Add(Split(c, i), rest, h).node; Apt(d) && Purposeful(d) && d != MARKER && d.path == c.path[..i]
  {
    var cut := Split(c, i);
    var low := cut.kids[0];
    assert Apt(low) && Purposeful(low) && low != MARKER by {
      if Branches(c) { assert Branches(low); }
    }
    assert Apt(cut);
    if rest == "" {
      SetHandlerApt(cut, h);
    } else {
      assert FirstShared(cut.kids, rest) == 1;
      InsertApt(cut, rest, h);
      InsertIs(cut, rest, h);
      HungApt(rest, h);
      var d := Add(cut, rest, h).node;
      assert Forks(d.kids[0], d.kids[1]);
    }
  }
}
