/**
 Routes that end in a slash, and the path without it. Registered before anything beyond it, such a route leaves a
 mark where the path without the slash ends; and what a walk of the tree once leads to, it always will.
 */
module Announced {
  import opened Text
  import opened WildPath
  import opened Pattern
  import opened Trie
  import opened Conservation
  import opened RouteTree
  import opened TrailingSlash
  import opened Lookup
  import opened Refusals
  import opened TidyTree
  import opened OneName
  import opened Markers
  import opened Answered

  // ----- walks are not lost --------------------------------------------------------------------------------

  /** Where walks below `a` lead, those below `b` do too; and the same from before their texts on. */
  ghost predicate Keeps(a: Trie, b: Trie) { forall ps :: Leads(a, ps) ==> Leads(b, ps) }

  ghost predicate KeepsVia(c: Trie, d: Trie) { forall ps :: LeadsVia(c, ps) ==> LeadsVia(d, ps) }

  lemma {:induction false} KeepsText(c: Trie, d: Trie)
    requires Keeps(c, d) && TextOf(c) == TextOf(d)
    ensures KeepsVia(c, d)
  {
    forall ps | LeadsVia(c, ps)
      ensures LeadsVia(d, ps)
    {
      assert Leads(c, ps[|TextOf(c)|..]);
    }
  }

  lemma {:induction false} UpdateLeads(n: Trie, k: nat, d: Trie, mark: bool)
    requires k < |n.kids| && KeepsVia(n.kids[k], d) && (n.tsr ==> mark)
    ensures Keeps(n, n.(kids := n.kids[k := d], tsr := mark))
  {
    var m := n.(kids := n.kids[k := d], tsr := mark);
    forall ps | Leads(n, ps)
      ensures Leads(m, ps)
    {
      if j :| 0 <= j < |n.kids| && LeadsVia(n.kids[j], ps) {
        assert LeadsVia(m.kids[j], ps);
        LeadsBelow(m, j, ps);
      }
    }
  }

  lemma {:induction false} AppendLeads(n: Trie, d: Trie, mark: bool)
    requires n.tsr ==> mark
    ensures Keeps(n, n.(kids := n.kids + [d], tsr := mark))
  {
    var m := n.(kids := n.kids + [d], tsr := mark);
    forall ps | Leads(n, ps)
      ensures Leads(m, ps)
    {
      if j :| 0 <= j < |n.kids| && LeadsVia(n.kids[j], ps) {
        assert m.kids[j] == n.kids[j];
        LeadsBelow(m, j, ps);
      }
    }
  }

  /** Only what a node carries and its children matter. */
  lemma {:induction false} SameCarried(a: Trie, b: Trie)
    requires a.kids == b.kids && (a.handler.Some? ==> b.handler.Some?) && (a.tsr ==> b.tsr)
    requires a.wildcard.Some? ==> b.wildcard.Some? && b.wildcard.value.key == a.wildcard.value.key
    ensures Keeps(a, b)
  {
    forall ps | Leads(a, ps)
      ensures Leads(b, ps)
    {
      if j :| 0 <= j < |a.kids| && LeadsVia(a.kids[j], ps) { LeadsBelow(b, j, ps); }
    }
  }

  lemma {:induction false} SplitLeads(c: Trie, i: nat, mark: bool)
    requires c.kind != Param && i <= |c.path|
    ensures KeepsVia(c, Split(c, i).(tsr := mark))
  {
    var cut := Split(c, i).(tsr := mark);
    var low := cut.kids[0];
    SameCarried(c, low);
    assert Lits(c.path) == Lits(c.path[..i]) + Lits(c.path[i..]);
    forall ps | LeadsVia(c, ps)
      ensures LeadsVia(cut, ps)
    {
      var rest := ps[i..];
      assert ps == Lits(c.path) + ps[|c.path|..] && Lits(c.path[..i]) <= ps;
      assert Leads(c, ps[|c.path|..]);
      assert rest == Lits(low.path) + ps[|c.path|..] && rest[|low.path|..] == ps[|c.path|..];
      assert LeadsVia(low, rest);
      LeadsBelow(cut, 0, rest);
    }
  }

  lemma {:induction false} MarkLeads(c: Trie)
    ensures KeepsVia(c, c.(tsr := true))
  {
    SameCarried(c, c.(tsr := true));
    KeepsText(c, c.(tsr := true));
  }

  lemma {:induction false} KeepsThrough(a: Trie, b: Trie, c: Trie)
    requires Keeps(a, b) && Keeps(b, c)
    ensures Keeps(a, c)
  {
    forall ps | Leads(a, ps)
      ensures Leads(c, ps)
    {
      assert Leads(b, ps);
    }
  }

  lemma {:induction false} HandlerLeads(n: Trie, h: Handler)
    ensures Keeps(n, SetHandler(n, h).node) && KeepsVia(n, SetHandler(n, h).node)
  {
    if !(n.handler.Some? || n.tsr) {
      var m := n.(handler := Some(h));
      var k := FirstSlash(m.kids);
      SameCarried(n, m);
      if k < |m.kids| {
        MarkLeads(m.kids[k]);
        UpdateLeads(m, k, m.kids[k].(tsr := true), m.tsr);
      } else if m.path != "/" {
        AppendLeads(m, MARKER, m.tsr);
      }
      KeepsThrough(n, m, MarkSlash(m));
    }
    KeepsText(n, SetHandler(n, h).node);
  }

  lemma {:induction false} WildcardAttached(n: Trie, path: string, wp: WildPath, h: Handler)
    requires |wp.keys| > 0
    ensures Keeps(n, AttachWildcard(n, path, wp, h).node)
  {
    SameCarried(n, AttachWildcard(n, path, wp, h).node);
  }

  lemma {:induction false} WildcardLeads(n: Trie, path: string, wp: WildPath, h: Handler)
    requires WellFormed(n) && |wp.keys| > 0
    ensures KeepsVia(n, InsertWildcard(n, path, wp, h).node)
  {
    var last := |n.path| - 1;
    if |path| != SegmentEnd(path, true) || n.path == "" || n.path[last] != '/' {
    } else if n.path == "/" {
      WildcardAttached(n, path, wp, h);
      KeepsText(n, AttachWildcard(n, path, wp, h).node);
    } else {
      var cut := Split(n, last).(tsr := true);
      var low := cut.kids[0];
      var d := AttachWildcard(low, path, wp, h).node;
      assert n.kind != Param;
      SplitLeads(n, last, true);
      WildcardAttached(low, path, wp, h);
      KeepsText(low, d);
      UpdateLeads(cut, 0, d, true);
      CutKeeps(n, cut, cut.(kids := cut.kids[0 := d], tsr := true));
    }
  }

  lemma {:induction false} CutKeeps(n: Trie, cut: Trie, m: Trie)
    requires KeepsVia(n, cut) && Keeps(cut, m) && TextOf(m) == TextOf(cut)
    ensures KeepsVia(n, m)
  {
    KeepsText(cut, m);
    forall ps | LeadsVia(n, ps)
      ensures LeadsVia(m, ps)
    {
      assert LeadsVia(cut, ps);
    }
  }

  lemma {:induction false} AttachLeads(n: Trie, leaf: Trie, h: Handler)
    requires IsLeaf(leaf)
    ensures KeepsVia(n, Attach(n, leaf, h).node)
  {
    AttachHangs(n, leaf, h);
    AppendLeads(n, Hung(leaf, h), n.tsr || leaf.path == "/");
    KeepsText(n, Attach(n, leaf, h).node);
  }

  lemma {:induction false} LinkLeads(n: Trie, link: Trie, r: Outcome)
    ensures KeepsVia(n, Under(n.(kids := n.kids + [link]), |n.kids|, r).node)
  {
    var m := Under(n.(kids := n.kids + [link]), |n.kids|, r).node;
    assert (n.kids + [link])[|n.kids| := r.node] == n.kids + [r.node];
    AppendLeads(n, r.node, n.tsr);
    KeepsText(n, m);
  }

  lemma {:induction false} InsertLeads(n: Trie, ps: Pattern, h: Handler)
    requires WellFormed(n) && Good(ps) && ps != []
    ensures KeepsVia(n, Insert(n, Print(ps), h).node)
  {
    var s := LitPrefix(ps);
    InsertCases(n, ps, h);
    if |s| == |ps| {
      NewNodeIsWellFormed(s);
      AttachLeads(n, NewNode(s), h);
    } else if s != "" {
      LinkLeads(n, NewNode(s), Insert(NewNode(s), Print(ps[|s|..]), h));
    } else if ps[0].Rest? {
      WildcardLeads(n, Print(ps), FindWild(Print(ps)).wp, h);
    } else if |ps| == 1 || ps[1..] == SLASH {
      KeyNodeIsWellFormed(ps);
      AttachLeads(n, KeyNode(ps), h);
    } else {
      LinkLeads(n, KeyNode(ps), Insert(KeyNode(ps), Print(ps[1..]), h));
    }
  }

  lemma {:induction false} UnderLeads(n: Trie, k: nat, r: Outcome, mark: bool)
    requires k < |n.kids| && KeepsVia(n.kids[k], r.node) && (n.tsr ==> mark)
    ensures KeepsVia(n, Under(n.(tsr := mark), k, r).node)
  {
    UpdateLeads(n, k, r.node, mark);
    KeepsText(n, Under(n.(tsr := mark), k, r).node);
  }

  /** No addition, refused or not, loses a walk. */
  lemma {:induction false} AddLeads(n: Trie, ps: Pattern, h: Handler)
    requires WellFormed(n) && Good(ps)
    ensures KeepsVia(n, Add(n, Print(ps), h).node)
    decreases |ps|, 1
  {
    var k := FirstShared(n.kids, Print(ps));
    if ps == [] {
      HandlerLeads(n, h);
    } else if k == |n.kids| {
      PrintStart(ps);
      InsertLeads(n, ps, h);
    } else {
      PrintStart(ps);
      KidIsWellFormed(n, k);
      if n.kids[k].kind == Param { KeyLeads(n, k, ps, h); } else { TextLeads(n, k, ps, h); }
    }
  }

  lemma {:induction false} KeyLeads(n: Trie, k: nat, ps: Pattern, h: Handler)
    requires WellFormed(n) && Good(ps) && ps != [] && k < |n.kids| && WellFormed(n.kids[k]) && n.kids[k].kind == Param
    requires Lcp(Print(ps), n.kids[k].path) > 0
    ensures KeepsVia(n, AddAtParam(n, k, Print(ps), h).node)
    decreases |ps|, 0
  {
    var c, r := n.kids[k], AddAtParam(n, k, Print(ps), h);
    AddAtParamCases(n, k, ps, h);
    if ps == [Key(c.keys[0])] && r == Under(n, k, SetHandler(c, h)) {
      HandlerLeads(c, h);
      UnderLeads(n, k, SetHandler(c, h), n.tsr);
    } else if |ps| > 1 && Good(ps[1..]) && r == Under(n, k, Add(c, Print(ps[1..]), h)) {
      AddLeads(c, ps[1..], h);
      UnderLeads(n, k, Add(c, Print(ps[1..]), h), n.tsr);
    } else if r == Insert(n, Print(ps), h) {
      InsertLeads(n, ps, h);
    }
  }

  lemma {:induction false} TextLeads(n: Trie, k: nat, ps: Pattern, h: Handler)
    requires WellFormed(n) && Good(ps) && ps != [] && k < |n.kids| && WellFormed(n.kids[k]) && n.kids[k].kind == Static
    requires k == FirstShared(n.kids, Print(ps))
    ensures KeepsVia(n, Add(n, Print(ps), h).node)
    decreases |ps|, 0
  {
    var c, i := n.kids[k], Lcp(Print(ps), n.kids[k].path);
    var cut := CutAt(c, i);
    AddAtStaticCases(n, k, ps, h);
    CutStands(c, i);
    if i < |c.path| { SplitLeads(c, i, false); }
    AddLeads(cut, ps[i..], h);
    var kid := Add(cut, Print(ps[i..]), h).node;
    ViaThrough(c, cut, kid);
    AddMarksFor(n, k, ps, h);
    ReplacedLeads(n, k, kid, Print(ps) == "/");
  }

  lemma {:induction false} ViaThrough(a: Trie, b: Trie, c: Trie)
    requires KeepsVia(a, b) && KeepsVia(b, c)
    ensures KeepsVia(a, c)
  {
    forall ps | LeadsVia(a, ps)
      ensures LeadsVia(c, ps)
    {
      assert LeadsVia(b, ps);
    }
  }

  lemma {:induction false} ReplacedLeads(n: Trie, k: nat, d: Trie, last: bool)
    requires k < |n.kids| && KeepsVia(n.kids[k], d)
    ensures KeepsVia(n, n.(kids := n.kids[k := d])) && KeepsVia(n, n.(kids := n.kids[k := d], tsr := n.tsr || last))
  {
    UpdateLeads(n, k, d, n.tsr);
    KeepsText(n, n.(kids := n.kids[k := d], tsr := n.tsr));
    UpdateLeads(n, k, d, n.tsr || last);
    KeepsText(n, n.(kids := n.kids[k := d], tsr := n.tsr || last));
  }

  // ----- calls ---------------------------------------------------------------------------------------------

  lemma {:induction false} SortLeads(a: Trie, b: Trie)
    requires SortsTo(a, b)
    ensures Keeps(a, b) && KeepsVia(a, b)
    decreases a
  {
    var mid: seq<Trie> :| SortsEach(a, mid) && multiset(mid) == multiset(b.kids);
    forall i | 0 <= i < |mid|
      ensures KeepsVia(a.kids[i], mid[i])
    {
      assert SortsTo(a.kids[i], mid[i]);
      SortLeads(a.kids[i], mid[i]);
    }
    SortedKidsLead(a, mid, b);
    KeepsText(a, b);
  }

  lemma {:induction false} SortedKidsLead(a: Trie, mid: seq<Trie>, b: Trie)
    requires |mid| == |a.kids| && multiset(mid) == multiset(b.kids) && b == a.(kids := b.kids)
    requires forall i :: 0 <= i < |mid| ==> KeepsVia(a.kids[i], mid[i])
    ensures Keeps(a, b)
  {
    forall ps | Leads(a, ps)
      ensures Leads(b, ps)
    {
      if i :| 0 <= i < |a.kids| && LeadsVia(a.kids[i], ps) {
        assert LeadsVia(mid[i], ps) && mid[i] in multiset(b.kids);
        var j :| 0 <= j < |b.kids| && b.kids[j] == mid[i];
        LeadsBelow(b, j, ps);
      }
    }
  }

  lemma {:induction false} ReplaceLeads(n: Trie, at: seq<nat>, e: AddError, h: Handler)
    requires NodeAt(n, at).Some? && (e == HandlerExists ==> NodeAt(n, at).value.handler.Some?)
    ensures KeepsVia(n, Replace(n, at, Rehandled(NodeAt(n, at).value, e, h)))
    decreases |at|
  {
    if at == [] {
      SameCarried(n, Rehandled(n, e, h));
      KeepsText(n, Rehandled(n, e, h));
    } else {
      var k, c := at[0], n.kids[at[0]];
      var d := Replace(c, at[1..], Rehandled(NodeAt(n, at).value, e, h));
      ReplaceLeads(c, at[1..], e, h);
      UpdateLeads(n, k, d, n.tsr);
      KeepsText(n, n.(kids := n.kids[k := d], tsr := n.tsr));
    }
  }

  lemma {:induction false} RootLeads(root: Trie, ps: Pattern, h: Handler)
    requires IsRoot(root) && IsRoute(ps)
    ensures KeepsVia(root, AddAtRoot(root, Print(ps), h).node)
  {
    var i := Lcp(Print(ps), root.path);
    RootIsCut(root, ps, h);
    if 0 < i < |root.path| {
      SplitStands(root, i);
      SplitLeads(root, i, false);
    }
    AddLeads(CutRoot(root, i), ps[i..], h);
    ViaThrough(root, CutRoot(root, i), AddAtRoot(root, Print(ps), h).node);
  }

  /** When the only child takes the place of a root without text. */
  lemma {:induction false} PromoteLeads(n: Trie, q: Pattern)
    requires (n.path == "" ==> |n.kids| == 1 && n.wildcard == None && n.kids[0].kind == Static) && q != []
    requires n.kind != Param && LeadsVia(n, q)
    ensures LeadsVia(Promote(n), q)
  {
    if n.path == "" {
      var c := n.kids[0];
      assert Lits("") == [] && q[0..] == q && Leads(n, q);
      SameCarried(c, c.(kind := Root));
      assert LeadsVia(c, q) && Leads(c, q[|TextOf(c)|..]);
    }
  }

  /** A call of `Tree.Add`, mutable or not and refused or not, loses no walk. */
  lemma {:induction false} StepLeads(
    root: Trie, mutable: bool, ps: Pattern, h: Handler, root': Trie, ok: bool, q: Pattern)
    requires IsRoot(root) && IsRoute(ps) && AddStep(root, mutable, Print(ps), h, root', ok)
    requires q != [] && LeadsVia(root, q)
    ensures LeadsVia(root', q)
  {
    var r := AddAtRoot(root, Print(ps), h);
    PrintStart(ps);
    RootLeads(root, ps, h);
    AddAtRootStands(root, ps, h);
    if r.err == None {
      if root.path == "" { TextlessRootAdd(root, ps, h); }
      PromoteLeads(r.node, q);
      SortLeads(Promote(r.node), root');
    } else if Overrides(r, mutable) {
      AddAtRootBlames(root, ps, h);
      ReplaceLeads(r.node, r.at.value, r.err.value, h);
    }
  }

  // ----- the mark before a final slash ---------------------------------------------------------------------

  predicate SameText(a: Trie, b: Trie) { a.kind == b.kind && a.path == b.path && a.keys == b.keys }

  lemma {:induction false} TextIsSame(a: Trie, b: Trie)
    requires SameText(a, b)
    ensures TextOf(a) == TextOf(b)
  {
  }

  lemma {:induction false} AttachKeepsText(n: Trie, leaf: Trie, h: Handler)
    ensures SameText(n, Attach(n, leaf, h).node)
  {
  }

  lemma {:induction false} HandlerKeepsText(n: Trie, h: Handler)
    ensures SameText(n, SetHandler(n, h).node)
  {
  }

  /** Additions other than of a wildcard leave the node its text. */
  lemma {:induction false} InsertKeepsText(n: Trie, ps: Pattern, h: Handler)
    requires Good(ps) && ps != [] && !ps[0].Rest?
    ensures SameText(n, Insert(n, Print(ps), h).node)
  {
    var s := LitPrefix(ps);
    if ps[0].Lit? {
      InsertLiteralCase(n, ps, h);
      AttachKeepsText(n, NewNode(s), h);
    } else {
      InsertKeyCase(n, ps, h);
      AttachKeepsText(n, KeyNode(ps), h);
    }
  }

  lemma {:induction false} AtKeyKeepsText(n: Trie, k: nat, ps: Pattern, h: Handler)
    requires k < |n.kids| && WellFormed(n.kids[k]) && n.kids[k].kind == Param
    requires Good(ps) && ps != [] && !ps[0].Rest? && Lcp(Print(ps), n.kids[k].path) > 0
    ensures SameText(n, AddAtParam(n, k, Print(ps), h).node)
  {
    AddAtParamCases(n, k, ps, h);
    InsertKeepsText(n, ps, h);
  }

  lemma {:induction false} AddKeepsText(n: Trie, ps: Pattern, h: Handler)
    requires WellFormed(n) && Good(ps) && (ps != [] ==> !ps[0].Rest?)
    ensures SameText(n, Add(n, Print(ps), h).node)
  {
    var k := FirstShared(n.kids, Print(ps));
    if ps == [] {
      HandlerKeepsText(n, h);
    } else {
      PrintStart(ps);
      if k == |n.kids| {
        InsertKeepsText(n, ps, h);
      } else {
        KidIsWellFormed(n, k);
        if n.kids[k].kind == Param {
          AtKeyKeepsText(n, k, ps, h);
        } else {
          AddAtStaticCases(n, k, ps, h);
          AddMarksFor(n, k, ps, h);
        }
      }
    }
  }

  /** `q` is the route with a slash behind `ps`. */
  predicate SlashOf(q: Pattern, ps: Pattern) { Good(q) && q == ps + SLASH }

  lemma {:induction false} SlashSuffix(q: Pattern, ps: Pattern, i: nat)
    requires i <= |ps| && SlashOf(q, ps)
    ensures SlashOf(q[i..], ps[i..]) && q != [] && !q[0].Rest? && q[..i] == ps[..i]
  {
    GoodSuffix(q, i);
    assert q[|ps|] == Lit('/') && q[|q| - 1] == Lit('/');
  }

  lemma {:induction false} LastKidLeads(n: Trie, c: Trie, m: Trie, ps: Pattern)
    requires m.kids == n.kids + [c] && TextOf(c) <= ps && Leads(c, ps[|TextOf(c)|..])
    ensures Leads(m, ps)
  {
    assert m.kids[|n.kids|] == c && LeadsVia(c, ps);
    LeadsBelow(m, |n.kids|, ps);
  }

  /** The chain built for a route that ends in a slash has a mark before the slash. */
  lemma {:induction false} InsertAnnounces(n: Trie, ps: Pattern, q: Pattern, h: Handler)
    requires SlashOf(q, ps)
    ensures Leads(Insert(n, Print(q), h).node, ps)
    decreases |ps|, 1
  {
    SlashSuffix(q, ps, 0);
    if q[0].Lit? {
      TextAnnounces(n, ps, q, LitPrefix(q), h);
    } else if LastKey(q) {
      KeyAnnounces(n, ps, q, h);
    } else {
      InsertKeyCase(n, q, h);
      SlashSuffix(q, ps, 1);
      InsertAnnounces(KeyNode(q), ps[1..], q[1..], h);
      LinkAnnounces(n, KeyNode(q), Insert(n, Print(q), h).node, ps, q[1..], 1, h);
    }
  }

  lemma {:induction false} TextAnnounces(n: Trie, ps: Pattern, q: Pattern, s: string, h: Handler)
    requires SlashOf(q, ps) && s == LitPrefix(q) != ""
    ensures Leads(Insert(n, Print(q), h).node, ps)
    decreases |ps|, 0
  {
    InsertLiteralCase(n, q, h);
    if |s| == |q| {
      LeafAnnounces(n, ps, q, s, h);
    } else {
      SlashSuffix(q, ps, |s|);
      InsertAnnounces(NewNode(s), ps[|s|..], q[|s|..], h);
      assert q[..|s|] == Lits(s);
      LinkAnnounces(n, NewNode(s), Insert(n, Print(q), h).node, ps, q[|s|..], |s|, h);
    }
  }

  lemma {:induction false} LeafAnnounces(n: Trie, ps: Pattern, q: Pattern, s: string, h: Handler)
    requires q == ps + SLASH == Lits(s) && '{' !in s && Insert(n, Print(q), h) == Attach(n, NewNode(s), h)
    ensures Leads(Insert(n, Print(q), h).node, ps)
  {
    var c, m := Hung(NewNode(s), h), Attach(n, NewNode(s), h).node;
    assert s[|ps|] == '/' && |s| == |ps| + 1 by { assert q[|ps|] == Lits(s)[|ps|]; }
    NewNodeIsWellFormed(s);
    AttachHangs(n, NewNode(s), h);
    if s == "/" {
      assert ps == [] && m.tsr;
    } else {
      assert ps == q[..|ps|] == Lits(s[..|ps|]);
      assert c.path == s[..|ps|] && c.tsr && ps[|ps|..] == [];
      LastKidLeads(n, c, m, ps);
    }
  }

  lemma {:induction false} KeyAnnounces(n: Trie, ps: Pattern, q: Pattern, h: Handler)
    requires SlashOf(q, ps) && LastKey(q)
    ensures Leads(Insert(n, Print(q), h).node, ps)
  {
    var leaf := KeyNode(q);
    assert q[|ps|] == Lit('/');
    assert |ps| == 1 && ps == [q[0]] by { assert q[1..] == SLASH && ps[0] == q[0]; }
    InsertKeyCase(n, q, h);
    KeyNodeIsWellFormed(q);
    AttachHangs(n, leaf, h);
    KeyIsCut(q[0], h);
    LastKidLeads(n, Hung(leaf, h), Insert(n, Print(q), h).node, ps);
  }

  /** The slash is cut off the last parameter. */
  lemma {:induction false} KeyIsCut(p: Part, h: Handler)
    requires p.Key?
    ensures var c := Hung(KeyNode([p] + SLASH), h); TextOf(c) == [p] && c.tsr
  {
    var leaf := KeyNode([p] + SLASH);
    assert ([p] + SLASH)[1..] == SLASH && leaf.path == PrintPart(p) + "/" && leaf.path[0] == '{';
  }

  /** What a new link leads to. */
  lemma {:induction false} LinkAnnounces(n: Trie, link: Trie, m: Trie, ps: Pattern, rest: Pattern, i: nat, h: Handler)
    requires 0 < i <= |ps| && TextOf(link) == ps[..i] && SlashOf(rest, ps[i..])
    requires m == Under(n.(kids := n.kids + [link]), |n.kids|, Insert(link, Print(rest), h)).node
    requires Leads(Insert(link, Print(rest), h).node, ps[i..])
    ensures Leads(m, ps)
  {
    var d := Insert(link, Print(rest), h).node;
    SlashSuffix(rest, ps[i..], 0);
    InsertKeepsText(link, rest, h);
    TextIsSame(link, d);
    assert (n.kids + [link])[|n.kids| := d] == n.kids + [d];
    LastKidLeads(n, d, m, ps);
  }

  // ----- adding it -----------------------------------------------------------------------------------------

  /** No route below `n` starts like the pattern. */
  ghost predicate NothingBeyond(n: Trie, pre: Pattern, q: Pattern) {
    forall r :: r in Routes(n, pre) ==> !(pre + TextOf(n) + q <= r.0)
  }

  lemma {:induction false} NothingBelow(n: Trie, k: nat, pre: Pattern, q: Pattern)
    requires k < |n.kids| && NothingBeyond(n, pre, q) && TextOf(n.kids[k]) <= q
    ensures NothingBeyond(n.kids[k], pre + TextOf(n), q[|TextOf(n.kids[k])|..])
  {
    var c, full := n.kids[k], pre + TextOf(n);
    forall r | r in Routes(c, full)
      ensures !(full + TextOf(c) + q[|TextOf(c)|..] <= r.0)
    {
      KidRoute(n, k, pre, r);
      assert full + TextOf(c) + q[|TextOf(c)|..] == full + q;
    }
  }

  /** A child with text that goes on as the pattern does has a route beyond it. */
  lemma {:induction false} TextBears(n: Trie, k: nat, pre: Pattern, q: Pattern)
    requires WellFormed(n) && Tidy(n) && k < |n.kids| && q <= TextOf(n.kids[k]) && n.kids[k] != MARKER
    ensures !NothingBeyond(n, pre, q)
  {
    var c, full := n.kids[k], pre + TextOf(n);
    KidIsWellFormed(n, k);
    BearsAnywhere(c, [], full);
    var r :| r in Routes(c, full);
    RouteStarts(c, full, r);
    KidRoute(n, k, pre, r);
    assert full + q <= full + TextOf(c);
  }

  /** A node to which a route is added that ends in a slash, with nothing beyond it. */
  ghost predicate Ready(n: Trie, pre: Pattern, ps: Pattern, q: Pattern, h: Handler) {
    WellFormed(n) && Tidy(n) && SlashOf(q, ps) && NothingBeyond(n, pre, q) && Add(n, Print(q), h).err == None
  }

  /** Below such a node the walk without the slash is led to a mark. */
  lemma {:induction false} AddAnnounces(n: Trie, ps: Pattern, q: Pattern, h: Handler, pre: Pattern)
    requires Ready(n, pre, ps, q, h)
    ensures Leads(Add(n, Print(q), h).node, ps)
    decreases |ps|, 2
  {
    var k := FirstShared(n.kids, Print(q));
    PrintStart(q);
    if k == |n.kids| {
      InsertAnnounces(n, ps, q, h);
    } else {
      KidIsWellFormed(n, k);
      if n.kids[k].kind == Param { AtKeyAnnounces(n, k, ps, q, h, pre); } else { AtTextAnnounces(n, k, ps, q, h, pre); }
    }
  }

  lemma {:induction false} AtKeyAnnounces(n: Trie, k: nat, ps: Pattern, q: Pattern, h: Handler, pre: Pattern)
    requires Ready(n, pre, ps, q, h) && k == FirstShared(n.kids, Print(q)) < |n.kids| && n.kids[k].kind == Param
    requires WellFormed(n.kids[k])
    ensures Leads(Add(n, Print(q), h).node, ps)
    decreases |ps|, 1
  {
    var c := n.kids[k];
    SlashSuffix(q, ps, 0);
    PrintStart(q);
    KeyMeets(n, k, q);
    KeyMeetsKey(n, k, q, h);
    assert Add(n, Print(q), h) == AddAtParam(n, k, Print(q), h);
    assert q[|ps|] == Lit('/') && ps != [] && ps[0] == q[0];
    if LastKey(q) && c.handler.Some? {
    } else if q[0] != Key(c.keys[0]) {
      InsertAnnounces(n, ps, q, h);
    } else {
      SameKeyAnnounces(n, k, ps, q, h, pre);
    }
  }

  lemma {:induction false} SameKeyAnnounces(n: Trie, k: nat, ps: Pattern, q: Pattern, h: Handler, pre: Pattern)
    requires Ready(n, pre, ps, q, h) && k < |n.kids| && WellFormed(n.kids[k]) && ps != []
    requires TextOf(n.kids[k]) == [ps[0]]
    requires Add(n, Print(q), h) == Under(n, k, Add(n.kids[k], Print(q[1..]), h))
    ensures Leads(Add(n, Print(q), h).node, ps)
    decreases |ps|, 0
  {
    SlashSuffix(q, ps, 1);
    NothingBelow(n, k, pre, q);
    AddAnnounces(n.kids[k], ps[1..], q[1..], h, pre + TextOf(n));
    KidAnnounces(n, k, n.kids[k], ps, q[1..], 1, h, n.tsr);
  }

  /** What the child leads to, its parent does. */
  lemma {:induction false} KidAnnounces(
    n: Trie, k: nat, cut: Trie, ps: Pattern, rest: Pattern, i: nat, h: Handler, mark: bool)
    requires k < |n.kids| && i <= |ps| && WellFormed(cut) && TextOf(cut) == ps[..i] && SlashOf(rest, ps[i..])
    requires Leads(Add(cut, Print(rest), h).node, ps[i..])
    ensures Leads(n.(kids := n.kids[k := Add(cut, Print(rest), h).node], tsr := mark), ps)
  {
    var d := Add(cut, Print(rest), h).node;
    var m := n.(kids := n.kids[k := d], tsr := mark);
    SlashSuffix(rest, ps[i..], 0);
    AddKeepsText(cut, rest, h);
    TextIsSame(cut, d);
    assert m.kids[k] == d && LeadsVia(d, ps);
    LeadsBelow(m, k, ps);
  }

  /** A child with text, cut where it stops sharing, is sound. */
  lemma {:induction false} CutIsTidy(n: Trie, k: nat, i: nat)
    requires WellFormed(n) && Tidy(n) && k < |n.kids| && n.kids[k].kind == Static && 0 < i <= |n.kids[k].path|
    ensures var cut := CutAt(n.kids[k], i); WellFormed(cut) && Tidy(cut)
  {
    var c := n.kids[k];
    KidIsWellFormed(n, k);
    CutStands(c, i);
    if i < |c.path| { SplitTidy(c, i); }
  }

  lemma {:induction false} CutRoute(n: Trie, k: nat, i: nat, pre: Pattern, r: Route)
    requires k < |n.kids| && n.kids[k].kind == Static && i <= |n.kids[k].path|
    requires r in Routes(CutAt(n.kids[k], i), pre + TextOf(n))
    ensures r in Routes(n, pre)
  {
    if i < |n.kids[k].path| { SplitKeepsRoutes(n.kids[k], i, pre + TextOf(n)); }
    KidRoute(n, k, pre, r);
  }

  lemma {:induction false} CutText(c: Trie, i: nat, q: Pattern)
    requires c.kind == Static && i <= |q| && i <= |c.path| && q[..i] == Lits(c.path[..i])
    ensures TextOf(CutAt(c, i)) == q[..i]
  {
    if i == |c.path| { assert c.path[..i] == c.path; }
  }

  /** Nothing goes on beyond the rest of the pattern. */
  lemma {:induction false} NothingBelowCut(n: Trie, k: nat, i: nat, pre: Pattern, q: Pattern)
    requires NothingBeyond(n, pre, q) && k < |n.kids| && n.kids[k].kind == Static && i <= |n.kids[k].path|
    requires i <= |q| && TextOf(CutAt(n.kids[k], i)) == q[..i]
    ensures NothingBeyond(CutAt(n.kids[k], i), pre + TextOf(n), q[i..])
  {
    var full := pre + TextOf(n);
    assert full + q[..i] + q[i..] == full + q;
    forall r | r in Routes(CutAt(n.kids[k], i), full)
      ensures !(full + q[..i] + q[i..] <= r.0)
    {
      CutRoute(n, k, i, pre, r);
    }
  }

  lemma {:induction false} AtTextAnnounces(n: Trie, k: nat, ps: Pattern, q: Pattern, h: Handler, pre: Pattern)
    requires Ready(n, pre, ps, q, h) && k == FirstShared(n.kids, Print(q)) < |n.kids| && n.kids[k].kind == Static
    ensures Leads(Add(n, Print(q), h).node, ps)
    decreases |ps|, 1
  {
    var c, i := n.kids[k], Lcp(Print(q), n.kids[k].path);
    KidIsWellFormed(n, k);
    AddAtStaticCases(n, k, q, h);
    TextIsShared(q, c, i);
    if i <= |ps| {
      CutText(c, i, q);
      BelowTextAnnounces(n, k, i, ps, q, h, pre);
    } else if ps == [] {
      SlashIsLeft(n, k, q, h);
    } else {
      TextBears(n, k, pre, q);
    }
  }

  lemma {:induction false} TextIsShared(q: Pattern, c: Trie, i: nat)
    requires i <= |q| && i <= |c.path| && q == Lits(c.path[..i]) + q[i..] && c.kind == Static
    ensures q[..i] == Lits(c.path[..i]) && (i == |q| ==> q <= TextOf(c)) && (i >= 2 ==> c != MARKER)
  {
    assert Lits(c.path)[..i] == Lits(c.path[..i]);
  }

  lemma {:induction false} BelowTextAnnounces(
    n: Trie, k: nat, i: nat, ps: Pattern, q: Pattern, h: Handler, pre: Pattern)
    requires Ready(n, pre, ps, q, h) && k == FirstShared(n.kids, Print(q)) < |n.kids| && n.kids[k].kind == Static
    requires 0 < i == Lcp(Print(q), n.kids[k].path) <= |ps| && TextOf(CutAt(n.kids[k], i)) == q[..i]
    requires Add(CutAt(n.kids[k], i), Print(q[i..]), h).err == None
    ensures Leads(Add(n, Print(q), h).node, ps)
    decreases |ps|, 0
  {
    var cut := CutAt(n.kids[k], i);
    CutIsTidy(n, k, i);
    NothingBelowCut(n, k, i, pre, q);
    SlashSuffix(q, ps, i);
    AddAnnounces(cut, ps[i..], q[i..], h, pre + TextOf(n));
    AddMarksFor(n, k, q, h);
    KidAnnounces(n, k, cut, ps, q[i..], i, h, n.tsr);
    KidAnnounces(n, k, cut, ps, q[i..], i, h, n.tsr || Print(q) == "/");
  }

  /** Adding a single slash marks the node itself. */
  lemma {:induction false} SlashIsLeft(n: Trie, k: nat, q: Pattern, h: Handler)
    requires WellFormed(n) && SlashOf(q, [])
    requires k == FirstShared(n.kids, Print(q)) < |n.kids| && n.kids[k].kind == Static
    ensures Leads(Add(n, Print(q), h).node, [])
  {
    assert q == SLASH == Lits("/");
    PrintLits("/");
    assert Lcp("/", n.kids[k].path) == 1;
  }

  // ----- from the root, over runs --------------------------------------------------------------------------

  /** No stored route starts like the pattern. */
  ghost predicate Unreached(root: Trie, q: Pattern) { forall r :: r in Routes(root, []) ==> !(q <= r.0) }

  lemma {:induction false} RootIsNotWhole(root: Trie, q: Pattern)
    requires IsRoot(root) && TidyRoot(root) && root.path != "" && q <= TextOf(root)
    ensures !Unreached(root, q)
  {
    var r :| r in Routes(root, []);
    RouteStarts(root, [], r);
    assert [] + TextOf(root) == TextOf(root);
  }

  lemma {:induction false} CutRootRoutes(root: Trie, i: nat)
    requires root.kind == Root && i <= |root.path|
    ensures Routes(CutRoot(root, i), []) == Routes(root, [])
  {
    if 0 < i < |root.path| { SplitKeepsRoutes(root, i, []); }
  }

  lemma {:induction false} NothingBelowRoot(root: Trie, cut: Trie, q: Pattern, rest: Pattern)
    requires Unreached(root, q) && Routes(cut, []) == Routes(root, []) && TextOf(cut) + rest == q
    ensures NothingBeyond(cut, [], rest)
  {
    assert [] + TextOf(cut) == TextOf(cut);
    forall r | r in Routes(cut, [])
      ensures !(TextOf(cut) + rest <= r.0)
    {
      assert r in Routes(root, []);
    }
  }

  lemma {:induction false} AnnouncedAtRoot(root: Trie, ps: Pattern, q: Pattern, h: Handler)
    requires IsRoot(root) && TidyRoot(root) && IsRoute(q) && SlashOf(q, ps) && Unreached(root, q)
    requires AddAtRoot(root, Print(q), h).err == None
    ensures LeadsVia(AddAtRoot(root, Print(q), h).node, ps)
  {
    var i := Lcp(Print(q), root.path);
    RootIsCut(root, q, h);
    RootTextIsShared(root, q, i);
    if i <= |ps| {
      CutRootTidy(root, i, Stored(root));
      CutRootRoutes(root, i);
      NothingBelowRoot(root, CutRoot(root, i), q, q[i..]);
      BelowRootAnnounces(CutRoot(root, i), i, ps, q, h);
    } else {
      RootIsNotWhole(root, q);
    }
  }

  lemma {:induction false} BelowRootAnnounces(cut: Trie, i: nat, ps: Pattern, q: Pattern, h: Handler)
    requires WellFormed(cut) && Tidy(cut) && SlashOf(q, ps) && i <= |ps| && TextOf(cut) == q[..i]
    requires NothingBeyond(cut, [], q[i..]) && Add(cut, Print(q[i..]), h).err == None
    ensures LeadsVia(Add(cut, Print(q[i..]), h).node, ps)
  {
    SlashSuffix(q, ps, i);
    AddAnnounces(cut, ps[i..], q[i..], h, []);
    SlashSuffix(q[i..], ps[i..], 0);
    AddKeepsText(cut, q[i..], h);
    TextIsSame(cut, Add(cut, Print(q[i..]), h).node);
  }

  lemma {:induction false} RootTextIsShared(root: Trie, q: Pattern, i: nat)
    requires root.kind == Root && i <= |q| && i <= |root.path| && TextOf(CutRoot(root, i)) + q[i..] == q
    requires root.path != "" ==> i > 0
    ensures TextOf(CutRoot(root, i)) == q[..i] && (i == |q| > 0 ==> q <= TextOf(root) && root.path != "")
  {
    var cut := CutRoot(root, i);
    assert cut.path == root.path[..i] && |TextOf(cut)| == i;
    assert q[..i] == TextOf(cut) && Lits(root.path)[..i] == Lits(root.path[..i]);
  }

  /** A call that returns for a route ending in a slash, nothing being stored beyond it. */
  lemma {:induction false} CallAnnounces(root: Trie, mutable: bool, ps: Pattern, q: Pattern, h: Handler, root': Trie)
    requires IsRoot(root) && TidyRoot(root) && IsRoute(q) && SlashOf(q, ps) && ps != [] && Unreached(root, q)
    requires AddStep(root, mutable, Print(q), h, root', true)
    ensures LeadsVia(root', ps)
  {
    var r := AddAtRoot(root, Print(q), h);
    PrintStart(q);
    AddAtRootStands(root, q, h);
    if r.err == None {
      AnnouncedAtRoot(root, ps, q, h);
      if root.path == "" { TextlessRootAdd(root, q, h); }
      PromoteLeads(r.node, ps);
      SortLeads(Promote(r.node), root');
    } else {
      AddAtRootBlames(root, q, h);
      AddAtRootGains(root, q, h);
      var was := OverrideSwaps(r, h, q);
    }
  }

  lemma {:induction false} RunLeads(run: seq<Call>, roots: seq<Trie>, mutable: bool, ps: Pattern, k: nat, n: nat)
    requires IsRun(run, roots, mutable) && k <= n <= |run| && ps != [] && LeadsVia(roots[k], ps)
    ensures LeadsVia(roots[n], ps)
    decreases n
  {
    if k < n {
      var j := n - 1;
      RunLeads(run, roots, mutable, ps, k, j);
      LeadsStays(run, roots, mutable, ps, j);
    }
  }

  lemma {:induction false} LeadsStays(run: seq<Call>, roots: seq<Trie>, mutable: bool, ps: Pattern, j: nat)
    requires IsRun(run, roots, mutable) && j < |run| && ps != [] && LeadsVia(roots[j], ps)
    ensures LeadsVia(roots[j + 1], ps)
  {
    var c := run[j];
    RunIsRoot(run, roots, mutable, j);
    StepLeads(roots[j], mutable, c.pattern, c.handler, roots[j + 1], c.ok, ps);
  }

  /** No earlier call that returned registered the pattern or one that goes on after it. */
  predicate NothingEarlier(run: seq<Call>, k: nat, q: Pattern)
    requires k <= |run|
  {
    forall j :: 0 <= j < k && run[j].ok ==> !(q <= run[j].pattern)
  }

  lemma {:induction false} RunUnreached(run: seq<Call>, roots: seq<Trie>, mutable: bool, k: nat, q: Pattern)
    requires IsRun(run, roots, mutable) && k <= |run| && NothingEarlier(run, k, q)
    ensures Unreached(roots[k], q)
  {
    forall r | r in Routes(roots[k], [])
      ensures !(q <= r.0)
    {
      StoredIsCalled(run, roots, mutable, k, r.0);
      assert r.0 in Stored(roots[k]);
    }
  }

  lemma {:induction false} GoodFront(ps: Pattern)
    requires Good(ps + SLASH)
    ensures Good(ps)
    decreases |ps|
  {
    if ps != [] {
      assert (ps + SLASH)[1..] == ps[1..] + SLASH && (ps + SLASH)[0] == ps[0];
      GoodFront(ps[1..]);
      if |ps| > 1 { assert (ps + SLASH)[1] == ps[1]; }
    }
  }

  /**
   Over every run with patterns that name parameters consistently, mutable or not, refused calls included: once a
   call has registered a route with a final slash before any route at or beyond it, a path that fits the route
   without the slash, its last parameter not empty, is answered with a handler or a slash recommendation ever after,
   unless a dead end hangs off the branch.
   */
  lemma {:induction false} RunAddsSlash(
    run: seq<Call>, roots: seq<Trie>, mutable: bool, patterns: iset<Pattern>, k: nat, ps: Pattern, vals: seq<string>,
    path: string)
    requires IsRun(run, roots, mutable) && Within(run, patterns) && Registrable(patterns) && OneNamed(patterns)
    requires k < |run| && run[k].ok && run[k].pattern == ps + SLASH && ps != [] && NothingEarlier(run, k, ps + SLASH)
    requires Fits(ps, vals, path, false) && KeyFilled(ps, vals)
    ensures Searchable(roots[|run|])
    ensures Settled(Get(roots[|run|], path)) || StuckAtRoot(roots[|run|], ps, vals, path)
  {
    var c, root := run[k], roots[|run|];
    RunTidy(run, roots, mutable, patterns, k);
    RunIsRoot(run, roots, mutable, |run|);
    RunUnreached(run, roots, mutable, k, c.pattern);
    assert AddStep(roots[k], mutable, Print(c.pattern), c.handler, roots[k + 1], c.ok);
    CallAnnounces(roots[k], mutable, ps, c.pattern, c.handler, roots[k + 1]);
    RunLeads(run, roots, mutable, ps, k + 1, |run|);
    WellFormedIsSearchable(root);
    GoodFront(ps);
    GetLedTo(root, ps, vals, path);
  }
}
