/**
 Conservation at the level of `Tree.Add`: root splitting, root replacement, overriding in a
 mutable tree and re-sorting included, over every run of successful and failing calls.
 */
module RouteTree {
  import opened Text
  import opened WildPath
  import opened Pattern
  import opened Trie
  import opened Conservation

  // ----- sort ------------------------------------------------------------------------------

  lemma {:induction false} SameRoutes(xs: seq<Trie>, ys: seq<Trie>, pre: Pattern)
    requires |xs| == |ys| && forall i :: 0 <= i < |xs| ==> Routes(xs[i], pre) == Routes(ys[i], pre)
    ensures RoutesOf(xs, pre) == RoutesOf(ys, pre)
    decreases |xs|
  {
    if xs != [] {
      SameRoutes(xs[1..], ys[1..], pre);
    }
  }

  /** Sorting reorders children at every level and loses no route. */
  lemma {:induction false} SortKeepsRoutes(a: Trie, b: Trie, pre: Pattern)
    requires SortsTo(a, b)
    ensures Routes(b, pre) == Routes(a, pre)
    decreases a
  {
    var mid :| SortsEach(a, mid) && multiset(mid) == multiset(b.kids);
    var full := pre + TextOf(a);
    forall i | 0 <= i < |mid|
      ensures Routes(mid[i], full) == Routes(a.kids[i], full)
    {
      SortKeepsRoutes(a.kids[i], mid[i], full);
    }
    SameRoutes(mid, a.kids, full);
    RoutesOfSwap(mid, b.kids, full);
  }

  /** Sorting need not move anything in a sorted tree. */
  lemma {:induction false} SortedStays(n: Trie)
    requires Sorted(n)
    ensures SortsTo(n, n)
    decreases n
  {
    forall i | 0 <= i < |n.kids|
      ensures SortsTo(n.kids[i], n.kids[i])
    {
      SortedStays(n.kids[i]);
    }
    assert SortsEach(n, n.kids);
  }

  lemma {:induction false} SortStands(a: Trie, b: Trie)
    requires SortsTo(a, b) && WellFormed(a)
    ensures Stands(a, b)
    decreases a
  {
    var mid :| SortsEach(a, mid) && multiset(mid) == multiset(b.kids);
    forall i | 0 <= i < |b.kids|
      ensures IsChild(b.kids[i]) && WellFormed(b.kids[i])
    {
      assert b.kids[i] in multiset(mid);
      var j :| 0 <= j < |mid| && mid[j] == b.kids[i];
      KidIsWellFormed(a, j);
      SortStands(a.kids[j], mid[j]);
    }
  }

  // ----- the node an "already registered" error points at --------------------------------------

  /** The pattern spelled down to the node at `at`. */
  function Full(n: Trie, at: seq<nat>, pre: Pattern): Pattern
    requires NodeAt(n, at).Some?
  {
    if at == [] then pre + TextOf(n) else Full(n.kids[at[0]], at[1..], pre + TextOf(n))
  }

  /** An "already registered" error names the node that spells the rejected pattern. */
  ghost predicate Blames(r: Outcome, pre: Pattern, target: Pattern) {
    r.err == Some(HandlerExists) || r.err == Some(WildcardHandlerExists) ==>
      && r.at.Some? && NodeAt(r.node, r.at.value).Some?
      && var m, full := NodeAt(r.node, r.at.value).value, Full(r.node, r.at.value, pre);
         if r.err == Some(HandlerExists) then full == target && (m.handler.Some? || m.tsr)
         else m.wildcard.Some? && full + [Rest(m.wildcard.value.key)] == target
  }

  lemma {:induction false} UnderBlames(n: Trie, k: nat, r: Outcome, pre: Pattern, target: Pattern)
    requires k < |n.kids| && Blames(r, pre + TextOf(n), target)
    ensures Blames(Under(n, k, r), pre, target)
  {
    if r.at.Some? {
      var at := r.at.value;
      assert ([k] + at)[1..] == at;
    }
  }

  lemma {:induction false} PrintRestInjective(a: string, b: string)
    requires PrintPart(Rest(a)) == PrintPart(Rest(b))
    ensures a == b
  {
    var s := PrintPart(Rest(a));
    assert s[1..|s| - 3] == a && s[1..|s| - 3] == b;
  }

  lemma {:induction false} AttachWildcardBlames(n: Trie, wp: WildPath, h: Handler, pre: Pattern, name: string)
    requires WellFormed(n) && wp.keys == [name]
    ensures Blames(AttachWildcard(n, PrintPart(Rest(name)), wp, h), pre, pre + TextOf(n) + [Rest(name)])
  {
    if n.wildcard.Some? && n.wildcard.value.path == PrintPart(Rest(name)) {
      assert GoodWild(n.wildcard);
      PrintRestInjective(n.wildcard.value.key, name);
    }
  }

  lemma {:induction false} InsertWildcardBlames(n: Trie, wp: WildPath, h: Handler, pre: Pattern, name: string)
    requires WellFormed(n) && wp.keys == [name]
    ensures Blames(InsertWildcard(n, PrintPart(Rest(name)), wp, h), pre, pre + TextOf(n) + [Rest(name)])
  {
    var path, last := PrintPart(Rest(name)), |n.path| - 1;
    if |path| == SegmentEnd(path, true) && n.path != "" && n.path[last] == '/' {
      if n.path != "/" {
        SplitKeepsRoutes(n, last, pre);
        SplitStands(n, last);
        var cut := Split(n, last).(tsr := true);
        AttachWildcardBlames(cut.kids[0], wp, h, pre + TextOf(cut), name);
        UnderBlames(cut, 0, AttachWildcard(cut.kids[0], path, wp, h), pre, pre + TextOf(n) + [Rest(name)]);
      } else {
        AttachWildcardBlames(n, wp, h, pre, name);
      }
    }
  }

  lemma {:induction false} InsertBlames(n: Trie, ps: Pattern, h: Handler, pre: Pattern)
    requires WellFormed(n) && Good(ps) && ps != []
    ensures Blames(Insert(n, Print(ps), h), pre, pre + TextOf(n) + ps)
    decreases |ps|
  {
    var s := LitPrefix(ps);
    InsertCases(n, ps, h);
    if s != "" && |s| < |ps| {
      InsertLiteralBlames(n, ps, h, pre);
    } else if s == "" && ps[0].Rest? {
      InsertRestBlames(n, ps, h, pre);
    } else if s == "" {
      InsertKeyBlames(n, ps, h, pre);
    }
  }

  lemma {:induction false} InsertLiteralBlames(n: Trie, ps: Pattern, h: Handler, pre: Pattern)
    requires Good(ps) && 0 < |LitPrefix(ps)| < |ps|
    ensures Blames(Insert(n, Print(ps), h), pre, pre + TextOf(n) + ps)
    decreases |ps|, 0
  {
    var s, full := LitPrefix(ps), pre + TextOf(n);
    var child := NewNode(s);
    InsertLiteralCase(n, ps, h);
    NewNodeIsWellFormed(s);
    InsertBlames(child, ps[|s|..], h, full);
    Assoc(full, Lits(s), ps[|s|..]);
    UnderBlames(n.(kids := n.kids + [child]), |n.kids|, Insert(child, Print(ps[|s|..]), h), pre, full + ps);
  }

  lemma {:induction false} InsertRestBlames(n: Trie, ps: Pattern, h: Handler, pre: Pattern)
    requires WellFormed(n) && Good(ps) && ps != [] && ps[0].Rest?
    ensures Blames(Insert(n, Print(ps), h), pre, pre + TextOf(n) + ps)
  {
    InsertCases(n, ps, h);
    assert ps == [ps[0]] + [] && Print(ps) == PrintPart(ps[0]);
    InsertWildcardBlames(n, FindWild(Print(ps)).wp, h, pre, ps[0].name);
  }

  lemma {:induction false} InsertKeyBlames(n: Trie, ps: Pattern, h: Handler, pre: Pattern)
    requires Good(ps) && ps != [] && ps[0].Key?
    ensures Blames(Insert(n, Print(ps), h), pre, pre + TextOf(n) + ps)
    decreases |ps|, 0
  {
    InsertKeyCase(n, ps, h);
    if |ps| > 1 && ps[1..] != SLASH {
      var full, child := pre + TextOf(n), KeyNode(ps);
      KeyNodeIsWellFormed(ps);
      InsertBlames(child, ps[1..], h, full);
      assert full + [ps[0]] + ps[1..] == full + ps;
      UnderBlames(n.(kids := n.kids + [child]), |n.kids|, Insert(child, Print(ps[1..]), h), pre, full + ps);
    }
  }

  lemma {:induction false} AddBlames(n: Trie, ps: Pattern, h: Handler, pre: Pattern)
    requires WellFormed(n) && Good(ps)
    ensures Blames(Add(n, Print(ps), h), pre, pre + TextOf(n) + ps)
    decreases |ps|
  {
    var path, full := Print(ps), pre + TextOf(n);
    var k := FirstShared(n.kids, path);
    if ps == [] {
      assert full + ps == full;
    } else if k == |n.kids| {
      InsertBlames(n, ps, h, pre);
    } else {
      KidIsWellFormed(n, k);
      if n.kids[k].kind == Param {
        AddAtParamBlames(n, k, ps, h, pre);
      } else {
        AddAtStaticBlames(n, k, ps, h, pre);
      }
    }
  }

  lemma {:induction false} AddAtStaticBlames(n: Trie, k: nat, ps: Pattern, h: Handler, pre: Pattern)
    requires k < |n.kids| && k == FirstShared(n.kids, Print(ps))
    requires WellFormed(n.kids[k]) && n.kids[k].kind == Static && Good(ps) && ps != []
    ensures Blames(Add(n, Print(ps), h), pre, pre + TextOf(n) + ps)
    decreases |ps|, 0
  {
    var full, child := pre + TextOf(n), n.kids[k];
    var i := Lcp(Print(ps), child.path);
    var cut := CutAt(child, i);
    AddAtStaticCases(n, k, ps, h);
    CutStands(child, i);
    Assoc(full, TextOf(cut), ps[i..]);
    var n1 := n.(kids := n.kids[k := cut]);
    if i < |ps| {
      AddBlames(cut, ps[i..], h, full);
      UnderBlames(n1, k, Add(cut, Print(ps[i..]), h), pre, full + ps);
    } else {
      assert full + TextOf(cut) == full + ps;
      var marked := if Print(ps) == "/" then n1.(tsr := true) else n1;
      UnderBlames(marked, k, SetHandler(cut, h), pre, full + ps);
    }
  }

  lemma {:induction false} AddAtParamBlames(n: Trie, k: nat, ps: Pattern, h: Handler, pre: Pattern)
    requires WellFormed(n) && k < |n.kids| && n.kids[k].kind == Param
    requires Good(ps) && ps != [] && Lcp(Print(ps), n.kids[k].path) > 0
    ensures Blames(AddAtParam(n, k, Print(ps), h), pre, pre + TextOf(n) + ps)
    decreases |ps|, 0
  {
    var full, child := pre + TextOf(n), n.kids[k];
    KidIsWellFormed(n, k);
    AddAtParamCases(n, k, ps, h);
    var r := AddAtParam(n, k, Print(ps), h);
    if r == Insert(n, Print(ps), h) {
      InsertBlames(n, ps, h, pre);
    } else if |ps| > 1 && ps[0] == Key(child.keys[0]) {
      AddBlames(child, ps[1..], h, full);
      assert full + TextOf(child) + ps[1..] == full + ps;
      UnderBlames(n, k, Add(child, Print(ps[1..]), h), pre, full + ps);
    } else if ps == [Key(child.keys[0])] {
      AddKeyBlames(n, k, h, pre);
    }
  }

  lemma {:induction false} AddKeyBlames(n: Trie, k: nat, h: Handler, pre: Pattern)
    requires k < |n.kids| && n.kids[k].kind == Param && |n.kids[k].keys| == 1
    ensures var target, c := pre + TextOf(n) + [Key(n.kids[k].keys[0])], n.kids[k];
      && Blames(Under(n, k, SetHandler(c, h)), pre, target)
      && (c.handler.Some? ==> Blames(Outcome(n, Some(HandlerExists), Some([k])), pre, target))
  {
    var child, target := n.kids[k], pre + TextOf(n) + [Key(n.kids[k].keys[0])];
    UnderBlames(n, k, SetHandler(child, h), pre, target);
    if child.handler.Some? {
      assert NodeAt(n, [k]) == NodeAt(child, []) && [k][1..] == [];
      assert Full(n, [k], pre) == target;
    }
  }

  // ----- overriding a handler ------------------------------------------------------------------

  lemma {:induction false} ReplaceRoutes(
    n: Trie, at: seq<nat>, m: Trie, pre: Pattern, above: Pattern, loss: multiset<Route>, gain: multiset<Route>)
    requires NodeAt(n, at).Some? && Full(n, at, pre) == above + TextOf(NodeAt(n, at).value)
    requires Routes(m, above) + loss == Routes(NodeAt(n, at).value, above) + gain
    ensures Routes(Replace(n, at, m), pre) + loss == Routes(n, pre) + gain
  {
    if at == [] {
      AboveIsPrefix(above, pre, TextOf(n));
    } else {
      var k, full := at[0], pre + TextOf(n);
      ReplaceRoutes(n.kids[k], at[1..], m, full, above, loss, gain);
      KidSwap(n, k, Replace(n.kids[k], at[1..], m), pre, loss, gain);
    }
  }

  lemma {:induction false} KidSwap(n: Trie, k: nat, c: Trie, pre: Pattern, loss: multiset<Route>, gain: multiset<Route>)
    requires k < |n.kids| && Routes(c, pre + TextOf(n)) + loss == Routes(n.kids[k], pre + TextOf(n)) + gain
    ensures Routes(n.(kids := n.kids[k := c]), pre) + loss == Routes(n, pre) + gain
  {
    var kids', full := n.kids[k := c], pre + TextOf(n);
    assert kids'[..k] == n.kids[..k] && kids'[k + 1..] == n.kids[k + 1..];
    RoutesOfAt(n.kids, k, full);
    RoutesOfAt(kids', k, full);
    SumSwap(Others(n.kids, k, full), Routes(n.kids[k], full), Routes(c, full), loss, gain);
    SumSwap(Own(n, full), RoutesOf(n.kids, full), RoutesOf(kids', full), loss, gain);
    KidRoutes(n, kids', pre);
  }

  lemma {:induction false} KidRoutes(n: Trie, kids: seq<Trie>, pre: Pattern)
    ensures Routes(n.(kids := kids), pre) == Own(n, pre + TextOf(n)) + RoutesOf(kids, pre + TextOf(n))
  {
  }

  lemma {:induction false} MemberAt(n: Trie, at: seq<nat>, pre: Pattern, above: Pattern, r: Route)
    requires NodeAt(n, at).Some? && Full(n, at, pre) == above + TextOf(NodeAt(n, at).value)
    requires r in Routes(NodeAt(n, at).value, above)
    ensures r in Routes(n, pre)
  {
    if at == [] {
      AboveIsPrefix(above, pre, TextOf(n));
    } else {
      MemberAt(n.kids[at[0]], at[1..], pre + TextOf(n), above, r);
      RoutesOfMember(n.kids, at[0], pre + TextOf(n), r);
    }
  }

  lemma {:induction false} AboveIsPrefix(a: Pattern, b: Pattern, t: Pattern)
    requires a + t == b + t
    ensures a == b
  {
    assert a == (a + t)[..|a|];
  }

  lemma {:induction false} ReplaceStands(n: Trie, at: seq<nat>, m: Trie)
    requires WellFormed(n) && NodeAt(n, at).Some? && Stands(NodeAt(n, at).value, m)
    ensures Stands(n, Replace(n, at, m))
  {
    if at != [] {
      KidIsWellFormed(n, at[0]);
      ReplaceStands(n.kids[at[0]], at[1..], m);
    }
  }

  lemma {:induction false} NodeAtIsWellFormed(n: Trie, at: seq<nat>, pre: Pattern) returns (above: Pattern)
    requires WellFormed(n) && NodeAt(n, at).Some?
    ensures WellFormed(NodeAt(n, at).value) && Full(n, at, pre) == above + TextOf(NodeAt(n, at).value)
  {
    if at == [] {
      above := pre;
    } else {
      KidIsWellFormed(n, at[0]);
      above := NodeAtIsWellFormed(n.kids[at[0]], at[1..], pre + TextOf(n));
    }
  }

  /** The route an override replaces, and the tree it leaves. */
  lemma {:induction false} OverrideSwaps(r: Outcome, h: Handler, target: Pattern) returns (was: Handler)
    requires WellFormed(r.node) && Blames(r, [], target) && Overrides(r, true)
    ensures var root' := Replace(r.node, r.at.value, Rehandled(NodeAt(r.node, r.at.value).value, r.err.value, h));
      && Stands(r.node, root') && (target, was) in Routes(r.node, [])
      && Routes(root', []) + multiset{(target, was)} == Routes(r.node, []) + multiset{(target, h)}
  {
    var at := r.at.value;
    var m := NodeAt(r.node, at).value;
    var m' := Rehandled(m, r.err.value, h);
    var above := NodeAtIsWellFormed(r.node, at, []);
    was := if r.err == Some(HandlerExists) then m.handler.value else m.wildcard.value.handler;
    RehandledSwaps(m, r.err.value, h, above, target, was);
    MemberAt(r.node, at, [], above, (target, was));
    ReplaceRoutes(r.node, at, m', [], above, multiset{(target, was)}, multiset{(target, h)});
    ReplaceStands(r.node, at, m');
  }

  lemma {:induction false} RehandledSwaps(
    m: Trie, e: AddError, h: Handler, above: Pattern, target: Pattern, was: Handler)
    requires WellFormed(m) && (e == HandlerExists || e == WildcardHandlerExists)
    requires if e == HandlerExists then m.handler == Some(was) && above + TextOf(m) == target
             else
               && m.wildcard.Some? && m.wildcard.value.handler == was
               && above + TextOf(m) + [Rest(m.wildcard.value.key)] == target
    ensures Stands(m, Rehandled(m, e, h)) && (target, was) in Routes(m, above)
    ensures Routes(Rehandled(m, e, h), above) + multiset{(target, was)} == Routes(m, above) + multiset{(target, h)}
  {
    var m', full := Rehandled(m, e, h), above + TextOf(m);
    assert TextOf(m') == TextOf(m) && m'.kids == m.kids;
    assert (target, was) in Own(m, full);
    assert Own(m', full) + multiset{(target, was)} == Own(m, full) + multiset{(target, h)};
  }

  // ----- Tree.Add ------------------------------------------------------------------------------

  /** Roots as `New` and `Add` leave them: no text yet (and at most one child), or text starting with '/'. */
  predicate IsRoot(root: Trie) {
    && root.kind == Root && WellFormed(root)
    && (if root.path == "" then
          && root.handler == None && root.wildcard == None && |root.kids| <= 1
          && (root.kids != [] ==> root.kids[0].kind == Static && root.kids[0].path != "" && root.kids[0].path[0] == '/')
        else root.path[0] == '/')
  }

  /** A pattern `Tree.Add` accepts for insertion: supported, and starting with '/'. */
  predicate IsRoute(ps: Pattern) {
    Good(ps) && ps != [] && ps[0] == Lit('/')
  }

  /** The root after `Tree.Add` has split it for a path sharing `i` characters. */
  function CutRoot(root: Trie, i: nat): Trie
    requires i <= |root.path|
  {
    if 0 < i < |root.path| then Split(root, i) else root
  }

  lemma {:induction false} RootIsCut(root: Trie, ps: Pattern, h: Handler)
    requires IsRoot(root) && IsRoute(ps)
    ensures var i := Lcp(Print(ps), root.path); var cut := CutRoot(root, i);
      && i <= |ps| && Good(ps[i..]) && TextOf(cut) + ps[i..] == ps && Print(ps)[i..] == Print(ps[i..])
      && AddAtRoot(root, Print(ps), h) == Add(cut, Print(ps[i..]), h)
  {
    var path := Print(ps);
    var i := Lcp(path, root.path);
    SharedIsLiteral(ps, root.path);
    CutLiterals(ps, i);
    PrintStart(ps);
    assert root.path != "" ==> i > 0;
    assert root.path[..|root.path|] == root.path;
    assert CutRoot(root, i).path == path[..i];
  }

  /** `Tree.Add` is `add` on a root that spells a prefix of the pattern and stores the same routes. */
  lemma {:induction false} SplitRoot(root: Trie, ps: Pattern, h: Handler) returns (cut: Trie, rest: Pattern)
    requires IsRoot(root) && IsRoute(ps)
    ensures Stands(root, cut) && Routes(cut, []) == Routes(root, [])
    ensures Good(rest) && [] + TextOf(cut) + rest == ps && AddAtRoot(root, Print(ps), h) == Add(cut, Print(rest), h)
  {
    var i := Lcp(Print(ps), root.path);
    RootIsCut(root, ps, h);
    cut, rest := CutRoot(root, i), ps[i..];
    if 0 < i < |root.path| {
      SplitStands(root, i);
      SplitKeepsRoutes(root, i, []);
    }
    assert [] + TextOf(cut) == TextOf(cut);
  }

  lemma {:induction false} AddAtRootGains(root: Trie, ps: Pattern, h: Handler)
    requires IsRoot(root) && IsRoute(ps)
    ensures Gains(root, AddAtRoot(root, Print(ps), h), [], (ps, h))
  {
    var cut, rest := SplitRoot(root, ps, h);
    AddGains(cut, rest, h, []);
  }

  lemma {:induction false} AddAtRootStands(root: Trie, ps: Pattern, h: Handler)
    requires IsRoot(root) && IsRoute(ps)
    ensures Stands(root, AddAtRoot(root, Print(ps), h).node)
  {
    var cut, rest := SplitRoot(root, ps, h);
    AddStands(cut, rest, h);
  }

  lemma {:induction false} AddAtRootBlames(root: Trie, ps: Pattern, h: Handler)
    requires IsRoot(root) && IsRoute(ps)
    ensures Blames(AddAtRoot(root, Print(ps), h), [], ps)
  {
    var cut, rest := SplitRoot(root, ps, h);
    AddBlames(cut, rest, h, []);
  }

  /** The text-less root keeps exactly one child, whose text starts with '/'. */
  lemma {:induction false} TextlessRootAdd(root: Trie, ps: Pattern, h: Handler)
    requires IsRoot(root) && root.path == "" && IsRoute(ps)
    ensures var n := AddAtRoot(root, Print(ps), h).node;
      && n == root.(kids := n.kids, tsr := n.tsr) && |n.kids| == 1
      && n.kids[0].kind == Static && n.kids[0].path != "" && n.kids[0].path[0] == '/'
  {
    var path := Print(ps);
    PrintStart(ps);
    assert path[0..] == path;
    var k := FirstShared(root.kids, path);
    if root.kids == [] {
      TextlessRootInsert(root, ps, h);
    } else {
      var c := root.kids[0];
      assert path[..1] == c.path[..1];
      assert Lcp(path, c.path) > 0;
      assert k == 0;
      KidIsWellFormed(root, 0);
      var i := Lcp(path, c.path);
      AddAtStaticCases(root, 0, ps, h);
      CutStands(c, i);
      if i < |ps| {
        AddStands(CutAt(c, i), ps[i..], h);
      } else {
        SetHandlerStands(CutAt(c, i), h);
      }
    }
  }

  lemma {:induction false} TextlessRootInsert(root: Trie, ps: Pattern, h: Handler)
    requires root.kids == [] && IsRoute(ps)
    ensures var n := Insert(root, Print(ps), h).node;
      && n == root.(kids := n.kids, tsr := n.tsr) && |n.kids| == 1
      && n.kids[0].kind == Static && n.kids[0].path != "" && n.kids[0].path[0] == '/'
  {
    var s := LitPrefix(ps);
    assert s[0] == '/';
    InsertCases(root, ps, h);
    NewNodeIsWellFormed(s);
    if |s| == |ps| {
      AttachHangs(root, NewNode(s), h);
    } else {
      InsertStands(NewNode(s), ps[|s|..], h);
    }
  }

  lemma {:induction false} PromoteKeeps(root: Trie, n: Trie)
    requires IsRoot(root) && Stands(root, n)
    requires root.path == "" ==>
      && n == root.(kids := n.kids, tsr := n.tsr) && |n.kids| == 1
      && n.kids[0].kind == Static && n.kids[0].path != "" && n.kids[0].path[0] == '/'
    ensures IsRoot(n) && IsRoot(Promote(n)) && Routes(Promote(n), []) == Routes(n, [])
  {
    if n.path == "" {
      var c := n.kids[0];
      KidIsWellFormed(n, 0);
      assert n.kids == [c];
      assert [] + TextOf(n) == [];
      RoutesOfOne(c, []);
      assert Routes(c.(kind := Root), []) == Routes(c, []);
    }
  }

  lemma {:induction false} SortIsRoot(a: Trie, b: Trie)
    requires IsRoot(a) && SortsTo(a, b) && a.path != ""
    ensures IsRoot(b)
  {
    SortStands(a, b);
  }

  lemma {:induction false} OverrideIsRoot(r: Outcome, h: Handler, ps: Pattern)
    requires IsRoot(r.node) && IsRoute(ps) && Blames(r, [], ps) && Overrides(r, true)
    ensures IsRoot(Replace(r.node, r.at.value, Rehandled(NodeAt(r.node, r.at.value).value, r.err.value, h)))
  {
    var n, at := r.node, r.at.value;
    var m := NodeAt(n, at).value;
    var m' := Rehandled(m, r.err.value, h);
    var above := NodeAtIsWellFormed(n, at, []);
    assert Stands(m, m');
    ReplaceStands(n, at, m');
    if n.path == "" {
      assert at != [];
      KidIsWellFormed(n, 0);
      ReplaceStands(n.kids[0], at[1..], m');
    }
  }

  /** What one `Tree.Add` call did to the stored routes. */
  ghost predicate Conserved(
    before: multiset<Route>, after: multiset<Route>, ps: Pattern, h: Handler, ok: bool, mutable: bool)
  {
    if !ok then after == before
    else
      || after == before + multiset{(ps, h)}
      || (mutable && exists was :: Exchanged(before, after, ps, was, h))
  }

  ghost predicate Exchanged(before: multiset<Route>, after: multiset<Route>, ps: Pattern, was: Handler, h: Handler) {
    (ps, was) in before && after + multiset{(ps, was)} == before + multiset{(ps, h)}
  }

  /**
   One `Tree.Add` call stores exactly the new route; in a mutable tree it may instead put the
   handler in place of the one stored for the same pattern; a panicking call stores nothing.
   */
  lemma {:induction false} AddConserves(root: Trie, mutable: bool, ps: Pattern, h: Handler, root': Trie, ok: bool)
    requires IsRoot(root) && IsRoute(ps) && AddStep(root, mutable, Print(ps), h, root', ok)
    ensures IsRoot(root')
    ensures Conserved(Routes(root, []), Routes(root', []), ps, h, ok, mutable)
  {
    var r := AddAtRoot(root, Print(ps), h);
    PrintStart(ps);
    AddAtRootGains(root, ps, h);
    AddAtRootStands(root, ps, h);
    if root.path == "" { TextlessRootAdd(root, ps, h); }
    PromoteKeeps(root, r.node);
    if r.err == None {
      SortKeepsRoutes(Promote(r.node), root', []);
      SortIsRoot(Promote(r.node), root');
    } else if Overrides(r, mutable) {
      AddAtRootBlames(root, ps, h);
      var was := OverrideSwaps(r, h, ps);
      OverrideIsRoot(r, h, ps);
      assert Exchanged(Routes(root, []), Routes(root', []), ps, was, h);
    }
  }

  // ----- runs ----------------------------------------------------------------------------------

  datatype Call = Call(pattern: Pattern, handler: Handler, ok: bool)

  /** `roots` are the trees a storage goes through, from `New` on, under the calls of `run`. */
  ghost predicate IsRun(run: seq<Call>, roots: seq<Trie>, mutable: bool) {
    && |roots| == |run| + 1 && roots[0] == EMPTY
    && forall k :: 0 <= k < |run| ==>
         && IsRoute(run[k].pattern)
         && AddStep(roots[k], mutable, Print(run[k].pattern), run[k].handler, roots[k + 1], run[k].ok)
  }

  /** The routes of the calls that returned. */
  function Accepted(run: seq<Call>): multiset<Route> {
    if run == [] then multiset{}
    else
      var last := run[|run| - 1];
      Accepted(run[..|run| - 1]) + (if last.ok then multiset{(last.pattern, last.handler)} else multiset{})
  }

  lemma {:induction false} EmptyIsRoot()
    ensures IsRoot(EMPTY) && Routes(EMPTY, []) == multiset{}
  {
    MarkerIsWellFormed();
  }

  /** The patterns of some routes. */
  ghost function Patterns(routes: multiset<Route>): set<Pattern> { set r | r in routes :: r.0 }

  lemma {:induction false} PatternsJoin(a: multiset<Route>, b: multiset<Route>)
    ensures Patterns(a + b) == Patterns(a) + Patterns(b)
  {
    forall p | p in Patterns(a) + Patterns(b)
      ensures p in Patterns(a + b)
    {
      var r :| (r in a || r in b) && r.0 == p;
      assert r in a + b;
    }
  }

  /** An exchanged route was there before, and nothing but the new one was not. */
  lemma {:induction false} ExchangedRoutes(
    before: multiset<Route>, after: multiset<Route>, ps: Pattern, was: Handler, h: Handler)
    requires Exchanged(before, after, ps, was, h)
    ensures (ps, h) in after && after <= before + multiset{(ps, h)}
    ensures forall r :: r in before && r != (ps, was) ==> r in after
  {
    var lost, added := multiset{(ps, was)}, multiset{(ps, h)};
    assert after == before + added - lost by { assert after == (after + lost) - lost; }
    forall r | r in before && r != (ps, was)
      ensures r in after
    {
      assert (before + added - lost)[r] >= before[r];
    }
    if was == h { assert after == before; }
  }

  /** One call leaves the stored patterns as they were, but for the one of a call that returned. */
  lemma {:induction false} ConservedPatterns(
    before: multiset<Route>, after: multiset<Route>, ps: Pattern, h: Handler, ok: bool, mutable: bool)
    requires Conserved(before, after, ps, h, ok, mutable)
    ensures Patterns(after) == Patterns(before) + (if ok then {ps} else {})
    ensures after <= before + (if ok then multiset{(ps, h)} else multiset{})
    ensures ok ==> (ps, h) in after
    ensures forall r :: r in before && (!ok || r.0 != ps) ==> r in after
  {
    if ok {
      assert Patterns(multiset{(ps, h)}) == {ps};
      PatternsJoin(before, multiset{(ps, h)});
      if after != before + multiset{(ps, h)} {
        var was :| Exchanged(before, after, ps, was, h);
        ExchangedRoutes(before, after, ps, was, h);
        ExchangedPatterns(before, after, ps, was, h);
      }
    }
  }

  lemma {:induction false} ExchangedPatterns(
    before: multiset<Route>, after: multiset<Route>, ps: Pattern, was: Handler, h: Handler)
    requires Exchanged(before, after, ps, was, h)
    ensures Patterns(after) == Patterns(before) && ps in Patterns(after)
  {
    ExchangedRoutes(before, after, ps, was, h);
    assert (ps, was) in before && (ps, h) in after;
    forall p
      ensures p in Patterns(after) <==> p in Patterns(before)
    {
      if p in Patterns(before) {
        var r :| r in before && r.0 == p;
        assert r in after || (ps, h).0 == p;
      }
      if p in Patterns(after) {
        var r :| r in after && r.0 == p;
        assert r in before || (ps, was).0 == p;
      }
    }
  }

  /**
   In every run, calls that panic included, every stored route is one a returning call registered, and the
   stored patterns are exactly those of the calls that returned. In an immutable storage the stored routes
   are exactly the routes of these calls, each as often as it was accepted.
   */
  lemma {:induction false} RunConserves(run: seq<Call>, roots: seq<Trie>, mutable: bool)
    requires IsRun(run, roots, mutable)
    ensures IsRoot(roots[|run|]) && Routes(roots[|run|], []) <= Accepted(run)
    ensures Patterns(Routes(roots[|run|], [])) == Patterns(Accepted(run))
    ensures !mutable ==> Routes(roots[|run|], []) == Accepted(run)
  {
    if run == [] {
      EmptyIsRoot();
    } else {
      var last, before, after := run[|run| - 1], roots[|run| - 1], roots[|run|];
      var accepted := Accepted(run[..|run| - 1]);
      RunConserves(run[..|run| - 1], roots[..|roots| - 1], mutable);
      AddConserves(before, mutable, last.pattern, last.handler, after, last.ok);
      ConservedPatterns(Routes(before, []), Routes(after, []), last.pattern, last.handler, last.ok, mutable);
      AcceptedOneMore(Routes(before, []), Routes(after, []), accepted, last, mutable);
    }
  }

  lemma {:induction false} AcceptedOneMore(
    before: multiset<Route>, after: multiset<Route>, accepted: multiset<Route>, last: Call, mutable: bool)
    requires Conserved(before, after, last.pattern, last.handler, last.ok, mutable)
    requires before <= accepted && Patterns(before) == Patterns(accepted)
    ensures var more := accepted + (if last.ok then multiset{(last.pattern, last.handler)} else multiset{});
      after <= more && Patterns(after) == Patterns(more)
  {
    var r := (last.pattern, last.handler);
    ConservedPatterns(before, after, r.0, r.1, last.ok, mutable);
    if last.ok {
      PatternsJoin(accepted, multiset{r});
      assert Patterns(multiset{r}) == {r.0};
    } else {
      assert accepted + multiset{} == accepted;
    }
  }

  /** No later call with the pattern of call `k` returned. */
  predicate Latest(run: seq<Call>, k: nat)
    requires k < |run|
  {
    run[k].ok && forall j :: k < j < |run| && run[j].ok ==> run[j].pattern != run[k].pattern
  }

  /** What call `n` of a run did to the stored routes. */
  ghost predicate CallConserved(run: seq<Call>, roots: seq<Trie>, mutable: bool, n: nat)
    requires n < |run| && |roots| == |run| + 1
  {
    Conserved(Routes(roots[n], []), Routes(roots[n + 1], []), run[n].pattern, run[n].handler, run[n].ok, mutable)
  }

  lemma {:induction false} CallConserves(run: seq<Call>, roots: seq<Trie>, mutable: bool, n: nat)
    requires IsRun(run, roots, mutable) && n < |run| && IsRoot(roots[n])
    ensures IsRoot(roots[n + 1]) && CallConserved(run, roots, mutable, n)
  {
    AddConserves(roots[n], mutable, run[n].pattern, run[n].handler, roots[n + 1], run[n].ok);
  }

  lemma {:induction false} RunIsRoot(run: seq<Call>, roots: seq<Trie>, mutable: bool, n: nat)
    requires IsRun(run, roots, mutable) && n <= |run|
    ensures IsRoot(roots[n])
  {
    if n == 0 {
      EmptyIsRoot();
    } else {
      var k := n - 1;
      RunIsRoot(run, roots, mutable, k);
      CallConserves(run, roots, mutable, k);
      assert k + 1 == n;
    }
  }

  lemma {:induction false} CallStores(run: seq<Call>, roots: seq<Trie>, mutable: bool, n: nat)
    requires n < |run| && |roots| == |run| + 1 && CallConserved(run, roots, mutable, n) && run[n].ok
    ensures (run[n].pattern, run[n].handler) in Routes(roots[n + 1], [])
  {
    var c := run[n];
    ConservedPatterns(Routes(roots[n], []), Routes(roots[n + 1], []), c.pattern, c.handler, c.ok, mutable);
  }

  lemma {:induction false} CallSpares(run: seq<Call>, roots: seq<Trie>, mutable: bool, n: nat, r: Route)
    requires n < |run| && |roots| == |run| + 1 && CallConserved(run, roots, mutable, n)
    requires r in Routes(roots[n], []) && (run[n].ok ==> run[n].pattern != r.0)
    ensures r in Routes(roots[n + 1], [])
  {
    var c := run[n];
    ConservedPatterns(Routes(roots[n], []), Routes(roots[n + 1], []), c.pattern, c.handler, c.ok, mutable);
  }

  lemma {:induction false} LatestStays(run: seq<Call>, roots: seq<Trie>, mutable: bool, k: nat, n: nat, r: Route)
    requires IsRun(run, roots, mutable) && k <= n < |run| && Latest(run, k) && r == (run[k].pattern, run[k].handler)
    ensures r in Routes(roots[n + 1], [])
  {
    RunIsRoot(run, roots, mutable, n);
    CallConserves(run, roots, mutable, n);
    if k == n {
      CallStores(run, roots, mutable, n);
    } else {
      var m := n - 1;
      LatestStays(run, roots, mutable, k, m, r);
      assert m + 1 == n;
      CallSpares(run, roots, mutable, n, r);
    }
  }

  /** Over every run, the handler registered last for a pattern is stored for it, whatever was registered before. */
  lemma {:induction false} RunStoresLatest(run: seq<Call>, roots: seq<Trie>, mutable: bool, k: nat)
    requires IsRun(run, roots, mutable) && k < |run| && Latest(run, k)
    ensures (run[k].pattern, run[k].handler) in Routes(roots[|run|], [])
  {
    LatestStays(run, roots, mutable, k, |run| - 1, (run[k].pattern, run[k].handler));
  }

  // ----- the tree of a single route -----------------------------------------------------------------

  /** The storage after registering only the literal path `s`, which does not end in a slash. */
  function PlainTree(s: string, h: Handler): Trie {
    Trie(Root, s, false, Some(h), [MARKER], None, [])
  }

  lemma {:induction false} PlainTreeIsBuilt(s: string, h: Handler)
    requires s != "" && s[0] == '/' && '{' !in s && s[|s| - 1] != '/'
    ensures AddStep(EMPTY, false, s, h, PlainTree(s, h), true)
  {
    NoWildInLiterals(s);
    assert s[0..] == s;
    NewNodeIsWellFormed(s);
    AttachHangs(EMPTY, NewNode(s), h);
    var c := Hung(NewNode(s), h);
    assert [] + [MARKER] == [MARKER] && [] + [c] == [c];
    assert c.(kind := Root) == PlainTree(s, h);
    assert Sorted(MARKER);
    SortedStays(PlainTree(s, h));
  }
}
