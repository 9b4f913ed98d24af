/**
 The routes a tree stores, read off as "texts along the branch", and the conservation law
 of `Add`: a successful one stores exactly the new route, a failing one stores nothing, and
 no split, clone or sort loses, duplicates or respells a route.
 */
module Conservation {
  import opened Text
  import opened WildPath
  import opened Pattern
  import opened Trie

  type Route = (Pattern, Handler)

  /** The part of a pattern a node spells. */
  function TextOf(n: Trie): Pattern {
    if n.kind == Param && |n.keys| == 1 then [Key(n.keys[0])] else Lits(n.path)
  }

  /** The routes ending at a node whose branch spells `full`. */
  function Own(n: Trie, full: Pattern): multiset<Route> {
    (match n.handler case Some(h) => multiset{(full, h)} case None => multiset{})
    + (match n.wildcard case Some(w) => multiset{(full + [Rest(w.key)], w.handler)} case None => multiset{})
  }

  /** All routes stored at or below `n`, when `pre` is spelled above it. */
  function Routes(n: Trie, pre: Pattern): multiset<Route>
    decreases n, 0
  {
    Own(n, pre + TextOf(n)) + RoutesOf(n.kids, pre + TextOf(n))
  }

  function RoutesOf(kids: seq<Trie>, pre: Pattern): multiset<Route>
    decreases kids, 0
  {
    if kids == [] then multiset{} else Routes(kids[0], pre) + RoutesOf(kids[1..], pre)
  }

  /** A node as `Add` builds them: static text without braces, `{name}` parameters, `{name:*}` wildcards. */
  predicate WellFormed(n: Trie) {
    match n.kind
    case Wildcard => false
    case Param =>
      |n.keys| == 1 && GoodName(n.keys[0]) && n.path == PrintPart(Key(n.keys[0])) && GoodWild(n.wildcard)
        && GoodKids(n.kids)
    case _ => '{' !in n.path && GoodWild(n.wildcard) && GoodKids(n.kids)
  }

  predicate GoodWild(wild: Option<WildNode>) {
    match wild
    case None => true
    case Some(w) => GoodName(w.key) && w.path == PrintPart(Rest(w.key))
  }

  predicate GoodKids(kids: seq<Trie>) {
    forall i :: 0 <= i < |kids| ==> IsChild(kids[i]) && WellFormed(kids[i])
  }

  predicate IsChild(c: Trie) {
    c.kind == Param || (c.kind == Static && c.path != "")
  }

  lemma {:induction false} WellFormedIsSearchable(n: Trie)
    requires WellFormed(n)
    ensures Searchable(n)
  {
    forall i | 0 <= i < |n.kids|
      ensures Searchable(n.kids[i]) && IsChild(n.kids[i]) && WellFormed(n.kids[i])
    {
      assert GoodKids(n.kids);
      WellFormedIsSearchable(n.kids[i]);
    }
  }

  // ----- the route multiset of a list of children ----------------------------------------

  lemma {:induction false} RoutesOfConcat(a: seq<Trie>, b: seq<Trie>, pre: Pattern)
    ensures RoutesOf(a + b, pre) == RoutesOf(a, pre) + RoutesOf(b, pre)
  {
    if a == [] {
      assert a + b == b;
    } else {
      assert (a + b)[1..] == a[1..] + b;
      RoutesOfConcat(a[1..], b, pre);
    }
  }

  lemma {:induction false} RoutesOfOne(c: Trie, pre: Pattern)
    ensures RoutesOf([c], pre) == Routes(c, pre)
  {
    assert [c][1..] == [];
  }

  lemma {:induction false} RoutesOfAppend(kids: seq<Trie>, c: Trie, pre: Pattern)
    ensures RoutesOf(kids + [c], pre) == RoutesOf(kids, pre) + Routes(c, pre)
  {
    RoutesOfConcat(kids, [c], pre);
    RoutesOfOne(c, pre);
  }

  /** The routes of all children but the `k`-th. */
  function Others(kids: seq<Trie>, k: nat, pre: Pattern): multiset<Route>
    requires k < |kids|
  {
    RoutesOf(kids[..k], pre) + RoutesOf(kids[k + 1..], pre)
  }

  lemma {:induction false} RoutesOfAt(kids: seq<Trie>, k: nat, pre: Pattern)
    requires k < |kids|
    ensures RoutesOf(kids, pre) == Others(kids, k, pre) + Routes(kids[k], pre)
  {
    assert kids == kids[..k] + ([kids[k]] + kids[k + 1..]);
    RoutesOfConcat(kids[..k], [kids[k]] + kids[k + 1..], pre);
    RoutesOfConcat([kids[k]], kids[k + 1..], pre);
    RoutesOfOne(kids[k], pre);
  }

  /** Replacing a child changes the routes by exactly what changed in that child. */
  lemma {:induction false} RoutesOfUpdate(kids: seq<Trie>, k: nat, c: Trie, pre: Pattern, gain: multiset<Route>)
    requires k < |kids| && Routes(c, pre) == Routes(kids[k], pre) + gain
    ensures RoutesOf(kids[k := c], pre) == RoutesOf(kids, pre) + gain
  {
    var kids' := kids[k := c];
    RoutesOfAt(kids, k, pre);
    RoutesOfAt(kids', k, pre);
    assert kids'[..k] == kids[..k] && kids'[k + 1..] == kids[k + 1..];
  }

  lemma {:induction false} RoutesOfSwap(a: seq<Trie>, b: seq<Trie>, pre: Pattern)
    requires multiset(a) == multiset(b)
    ensures RoutesOf(a, pre) == RoutesOf(b, pre)
  {
    if a == [] {
      assert multiset(a) == multiset{};
      assert |multiset(b)| == |b|;
    } else {
      var k := DropCommon(a, b);
      RoutesOfSwap(a[1..], Without(b, k), pre);
      RoutesOfConcat(b[..k], b[k + 1..], pre);
      RoutesOfAt(b, k, pre);
    }
  }

  lemma {:induction false} RoutesOfMember(kids: seq<Trie>, k: nat, pre: Pattern, r: Route)
    requires k < |kids| && r in Routes(kids[k], pre)
    ensures r in RoutesOf(kids, pre)
  {
    RoutesOfAt(kids, k, pre);
  }

  lemma {:induction false} RoutesOfWitness(kids: seq<Trie>, pre: Pattern, r: Route) returns (k: nat)
    requires r in RoutesOf(kids, pre)
    ensures k < |kids| && r in Routes(kids[k], pre)
  {
    if r in Routes(kids[0], pre) {
      k := 0;
    } else {
      k := RoutesOfWitness(kids[1..], pre, r);
      k := k + 1;
    }
  }

  // ----- every operation keeps nodes well formed -------------------------------------------

  /** `m` may stand where `n` stood: same kind, still well formed, and starting with the same character. */
  predicate Stands(n: Trie, m: Trie) {
    WellFormed(m) && m.kind == n.kind && (n.path != "" ==> m.path != "" && m.path[0] == n.path[0])
  }

  lemma {:induction false} UnderStands(n: Trie, k: nat, r: Outcome)
    requires WellFormed(n) && k < |n.kids| && Stands(n.kids[k], r.node)
    ensures Stands(n, Under(n, k, r).node)
  {
  }

  lemma {:induction false} AppendStands(n: Trie, child: Trie, r: Outcome)
    requires WellFormed(n) && IsChild(child) && WellFormed(child) && Stands(child, r.node)
    ensures Stands(n, Under(n.(kids := n.kids + [child]), |n.kids|, r).node)
  {
    UnderStands(n.(kids := n.kids + [child]), |n.kids|, r);
  }

  lemma {:induction false} SplitStands(n: Trie, i: nat)
    requires WellFormed(n) && n.kind != Param && 0 < i < |n.path|
    ensures Stands(n, Split(n, i)) && Stands(n, Split(n, i).(tsr := true))
    ensures WellFormed(Split(n, i).kids[0]) && IsChild(Split(n, i).kids[0])
  {
    assert Split(n, i).kids == [] + [n.(kind := Static, path := n.path[i..], keys := [])];
  }

  lemma {:induction false} MarkerIsWellFormed()
    ensures WellFormed(MARKER) && IsChild(MARKER) && GoodKids([]) && GoodKids([MARKER])
  {
    assert GoodKids([]);
    assert [] + [MARKER] == [MARKER];
  }

  lemma {:induction false} MarkSlashStands(n: Trie)
    requires WellFormed(n)
    ensures Stands(n, MarkSlash(n))
  {
    var k := FirstSlash(n.kids);
    if k < |n.kids| {
      var c := n.kids[k];
      assert GoodKids(n.kids) && WellFormed(c);
      assert Stands(c, c.(tsr := true));
    } else if n.path != "/" {
      MarkerIsWellFormed();
    }
  }

  lemma {:induction false} SetHandlerStands(n: Trie, h: Handler)
    requires WellFormed(n)
    ensures Stands(n, SetHandler(n, h).node)
  {
    if !(n.handler.Some? || n.tsr) {
      MarkSlashStands(n.(handler := Some(h)));
    }
  }

  /** A leaf `Attach` can hang: literal text, `{name}`, or `{name}/` before its final split. */
  predicate IsLeaf(leaf: Trie) {
    leaf.kids == [] && leaf.wildcard == None && leaf.handler == None && !leaf.tsr &&
    ((leaf == NewNode(leaf.path) && leaf.path != "" && '{' !in leaf.path)
     || (leaf.kind == Param && |leaf.keys| == 1 && GoodName(leaf.keys[0])
         && (leaf.path == PrintPart(Key(leaf.keys[0])) || leaf.path == PrintPart(Key(leaf.keys[0])) + "/")))
  }

  /** The child `Attach` hangs. */
  function Hung(leaf: Trie, h: Handler): Trie {
    var child := leaf.(handler := Some(h));
    if leaf.path == "/" then child
    else if leaf.path != "" && leaf.path[|leaf.path| - 1] == '/' then Split(child, |leaf.path| - 1).(tsr := true)
    else child.(kids := child.kids + [MARKER])
  }

  lemma {:induction false} HungIsWellFormed(leaf: Trie, h: Handler)
    requires IsLeaf(leaf)
    ensures IsChild(Hung(leaf, h))
    ensures WellFormed(Hung(leaf, h))
  {
    var child, last := leaf.(handler := Some(h)), |leaf.path| - 1;
    MarkerIsWellFormed();
    if leaf.path == "/" {
    } else if leaf.path[last] == '/' {
      if leaf.kind == Param {
        assert leaf.path[..last] == PrintPart(Key(leaf.keys[0]));
        assert leaf.path[last..] == "/";
        assert Split(child, last).kids == [] + [NewNode("/").(handler := Some(h))];
      } else {
        SplitStands(child, last);
      }
    } else {
      assert child.kids + [MARKER] == [MARKER];
      assert leaf.kind == Param ==> leaf.path == PrintPart(Key(leaf.keys[0]));
    }
  }

  lemma {:induction false} AttachStands(n: Trie, leaf: Trie, h: Handler)
    requires WellFormed(n) && IsLeaf(leaf)
    ensures Stands(n, Attach(n, leaf, h).node)
  {
    HungIsWellFormed(leaf, h);
    AttachHangs(n, leaf, h);
  }

  lemma {:induction false} InsertWildcardStands(n: Trie, path: string, wp: WildPath, h: Handler, name: string)
    requires WellFormed(n) && GoodName(name) && wp.path == PrintPart(Rest(name)) && wp.keys == [name]
    ensures Stands(n, InsertWildcard(n, path, wp, h).node)
  {
    if |path| == SegmentEnd(path, true) && n.path != "" && n.path[|n.path| - 1] == '/' {
      if n.path == "/" {
      } else {
        var last := |n.path| - 1;
        SplitStands(n, last);
        var cut := Split(n, last).(tsr := true);
        UnderStands(cut, 0, AttachWildcard(cut.kids[0], path, wp, h));
      }
    }
  }

  lemma {:induction false} KeySegment(ps: Pattern)
    requires Good(ps) && ps != [] && ps[0].Key?
    ensures SegmentEnd(Print(ps), true) == |PrintPart(ps[0])| + (if ps[1..] == SLASH then 1 else 0)
    ensures Print(ps)[|PrintPart(ps[0])|..] == Print(ps[1..])
  {
    var p, t := PrintPart(ps[0]), Print(ps[1..]);
    PrintTail(ps);
    assert '/' !in p;
    if t == "" {
      assert p + t == p;
      IndexOfNone(p, '/');
    } else {
      assert t == ['/'] + t[1..];
      assert p + t == p + ['/'] + t[1..];
      IndexOfAt(p, '/', t[1..]);
    }
    assert (p + t)[|p|..] == t;
  }

  /** The parameter node `insert` creates for the first part of `ps`. */
  function KeyNode(ps: Pattern): Trie
    requires ps != [] && ps[0].Key?
  {
    NewNode(PrintPart(ps[0]) + (if ps[1..] == SLASH then "/" else "")).(kind := Param, keys := [ps[0].name])
  }

  /** `insert` on a supported pattern: a literal chain link, a wildcard, a parameter link, or a leaf. */
  lemma {:induction false} InsertCases(n: Trie, ps: Pattern, h: Handler)
    requires Good(ps) && ps != []
    ensures var r, s := Insert(n, Print(ps), h), LitPrefix(ps);
      if |s| == |ps| then ps == Lits(s) && r == Attach(n, NewNode(s), h) && '{' !in s
      else if s != "" then
        && ps == Lits(s) + ps[|s|..] && Good(ps[|s|..]) && '{' !in s
        && r == Under(n.(kids := n.kids + [NewNode(s)]), |n.kids|, Insert(NewNode(s), Print(ps[|s|..]), h))
      else if ps[0].Rest? then
        && ps == [Rest(ps[0].name)] && GoodName(ps[0].name)
        && FindWild(Print(ps)).Wild? && FindWild(Print(ps)).wp.path == PrintPart(ps[0])
        && FindWild(Print(ps)).wp.keys == [ps[0].name]
        && r == InsertWildcard(n, Print(ps), FindWild(Print(ps)).wp, h)
      else if |ps| == 1 || ps[1..] == SLASH then r == Attach(n, KeyNode(ps), h)
      else
        && Good(ps[1..]) && GoodName(ps[0].name)
        && r == Under(n.(kids := n.kids + [KeyNode(ps)]), |n.kids|, Insert(KeyNode(ps), Print(ps[1..]), h))
  {
    var s := LitPrefix(ps);
    if s != "" {
      InsertLiteralCase(n, ps, h);
    } else if ps[0].Key? {
      InsertKeyCase(n, ps, h);
    } else {
      InsertRestCase(n, ps, h);
    }
  }

  lemma {:induction false} InsertLiteralCase(n: Trie, ps: Pattern, h: Handler)
    requires Good(ps) && LitPrefix(ps) != ""
    ensures var r, s := Insert(n, Print(ps), h), LitPrefix(ps);
      && '{' !in s
      && if |s| == |ps| then ps == Lits(s) && r == Attach(n, NewNode(s), h)
         else
           && ps == Lits(s) + ps[|s|..] && Good(ps[|s|..])
           && r == Under(n.(kids := n.kids + [NewNode(s)]), |n.kids|, Insert(NewNode(s), Print(ps[|s|..]), h))
  {
    var path, s := Print(ps), LitPrefix(ps);
    WildOf(ps);
    LitPrefixSplits(ps);
    if |s| == |ps| {
      assert ps[|s|..] == [];
      assert path == s;
    } else {
      assert path[..|s|] == s && path[|s|..] == Print(ps[|s|..]);
    }
  }

  lemma {:induction false} InsertRestCase(n: Trie, ps: Pattern, h: Handler)
    requires Good(ps) && ps != [] && ps[0].Rest?
    ensures ps == [Rest(ps[0].name)] && GoodName(ps[0].name)
    ensures FindWild(Print(ps)).Wild? && FindWild(Print(ps)).wp.path == PrintPart(ps[0])
      && FindWild(Print(ps)).wp.keys == [ps[0].name]
    ensures Insert(n, Print(ps), h) == InsertWildcard(n, Print(ps), FindWild(Print(ps)).wp, h)
  {
    WildOf(ps);
  }

  lemma {:induction false} KeyIsReported(ps: Pattern)
    requires Good(ps) && ps != [] && ps[0].Key?
    ensures Reports(FindWild(Print(ps)), ps[0], "", |PrintPart(ps[0])| + (if ps[1..] == SLASH then 1 else 0))
  {
    WildOf(ps);
    assert LitPrefix(ps) == "" && ps[0..] == ps;
  }

  lemma {:induction false} KeyNodePath(ps: Pattern)
    requires Good(ps) && ps != [] && ps[0].Key?
    ensures SegmentEnd(Print(ps), true) <= |Print(ps)| && Print(ps)[..SegmentEnd(Print(ps), true)] == KeyNode(ps).path
    ensures |Print(ps)| == |PrintPart(ps[0])| + |Print(ps[1..])|
  {
    KeySegment(ps);
    PrintTail(ps);
    assert Print(ps) == PrintPart(ps[0]) + Print(ps[1..]);
  }

  /** `insert` at a parameter. */
  lemma {:induction false} InsertParam(n: Trie, path: string, h: Handler, wp: WildPath, child: Trie)
    requires FindWild(path) == Wild(wp) && wp.regex == None && wp.keys != [] && wp.start == 0 && wp.pType == Param
    requires child == NewNode(path[..SegmentEnd(path, true)]).(kind := Param, keys := wp.keys)
    ensures Insert(n, path, h) ==
      if wp.end < |path| then Under(n.(kids := n.kids + [child]), |n.kids|, Insert(child, path[wp.end..], h))
      else Attach(n, child, h)
  {
  }

  lemma {:induction false} InsertKeyCase(n: Trie, ps: Pattern, h: Handler)
    requires Good(ps) && ps != [] && ps[0].Key?
    ensures var r := Insert(n, Print(ps), h);
      if |ps| == 1 || ps[1..] == SLASH then r == Attach(n, KeyNode(ps), h)
      else r == Under(n.(kids := n.kids + [KeyNode(ps)]), |n.kids|, Insert(KeyNode(ps), Print(ps[1..]), h))
  {
    var path, child := Print(ps), KeyNode(ps);
    PrintTail(ps);
    KeySegment(ps);
    KeyIsReported(ps);
    KeyNodePath(ps);
    InsertParam(n, path, h, FindWild(path).wp, child);
  }

  lemma {:induction false} NewNodeIsWellFormed(s: string)
    requires s != "" && '{' !in s
    ensures WellFormed(NewNode(s)) && IsChild(NewNode(s)) && IsLeaf(NewNode(s))
  {
    MarkerIsWellFormed();
  }

  lemma {:induction false} KeyNodeIsWellFormed(ps: Pattern)
    requires ps != [] && ps[0].Key? && GoodName(ps[0].name)
    ensures IsLeaf(KeyNode(ps)) && (ps[1..] != SLASH ==> WellFormed(KeyNode(ps)) && IsChild(KeyNode(ps)))
  {
    MarkerIsWellFormed();
    assert PrintPart(ps[0]) + "" == PrintPart(ps[0]);
  }

  lemma {:induction false} InsertStands(n: Trie, ps: Pattern, h: Handler)
    requires WellFormed(n) && Good(ps) && ps != []
    ensures Stands(n, Insert(n, Print(ps), h).node)
    decreases |ps|
  {
    var s := LitPrefix(ps);
    InsertCases(n, ps, h);
    if |s| == |ps| {
      NewNodeIsWellFormed(s);
      AttachStands(n, NewNode(s), h);
    } else if s != "" {
      NewNodeIsWellFormed(s);
      InsertStands(NewNode(s), ps[|s|..], h);
      AppendStands(n, NewNode(s), Insert(NewNode(s), Print(ps[|s|..]), h));
    } else if ps[0].Rest? {
      InsertWildcardStands(n, Print(ps), FindWild(Print(ps)).wp, h, ps[0].name);
    } else {
      KeyNodeIsWellFormed(ps);
      if |ps| == 1 || ps[1..] == SLASH {
        AttachStands(n, KeyNode(ps), h);
      } else {
        InsertStands(KeyNode(ps), ps[1..], h);
        AppendStands(n, KeyNode(ps), Insert(KeyNode(ps), Print(ps[1..]), h));
      }
    }
  }

  /** What `add` meets at a parameter child for a supported pattern. */
  lemma {:induction false} AddAtParamCases(n: Trie, k: nat, ps: Pattern, h: Handler)
    requires k < |n.kids| && WellFormed(n.kids[k]) && n.kids[k].kind == Param
    requires Good(ps) && ps != [] && Lcp(Print(ps), n.kids[k].path) > 0
    ensures !ps[0].Lit?
    ensures var c, r := n.kids[k], AddAtParam(n, k, Print(ps), h);
      || (r == Outcome(n, Some(HandlerExists), Some([k])) && ps == [Key(c.keys[0])] && c.handler.Some?)
      || (r == Fail(n, WildPathConflict) && c.handler.Some?)
      || (ps == [Key(c.keys[0])] && r == Under(n, k, SetHandler(c, h)))
      || (|ps| > 1 && ps[0] == Key(c.keys[0]) && Good(ps[1..]) && r == Under(n, k, Add(c, Print(ps[1..]), h)))
      || r == Insert(n, Print(ps), h)
  {
    var c, path := n.kids[k], Print(ps);
    assert path[..1] == c.path[..1] && c.path[0] == '{'
      by { assert path[..1][0] == path[0] && c.path[..1][0] == c.path[0]; }
    PrintStart(ps);
    var i := Lcp(path, c.path);
    assert path[0] == '{' by { assert path[..i][0] == c.path[..i][0]; }
    assert !ps[0].Lit?;
    WildOf(ps);
    var wp := FindWild(path).wp;
    if |path| == wp.end && wp.pType == Param && c.handler.Some? {
      if c.path == path {
        assert path + "" == path;
        WholeIsKey(ps, c.keys[0]);
      }
    } else if |path| > i {
      if c.path == wp.path {
        KeyIsNoPrefix(ps[0], c.keys[0]);
      }
    } else {
      WholeIsKey(ps, c.keys[0]);
      assert path != "/";
    }
  }

  function CutAt(child: Trie, i: nat): Trie
    requires i <= |child.path|
  {
    if |child.path| > i then Split(child, i) else child
  }

  /** What `add` does at a static child for a supported pattern. */
  lemma {:induction false} AddAtStaticCases(n: Trie, k: nat, ps: Pattern, h: Handler)
    requires k < |n.kids| && k == FirstShared(n.kids, Print(ps))
    requires WellFormed(n.kids[k]) && n.kids[k].kind == Static && Good(ps) && ps != []
    ensures var child := n.kids[k]; var i := Lcp(Print(ps), child.path);
      var cut := CutAt(child, i); var n1 := n.(kids := n.kids[k := cut]);
      && 0 < i <= |ps| && Good(ps[i..]) && ps == Lits(child.path[..i]) + ps[i..]
      && cut.path == child.path[..i]
      && Add(n, Print(ps), h) == (if i < |ps| then Under(n1, k, Add(cut, Print(ps[i..]), h))
        else SetAtChild(n1, k, Print(ps), h))
  {
    var path, child := Print(ps), n.kids[k];
    var i := Lcp(path, child.path);
    SharedIsLiteral(ps, child.path);
    CutLiterals(ps, i);
    assert child.path[..|child.path|] == child.path;
  }

  lemma {:induction false} AddAtStaticStands(n: Trie, k: nat, cut: Trie, r: Outcome)
    requires WellFormed(n) && k < |n.kids| && Stands(n.kids[k], cut) && Stands(cut, r.node)
    ensures Stands(n, Under(n.(kids := n.kids[k := cut]), k, r).node)
    ensures Stands(n, Under(n.(kids := n.kids[k := cut], tsr := true), k, r).node)
  {
    UnderStands(n.(kids := n.kids[k := cut]), k, r);
    UnderStands(n.(kids := n.kids[k := cut], tsr := true), k, r);
  }

  lemma {:induction false} KidIsWellFormed(n: Trie, k: nat)
    requires WellFormed(n) && k < |n.kids|
    ensures WellFormed(n.kids[k]) && IsChild(n.kids[k])
  {
    assert GoodKids(n.kids);
  }

  lemma {:induction false} CutStands(child: Trie, i: nat)
    requires WellFormed(child) && child.kind == Static && 0 < i <= |child.path|
    ensures Stands(child, CutAt(child, i))
  {
    if |child.path| > i { SplitStands(child, i); }
  }

  lemma {:induction false} AddStands(n: Trie, ps: Pattern, h: Handler)
    requires WellFormed(n) && Good(ps)
    ensures Stands(n, Add(n, Print(ps), h).node)
    decreases |ps|
  {
    var path := Print(ps);
    var k := FirstShared(n.kids, path);
    if ps == [] {
      SetHandlerStands(n, h);
    } else if k == |n.kids| {
      InsertStands(n, ps, h);
    } else {
      KidIsWellFormed(n, k);
      var child := n.kids[k];
      if child.kind == Param {
        AddAtParamStands(n, k, ps, h);
      } else {
        var i := Lcp(path, child.path);
        var cut := CutAt(child, i);
        AddAtStaticCases(n, k, ps, h);
        CutStands(child, i);
        if i < |ps| {
          AddStands(cut, ps[i..], h);
          AddAtStaticStands(n, k, cut, Add(cut, Print(ps[i..]), h));
        } else {
          SetHandlerStands(cut, h);
          AddAtStaticStands(n, k, cut, SetHandler(cut, h));
        }
      }
    }
  }

  lemma {:induction false} AddAtParamStands(n: Trie, k: nat, ps: Pattern, h: Handler)
    requires WellFormed(n) && k < |n.kids| && n.kids[k].kind == Param
    requires Good(ps) && ps != [] && Lcp(Print(ps), n.kids[k].path) > 0
    ensures Stands(n, AddAtParam(n, k, Print(ps), h).node)
    decreases |ps|, 0
  {
    var child := n.kids[k];
    KidIsWellFormed(n, k);
    AddAtParamCases(n, k, ps, h);
    InsertStands(n, ps, h);
    if |ps| > 1 && Good(ps[1..]) {
      AddStands(child, ps[1..], h);
      UnderStands(n, k, Add(child, Print(ps[1..]), h));
    }
    SetHandlerStands(child, h);
    UnderStands(n, k, SetHandler(child, h));
  }

  // ----- conservation of routes --------------------------------------------------------------

  /** An operation for `route` gains exactly that route, or nothing when it fails. */
  ghost predicate Gains(n: Trie, r: Outcome, pre: Pattern, route: Route) {
    Routes(r.node, pre) == Routes(n, pre) + Gained(r, route)
  }

  function Gained(r: Outcome, route: Route): multiset<Route> {
    match r.err case None => multiset{route} case Some(_) => multiset{}
  }

  /** A node's routes change by what changes among its children's; its mark does not matter. */
  lemma {:induction false} KidsGain(n: Trie, kids: seq<Trie>, mark: bool, pre: Pattern, gain: multiset<Route>)
    requires RoutesOf(kids, pre + TextOf(n)) == RoutesOf(n.kids, pre + TextOf(n)) + gain
    ensures Routes(n.(kids := kids, tsr := mark), pre) == Routes(n, pre) + gain
  {
    var full, m := pre + TextOf(n), n.(kids := kids, tsr := mark);
    assert TextOf(m) == TextOf(n) && Own(m, full) == Own(n, full);
  }

  lemma {:induction false} UnderGains(n: Trie, k: nat, r: Outcome, pre: Pattern, route: Route)
    requires k < |n.kids| && Gains(n.kids[k], r, pre + TextOf(n), route)
    ensures Gains(n, Under(n, k, r), pre, route)
  {
    RoutesOfUpdate(n.kids, k, r.node, pre + TextOf(n), Gained(r, route));
    KidsGain(n, n.kids[k := r.node], n.tsr, pre, Gained(r, route));
  }

  lemma {:induction false} AppendGains(n: Trie, child: Trie, r: Outcome, pre: Pattern, route: Route)
    requires Routes(child, pre + TextOf(n)) == multiset{} && Gains(child, r, pre + TextOf(n), route)
    ensures Gains(n, Under(n.(kids := n.kids + [child]), |n.kids|, r), pre, route)
  {
    assert (n.kids + [child])[|n.kids| := r.node] == n.kids + [r.node];
    assert Routes(r.node, pre + TextOf(n)) == Gained(r, route);
    RoutesOfAppend(n.kids, r.node, pre + TextOf(n));
    KidsGain(n, n.kids + [r.node], n.tsr, pre, Gained(r, route));
  }

  lemma {:induction false} OneRoute(child: Trie, pre: Pattern, h: Handler)
    requires child.kids == [] || child.kids == [MARKER]
    requires child.handler == Some(h) && child.wildcard == None
    ensures Routes(child, pre) == multiset{(pre + TextOf(child), h)}
  {
    if child.kids == [MARKER] {
      RoutesOfOne(MARKER, pre + TextOf(child));
    }
  }

  /** Splitting a node respells nothing: its text is cut, its routes stay. */
  lemma {:induction false} SplitKeepsRoutes(n: Trie, i: nat, pre: Pattern)
    requires n.kind != Param && i <= |n.path|
    ensures Routes(Split(n, i), pre) == Routes(n, pre)
    ensures pre + TextOf(Split(n, i)) + TextOf(Split(n, i).kids[0]) == pre + TextOf(n)
  {
    var s := Split(n, i);
    var c := s.kids[0];
    assert n.path == n.path[..i] + n.path[i..];
    assert pre + TextOf(s) + TextOf(c) == pre + TextOf(n);
    assert Routes(c, pre + TextOf(s)) == Routes(n, pre);
    RoutesOfOne(c, pre + TextOf(s));
  }

  lemma {:induction false} MarkSlashKeepsRoutes(n: Trie, pre: Pattern)
    ensures Routes(MarkSlash(n), pre) == Routes(n, pre)
  {
    var k := FirstSlash(n.kids);
    if k < |n.kids| {
      RemarkKeepsRoutes(n, k, pre);
    } else if n.path != "/" {
      MarkerKeepsRoutes(n, pre);
    }
  }

  lemma {:induction false} RemarkKeepsRoutes(n: Trie, k: nat, pre: Pattern)
    requires k < |n.kids|
    ensures Routes(n.(kids := n.kids[k := n.kids[k].(tsr := true)]), pre) == Routes(n, pre)
  {
    var c, full := n.kids[k].(tsr := true), pre + TextOf(n);
    assert Routes(c, full) == Routes(n.kids[k], full) + multiset{};
    RoutesOfUpdate(n.kids, k, c, full, multiset{});
    KidsGain(n, n.kids[k := c], n.tsr, pre, multiset{});
  }

  lemma {:induction false} MarkerKeepsRoutes(n: Trie, pre: Pattern)
    ensures Routes(n.(kids := n.kids + [MARKER]), pre) == Routes(n, pre)
  {
    var full := pre + TextOf(n);
    RoutesOfAppend(n.kids, MARKER, full);
    KidsGain(n, n.kids + [MARKER], n.tsr, pre, multiset{});
  }

  lemma {:induction false} SetHandlerGains(n: Trie, h: Handler, pre: Pattern)
    ensures Gains(n, SetHandler(n, h), pre, (pre + TextOf(n), h))
  {
    if !(n.handler.Some? || n.tsr) {
      MarkSlashKeepsRoutes(n.(handler := Some(h)), pre);
    }
  }

  /** The text of a leaf before `Attach` cuts a final slash off it. */
  function LeafText(leaf: Trie): Pattern {
    if leaf.kind == Param && |leaf.keys| == 1 then
      [Key(leaf.keys[0])] + (if leaf.path == PrintPart(Key(leaf.keys[0])) then [] else SLASH)
    else Lits(leaf.path)
  }

  lemma {:induction false} HungKeySlashRoutes(name: string, h: Handler, pre: Pattern, hung: Trie)
    requires GoodName(name)
    requires hung == NewNode(PrintPart(Key(name))).(kind := Param, keys := [name], tsr := true,
      kids := [NewNode("/").(handler := Some(h))])
    ensures Routes(hung, pre) == multiset{(pre + [Key(name)] + SLASH, h)}
  {
    var c := NewNode("/").(handler := Some(h));
    assert TextOf(c) == SLASH;
    OneRoute(c, pre + [Key(name)], h);
    RoutesOfOne(c, pre + [Key(name)]);
  }

  lemma {:induction false} HungSlashRoutes(leaf: Trie, h: Handler, pre: Pattern)
    requires IsLeaf(leaf) && leaf.path != "/" && leaf.path[|leaf.path| - 1] == '/'
    ensures Routes(Hung(leaf, h), pre) == multiset{(pre + LeafText(leaf), h)}
  {
    if leaf.kind == Param {
      var name := leaf.keys[0];
      HungKeySlashRoutes(name, h, pre, Hung(leaf, h));
      Assoc(pre, [Key(name)], SLASH);
    } else {
      var child, last := leaf.(handler := Some(h)), |leaf.path| - 1;
      SplitKeepsRoutes(child, last, pre);
      OneRoute(child, pre, h);
    }
  }

  lemma {:induction false} HungRoutes(leaf: Trie, h: Handler, pre: Pattern)
    requires IsLeaf(leaf)
    ensures Routes(Hung(leaf, h), pre) == multiset{(pre + LeafText(leaf), h)}
  {
    var child, last := leaf.(handler := Some(h)), |leaf.path| - 1;
    if leaf.path == "/" {
      OneRoute(child, pre, h);
    } else if leaf.path[last] == '/' {
      HungSlashRoutes(leaf, h, pre);
    } else {
      assert child.kids + [MARKER] == [MARKER];
      OneRoute(child.(kids := [MARKER]), pre, h);
      assert leaf.kind == Param ==> leaf.path == PrintPart(Key(leaf.keys[0]));
      assert LeafText(leaf) == TextOf(child);
    }
  }

  lemma {:induction false} AttachHangs(n: Trie, leaf: Trie, h: Handler)
    requires IsLeaf(leaf)
    ensures Attach(n, leaf, h).err == None
    ensures Attach(n, leaf, h).node == n.(kids := n.kids + [Hung(leaf, h)], tsr := n.tsr || leaf.path == "/")
  {
  }

  lemma {:induction false} AttachGains(n: Trie, leaf: Trie, h: Handler, pre: Pattern)
    requires IsLeaf(leaf)
    ensures Gains(n, Attach(n, leaf, h), pre, (pre + TextOf(n) + LeafText(leaf), h))
  {
    var full, c := pre + TextOf(n), Hung(leaf, h);
    AttachHangs(n, leaf, h);
    HungRoutes(leaf, h, full);
    RoutesOfAppend(n.kids, c, full);
    KidsGain(n, n.kids + [c], n.tsr || leaf.path == "/", pre, multiset{(full + LeafText(leaf), h)});
  }

  lemma {:induction false} AttachWildcardGains(n: Trie, path: string, wp: WildPath, h: Handler, pre: Pattern)
    requires |wp.keys| == 1
    ensures Gains(n, AttachWildcard(n, path, wp, h), pre, (pre + TextOf(n) + [Rest(wp.keys[0])], h))
  {
    if n.wildcard == None {
      WildcardGains(n, WildNode(wp.path, wp.keys[0], h), pre);
    }
  }

  lemma {:induction false} WildcardGains(n: Trie, w: WildNode, pre: Pattern)
    requires n.wildcard == None
    ensures Routes(n.(wildcard := Some(w)), pre) ==
      Routes(n, pre) + multiset{(pre + TextOf(n) + [Rest(w.key)], w.handler)}
  {
    var full, m := pre + TextOf(n), n.(wildcard := Some(w));
    assert TextOf(m) == TextOf(n);
    assert Own(m, full) == Own(n, full) + multiset{(full + [Rest(w.key)], w.handler)};
  }

  lemma {:induction false} InsertWildcardGains(n: Trie, path: string, wp: WildPath, h: Handler, pre: Pattern)
    requires |wp.keys| == 1 && WellFormed(n)
    ensures Gains(n, InsertWildcard(n, path, wp, h), pre, (pre + TextOf(n) + [Rest(wp.keys[0])], h))
  {
    var last := |n.path| - 1;
    if |path| == SegmentEnd(path, true) && n.path != "" && n.path[last] == '/' {
      if n.path != "/" {
        SplitKeepsRoutes(n, last, pre);
        var cut := Split(n, last).(tsr := true);
        AttachWildcardGains(cut.kids[0], path, wp, h, pre + TextOf(cut));
        UnderGains(cut, 0, AttachWildcard(cut.kids[0], path, wp, h), pre, (pre + TextOf(n) + [Rest(wp.keys[0])], h));
        assert Routes(cut, pre) == Routes(Split(n, last), pre);
      } else {
        AttachWildcardGains(n, path, wp, h, pre);
      }
    }
  }

  /** The node chain `insert` builds spells the pattern it was given. */
  lemma {:induction false} InsertGains(n: Trie, ps: Pattern, h: Handler, pre: Pattern)
    requires WellFormed(n) && Good(ps) && ps != []
    ensures Gains(n, Insert(n, Print(ps), h), pre, (pre + TextOf(n) + ps, h))
    decreases |ps|
  {
    if LitPrefix(ps) != "" {
      InsertLiteralGains(n, ps, h, pre);
    } else if ps[0].Rest? {
      InsertCases(n, ps, h);
      InsertWildcardGains(n, Print(ps), FindWild(Print(ps)).wp, h, pre);
    } else {
      InsertKeyGains(n, ps, h, pre);
    }
  }

  lemma {:induction false} InsertLiteralGains(n: Trie, ps: Pattern, h: Handler, pre: Pattern)
    requires Good(ps) && LitPrefix(ps) != ""
    ensures Gains(n, Insert(n, Print(ps), h), pre, (pre + TextOf(n) + ps, h))
    decreases |ps|, 0
  {
    var s, full := LitPrefix(ps), pre + TextOf(n);
    var child := NewNode(s);
    InsertCases(n, ps, h);
    NewNodeIsWellFormed(s);
    if |s| == |ps| {
      AttachGains(n, child, h, pre);
    } else {
      InsertGains(child, ps[|s|..], h, full);
      Assoc(full, Lits(s), ps[|s|..]);
      AppendGains(n, child, Insert(child, Print(ps[|s|..]), h), pre, (full + ps, h));
    }
  }

  lemma {:induction false} InsertKeyGains(n: Trie, ps: Pattern, h: Handler, pre: Pattern)
    requires Good(ps) && ps != [] && ps[0].Key?
    ensures Gains(n, Insert(n, Print(ps), h), pre, (pre + TextOf(n) + ps, h))
    decreases |ps|, 0
  {
    InsertKeyCase(n, ps, h);
    KeyNodeIsWellFormed(ps);
    if |ps| == 1 || ps[1..] == SLASH {
      KeyNodeText(ps);
      AttachGains(n, KeyNode(ps), h, pre);
    } else {
      var full, child := pre + TextOf(n), KeyNode(ps);
      InsertGains(child, ps[1..], h, full);
      KeyLinkText(full, ps);
      AppendGains(n, child, Insert(child, Print(ps[1..]), h), pre, (full + ps, h));
    }
  }

  lemma {:induction false} KeyLinkText(full: Pattern, ps: Pattern)
    requires ps != [] && ps[0].Key?
    ensures full + TextOf(KeyNode(ps)) + ps[1..] == full + ps
  {
    assert ps == [ps[0]] + ps[1..];
    Assoc(full, [ps[0]], ps[1..]);
  }

  lemma {:induction false} KeyNodeText(ps: Pattern)
    requires ps != [] && ps[0].Key? && (|ps| == 1 || ps[1..] == SLASH)
    ensures LeafText(KeyNode(ps)) == ps
  {
    assert ps == [ps[0]] + ps[1..];
    var p := PrintPart(ps[0]);
    assert p + "" == p && |p + "/"| != |p|;
  }

  lemma {:induction false} CutKeepsRoutes(child: Trie, i: nat, pre: Pattern)
    requires child.kind != Param && i <= |child.path|
    ensures Routes(CutAt(child, i), pre) == Routes(child, pre)
  {
    if |child.path| > i { SplitKeepsRoutes(child, i, pre); }
  }

  /** A cut child first, then whatever happens in it. */
  lemma {:induction false} CutGains(n: Trie, k: nat, cut: Trie, r: Outcome, mark: bool, pre: Pattern, route: Route)
    requires k < |n.kids| && Routes(cut, pre + TextOf(n)) == Routes(n.kids[k], pre + TextOf(n))
    requires Gains(cut, r, pre + TextOf(n), route)
    ensures Gains(n, Under(n.(kids := n.kids[k := cut], tsr := mark), k, r), pre, route)
  {
    var full := pre + TextOf(n);
    RoutesOfUpdate(n.kids, k, r.node, full, Gained(r, route));
    assert n.kids[k := cut][k := r.node] == n.kids[k := r.node];
    KidsGain(n, n.kids[k := r.node], mark, pre, Gained(r, route));
  }

  /**
   Conservation: adding a supported pattern below a well-formed node stores exactly the route
   it spells, and a failing `add` stores nothing.
   */
  lemma {:induction false} AddGains(n: Trie, ps: Pattern, h: Handler, pre: Pattern)
    requires WellFormed(n) && Good(ps)
    ensures Gains(n, Add(n, Print(ps), h), pre, (pre + TextOf(n) + ps, h))
    decreases |ps|
  {
    var path, full := Print(ps), pre + TextOf(n);
    var k := FirstShared(n.kids, path);
    if ps == [] {
      SetHandlerGains(n, h, pre);
      assert full + ps == full;
    } else if k == |n.kids| {
      InsertGains(n, ps, h, pre);
    } else {
      KidIsWellFormed(n, k);
      if n.kids[k].kind == Param {
        AddAtParamGains(n, k, ps, h, pre);
      } else {
        AddAtStaticGains(n, k, ps, h, pre);
      }
    }
  }

  lemma {:induction false} AddAtStaticGains(n: Trie, k: nat, ps: Pattern, h: Handler, pre: Pattern)
    requires k < |n.kids| && k == FirstShared(n.kids, Print(ps))
    requires WellFormed(n.kids[k]) && n.kids[k].kind == Static && Good(ps) && ps != []
    ensures Gains(n, Add(n, Print(ps), h), pre, (pre + TextOf(n) + ps, h))
    decreases |ps|, 0
  {
    var full, child := pre + TextOf(n), n.kids[k];
    var i := Lcp(Print(ps), child.path);
    var cut := CutAt(child, i);
    AddAtStaticCases(n, k, ps, h);
    CutStands(child, i);
    CutKeepsRoutes(child, i, full);
    Assoc(full, TextOf(cut), ps[i..]);
    if i < |ps| {
      AddGains(cut, ps[i..], h, full);
      CutGains(n, k, cut, Add(cut, Print(ps[i..]), h), n.tsr, pre, (full + ps, h));
    } else {
      SetHandlerGains(cut, h, full);
      assert TextOf(cut) == ps;
      CutGains(n, k, cut, SetHandler(cut, h), n.tsr || Print(ps) == "/", pre, (full + ps, h));
    }
  }

  lemma {:induction false} AddAtParamGains(n: Trie, k: nat, ps: Pattern, h: Handler, pre: Pattern)
    requires WellFormed(n) && k < |n.kids| && n.kids[k].kind == Param
    requires Good(ps) && ps != [] && Lcp(Print(ps), n.kids[k].path) > 0
    ensures Gains(n, AddAtParam(n, k, Print(ps), h), pre, (pre + TextOf(n) + ps, h))
    decreases |ps|, 1
  {
    KidIsWellFormed(n, k);
    AddAtParamCases(n, k, ps, h);
    var r := AddAtParam(n, k, Print(ps), h);
    if r == Insert(n, Print(ps), h) {
      InsertGains(n, ps, h, pre);
    } else if r.err.Some? && r.node == n {
    } else {
      AddBelowKeyGains(n, k, ps, h, pre);
    }
  }

  lemma {:induction false} AddBelowKeyGains(n: Trie, k: nat, ps: Pattern, h: Handler, pre: Pattern)
    requires k < |n.kids| && WellFormed(n.kids[k]) && n.kids[k].kind == Param
    requires Good(ps) && ps != [] && ps[0] == Key(n.kids[k].keys[0]) && Good(ps[1..])
    ensures |ps| > 1 ==> Gains(n, Under(n, k, Add(n.kids[k], Print(ps[1..]), h)), pre, (pre + TextOf(n) + ps, h))
    ensures |ps| == 1 ==> Gains(n, Under(n, k, SetHandler(n.kids[k], h)), pre, (pre + TextOf(n) + ps, h))
    decreases |ps|, 0
  {
    var full, child := pre + TextOf(n), n.kids[k];
    assert ps == [ps[0]] + ps[1..];
    Assoc(full, TextOf(child), ps[1..]);
    if |ps| > 1 {
      AddGains(child, ps[1..], h, full);
      UnderGains(n, k, Add(child, Print(ps[1..]), h), pre, (full + ps, h));
    } else {
      assert TextOf(child) == ps;
      SetHandlerGains(child, h, full);
      UnderGains(n, k, SetHandler(child, h), pre, (full + ps, h));
    }
  }
}
