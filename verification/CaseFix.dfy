/**
 The case-insensitive search. On success the text it spells fits a stored pattern exactly,
 and equals the searched path up to ASCII case and at most one trailing slash; parameter and
 wildcard parts are kept verbatim.
 */
module CaseFix {
  import opened Text
  import opened WildPath
  import opened Pattern
  import opened Trie
  import opened Conservation
  import opened RouteTree
  import opened TrailingSlash
  import opened Lookup

  /** Stored patterns, routes that justify the marks of a tree, and the patterns its marked nodes spell. */
  datatype Scope = Scope(stored: set<Pattern>, marks: set<Pattern>, stops: set<Pattern>)

  /**
   `text` is what a search below the pattern `above` appends for `path`: the path fits `suffix` up to
   case, and `text` is `suffix` filled in, with a slash added or removed when `tsr`.
   */
  ghost predicate Spells(
    scope: Scope, above: Pattern, suffix: Pattern, vals: seq<string>, path: string, text: string, tsr: bool, bare: bool)
  {
    && Fits(suffix, vals, path, true) && |vals| == |Names(suffix)|
    && (if !tsr then above + suffix in scope.stored && text == Fill(suffix, vals)
        else
          && above + suffix in scope.stops && StopsAt(scope.marks, above + suffix, suffix, vals, path, bare, true)
          && (if bare then Fill(suffix, vals) == text + "/" else text == Fill(suffix, vals) + "/"))
  }

  lemma {:induction false} FillConcat(a: Pattern, va: seq<string>, b: Pattern, vb: seq<string>)
    requires |va| == |Names(a)| && |vb| == |Names(b)|
    ensures |va + vb| == |Names(a + b)|
    ensures Fill(a + b, va + vb) == Fill(a, va) + Fill(b, vb)
  {
    NamesConcat(a, b);
    if a == [] {
      assert a + b == b && va + vb == vb;
    } else {
      assert (a + b)[1..] == a[1..] + b;
      if a[0].Lit? {
        FillConcat(a[1..], va, b, vb);
      } else {
        assert (va + vb)[1..] == va[1..] + vb;
        FillConcat(a[1..], va[1..], b, vb);
      }
    }
  }

  lemma {:induction false} FillLits(s: string)
    ensures Names(Lits(s)) == [] && Fill(Lits(s), []) == s
  {
    NamesOfLits(s);
    if s != "" {
      assert Lits(s)[1..] == Lits(s[1..]);
      FillLits(s[1..]);
    }
  }

  /** A search result below literal text. */
  lemma {:induction false} SpellsBelowText(
    scope: Scope, above: Pattern, s: string, part: string, sub: Pattern, vals: seq<string>, rest: string, text: string,
      tsr: bool, bare: bool)
    requires Spells(scope, above + Lits(s), sub, vals, rest, text, tsr, bare) && EqualFold(part, s)
    ensures Spells(scope, above, Lits(s) + sub, vals, part + rest, s + text, tsr, bare)
  {
    assert above + Lits(s) + sub == above + (Lits(s) + sub);
    FillLits(s);
    FillConcat(Lits(s), [], sub, vals);
    assert [] + vals == vals;
    if tsr {
      StopBelowText(s, part, above + (Lits(s) + sub), sub, vals, rest, scope.marks, bare, true);
    } else {
      FitsLits(s, part, true);
      FitsConcat(Lits(s), [], part, sub, vals, rest, true);
    }
  }

  /** A search result below a parameter. */
  lemma {:induction false} SpellsBelowKey(
    scope: Scope, above: Pattern, name: string, v: string, sub: Pattern, vals: seq<string>, rest: string, text: string,
      tsr: bool, bare: bool)
    requires Spells(scope, above + [Key(name)], sub, vals, rest, text, tsr, bare) && '/' !in v
    ensures Spells(scope, above, [Key(name)] + sub, [v] + vals, v + rest, v + text, tsr, bare)
  {
    assert above + [Key(name)] + sub == above + ([Key(name)] + sub);
    FillConcat([Key(name)], [v], sub, vals);
    if tsr {
      StopBelowKey(name, v, above + ([Key(name)] + sub), sub, vals, rest, scope.marks, bare, true);
    } else {
      assert ([Key(name)] + sub)[1..] == sub && ([v] + vals)[1..] == vals && (v + rest)[|v|..] == rest;
    }
  }

  /** A node whose text the path equals up to case. */
  lemma {:induction false} SpellsInText(c: Trie, path: string, above: Pattern, scope: Scope) returns (bare: bool)
    requires c.kind != Param && c.path != "" && InScope(scope, c, above) && EqualFold(path, c.path)
    requires c.tsr || (c.handler.Some? && above + Lits(c.path) in scope.stored)
    ensures Spells(scope, above, Lits(c.path), [], path,
                   if !c.tsr then c.path else if c.path == "/" then "" else c.path + "/", c.tsr, bare)
  {
    bare := c.path == "/";
    FillLits(c.path);
    FitsLits(c.path, path, true);
    if c.tsr { StopInText(c, path, above, scope.marks, true); }
  }

  lemma {:induction false} SpellsAtKey(c: Trie, path: string, above: Pattern, scope: Scope)
    requires WellFormed(c) && c.kind == Param && path != "" && '/' !in path && InScope(scope, c, above)
    requires c.tsr || above + [Key(c.keys[0])] in scope.stored
    ensures Spells(scope, above, [Key(c.keys[0])], [path], path, if c.tsr then path + "/" else path, c.tsr, false)
  {
    assert [Key(c.keys[0])][1..] == [] && [path][1..] == [] && path[|path|..] == "";
    if c.tsr { StopAtKey(c, path, above, scope.marks, true); }
  }

  /** `stored` holds every pattern stored at or below `n`. */
  ghost predicate Covers(stored: set<Pattern>, n: Trie, pre: Pattern) {
    forall r :: r in Routes(n, pre) ==> r.0 in stored
  }

  lemma {:induction false} CoversKid(stored: set<Pattern>, n: Trie, k: nat, pre: Pattern)
    requires Covers(stored, n, pre) && k < |n.kids|
    ensures Covers(stored, n.kids[k], pre + TextOf(n))
  {
    forall r | r in Routes(n.kids[k], pre + TextOf(n))
      ensures r.0 in stored
    {
      KidRoute(n, k, pre, r);
    }
  }

  /** `stops` holds the pattern every marked node at or below `n` spells. */
  ghost predicate Stops(stops: set<Pattern>, n: Trie, pre: Pattern)
    decreases n
  {
    && (n.tsr ==> pre + TextOf(n) in stops)
    && forall i :: 0 <= i < |n.kids| ==> Stops(stops, n.kids[i], pre + TextOf(n))
  }

  ghost predicate InScope(scope: Scope, n: Trie, pre: Pattern) {
    Covers(scope.stored, n, pre) && MarksHold(n, pre, scope.marks) && Stops(scope.stops, n, pre)
  }

  lemma {:induction false} InScopeKid(scope: Scope, n: Trie, k: nat, pre: Pattern)
    requires InScope(scope, n, pre) && k < |n.kids|
    ensures InScope(scope, n.kids[k], pre + TextOf(n))
  {
    CoversKid(scope.stored, n, k, pre);
    assert KidMarksHold(n.kids, pre + TextOf(n), scope.marks);
  }

  lemma {:induction false} FindSound(n: Trie, path: string, pre: Pattern, scope: Scope)
    returns (suffix: Pattern, vals: seq<string>, bare: bool)
    requires WellFormed(n) && Searchable(n) && n.kind != Param && (n.path != "" || path != "") && Find(n, path).Fixed?
    requires InScope(scope, n, pre)
    ensures var f := Find(n, path); Spells(scope, pre, suffix, vals, path, f.text, f.tsr, bare)
    decreases n, |n.kids| + 1
  {
    if |path| > |n.path| {
      var part, rest := path[..|n.path|], path[|n.path|..];
      var f := FindFromChild(n, rest);
      var sub, vs, b := FindFromSound(n, 0, rest, pre, scope);
      suffix, vals, bare := Lits(n.path) + sub, vs, b;
      SpellsBelowText(scope, pre, n.path, part, sub, vs, rest, f.text, f.tsr, b);
      assert part + rest == path;
    } else {
      OwnHandler(n, pre);
      suffix, vals := Lits(n.path), [];
      bare := SpellsInText(n, path, pre, scope);
    }
  }

  lemma {:induction false} FindFromSound(n: Trie, k: nat, path: string, pre: Pattern, scope: Scope)
    returns (suffix: Pattern, vals: seq<string>, bare: bool)
    requires WellFormed(n) && Searchable(n) && path != "" && k <= |n.kids| && FindFrom(n, k, path).Fixed?
    requires InScope(scope, n, pre)
    ensures var f := FindFrom(n, k, path); Spells(scope, pre + TextOf(n), suffix, vals, path, f.text, f.tsr, bare)
    decreases n, |n.kids| - k
  {
    var full := pre + TextOf(n);
    if k == |n.kids| {
      OwnHandler(n, pre);
      suffix, vals, bare := [Rest(n.wildcard.value.key)], [path], false;
    } else {
      var c, end := n.kids[k], SegmentEnd(path, false);
      KidIsWellFormed(n, k);
      InScopeKid(scope, n, k, pre);
      if c.kind == Static && Find(c, path).Fixed? {
        suffix, vals, bare := FindSound(c, path, full, scope);
      } else if c.kind == Param && end < |path| && FindFromChild(c, path[end..]).Fixed? {
        suffix, vals, bare := FindBelowKeySound(n, k, path, pre, scope);
      } else if c.kind == Param && end == |path| && (c.tsr || c.handler.Some?) {
        assert path[..end] == path;
        OwnHandler(c, full);
        suffix, vals, bare := [Key(c.keys[0])], [path], false;
        SpellsAtKey(c, path, full, scope);
      } else {
        suffix, vals, bare := FindFromSound(n, k + 1, path, pre, scope);
      }
    }
  }

  lemma {:induction false} FindBelowKeySound(n: Trie, k: nat, path: string, pre: Pattern, scope: Scope)
    returns (suffix: Pattern, vals: seq<string>, bare: bool)
    requires WellFormed(n) && Searchable(n) && path != "" && k < |n.kids| && n.kids[k].kind == Param
    requires var end := SegmentEnd(path, false); end < |path| && FindFromChild(n.kids[k], path[end..]).Fixed?
    requires InScope(scope, n, pre)
    ensures var f := FindFrom(n, k, path); Spells(scope, pre + TextOf(n), suffix, vals, path, f.text, f.tsr, bare)
    decreases n, |n.kids| - k, 0
  {
    var c, full, end := n.kids[k], pre + TextOf(n), SegmentEnd(path, false);
    KidIsWellFormed(n, k);
    InScopeKid(scope, n, k, pre);
    var f := FindFromChild(c, path[end..]);
    var sub, vs, b := FindFromSound(c, 0, path[end..], full, scope);
    suffix, vals, bare := [Key(c.keys[0])] + sub, [path[..end]] + vs, b;
    SpellsBelowKey(scope, full, c.keys[0], path[..end], sub, vs, path[end..], f.text, f.tsr, b);
    assert path[..end] + path[end..] == path;
  }

  // ----- the scope of any tree -------------------------------------------------------------------

  /** The patterns the marked nodes at or below `n` spell. */
  function MarkedTexts(n: Trie, pre: Pattern): set<Pattern>
    decreases n, 0
  {
    (if n.tsr then {pre + TextOf(n)} else {}) + MarkedTextsOf(n.kids, pre + TextOf(n))
  }

  function MarkedTextsOf(kids: seq<Trie>, pre: Pattern): set<Pattern>
    decreases kids, 0
  {
    if kids == [] then {} else MarkedTexts(kids[0], pre) + MarkedTextsOf(kids[1..], pre)
  }

  lemma {:induction false} KidTexts(kids: seq<Trie>, k: nat, pre: Pattern)
    requires k < |kids|
    ensures MarkedTexts(kids[k], pre) <= MarkedTextsOf(kids, pre)
    decreases |kids|
  {
    if k > 0 { KidTexts(kids[1..], k - 1, pre); }
  }

  lemma {:induction false} TextsStop(n: Trie, pre: Pattern, stops: set<Pattern>)
    requires MarkedTexts(n, pre) <= stops
    ensures Stops(stops, n, pre)
    decreases n
  {
    forall i | 0 <= i < |n.kids|
      ensures Stops(stops, n.kids[i], pre + TextOf(n))
    {
      KidTexts(n.kids, i, pre + TextOf(n));
      TextsStop(n.kids[i], pre + TextOf(n), stops);
    }
  }

  /** The routes that would justify every mark. */
  ghost function Justifying(stops: set<Pattern>): set<Pattern> { set p | p in stops :: p + SLASH }

  lemma {:induction false} StopsJustify(n: Trie, pre: Pattern, stops: set<Pattern>)
    requires Stops(stops, n, pre)
    ensures MarksHold(n, pre, Justifying(stops))
    decreases n
  {
    forall i | 0 <= i < |n.kids|
      ensures MarksHold(n.kids[i], pre + TextOf(n), Justifying(stops))
    {
      StopsJustify(n.kids[i], pre + TextOf(n), stops);
    }
    if n.tsr { assert pre + TextOf(n) + SLASH in Justifying(stops); }
  }

  lemma {:induction false} TreeScope(root: Trie, marks: set<Pattern>) returns (scope: Scope)
    requires MarksHold(root, [], marks)
    ensures scope == Scope(Stored(root), marks, MarkedTexts(root, [])) && InScope(scope, root, [])
  {
    scope := Scope(Stored(root), marks, MarkedTexts(root, []));
    TextsStop(root, [], scope.stops);
  }

  // ----- the whole search ----------------------------------------------------------------------

  /** `a` and `b` agree up to case, once one of them may drop or add a final slash. */
  predicate SameUpToSlash(a: string, b: string) {
    EqualFold(a, b) || EqualFold(a + "/", b) || EqualFold(a, b + "/")
  }

  lemma {:induction false} FillFits(ps: Pattern, vals: seq<string>, path: string)
    requires Fits(ps, vals, path, true) && |vals| == |Names(ps)|
    ensures Fits(ps, vals, Fill(ps, vals), false)
  {
    if ps != [] {
      var t := Fill(ps, vals);
      match ps[0]
      case Lit(c) =>
        FillFits(ps[1..], vals, path[1..]);
        assert t[1..] == Fill(ps[1..], vals);
      case _ =>
        var v := vals[0];
        FillFits(ps[1..], vals[1..], path[|v|..]);
        assert t[|v|..] == Fill(ps[1..], vals[1..]);
    }
  }

  /** What a search spells is the searched path up to case and at most one trailing slash. */
  lemma {:induction false} SpelledAlike(
    scope: Scope, ps: Pattern, vals: seq<string>, path: string, text: string, tsr: bool, bare: bool)
    requires Spells(scope, [], ps, vals, path, text, tsr, bare)
    ensures SameUpToSlash(text, path) && (!tsr ==> EqualFold(text, path))
  {
    FitsFill(ps, vals, path, true);
    assert tsr && !bare ==> EqualFold(text, path + "/");
  }

  /** What a successful search of the whole tree spells is served. */
  lemma {:induction false} SpelledIsServed(
    scope: Scope, ps: Pattern, vals: seq<string>, path: string, text: string, tsr: bool, bare: bool)
    requires Spells(scope, [], ps, vals, path, text, tsr, bare)
    requires scope.marks == scope.stored && DoublesCovered(scope.stored)
    ensures Served(scope.stored, text)
  {
    assert [] + ps == ps;
    FitsFill(ps, vals, path, true);
    FillFits(ps, vals, path);
    var filled := Fill(ps, vals);
    if tsr {
      assert EndsInSlash(filled) <==> EndsInSlash(path) by {
        FoldSlash(filled[|filled| - 1]);
        FoldSlash(path[|path| - 1]);
      }
      assert StopsAt(scope.stored, ps, ps, vals, filled, bare, false);
      if bare {
        StopServes(scope.stored, ps, vals, filled, bare);
        assert filled[..|filled| - 1] == text;
      } else {
        SlashedServes(scope.stored, ps, vals, filled);
      }
    }
  }

  /**
   `ps` filled in with `vals`, every literal as it is stored, is what the search of a tree found for `path`: a
   stored pattern, or one a marked node spells and then with a slash added or removed.
   */
  ghost predicate SpelledBy(root: Trie, ps: Pattern, vals: seq<string>, path: string, text: string, tsr: bool) {
    && Fits(ps, vals, path, true) && |vals| == |Names(ps)|
    && (if !tsr then ps in Stored(root) && text == Fill(ps, vals)
        else ps in MarkedTexts(root, []) && (text == Fill(ps, vals) + "/" || text + "/" == Fill(ps, vals)))
  }

  /**
   On any well-formed tree, a path found by the case-insensitive search is a pattern of the tree filled in,
   parameters and wildcard verbatim, and is the searched path up to case and at most one trailing slash.
   */
  lemma {:induction false} FindSpells(root: Trie, path: string) returns (ps: Pattern, vals: seq<string>)
    requires WellFormed(root) && root.kind == Root && Searchable(root) && Find(root, path).Fixed?
    ensures var f := Find(root, path);
      SpelledBy(root, ps, vals, path, f.text, f.tsr) && SameUpToSlash(f.text, path)
        && (!f.tsr ==> EqualFold(f.text, path))
  {
    var f, stops := Find(root, path), MarkedTexts(root, []);
    TextsStop(root, [], stops);
    StopsJustify(root, [], stops);
    var scope := TreeScope(root, Justifying(stops));
    if root.path == "" && path == "" {
      ps, vals := [], [];
      OwnHandler(root, []);
      assert [] + TextOf(root) == [];
    } else {
      var bare;
      ps, vals, bare := FindSound(root, path, [], scope);
      assert [] + ps == ps;
      SpelledAlike(scope, ps, vals, path, f.text, f.tsr, bare);
    }
  }

  /** With stored routes ending in a doubled slash covered, the path found is served. */
  lemma {:induction false} FindIsServed(root: Trie, path: string)
    requires MarkedTree(root) && Searchable(root) && root.path != "" && Find(root, path).Fixed?
    requires DoublesCovered(Stored(root))
    ensures Served(Stored(root), Find(root, path).text)
  {
    var f := Find(root, path);
    var scope := TreeScope(root, Stored(root));
    var ps, vals, bare := FindSound(root, path, [], scope);
    SpelledIsServed(scope, ps, vals, path, f.text, f.tsr, bare);
  }

  // ----- over whole runs --------------------------------------------------------------------------

  /**
   Over every run of registrations, mutable or not, refused ones included: a path found case-insensitively is,
   up to case and at most one trailing slash, the path searched for; without a slash fix it is a pattern
   registered by a returning call, filled in.
   */
  lemma {:induction false} RunFindSpells(run: seq<Call>, roots: seq<Trie>, mutable: bool, path: string)
    returns (ps: Pattern, vals: seq<string>)
    requires IsRun(run, roots, mutable) && Searchable(roots[|run|]) && Find(roots[|run|], path).Fixed?
    ensures var f := Find(roots[|run|], path);
      && SpelledBy(roots[|run|], ps, vals, path, f.text, f.tsr) && SameUpToSlash(f.text, path)
      && (!f.tsr ==> EqualFold(f.text, path) && exists k :: 0 <= k < |run| && run[k].ok && run[k].pattern == ps)
  {
    RunConserves(run, roots, mutable);
    ps, vals := FindSpells(roots[|run|], path);
    if !Find(roots[|run|], path).tsr {
      var r :| r in Accepted(run) && r.0 == ps;
      var k := AcceptedIsCalled(run, r);
    }
  }

  /**
   Over every run of returning registrations with doubled slashes covered, the path found fits a registered
   pattern.
   */
  lemma {:induction false} RunFindIsServed(run: seq<Call>, roots: seq<Trie>, mutable: bool, path: string)
    requires IsRun(run, roots, mutable) && AllReturn(run) && DoublesCovered(Patterns(Accepted(run)))
    requires run != [] && Searchable(roots[|run|]) && Find(roots[|run|], path).Fixed?
    ensures exists k, vals :: 0 <= k < |run| && Fits(run[k].pattern, vals, Find(roots[|run|], path).text, false)
  {
    RunKeepsMarks(run, roots, mutable);
    RunConserves(run, roots, mutable);
    RunHasText(run, roots, mutable, |run|);
    FindIsServed(roots[|run|], path);
    RunServes(run, Stored(roots[|run|]), Find(roots[|run|], path).text);
  }
}
