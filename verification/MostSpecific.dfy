/**
 Among the stored patterns that fit a path with no dead end off their branches, a lookup answers from one that
 none of the others is more specific than: text goes before parameters, and parameters before wildcards.
 */
module MostSpecific {
  import opened Text
  import opened WildPath
  import opened Pattern
  import opened Trie
  import opened Conservation
  import opened TrailingSlash
  import opened Lookup
  import opened TidyTree
  import opened Answered
  import opened Precedence
  import opened DeadEnds

  /** Where the patterns part, `a` has text and `b` has none, or `a` a parameter and `b` the wildcard. */
  predicate OutranksAt(a: Pattern, b: Pattern, i: nat) {
    && i < |a| && i < |b| && a[..i] == b[..i]
    && ((a[i].Lit? && !b[i].Lit?) || (a[i].Key? && b[i].Rest?))
  }

  ghost predicate Outranks(a: Pattern, b: Pattern) { exists i: nat :: OutranksAt(a, b, i) }

  lemma {:induction false} NoneBehind(t: Pattern, a: Pattern, b: Pattern)
    requires !Outranks(a, b)
    ensures !Outranks(t + a, t + b)
  {
    forall i: nat
      ensures !OutranksAt(t + a, t + b, i)
    {
      if i < |t| {
        assert (t + a)[i] == t[i];
        assert (t + b)[i] == t[i];
      } else if i < |t + a| && i < |t + b| {
        assert !OutranksAt(a, b, i - |t|);
        assert (t + a)[..i][|t|..] == a[..i - |t|];
        assert (t + b)[..i][|t|..] == b[..i - |t|];
      }
    }
  }

  /** A pattern that starts with a wildcard, or not at all, outranks none. */
  lemma {:induction false} RestOutranksNone(a: Pattern, b: Pattern)
    requires Good(a) && (a != [] ==> a[0].Rest?)
    ensures !Outranks(a, b)
  {
  }

  lemma {:induction false} KeyBelowText(a: Pattern, b: Pattern)
    requires a != [] && b != [] && a[0].Key? && b[0].Lit?
    ensures !Outranks(a, b)
  {
    forall i: nat
      ensures !OutranksAt(a, b, i)
    {
      if 0 < i < |a| && i < |b| {
        assert a[..i][0] == a[0];
        assert b[..i][0] == b[0];
      }
    }
  }

  /** A stored pattern fits the path, and no dead end hangs off its branch. */
  ghost predicate Free(n: Trie, pre: Pattern, qs: Pattern, ws: seq<string>, path: string) {
    && (exists g :: (pre + TextOf(n) + qs, g) in Routes(n, pre))
    && Good(qs) && Fits(qs, ws, path, false) && KeyFilled(qs, ws) && !Stuck(n, qs, ws, path)
  }

  /** The child a free pattern that starts with text or a parameter goes on at. */
  lemma {:induction false} FreeKid(n: Trie, pre: Pattern, qs: Pattern, ws: seq<string>, path: string)
    returns (k: nat)
    requires WellFormed(n) && Free(n, pre, qs, ws, path) && qs != [] && !qs[0].Rest?
    ensures k < |n.kids| && WellFormed(n.kids[k]) && n.kids[k] != MARKER && TextOf(n.kids[k]) <= qs
    ensures n.kids[k].kind == if qs[0].Key? then Param else Static
    ensures var c, full := n.kids[k], pre + TextOf(n);
      exists g :: (full + TextOf(c) + qs[|TextOf(c)|..], g) in Routes(c, full)
  {
    var full := pre + TextOf(n);
    var g :| (full + qs, g) in Routes(n, pre);
    assert (full + qs, g) !in Own(n, full) by {
      assert |full + qs| != |full| && (full + qs)[|full|] == qs[0];
      assert n.wildcard.Some? ==> (full + [Rest(n.wildcard.value.key)])[|full|].Rest?;
    }
    k := RoutesOfWitness(n.kids, full, (full + qs, g));
    KidIsWellFormed(n, k);
    TextBefore(n.kids[k], full, qs, g);
    assert TextOf(n.kids[k])[0] == qs[0];
    assert (full + TextOf(n.kids[k]) + qs[|TextOf(n.kids[k])|..], g) in Routes(n.kids[k], full);
  }

  lemma {:induction false} TextBelow(
    n: Trie, k: nat, pre: Pattern, qs: Pattern, ws: seq<string>, path: string)
    requires WellFormed(n) && Free(n, pre, qs, ws, path) && k < |n.kids| && WellFormed(n.kids[k])
    requires n.kids[k].kind == Static && TextOf(n.kids[k]) <= qs
    requires var c, full := n.kids[k], pre + TextOf(n);
      exists g :: (full + TextOf(c) + qs[|TextOf(c)|..], g) in Routes(c, full)
    ensures var c := n.kids[k];
      c.path <= path && Free(c, pre + TextOf(n), qs[|c.path|..], ws, path[|c.path|..])
  {
    AfterChildText(n.kids[k], qs, ws, path, false);
    NotStuckBelow(n, k, qs, ws, path);
  }

  lemma {:induction false} NotStuckBelow(n: Trie, k: nat, qs: Pattern, ws: seq<string>, path: string)
    requires !Stuck(n, qs, ws, path) && k < |n.kids| && n.kids[k].kind != Param
    requires TextOf(n.kids[k]) <= qs && n.kids[k].path <= path
    ensures var c := n.kids[k]; !Stuck(c, qs[|c.path|..], ws, path[|c.path|..])
  {
    var c := n.kids[k];
    if path != "" { assert !StuckVia(c, qs, ws, path); }
  }

  /** Below a tidy node: no free pattern outranks the one the search spells. */
  lemma {:induction false} NoneOutranks(n: Trie, pre: Pattern, qs: Pattern, ws: seq<string>, path: string)
    requires WellFormed(n) && Searchable(n) && Tidy(n) && StaticFirst(n) && path != ""
    requires GetFrom(n, 0, path).handler.Some? && Free(n, pre, qs, ws, path)
    ensures !Outranks(qs, Spelled(n, 0, path))
    decreases n, 2
  {
    if qs == [] || qs[0].Rest? {
      RestOutranksNone(qs, Spelled(n, 0, path));
    } else {
      var k := FreeKid(n, pre, qs, ws, path);
      if qs[0].Key? {
        KeyIsFirst(n, k, pre, qs, ws, path);
      } else {
        TextIsFirst(n, k, pre, qs, ws, path);
      }
    }
  }

  lemma {:induction false} TextIsFirst(
    n: Trie, k: nat, pre: Pattern, qs: Pattern, ws: seq<string>, path: string)
    requires WellFormed(n) && Searchable(n) && Tidy(n) && StaticFirst(n) && path != "" && k < |n.kids|
    requires GetFrom(n, 0, path).handler.Some? && Free(n, pre, qs, ws, path)
    requires WellFormed(n.kids[k]) && n.kids[k] != MARKER && n.kids[k].kind == Static && TextOf(n.kids[k]) <= qs
    requires var c, full := n.kids[k], pre + TextOf(n);
      exists g :: (full + TextOf(c) + qs[|TextOf(c)|..], g) in Routes(c, full)
    ensures !Outranks(qs, Spelled(n, 0, path))
    decreases n, 1
  {
    var c := n.kids[k];
    TextBelow(n, k, pre, qs, ws, path);
    PassesTo(n, k, path);
    SpelledPast(n, 0, k, path);
    AfterText(n, k, pre + TextOf(n), qs, ws, path);
  }

  lemma {:induction false} AfterText(
    n: Trie, k: nat, full: Pattern, qs: Pattern, ws: seq<string>, path: string)
    requires Searchable(n) && path != "" && k < |n.kids| && n.kids[k].kind == Static && n.kids[k].path != ""
    requires WellFormed(n.kids[k]) && Tidy(n.kids[k]) && StaticFirst(n.kids[k])
    requires TextOf(n.kids[k]) <= qs && n.kids[k].path <= path && GetFrom(n, k, path).handler.Some?
    requires Free(n.kids[k], full, qs[|n.kids[k].path|..], ws, path[|n.kids[k].path|..])
    ensures !Outranks(qs, Spelled(n, k, path))
    decreases n, 0
  {
    var c := n.kids[k];
    var rest, sub := path[|c.path|..], qs[|c.path|..];
    assert qs == Lits(c.path) + sub && path == c.path + rest;
    if rest == "" {
      FitsNothing(sub, ws, false);
      RestOutranksNone(sub, SpelledEnd(c));
      NoneBehind(Lits(c.path), sub, SpelledEnd(c));
    } else {
      InsideText(n, k, full, sub, ws, rest);
      NoneBehind(Lits(c.path), sub, Spelled(c, 0, rest));
    }
  }

  /** The search settles in the child, on the pattern spelled there. */
  lemma {:induction false} InsideText(
    n: Trie, k: nat, full: Pattern, sub: Pattern, ws: seq<string>, rest: string)
    requires Searchable(n) && k < |n.kids| && n.kids[k].kind == Static && n.kids[k].path != "" && rest != ""
    requires WellFormed(n.kids[k]) && Tidy(n.kids[k]) && StaticFirst(n.kids[k])
    requires Free(n.kids[k], full, sub, ws, rest) && GetFrom(n, k, n.kids[k].path + rest).handler.Some?
    ensures var c := n.kids[k];
      Spelled(n, k, c.path + rest) == Lits(c.path) + Spelled(c, 0, rest) && !Outranks(sub, Spelled(c, 0, rest))
    decreases n.kids[k], 3
  {
    var c := n.kids[k];
    assert (c.path + rest)[|c.path|..] == rest;
    KidSettles(c, full, sub, ws, rest);
    TextSettles(n, k, c.path + rest);
    NoneOutranks(c, full, sub, ws, rest);
  }

  lemma {:induction false} KidSettles(c: Trie, full: Pattern, sub: Pattern, ws: seq<string>, rest: string)
    requires WellFormed(c) && Searchable(c) && rest != "" && Free(c, full, sub, ws, rest)
    ensures Settled(GetFromChild(c, rest))
  {
    var g :| (full + TextOf(c) + sub, g) in Routes(c, full);
    RouteLeads(c, sub, full, g);
    GetComplete(c, sub, ws, rest);
  }

  /** Children that do not start like the path leave no trace. */
  lemma {:induction false} SpelledPast(n: Trie, i: nat, k: nat, path: string)
    requires Searchable(n) && i <= k <= |n.kids| && path != ""
    requires forall j :: i <= j < k ==> StartsApart(n.kids[j], path)
    ensures Spelled(n, i, path) == Spelled(n, k, path)
    decreases k - i
  {
    if i < k {
      assert StartsApart(n.kids[i], path);
      PassedOver(n, i, path);
      SpelledPast(n, i + 1, k, path);
    }
  }

  lemma {:induction false} KeyIsFirst(
    n: Trie, k: nat, pre: Pattern, qs: Pattern, ws: seq<string>, path: string)
    requires WellFormed(n) && Searchable(n) && Tidy(n) && StaticFirst(n) && path != "" && k < |n.kids|
    requires GetFrom(n, 0, path).handler.Some? && Free(n, pre, qs, ws, path) && qs != [] && qs[0].Key?
    requires WellFormed(n.kids[k]) && n.kids[k].kind == Param && TextOf(n.kids[k]) <= qs
    requires var c, full := n.kids[k], pre + TextOf(n);
      exists g :: (full + TextOf(c) + qs[|TextOf(c)|..], g) in Routes(c, full)
    ensures !Outranks(qs, Spelled(n, 0, path))
    decreases n, 1
  {
    StaticBefore(n, k);
    StaticOrKey(n, 0, k, path);
    var ps := Spelled(n, 0, path);
    if SpellsText(ps) {
      KeyBelowText(qs, ps);
    } else if SegmentEnd(path, false) < |path| {
      InsideKey(n, k, pre, qs, ws, path);
    } else {
      AtKey(n, k, pre, qs, ws, path);
    }
  }

  lemma {:induction false} InsideKey(
    n: Trie, k: nat, pre: Pattern, qs: Pattern, ws: seq<string>, path: string)
    requires WellFormed(n) && Searchable(n) && Tidy(n) && StaticFirst(n) && path != "" && k < |n.kids|
    requires GetFrom(n, k, path).handler.Some? && Free(n, pre, qs, ws, path) && qs != [] && qs[0].Key?
    requires WellFormed(n.kids[k]) && n.kids[k].kind == Param && TextOf(n.kids[k]) <= qs
    requires SegmentEnd(path, false) < |path|
    requires var c, full := n.kids[k], pre + TextOf(n);
      exists g :: (full + TextOf(c) + qs[|TextOf(c)|..], g) in Routes(c, full)
    ensures !Outranks(qs, Spelled(n, k, path))
    decreases n, 0
  {
    var c, full, rest := n.kids[k], pre + TextOf(n), path[SegmentEnd(path, false)..];
    var sub := qs[1..];
    KeyBelow(n, k, pre, qs, ws, path);
    assert qs == TextOf(c) + sub;
    KidSettles(c, full, sub, ws[1..], rest);
    KeySettles(n, k, path);
    NoneOutranks(c, full, sub, ws[1..], rest);
    NoneBehind(TextOf(c), sub, Spelled(c, 0, rest));
  }

  lemma {:induction false} KeyBelow(
    n: Trie, k: nat, pre: Pattern, qs: Pattern, ws: seq<string>, path: string)
    requires WellFormed(n) && Free(n, pre, qs, ws, path) && k < |n.kids| && WellFormed(n.kids[k])
    requires n.kids[k].kind == Param && TextOf(n.kids[k]) <= qs && qs[0].Key?
    requires var c, full := n.kids[k], pre + TextOf(n);
      exists g :: (full + TextOf(c) + qs[|TextOf(c)|..], g) in Routes(c, full)
    ensures ws != [] && Free(n.kids[k], pre + TextOf(n), qs[1..], ws[1..], path[SegmentEnd(path, false)..])
  {
    AfterSegment(qs, ws, path, false);
    if path != "" { assert !StuckVia(n.kids[k], qs, ws, path); }
  }

  lemma {:induction false} AtKey(
    n: Trie, k: nat, pre: Pattern, qs: Pattern, ws: seq<string>, path: string)
    requires Searchable(n) && path != "" && k < |n.kids| && Free(n, pre, qs, ws, path) && qs != [] && qs[0].Key?
    requires WellFormed(n.kids[k]) && n.kids[k].kind == Param && TextOf(n.kids[k]) <= qs
    requires SegmentEnd(path, false) == |path|
    requires var c, full := n.kids[k], pre + TextOf(n);
      exists g :: (full + TextOf(c) + qs[|TextOf(c)|..], g) in Routes(c, full)
    ensures !Outranks(qs, Spelled(n, k, path))
  {
    var c, full := n.kids[k], pre + TextOf(n);
    AfterSegment(qs, ws, path, false);
    assert qs[1..] == [] && qs == TextOf(c);
    var g :| (full + TextOf(c) + [], g) in Routes(c, full);
    RouteLeads(c, [], full, g);
    LeadsHere(c, []);
    assert Spelled(n, k, path) == qs;
    forall i: nat
      ensures !OutranksAt(qs, qs, i)
    {
    }
  }

  lemma {:induction false} StaticBefore(n: Trie, k: nat)
    requires WellFormed(n) && Tidy(n) && k < |n.kids| && n.kids[k].kind == Param
    ensures forall i :: 0 <= i < k ==> n.kids[i].kind == Static && n.kids[i].path != ""
  {
    KidIsWellFormed(n, k);
    forall i | 0 <= i < k
      ensures n.kids[i].kind == Static && n.kids[i].path != ""
    {
      KidIsWellFormed(n, i);
      assert !SameStart(n.kids[i], n.kids[k]);
    }
  }

  predicate SpellsText(ps: Pattern) { ps != [] && ps[0].Lit? }

  lemma {:induction false} TextOrPassed(n: Trie, i: nat, path: string)
    requires Searchable(n) && path != "" && i < |n.kids| && n.kids[i].kind == Static && n.kids[i].path != ""
    ensures Passed(n, i, path) || SpellsText(Spelled(n, i, path))
  {
    var c := n.kids[i];
    assert Lits(c.path)[0].Lit?;
  }

  /** Before the only parameter there are static children: the search spells text, or comes to the parameter. */
  lemma {:induction false} StaticOrKey(n: Trie, i: nat, k: nat, path: string)
    requires Searchable(n) && path != "" && i <= k < |n.kids|
    requires forall j :: i <= j < k ==> n.kids[j].kind == Static && n.kids[j].path != ""
    ensures SpellsText(Spelled(n, i, path))
      || (Spelled(n, i, path) == Spelled(n, k, path) && GetFrom(n, i, path) == GetFrom(n, k, path))
    decreases k - i
  {
    if i < k {
      TextOrPassed(n, i, path);
      if Passed(n, i, path) {
        PassedOver(n, i, path);
        StaticOrKey(n, i + 1, k, path);
      }
    }
  }

  // ----- the whole tree ------------------------------------------------------------------------------------

  /** The route a lookup answers from is stored and fits, and no stored route that is free to answer outranks it. */
  ghost predicate AnswersBest(root: Trie, path: string, ps: Pattern, h: Handler) {
    && (ps, h) in Routes(root, []) && (exists vals :: Fits(ps, vals, path, false))
    && forall qs, ws :: FreeAtRoot(root, qs, ws, path) ==> !Outranks(qs, ps)
  }

  ghost predicate FreeAtRoot(root: Trie, qs: Pattern, ws: seq<string>, path: string) {
    && qs in Stored(root) && Good(qs) && Fits(qs, ws, path, false) && KeyFilled(qs, ws)
    && !StuckAtRoot(root, qs, ws, path)
  }

  /** A stored pattern seen from behind the text of the root. */
  lemma {:induction false} StoredBehindRoot(root: Trie, qs: Pattern)
    requires WellFormed(root) && root.kind == Root && qs in Stored(root)
    ensures Lits(root.path) <= qs
    ensures exists g :: ([] + TextOf(root) + qs[|root.path|..], g) in Routes(root, [])
  {
    var r :| r in Routes(root, []) && r.0 == qs;
    assert [] + qs == qs && [] + TextOf(root) == Lits(root.path);
    TextBefore(root, [], qs, r.1);
    assert ([] + TextOf(root) + qs[|root.path|..], r.1) in Routes(root, []);
  }

  lemma {:induction false} FreeBelowRoot(root: Trie, qs: Pattern, ws: seq<string>, path: string)
    requires WellFormed(root) && root.kind == Root && FreeAtRoot(root, qs, ws, path)
    ensures root.path <= path && Lits(root.path) <= qs
    ensures Free(root, [], qs[|root.path|..], ws, path[|root.path|..])
  {
    StoredBehindRoot(root, qs);
    AfterChildText(root, qs, ws, path, false);
    assert path == root.path + path[|root.path|..];
  }

  /** What a lookup spells behind the text of the root. */
  function SpelledBehind(root: Trie, rest: string): Pattern
    requires Searchable(root)
  {
    if rest == "" then SpelledEnd(root) else Spelled(root, 0, rest)
  }

  lemma {:induction false} NoneOutranksAtRoot(root: Trie, qs: Pattern, ws: seq<string>, rest: string)
    requires WellFormed(root) && root.kind == Root && Searchable(root) && Tidy(root) && StaticFirst(root)
    requires rest != "" ==> GetFrom(root, 0, rest).handler.Some?
    requires FreeAtRoot(root, qs, ws, root.path + rest)
    ensures !Outranks(qs, Lits(root.path) + SpelledBehind(root, rest))
  {
    FreeBelowRoot(root, qs, ws, root.path + rest);
    var tail := qs[|root.path|..];
    assert (root.path + rest)[|root.path|..] == rest && qs == Lits(root.path) + tail;
    NoneOutranksBelow(root, tail, ws, rest, SpelledBehind(root, rest));
    NoneBehind(Lits(root.path), tail, SpelledBehind(root, rest));
  }

  lemma {:induction false} NoneOutranksBelow(root: Trie, qs: Pattern, ws: seq<string>, rest: string, sub: Pattern)
    requires WellFormed(root) && Searchable(root) && Tidy(root) && StaticFirst(root) && Free(root, [], qs, ws, rest)
    requires rest != "" ==> GetFrom(root, 0, rest).handler.Some? && sub == Spelled(root, 0, rest)
    ensures !Outranks(qs, sub)
  {
    if rest == "" {
      FitsNothing(qs, ws, false);
      RestOutranksNone(qs, sub);
    } else {
      NoneOutranks(root, [], qs, ws, rest);
    }
  }

  /**
   In a tidy storage with static children first, the handler of a lookup is that of a stored route that fits the
   path and that no stored route free to answer outranks.
   */
  lemma {:induction false} AnswerIsBest(root: Trie, path: string) returns (ps: Pattern)
    requires WellFormed(root) && root.kind == Root && Searchable(root) && Tidy(root) && StaticFirst(root)
    requires Get(root, path).handler.Some?
    ensures AnswersBest(root, path, ps, Get(root, path).handler.value)
  {
    var rest := path[|root.path|..];
    assert path == root.path + rest;
    var vals := FoundSpells(root, path, rest);
    ps := Lits(root.path) + SpelledBehind(root, rest);
    assert Fits(ps, vals, path, false);
    forall qs, ws | FreeAtRoot(root, qs, ws, path)
      ensures !Outranks(qs, ps)
    {
      NoneOutranksAtRoot(root, qs, ws, rest);
    }
  }

  lemma {:induction false} FoundSpells(root: Trie, path: string, rest: string) returns (vals: seq<string>)
    requires WellFormed(root) && root.kind == Root && Searchable(root) && Tidy(root) && StaticFirst(root)
    requires Get(root, path).handler.Some? && path == root.path + rest
    ensures var ps := Lits(root.path) + SpelledBehind(root, rest);
      (ps, Get(root, path).handler.value) in Routes(root, []) && Fits(ps, vals, path, false)
    ensures rest != "" ==> GetFrom(root, 0, rest).handler.Some?
  {
    var sub;
    assert path[|root.path|..] == rest && [] + TextOf(root) == Lits(root.path);
    if rest == "" {
      assert path == root.path;
      sub, vals := EndSound(root, []);
    } else {
      if HasDeadEnd(root, rest) { DeadEndStops(root, rest); }
      sub, vals := FreeSearch(root, 0, rest, []);
    }
    FitsLits(root.path, root.path, false);
    FitsConcat(Lits(root.path), [], root.path, sub, vals, rest, false);
    assert [] + vals == vals;
  }
}
