/**
 What a lookup result means in terms of the stored routes: a handler sits under a pattern
 the path fits with exactly the values written; a slash recommendation points at a path that
 fits a stored pattern; a case-insensitive search spells a path that fits one.
 */
module Lookup {
  import opened Text
  import opened WildPath
  import opened Pattern
  import opened Trie
  import opened Conservation
  import opened RouteTree
  import opened TrailingSlash

  /** User values in the order a lookup writes them: the innermost parameter first. */
  function Writes(names: seq<string>, vals: seq<string>): seq<(string, string)>
    requires |names| == |vals|
  {
    if names == [] then [] else Writes(names[1..], vals[1..]) + [(names[0], vals[0])]
  }

  /** `path` fits `ps`, capturing exactly what was written. */
  ghost predicate Captures(ps: Pattern, vals: seq<string>, path: string, writes: seq<(string, string)>) {
    Fits(ps, vals, path, false) && |vals| == |Names(ps)| && writes == Writes(Names(ps), vals)
  }

  lemma {:induction false} NamesOfLits(s: string)
    ensures Names(Lits(s)) == []
  {
    if s != "" {
      assert Lits(s)[1..] == Lits(s[1..]);
      NamesOfLits(s[1..]);
    }
  }

  lemma {:induction false} CaptureLits(
    s: string, ps: Pattern, vals: seq<string>, path: string, writes: seq<(string, string)>)
    requires Captures(ps, vals, path, writes)
    ensures Captures(Lits(s) + ps, vals, s + path, writes)
  {
    NamesOfLits(s);
    NamesConcat(Lits(s), ps);
    assert [] + Names(ps) == Names(ps);
    FitsLits(s, s, false);
    FitsConcat(Lits(s), [], s, ps, vals, path, false);
    assert [] + vals == vals;
  }

  lemma {:induction false} CaptureKey(
    name: string, v: string, ps: Pattern, vals: seq<string>, path: string, writes: seq<(string, string)>)
    requires Captures(ps, vals, path, writes) && '/' !in v
    ensures Captures([Key(name)] + ps, [v] + vals, v + path, writes + [(name, v)])
  {
    var qs, ws := [Key(name)] + ps, [v] + vals;
    assert qs[1..] == ps && ws[1..] == vals && (v + path)[|v|..] == path;
    assert Names(qs) == [name] + Names(ps);
    assert ([name] + Names(ps))[1..] == Names(ps);
  }

  lemma {:induction false} CaptureRest(name: string, v: string)
    ensures Captures([Rest(name)], [v], v, [(name, v)])
  {
    assert [Rest(name)][1..] == [] && [v][1..] == [] && v[|v|..] == "";
    assert Names([Rest(name)]) == [name] + Names([]);
    assert [name][1..] == [];
  }

  lemma {:induction false} CaptureNothing()
    ensures Captures([], [], "", [])
  {
  }

  lemma {:induction false} OwnHandler(n: Trie, pre: Pattern)
    ensures n.handler.Some? ==> (pre + TextOf(n), n.handler.value) in Routes(n, pre)
    ensures n.wildcard.Some? ==>
      (pre + TextOf(n) + [Rest(n.wildcard.value.key)], n.wildcard.value.handler) in Routes(n, pre)
  {
    var full := pre + TextOf(n);
    if n.handler.Some? { assert (full, n.handler.value) in Own(n, full); }
    if n.wildcard.Some? { assert (full + [Rest(n.wildcard.value.key)], n.wildcard.value.handler) in Own(n, full); }
  }

  lemma {:induction false} KidRoute(n: Trie, k: nat, pre: Pattern, r: Route)
    requires k < |n.kids| && r in Routes(n.kids[k], pre + TextOf(n))
    ensures r in Routes(n, pre)
  {
    RoutesOfMember(n.kids, k, pre + TextOf(n), r);
  }

  /** A handler found at the very end of a node's text. */
  lemma {:induction false} EndSound(n: Trie, pre: Pattern) returns (suffix: Pattern, vals: seq<string>)
    requires AtEnd(n).handler.Some?
    ensures (pre + TextOf(n) + suffix, AtEnd(n).handler.value) in Routes(n, pre)
    ensures Captures(suffix, vals, "", AtEnd(n).writes)
    ensures if n.handler.Some? then suffix == [] else suffix == [Rest(n.wildcard.value.key)]
  {
    OwnHandler(n, pre);
    if n.handler.Some? {
      suffix, vals := [], [];
      CaptureNothing();
      assert pre + TextOf(n) + [] == pre + TextOf(n);
    } else {
      suffix, vals := [Rest(n.wildcard.value.key)], [""];
      CaptureRest(n.wildcard.value.key, "");
    }
  }

  /** Every handler the search below `n` returns is stored under a pattern the rest of the path fits. */
  lemma {:induction false} GetSound(n: Trie, k: nat, path: string, pre: Pattern)
    returns (suffix: Pattern, vals: seq<string>)
    requires WellFormed(n) && Searchable(n) && path != "" && k <= |n.kids|
    requires GetFrom(n, k, path).handler.Some?
    ensures (pre + TextOf(n) + suffix, GetFrom(n, k, path).handler.value) in Routes(n, pre)
    ensures Captures(suffix, vals, path, GetFrom(n, k, path).writes)
    decreases n, |n.kids| - k
  {
    if k == |n.kids| {
      OwnHandler(n, pre);
      suffix, vals := [Rest(n.wildcard.value.key)], [path];
      CaptureRest(n.wildcard.value.key, path);
    } else {
      var c, end := n.kids[k], SegmentEnd(path, false);
      if c.kind == Static && (path == c.path || (c.path < path && GetFromChild(c, path[|c.path|..]).handler.Some?)) {
        suffix, vals := GetTextSound(n, k, path, pre);
      } else if c.kind == Param && end < |path| && GetFromChild(c, path[end..]).handler.Some?
        && !GetFromChild(c, path[end..]).tsr {
        suffix, vals := GetKeySound(n, k, path, pre);
      } else if c.kind == Param && end == |path| && c.handler.Some? {
        suffix, vals := GetLastKeySound(n, k, path, pre);
      } else {
        suffix, vals := GetSound(n, k + 1, path, pre);
      }
    }
  }

  lemma {:induction false} GetTextSound(n: Trie, k: nat, path: string, pre: Pattern)
    returns (suffix: Pattern, vals: seq<string>)
    requires WellFormed(n) && Searchable(n) && path != "" && k < |n.kids| && n.kids[k].kind == Static
    requires GetFrom(n, k, path).handler.Some?
    requires var c := n.kids[k]; path == c.path || (c.path < path && GetFromChild(c, path[|c.path|..]).handler.Some?)
    ensures (pre + TextOf(n) + suffix, GetFrom(n, k, path).handler.value) in Routes(n, pre)
    ensures Captures(suffix, vals, path, GetFrom(n, k, path).writes)
    decreases n, |n.kids| - k, 0
  {
    var c, g, full := n.kids[k], GetFrom(n, k, path), pre + TextOf(n);
    KidIsWellFormed(n, k);
    var rest := path[|c.path|..];
    var sub: Pattern;
    if path == c.path {
      sub, vals := EndSound(c, full);
    } else {
      sub, vals := GetSound(c, 0, rest, full);
    }
    suffix := Lits(c.path) + sub;
    CaptureLits(c.path, sub, vals, rest, g.writes);
    assert c.path + rest == path;
    Descend(n, k, pre, sub, suffix, g.handler.value);
  }

  lemma {:induction false} GetLastKeySound(n: Trie, k: nat, path: string, pre: Pattern)
    returns (suffix: Pattern, vals: seq<string>)
    requires Searchable(n) && path != "" && k < |n.kids| && n.kids[k].kind == Param
    requires SegmentEnd(path, false) == |path| && n.kids[k].handler.Some? && GetFrom(n, k, path).handler.Some?
    ensures (pre + TextOf(n) + suffix, GetFrom(n, k, path).handler.value) in Routes(n, pre)
    ensures Captures(suffix, vals, path, GetFrom(n, k, path).writes)
  {
    var c, g, full := n.kids[k], GetFrom(n, k, path), pre + TextOf(n);
    OwnHandler(c, full);
    var name := c.keys[0];
    suffix, vals := [Key(name)], [path];
    assert path[..|path|] == path;
    CaptureNothing();
    CaptureKey(name, path, [], [], "", []);
    assert [Key(name)] + [] == suffix && [path] + [] == vals && path + "" == path;
    assert [] + [(name, path)] == [(name, path)];
    assert full + TextOf(c) + [] == full + TextOf(c);
    Descend(n, k, pre, [], suffix, g.handler.value);
  }

  lemma {:induction false} Descend(n: Trie, k: nat, pre: Pattern, sub: Pattern, suffix: Pattern, h: Handler)
    requires k < |n.kids| && suffix == TextOf(n.kids[k]) + sub
    requires (pre + TextOf(n) + TextOf(n.kids[k]) + sub, h) in Routes(n.kids[k], pre + TextOf(n))
    ensures (pre + TextOf(n) + suffix, h) in Routes(n, pre)
  {
    assert pre + TextOf(n) + TextOf(n.kids[k]) + sub == pre + TextOf(n) + suffix;
    KidRoute(n, k, pre, (pre + TextOf(n) + suffix, h));
  }

  lemma {:induction false} GetKeySound(n: Trie, k: nat, path: string, pre: Pattern)
    returns (suffix: Pattern, vals: seq<string>)
    requires WellFormed(n) && Searchable(n) && path != "" && k < |n.kids| && n.kids[k].kind == Param
    requires var end := SegmentEnd(path, false);
      end < |path| && !GetFromChild(n.kids[k], path[end..]).tsr && GetFromChild(n.kids[k], path[end..]).handler.Some?
    ensures (pre + TextOf(n) + suffix, GetFrom(n, k, path).handler.value) in Routes(n, pre)
    ensures Captures(suffix, vals, path, GetFrom(n, k, path).writes)
    decreases n, |n.kids| - k, 0
  {
    var c, full, end := n.kids[k], pre + TextOf(n), SegmentEnd(path, false);
    KidIsWellFormed(n, k);
    var r := GetFromChild(c, path[end..]);
    var sub, vs := GetSound(c, 0, path[end..], full);
    suffix, vals := [Key(c.keys[0])] + sub, [path[..end]] + vs;
    CaptureKey(c.keys[0], path[..end], sub, vs, path[end..], r.writes);
    assert path[..end] + path[end..] == path;
    Descend(n, k, pre, sub, suffix, r.handler.value);
  }

  /**
   A handler returned by `Tree.Get` is stored under a pattern that the path fits; the writes
   are that pattern's parameters, and a miss or a slash recommendation writes nothing.
   */
  lemma {:induction false} GetIsSound(root: Trie, path: string) returns (ps: Pattern, vals: seq<string>)
    requires WellFormed(root) && root.kind == Root && Searchable(root)
    ensures var g := Get(root, path);
      if g.handler.Some? then
        !g.tsr && (ps, g.handler.value) in Routes(root, []) && Captures(ps, vals, path, g.writes)
        && |vals| == |Names(ps)| && Fill(ps, vals) == path
      else g.writes == []
  {
    var g := Get(root, path);
    ps, vals := [], [];
    var sub: Pattern;
    assert [] + TextOf(root) == Lits(root.path);
    if path == root.path {
      if g.handler.Some? {
        sub, vals := EndSound(root, []);
        ps := Lits(root.path) + sub;
        CaptureLits(root.path, sub, vals, "", g.writes);
        assert root.path + "" == path;
      }
    } else if root.path < path {
      var rest := path[|root.path|..];
      NoStrayWrites(root, 0, rest);
      if g.handler.Some? {
        sub, vals := GetSound(root, 0, rest, []);
        ps := Lits(root.path) + sub;
        CaptureLits(root.path, sub, vals, rest, g.writes);
        assert root.path + rest == path;
      }
    }
    if g.handler.Some? { FitsFill(ps, vals, path, false); }
  }

  /** `m` maps the names, and nothing else, to their values. */
  ghost predicate Binds(m: map<string, string>, names: seq<string>, vals: seq<string>)
    requires |names| == |vals|
  {
    && (forall n :: n in m <==> n in names)
    && (forall i :: 0 <= i < |names| ==> names[i] in m && m[names[i]] == vals[i])
  }

  /** Writing parameters with distinct names sets exactly these names, each to its own value. */
  lemma {:induction false} WritesBind(names: seq<string>, vals: seq<string>, was: map<string, string>)
    returns (m: map<string, string>)
    requires |names| == |vals| && NoRepeat(names)
    ensures Written(was, Writes(names, vals)) == was + m && Binds(m, names, vals)
  {
    if names == [] {
      m := map[];
      assert was + m == was;
    } else {
      var ns, vs := names[1..], vals[1..];
      m := WritesBind(ns, vs, was);
      WrittenConcat(was, Writes(ns, vs), [(names[0], vals[0])]);
      assert Written(was + m, [(names[0], vals[0])]) == (was + m)[names[0] := vals[0]];
      assert (was + m)[names[0] := vals[0]] == was + m[names[0] := vals[0]];
      BindsMore(m, names, vals);
      m := m[names[0] := vals[0]];
    }
  }

  lemma {:induction false} BindsMore(m: map<string, string>, names: seq<string>, vals: seq<string>)
    requires |names| == |vals| > 0 && NoRepeat(names) && Binds(m, names[1..], vals[1..])
    ensures Binds(m[names[0] := vals[0]], names, vals)
  {
    assert names == [names[0]] + names[1..];
    forall i | 0 < i < |names|
      ensures names[i] in m && m[names[i]] == vals[i] && names[i] != names[0]
    {
      assert names[1..][i - 1] == names[i] && vals[1..][i - 1] == vals[i];
    }
  }

  /**
   What a lookup means to the request it is made for: a handler is stored under a pattern that the
   captured values turn back into the path, and with distinct names exactly these values were
   stored; without a handler the request is left alone.
   */
  ghost predicate Answers(
    stored: multiset<Route>, path: string, h: Option<Handler>, was: map<string, string>, now: map<string, string>)
  {
    match h
    case None => now == was
    case Some(g) => exists ps, vals :: (ps, g) in stored && AnsweredBy(ps, vals, path, was, now)
  }

  ghost predicate AnsweredBy(
    ps: Pattern, vals: seq<string>, path: string, was: map<string, string>, now: map<string, string>)
  {
    && Fits(ps, vals, path, false) && |vals| == |Names(ps)| && Fill(ps, vals) == path
    && (NoRepeat(Names(ps)) ==> exists m :: now == was + m && Binds(m, Names(ps), vals))
  }

  lemma {:induction false} GetAnswers(root: Trie, path: string, was: map<string, string>)
    requires WellFormed(root) && root.kind == Root && Searchable(root)
    ensures Answers(Routes(root, []), path, Get(root, path).handler, was, Written(was, Get(root, path).writes))
  {
    var g := Get(root, path);
    var ps, vals := GetIsSound(root, path);
    if g.handler.Some? {
      if NoRepeat(Names(ps)) { var m := WritesBind(Names(ps), vals, was); }
      assert AnsweredBy(ps, vals, path, was, Written(was, g.writes));
    }
  }

  // ----- slash recommendations ---------------------------------------------------------------

  predicate EndsInSlash(s: string) { s != "" && s[|s| - 1] == '/' }

  predicate SlashEnd(ps: Pattern) { ps != [] && ps[|ps| - 1] == Lit('/') }

  /** The search stopped at a marked node spelling `p`, and `path` ends in a slash exactly when `p` does. */
  ghost predicate StopsAt(
    stored: set<Pattern>, p: Pattern, suffix: Pattern, vals: seq<string>, path: string, bare: bool, fold: bool)
  {
    && Justified(stored, p, bare) && Fits(suffix, vals, path, fold)
    && suffix != [] && path != "" && (SlashEnd(suffix) <==> EndsInSlash(path)) && (bare ==> SlashEnd(suffix))
  }

  lemma {:induction false} FoldSlash(c: char)
    ensures Fold(c) == '/' <==> c == '/'
  {
  }

  lemma {:induction false} StopInText(c: Trie, path: string, full: Pattern, stored: set<Pattern>, fold: bool)
    requires c.kind != Param && c.tsr && c.path != "" && MarksHold(c, full, stored)
    requires if fold then EqualFold(path, c.path) else path == c.path
    ensures StopsAt(stored, full + TextOf(c), Lits(c.path), [], path, c.path == "/", fold)
  {
    FitsLits(c.path, path, fold);
    FoldSlash(path[|path| - 1]);
    FoldSlash(c.path[|path| - 1]);
    assert Lits(c.path)[|path| - 1] == Lit(c.path[|path| - 1]);
  }

  lemma {:induction false} StopBelowText(
    s: string, text: string, p: Pattern, sub: Pattern, vals: seq<string>, rest: string, stored: set<Pattern>,
    bare: bool, fold: bool)
    requires StopsAt(stored, p, sub, vals, rest, bare, fold)
    requires if fold then EqualFold(text, s) else text == s
    ensures StopsAt(stored, p, Lits(s) + sub, vals, text + rest, bare, fold)
  {
    FitsLits(s, text, fold);
    FitsConcat(Lits(s), [], text, sub, vals, rest, fold);
    assert [] + vals == vals;
    assert (Lits(s) + sub)[|s| + |sub| - 1] == sub[|sub| - 1];
    assert (text + rest)[|text| + |rest| - 1] == rest[|rest| - 1];
  }

  lemma {:induction false} StopBelowKey(
    name: string, v: string, p: Pattern, sub: Pattern, vals: seq<string>, rest: string, stored: set<Pattern>,
    bare: bool, fold: bool)
    requires StopsAt(stored, p, sub, vals, rest, bare, fold) && '/' !in v
    ensures StopsAt(stored, p, [Key(name)] + sub, [v] + vals, v + rest, bare, fold)
  {
    var qs, ws := [Key(name)] + sub, [v] + vals;
    assert qs[1..] == sub && ws[1..] == vals && (v + rest)[|v|..] == rest;
    assert qs[|qs| - 1] == sub[|sub| - 1];
    assert (v + rest)[|v| + |rest| - 1] == rest[|rest| - 1];
  }

  lemma {:induction false} StopAtKey(c: Trie, path: string, full: Pattern, stored: set<Pattern>, fold: bool)
    requires WellFormed(c) && c.kind == Param && c.tsr && MarksHold(c, full, stored) && path != "" && '/' !in path
    ensures StopsAt(stored, full + TextOf(c), [Key(c.keys[0])], [path], path, false, fold)
  {
    assert c.path[0] == '{';
    assert [Key(c.keys[0])][1..] == [] && [path][1..] == [] && path[|path|..] == "";
  }

  /** Every recommendation comes from a marked node the path fits. */
  lemma {:induction false} TsrStops(n: Trie, k: nat, path: string, pre: Pattern, stored: set<Pattern>)
    returns (suffix: Pattern, vals: seq<string>, bare: bool)
    requires WellFormed(n) && Searchable(n) && path != "" && k <= |n.kids| && MarksHold(n, pre, stored)
    requires GetFrom(n, k, path).tsr
    ensures StopsAt(stored, pre + TextOf(n) + suffix, suffix, vals, path, bare, false)
    decreases n, |n.kids| - k
  {
    var full := pre + TextOf(n);
    var c, end := n.kids[k], SegmentEnd(path, false);
    KidIsWellFormed(n, k);
    assert MarksHold(c, full, stored);
    var sub: Pattern;
    if c.kind == Static && path == c.path {
      StopInText(c, path, full, stored, false);
      suffix, vals, bare := Lits(c.path), [], c.path == "/";
    } else if c.kind == Static && c.path < path && GetFromChild(c, path[|c.path|..]).tsr {
      var rest := path[|c.path|..];
      sub, vals, bare := TsrStops(c, 0, rest, full, stored);
      suffix := Lits(c.path) + sub;
      assert full + TextOf(c) + sub == full + suffix && c.path + rest == path;
      StopBelowText(c.path, c.path, full + suffix, sub, vals, rest, stored, bare, false);
    } else if c.kind == Param && end < |path| && GetFromChild(c, path[end..]).tsr {
      suffix, vals, bare := TsrStopsBelowKey(n, k, path, pre, stored);
    } else if c.kind == Param && end == |path| && c.tsr {
      assert path[..end] == path;
      StopAtKey(c, path, full, stored, false);
      suffix, vals, bare := [Key(c.keys[0])], [path], false;
    } else {
      TsrComesLater(n, k, path);
      suffix, vals, bare := TsrStops(n, k + 1, path, pre, stored);
    }
  }

  lemma {:induction false} TsrComesLater(n: Trie, k: nat, path: string)
    requires Searchable(n) && path != "" && k < |n.kids| && GetFrom(n, k, path).tsr
    requires var c, end := n.kids[k], SegmentEnd(path, false);
      if c.kind == Static then path != c.path && (c.path < path ==> !GetFromChild(c, path[|c.path|..]).tsr)
      else if end < |path| then !GetFromChild(c, path[end..]).tsr else !c.tsr
    ensures GetFrom(n, k + 1, path).tsr
  {
  }

  lemma {:induction false} TsrStopsBelowKey(n: Trie, k: nat, path: string, pre: Pattern, stored: set<Pattern>)
    returns (suffix: Pattern, vals: seq<string>, bare: bool)
    requires WellFormed(n) && Searchable(n) && path != "" && k < |n.kids| && n.kids[k].kind == Param
    requires MarksHold(n, pre, stored)
    requires var end := SegmentEnd(path, false); end < |path| && GetFromChild(n.kids[k], path[end..]).tsr
    ensures StopsAt(stored, pre + TextOf(n) + suffix, suffix, vals, path, bare, false)
    decreases n, |n.kids| - k, 0
  {
    var c, full, end := n.kids[k], pre + TextOf(n), SegmentEnd(path, false);
    KidIsWellFormed(n, k);
    assert MarksHold(c, full, stored);
    var sub, vs, b := TsrStops(c, 0, path[end..], full, stored);
    suffix, vals, bare := [Key(c.keys[0])] + sub, [path[..end]] + vs, b;
    assert full + TextOf(c) + sub == full + suffix && path[..end] + path[end..] == path;
    StopBelowKey(c.keys[0], path[..end], full + suffix, sub, vs, path[end..], stored, b, false);
  }

  /** Some stored pattern fits `path`. */
  ghost predicate Served(stored: set<Pattern>, path: string) {
    exists ps, vals :: ps in stored && Fits(ps, vals, path, false)
  }

  lemma {:induction false} SlashedServes(stored: set<Pattern>, ps: Pattern, vals: seq<string>, path: string)
    requires Slashed(stored, ps) && Fits(ps, vals, path, false)
    ensures Served(stored, path + "/")
  {
    FitsLits("/", "/", false);
    assert Lits("/") == SLASH;
    FitsConcat(ps, vals, path, SLASH, [], "/", false);
    assert vals + [] == vals;
    if ps + SLASH !in stored {
      var name :| ps + SLASH + [Rest(name)] in stored;
      CaptureRest(name, "");
      FitsConcat(ps + SLASH, vals, path + "/", [Rest(name)], [""], "", false);
      assert path + "/" + "" == path + "/";
      assert Fits(ps + SLASH + [Rest(name)], vals + [""], path + "/", false);
    }
  }

  /** A final literal of a pattern takes the final character of the path. */
  lemma {:induction false} FitsLast(ps: Pattern, vals: seq<string>, path: string, c: char, fold: bool)
    requires Fits(ps + [Lit(c)], vals, path, fold)
    ensures path != "" && SameChar(fold, path[|path| - 1], c) && Fits(ps, vals, path[..|path| - 1], fold)
  {
    var qs := ps + [Lit(c)];
    if ps == [] {
      assert qs == [Lit(c)] && qs[1..] == [];
      assert path[..0] == "";
    } else {
      assert qs[0] == ps[0] && qs[1..] == ps[1..] + [Lit(c)];
      if ps[0].Lit? {
        FitsLast(ps[1..], vals, path[1..], c, fold);
        assert path[1..][..|path| - 2] == path[..|path| - 1][1..];
      } else {
        var v := vals[0];
        FitsLast(ps[1..], vals[1..], path[|v|..], c, fold);
        assert path[|v|..][..|path| - |v| - 1] == path[..|path| - 1][|v|..];
      }
    }
  }

  lemma {:induction false} FitsWithoutSlash(ps: Pattern, vals: seq<string>, path: string, fold: bool)
    requires Fits(ps, vals, path, fold) && SlashEnd(ps)
    ensures EndsInSlash(path) && Fits(ps[..|ps| - 1], vals, path[..|path| - 1], fold)
  {
    assert ps == ps[..|ps| - 1] + [Lit('/')];
    FitsLast(ps[..|ps| - 1], vals, path, '/', fold);
    FoldSlash(path[|path| - 1]);
  }

  /**
   Where a stored route ends in two slashes, or in two slashes and a wildcard, the route before them is
   stored too.
   */
  ghost predicate DoublesCovered(stored: set<Pattern>) {
    forall p :: SlashEnd(p) && Slashed(stored, p) ==> p[..|p| - 1] in stored
  }

  /** The path a slash redirect leads to (`TryRedirect`). */
  function Toggled(path: string): string {
    if |path| > 1 && EndsInSlash(path) then path[..|path| - 1] else path + "/"
  }

  lemma {:induction false} StopServes(stored: set<Pattern>, p: Pattern, vals: seq<string>, path: string, bare: bool)
    requires StopsAt(stored, p, p, vals, path, bare, false) && DoublesCovered(stored)
    ensures Served(stored, if EndsInSlash(path) then path[..|path| - 1] else path + "/")
  {
    if EndsInSlash(path) {
      FitsWithoutSlash(p, vals, path, false);
      assert p[..|p| - 1] in stored;
    } else {
      SlashedServes(stored, p, vals, path);
    }
  }

  lemma {:induction false} TreeTsrStops(root: Trie, path: string, stored: set<Pattern>)
    returns (p: Pattern, vals: seq<string>, bare: bool)
    requires WellFormed(root) && root.kind == Root && MarksHold(root, [], stored)
    requires Searchable(root) && root.path != "" && Get(root, path).tsr
    ensures StopsAt(stored, p, p, vals, path, bare, false)
  {
    if path == root.path {
      StopInText(root, path, [], stored, false);
      p, vals, bare := Lits(root.path), [], root.path == "/";
      assert [] + TextOf(root) == p;
    } else {
      p, vals, bare := TreeTsrStopsBelow(root, path[|root.path|..], stored);
      assert root.path + path[|root.path|..] == path;
    }
  }

  lemma {:induction false} TreeTsrStopsBelow(root: Trie, rest: string, stored: set<Pattern>)
    returns (p: Pattern, vals: seq<string>, bare: bool)
    requires WellFormed(root) && root.kind == Root && MarksHold(root, [], stored)
    requires Searchable(root) && rest != "" && GetFromChild(root, rest).tsr
    ensures StopsAt(stored, p, p, vals, root.path + rest, bare, false)
  {
    var sub, vs, b := TsrStops(root, 0, rest, [], stored);
    assert [] + TextOf(root) + sub == Lits(root.path) + sub;
    p, vals, bare := Lits(root.path) + sub, vs, b;
    StopBelowText(root.path, root.path, p, sub, vs, rest, stored, b, false);
  }

  /**
   A slash recommendation is sound whenever stored routes ending in a doubled slash are covered: the
   redirect target fits a stored pattern.
   */
  lemma {:induction false} RecommendationIsServed(root: Trie, path: string)
    requires MarkedTree(root) && Searchable(root) && root.path != "" && Get(root, path).tsr && path != "/"
    requires DoublesCovered(Stored(root))
    ensures Served(Stored(root), Toggled(path))
  {
    var p, vals, bare := TreeTsrStops(root, path, Stored(root));
    StopServes(Stored(root), p, vals, path, bare);
    assert EndsInSlash(path) ==> |path| > 1;
  }

  // ----- over whole runs --------------------------------------------------------------------------

  /** Nothing can be overridden in a storage without routes. */
  lemma {:induction false} NothingToOverride(ps: Pattern, h: Handler)
    requires IsRoute(ps)
    ensures !Overrides(AddAtRoot(EMPTY, Print(ps), h), true)
  {
    var r := AddAtRoot(EMPTY, Print(ps), h);
    EmptyIsRoot();
    AddAtRootGains(EMPTY, ps, h);
    AddAtRootStands(EMPTY, ps, h);
    AddAtRootBlames(EMPTY, ps, h);
    if Overrides(r, true) {
      var was := OverrideSwaps(r, h, ps);
    }
  }

  /** After a call that returned, the root has text. */
  lemma {:induction false} RootHasText(root: Trie, mutable: bool, ps: Pattern, h: Handler, root': Trie)
    requires IsRoot(root) && IsRoute(ps) && AddStep(root, mutable, Print(ps), h, root', true)
      && (root.path == "" ==> root == EMPTY)
    ensures root'.path != ""
  {
    PrintStart(ps);
    AddAtRootStands(root, ps, h);
    if root.path == "" {
      TextlessRootAdd(root, ps, h);
      NothingToOverride(ps, h);
    }
  }

  /** In a run of returning calls only the first tree has a root without text. */
  lemma {:induction false} RunHasText(run: seq<Call>, roots: seq<Trie>, mutable: bool, k: nat)
    requires k <= |run| && IsRun(run, roots, mutable) && AllReturn(run)
    ensures IsRoot(roots[k]) && (if k == 0 then roots[k] == EMPTY else roots[k].path != "")
  {
    if k == 0 {
      EmptyIsRoot();
    } else {
      var call := run[k - 1];
      RunHasText(run, roots, mutable, k - 1);
      assert AddStep(roots[k - 1], mutable, Print(call.pattern), call.handler, roots[k - 1 + 1], call.ok);
      AddConserves(roots[k - 1], mutable, call.pattern, call.handler, roots[k], true);
      RootHasText(roots[k - 1], mutable, call.pattern, call.handler, roots[k]);
    }
  }

  /** An accepted route is the one of a call that returned. */
  lemma {:induction false} AcceptedIsCalled(run: seq<Call>, r: Route) returns (k: nat)
    requires r in Accepted(run)
    ensures k < |run| && run[k] == Call(r.0, r.1, true)
  {
    var last := run[|run| - 1];
    if last == Call(r.0, r.1, true) {
      k := |run| - 1;
    } else {
      k := AcceptedIsCalled(run[..|run| - 1], r);
    }
  }

  /**
   Over every run of returning registrations, mutable or not, in which routes ending in a doubled slash are
   covered: whenever a lookup recommends toggling the final slash, the toggled path fits a pattern registered
   in the run.
   */
  lemma {:induction false} RunRecommendsServed(run: seq<Call>, roots: seq<Trie>, mutable: bool, path: string)
    requires IsRun(run, roots, mutable) && AllReturn(run) && DoublesCovered(Patterns(Accepted(run)))
    requires Searchable(roots[|run|]) && path != "/" && Get(roots[|run|], path).tsr
    ensures exists k, vals :: 0 <= k < |run| && Fits(run[k].pattern, vals, Toggled(path), false)
  {
    var root := roots[|run|];
    RunKeepsMarks(run, roots, mutable);
    RunConserves(run, roots, mutable);
    RunHasText(run, roots, mutable, |run|);
    RecommendationIsServed(root, path);
    RunServes(run, Stored(root), Toggled(path));
  }

  lemma {:induction false} RunServes(run: seq<Call>, stored: set<Pattern>, path: string)
    requires stored == Patterns(Accepted(run)) && Served(stored, path)
    ensures exists k, vals :: 0 <= k < |run| && Fits(run[k].pattern, vals, path, false)
  {
    var ps, vals :| ps in stored && Fits(ps, vals, path, false);
    var r :| r in Accepted(run) && r.0 == ps;
    var k := AcceptedIsCalled(run, r);
    assert Fits(run[k].pattern, vals, path, false);
  }

  /**
   Over every run of registrations, mutable or not, refused ones included: a handler returned by a lookup
   was registered by a call of the run that returned, under a pattern that the captured values turn back
   into the path.
   */
  lemma {:induction false} RunAnswersRegistered(
    run: seq<Call>, roots: seq<Trie>, mutable: bool, path: string, was: map<string, string>)
    requires IsRun(run, roots, mutable)
    ensures Searchable(roots[|run|])
    ensures Answers(Accepted(run), path, Get(roots[|run|], path).handler, was,
      Written(was, Get(roots[|run|], path).writes))
  {
    var root := roots[|run|];
    RunConserves(run, roots, mutable);
    WellFormedIsSearchable(root);
    GetAnswers(root, path, was);
    var g := Get(root, path);
    if g.handler.Some? {
      var ps, vals :| (ps, g.handler.value) in Routes(root, [])
        && AnsweredBy(ps, vals, path, was, Written(was, g.writes));
      assert (ps, g.handler.value) in Accepted(run);
    }
  }
}
