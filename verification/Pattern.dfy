/**
 Route patterns as lists of parts, their printed form, and what it means for a request
 path to fit a pattern. This is the reading the router is measured against; it does not
 mention the tree.
 */
module Pattern {
  import opened Text
  import opened WildPath

  datatype Part = Lit(c: char) | Key(name: string) | Rest(name: string)

  type Pattern = seq<Part>

  predicate GoodName(name: string) {
    name != "" && forall c :: c in name ==> c != '{' && c != '}' && c != '/' && c != ':'
  }

  /**
   The supported patterns: literal text without an opening brace, `{name}` parameters that
   end their segment, and at most one `{name:*}`, which is last.
   */
  predicate Good(ps: Pattern) {
    ps == [] ||
    match ps[0]
    case Lit(c) => c != '{' && Good(ps[1..])
    case Key(name) => GoodName(name) && (|ps| > 1 ==> ps[1] == Lit('/')) && Good(ps[1..])
    case Rest(name) => GoodName(name) && |ps| == 1
  }

  function PrintPart(p: Part): (s: string)
    ensures s != ""
  {
    match p
    case Lit(c) => [c]
    case Key(name) => "{" + name + "}"
    case Rest(name) => "{" + name + ":*}"
  }

  function Print(ps: Pattern): (s: string) {
    if ps == [] then "" else PrintPart(ps[0]) + Print(ps[1..])
  }

  function Lits(s: string): (ps: Pattern)
    ensures |ps| == |s|
    ensures forall i :: 0 <= i < |s| ==> ps[i] == Lit(s[i])
  {
    seq(|s|, i requires 0 <= i < |s| => Lit(s[i]))
  }

  const SLASH: Pattern := [Lit('/')]

  /** `{name}` and `{name:*}` parts, in order: the values a match captures. */
  function Names(ps: Pattern): seq<string> {
    if ps == [] then [] else if ps[0].Lit? then Names(ps[1..]) else [ps[0].name] + Names(ps[1..])
  }

  predicate SameChar(fold: bool, a: char, b: char) {
    if fold then Fold(a) == Fold(b) else a == b
  }

  /**
   `path` fits `ps` with the captured `vals`: literals match (up to ASCII case when `fold`),
   a parameter takes text without a slash, a wildcard takes whatever is left.
   */
  predicate Fits(ps: Pattern, vals: seq<string>, path: string, fold: bool) {
    if ps == [] then vals == [] && path == ""
    else
      match ps[0]
      case Lit(c) => path != "" && SameChar(fold, path[0], c) && Fits(ps[1..], vals, path[1..], fold)
      case Key(_) =>
        vals != [] && vals[0] <= path && '/' !in vals[0] && Fits(ps[1..], vals[1..], path[|vals[0]|..], fold)
      case Rest(_) =>
        vals != [] && vals[0] <= path && Fits(ps[1..], vals[1..], path[|vals[0]|..], fold)
  }

  /** The path a pattern spells once its parameters are filled in. */
  function Fill(ps: Pattern, vals: seq<string>): string
    requires |vals| == |Names(ps)|
  {
    if ps == [] then ""
    else if ps[0].Lit? then [ps[0].c] + Fill(ps[1..], vals)
    else vals[0] + Fill(ps[1..], vals[1..])
  }

  lemma {:induction false} PrintConcat(a: Pattern, b: Pattern)
    ensures Print(a + b) == Print(a) + Print(b)
  {
    if a == [] {
      assert a + b == b;
    } else {
      assert (a + b)[1..] == a[1..] + b;
      PrintConcat(a[1..], b);
    }
  }

  lemma {:induction false} PrintLits(s: string)
    ensures Print(Lits(s)) == s
  {
    if s != "" {
      assert Lits(s)[1..] == Lits(s[1..]);
      PrintLits(s[1..]);
    }
  }

  lemma {:induction false} LitsConcat(a: string, b: string)
    ensures Lits(a + b) == Lits(a) + Lits(b)
  {
  }

  lemma {:induction false} NamesConcat(a: Pattern, b: Pattern)
    ensures Names(a + b) == Names(a) + Names(b)
  {
    if a == [] {
      assert a + b == b;
    } else {
      assert (a + b)[1..] == a[1..] + b;
      NamesConcat(a[1..], b);
    }
  }

  /** Patterns fit piece by piece. */
  lemma {:induction false} FitsConcat(
    a: Pattern, va: seq<string>, pa: string, b: Pattern, vb: seq<string>, pb: string, fold: bool)
    requires Fits(a, va, pa, fold) && Fits(b, vb, pb, fold)
    ensures Fits(a + b, va + vb, pa + pb, fold)
  {
    if a == [] {
      assert a + b == b && va + vb == vb && pa + pb == pb;
    } else {
      assert (a + b)[1..] == a[1..] + b;
      match a[0]
      case Lit(c) =>
        assert (pa + pb)[1..] == pa[1..] + pb;
        FitsConcat(a[1..], va, pa[1..], b, vb, pb, fold);
      case _ =>
        var v := va[0];
        assert (va + vb)[1..] == va[1..] + vb;
        assert (pa + pb)[|v|..] == pa[|v|..] + pb;
        FitsConcat(a[1..], va[1..], pa[|v|..], b, vb, pb, fold);
    }
  }

  lemma {:induction false} FitsLits(s: string, path: string, fold: bool)
    requires |s| == |path| && forall i :: 0 <= i < |s| ==> SameChar(fold, path[i], s[i])
    ensures Fits(Lits(s), [], path, fold)
  {
    if s != "" {
      assert Lits(s)[1..] == Lits(s[1..]);
      FitsLits(s[1..], path[1..], fold);
    }
  }

  /** A pattern that a path fits, filled with the captured values, spells the path (exactly, or up to case). */
  lemma {:induction false} FitsFill(ps: Pattern, vals: seq<string>, path: string, fold: bool)
    requires Fits(ps, vals, path, fold)
    ensures |vals| == |Names(ps)|
    ensures if fold then EqualFold(Fill(ps, vals), path) else Fill(ps, vals) == path
  {
    if ps != [] {
      match ps[0]
      case Lit(c) =>
        FitsFill(ps[1..], vals, path[1..], fold);
        assert path == [path[0]] + path[1..];
      case _ =>
        var v := vals[0];
        FitsFill(ps[1..], vals[1..], path[|v|..], fold);
        assert path == v + path[|v|..];
    }
  }

  /** Literal text fits exactly itself. */
  lemma {:induction false} FitsLitsOnly(s: string, vals: seq<string>, path: string)
    requires Fits(Lits(s), vals, path, false)
    ensures vals == [] && path == s
  {
    if s != "" {
      assert Lits(s)[1..] == Lits(s[1..]);
      FitsLitsOnly(s[1..], vals, path[1..]);
    }
  }

  // ----- findWildPath on supported patterns -------------------------------------------

  /** Scanning over text free of braces and colons changes nothing but the position. */
  lemma {:induction false} CloseOverName(path: string, pos: nat, stop: nat)
    requires pos <= stop <= |path|
    requires forall k :: pos <= k < stop ==> path[k] != '{' && path[k] != '}' && path[k] != ':'
    ensures CloseFrom(path, pos, false, 0) == CloseFrom(path, stop, false, 0)
    decreases stop - pos
  {
    if pos < stop {
      CloseOverName(path, pos + 1, stop);
    }
  }

  lemma {:induction false} SkipLiterals(path: string, from: nat, stop: nat)
    requires from <= stop <= |path| && forall k :: from <= k < stop ==> path[k] != '{'
    ensures FindWildFrom(path, from) == FindWildFrom(path, stop)
    decreases stop - from
  {
    if from < stop {
      SkipLiterals(path, from + 1, stop);
    }
  }

  /** Literal text holds no wild path. */
  lemma {:induction false} NoWildInLiterals(s: string)
    requires '{' !in s
    ensures FindWild(s) == NoWild
  {
    SkipLiterals(s, 0, |s|);
  }

  /** `path` has literal text, then `{`, a good name and `after`. */
  predicate OpensName(path: string, start: nat, name: string, after: char) {
    && start + |name| + 2 <= |path|
    && (forall k :: 0 <= k < start ==> path[k] != '{')
    && GoodName(name)
    && path[start] == '{' && path[start + 1..start + 1 + |name|] == name && path[start + 1 + |name|] == after
  }

  lemma {:induction false} OpenedName(path: string, start: nat, name: string, after: char)
    requires OpensName(path, start, name, after)
    ensures FindWild(path) == FindWildFrom(path, start)
    ensures CloseFrom(path, start + 1, false, 0) == CloseFrom(path, start + 1 + |name|, false, 0)
  {
    SkipLiterals(path, 0, start);
    forall k | start + 1 <= k < start + 1 + |name|
      ensures path[k] != '{' && path[k] != '}' && path[k] != ':'
    {
      assert name[k - start - 1] in name;
    }
    CloseOverName(path, start + 1, start + 1 + |name|);
  }

  lemma {:induction false} IndexOfAt(a: string, c: char, b: string)
    requires c !in a
    ensures IndexOf(a + [c] + b, c) == |a|
  {
    if a != "" {
      assert (a + [c] + b)[1..] == a[1..] + [c] + b;
      IndexOfAt(a[1..], c, b);
    }
  }

  lemma {:induction false} IndexOfNone(a: string, c: char)
    requires c !in a
    ensures IndexOf(a, c) == |a|
  {
    if a != "" {
      IndexOfNone(a[1..], c);
    }
  }

  lemma {:induction false} MeasureAt(path: string, start: nat, end: nat)
    requires start + 2 <= end <= |path| && path[start] == '{'
    requires CloseFrom(path, start + 1, false, 0) == ClosedAt(end)
    ensures FindWildFrom(path, start) == JoinTail(path, start, end)
  {
  }

  lemma {:induction false} OpeningAtKey(path: string, start: nat, end: nat, name: string)
    requires start + 2 <= end <= |path| && GoodName(name)
    requires path[start + 1..end - 1] == name
    ensures var wp := Opening(path, start, end);
      wp == WildPath(path[start..end], [name], start, end, Param, wp.pattern, None)
  {
    IndexOfNone(name, ':');
  }

  lemma {:induction false} OpeningAtRest(path: string, start: nat, end: nat, name: string)
    requires start + 2 <= end <= |path| && GoodName(name)
    requires path[start + 1..end - 1] == name + [':'] + "*"
    ensures Opening(path, start, end) == WildPath(path[start..end], [name], start, end, Wildcard, "*", None)
  {
    var body := path[start + 1..end - 1];
    IndexOfAt(name, ':', "*");
    assert body[|name| + 1..] == "*" && body[..|name|] == name;
  }

  /** What `findWildPath` reports for a first `{name}` that ends its segment. */
  lemma {:induction false} WildAtKey(path: string, start: nat, name: string)
    requires OpensName(path, start, name, '}')
    requires start + |name| + 2 == |path| || path[start + |name| + 2] == '/'
    ensures FindWild(path).Wild?
    ensures var wp, end := FindWild(path).wp, start + |name| + 2;
      && wp == WildPath(path[start..end], [name], start, wp.end, Param, wp.pattern, None)
      && wp.end == if path[end..] == "/" then end + 1 else end
  {
    var end := start + |name| + 2;
    OpenedName(path, start, name, '}');
    MeasureAt(path, start, end);
    OpeningAtKey(path, start, end, name);
  }

  lemma {:induction false} RestMeasured(path: string, start: nat, name: string)
    requires OpensName(path, start, name, ':') && |path| == start + |name| + 4
    requires path[|path| - 2] == '*' && path[|path| - 1] == '}'
    ensures FindWild(path) == JoinTail(path, start, |path|)
  {
    OpenedName(path, start, name, ':');
    CloseStar(path, |path| - 3);
  }

  /** What `findWildPath` reports for a first and final `{name:*}`. */
  lemma {:induction false} WildAtRest(path: string, start: nat, name: string)
    requires OpensName(path, start, name, ':') && |path| == start + |name| + 4
    requires path[|path| - 2] == '*' && path[|path| - 1] == '}'
    ensures FindWild(path) == Wild(WildPath(path[start..|path|], [name], start, |path|, Wildcard, "*", None))
  {
    RestMeasured(path, start, name);
    OpeningAtRest(path, start, |path|, name);
  }

  lemma {:induction false} CloseStar(path: string, pos: nat)
    requires pos + 3 <= |path| && path[pos] == ':' && path[pos + 1] == '*' && path[pos + 2] == '}'
    ensures CloseFrom(path, pos, false, 0) == ClosedAt(pos + 3)
  {
    assert CloseFrom(path, pos + 1, true, 0) == CloseFrom(path, pos + 2, true, 0);
  }

  /** The literal text a pattern starts with. */
  function LitPrefix(ps: Pattern): (s: string)
    ensures |s| <= |ps|
    ensures |s| < |ps| ==> !ps[|s|].Lit?
    ensures forall i :: 0 <= i < |s| ==> ps[i] == Lit(s[i])
  {
    if ps == [] || !ps[0].Lit? then "" else [ps[0].c] + LitPrefix(ps[1..])
  }

  lemma {:induction false} GoodSuffix(ps: Pattern, i: nat)
    requires Good(ps) && i <= |ps|
    ensures Good(ps[i..])
  {
    if i == 0 {
      assert ps[0..] == ps;
    } else {
      GoodSuffix(ps[1..], i - 1);
      assert ps[i..] == ps[1..][i - 1..];
    }
  }

  lemma {:induction false} GoodLit(ps: Pattern, i: nat)
    requires Good(ps) && i < |ps| && ps[i].Lit?
    ensures ps[i].c != '{'
  {
    GoodSuffix(ps, i);
    assert ps[i..][0] == ps[i];
  }

  lemma {:induction false} LitPrefixSplits(ps: Pattern)
    requires Good(ps)
    ensures var s := LitPrefix(ps);
      ps == Lits(s) + ps[|s|..] && '{' !in s && Good(ps[|s|..]) && Print(ps) == s + Print(ps[|s|..])
  {
    var s := LitPrefix(ps);
    assert ps == Lits(s) + ps[|s|..];
    PrintConcat(Lits(s), ps[|s|..]);
    PrintLits(s);
    GoodSuffix(ps, |s|);
    forall i | 0 <= i < |s|
      ensures s[i] != '{'
    {
      GoodLit(ps, i);
    }
  }

  lemma {:induction false} PrintTail(ps: Pattern)
    requires Good(ps) && ps != [] && ps[0].Key?
    ensures var t := Print(ps[1..]);
      (t == "" || t[0] == '/') && (t == "" <==> |ps| == 1) && (t == "/" <==> ps[1..] == SLASH)
  {
    if |ps| > 1 {
      var t := Print(ps[1..]);
      assert t == ['/'] + Print(ps[2..]) by { assert ps[1..][1..] == ps[2..]; }
      if ps[1..] == SLASH {
        assert ps[2..] == [];
      } else {
        assert |ps| > 2;
        assert Print(ps[2..]) != "" by { assert PrintPart(ps[2..][0]) != ""; }
        assert |t| > 1;
      }
    }
  }

  /** `findWildPath` reports `p`, found after the text `s`, and measured up to `end`. */
  predicate Reports(r: WildResult, p: Part, s: string, end: nat) {
    && r.Wild? && !p.Lit?
    && r.wp.path == PrintPart(p) && r.wp.keys == [p.name] && r.wp.start == |s| && r.wp.regex == None
    && r.wp.pType == (if p.Key? then Param else Wildcard) && r.wp.end == end
  }

  lemma {:induction false} ReportsKey(s: string, name: string, t: string)
    requires '{' !in s && GoodName(name) && (t == "" || t[0] == '/')
    ensures var end := |s| + |name| + 2 + (if t == "/" then 1 else 0);
      Reports(FindWild(s + (PrintPart(Key(name)) + t)), Key(name), s, end)
  {
    var path := s + (PrintPart(Key(name)) + t);
    Assoc(s, PrintPart(Key(name)), t);
    WildAtKey(path, |s|, name);
  }

  lemma {:induction false} ReportsRest(s: string, name: string)
    requires '{' !in s && GoodName(name)
    ensures Reports(FindWild(s + PrintPart(Rest(name))), Rest(name), s, |s| + |name| + 4)
  {
    var path := s + PrintPart(Rest(name));
    WildAtRest(path, |s|, name);
  }

  /** Where `findWildPath` ends the parameter or wildcard `tail` starts with, found after `s`. */
  function WildEnd(s: string, tail: Pattern): nat
    requires tail != []
  {
    |s| + |PrintPart(tail[0])| + (if tail[0].Key? && tail[1..] == SLASH then 1 else 0)
  }

  /** `findWildPath` finds exactly the first parameter or wildcard of a supported pattern. */
  lemma {:induction false} WildOf(ps: Pattern)
    requires Good(ps)
    ensures |LitPrefix(ps)| == |ps| ==> FindWild(Print(ps)) == NoWild
    ensures |LitPrefix(ps)| < |ps| ==>
      var s := LitPrefix(ps); Reports(FindWild(Print(ps)), ps[|s|], s, WildEnd(s, ps[|s|..]))
  {
    var s := LitPrefix(ps);
    LitPrefixSplits(ps);
    if |s| == |ps| {
      assert Print(ps) == s;
      NoWildInLiterals(s);
    } else {
      WildOfTail(s, ps[|s|..]);
    }
  }

  lemma {:induction false} WildOfTail(s: string, tail: Pattern)
    requires '{' !in s && Good(tail) && tail != [] && !tail[0].Lit?
    ensures Reports(FindWild(s + Print(tail)), tail[0], s, WildEnd(s, tail))
  {
    var name := tail[0].name;
    if tail[0].Key? {
      PrintTail(tail);
      ReportsKey(s, name, Print(tail[1..]));
    } else {
      assert tail[1..] == [];
      assert Print(tail) == PrintPart(tail[0]);
      ReportsRest(s, name);
    }
  }

  // ----- cutting a printed pattern where a node's text ends -----------------------------------

  /** Cutting inside the leading literal text cuts the pattern at the same place. */
  lemma {:induction false} CutLiterals(ps: Pattern, i: nat)
    requires Good(ps) && i <= |LitPrefix(ps)|
    ensures i <= |Print(ps)| && Print(ps)[i..] == Print(ps[i..]) && Good(ps[i..])
    ensures ps == Lits(Print(ps)[..i]) + ps[i..]
  {
    var t := LitPrefix(ps)[..i];
    assert ps == Lits(t) + ps[i..];
    PrintConcat(Lits(t), ps[i..]);
    PrintLits(t);
    assert Print(ps)[..i] == t;
    GoodSuffix(ps, i);
  }

  lemma {:induction false} PrintStart(ps: Pattern)
    requires ps != []
    ensures Print(ps) != "" && (if ps[0].Lit? then Print(ps)[0] == ps[0].c else Print(ps)[0] == '{')
  {
  }

  /** Brace-free text can only share literal text with a pattern. */
  lemma {:induction false} SharedIsLiteral(ps: Pattern, t: string)
    requires Good(ps) && '{' !in t
    ensures Lcp(Print(ps), t) <= |LitPrefix(ps)|
  {
    if ps != [] && t != "" && Print(ps)[0] == t[0] {
      PrintStart(ps);
      assert ps[0].Lit?;
      assert Print(ps)[1..] == Print(ps[1..]);
      SharedIsLiteral(ps[1..], t[1..]);
    }
  }

  /** Two printed parameters are equal only if their names are. */
  lemma {:induction false} PrintKeyInjective(a: string, b: string)
    requires PrintPart(Key(a)) == PrintPart(Key(b))
    ensures a == b
  {
    var s := PrintPart(Key(a));
    assert s[1..|s| - 1] == a && s[1..|s| - 1] == b;
  }

  /** Where the name of a parameter or wildcard ends in its printed form. */
  lemma {:induction false} NameEnds(p: Part, i: nat)
    requires !p.Lit? && GoodName(p.name) && 0 < i <= |p.name|
    ensures var s := PrintPart(p);
      s[i] == p.name[i - 1] && s[i] != '}' && s[i] != ':' && s[|p.name| + 1] == (if p.Key? then '}' else ':')
  {
    assert p.name[i - 1] in p.name;
  }

  /** A wildcard never prints like a parameter, nor does a longer parameter start like a shorter one. */
  lemma {:induction false} KeyIsNoPrefix(p: Part, name: string)
    requires !p.Lit? && GoodName(p.name) && GoodName(name) && PrintPart(p) <= PrintPart(Key(name))
    ensures p == Key(name)
  {
    var a, b := PrintPart(p), PrintPart(Key(name));
    var e := |p.name| + 1;
    assert a[e] == b[e];
    NameEnds(p, 1);
    if e <= |name| {
      NameEnds(Key(name), e);
    }
    assert e == |name| + 1;
    assert b[e] == '}';
    assert a == b;
    PrintKeyInjective(p.name, name);
  }

  /** A pattern printing to a prefix of a parameter node's text is that parameter. */
  lemma {:induction false} WholeIsKey(ps: Pattern, name: string)
    requires Good(ps) && ps != [] && !ps[0].Lit? && GoodName(name)
    requires Lcp(Print(ps), PrintPart(Key(name))) == |Print(ps)|
    ensures ps == [Key(name)]
  {
    var path, b, a := Print(ps), PrintPart(Key(name)), PrintPart(ps[0]);
    assert path == path[..|path|] == b[..|path|];
    assert path == a + Print(ps[1..]);
    assert a == path[..|a|] == b[..|a|];
    KeyIsNoPrefix(ps[0], name);
    assert ps == [ps[0]] + ps[1..];
  }

  // ----- reading a pattern back ------------------------------------------------------------------

  /** The parts of a pattern as repeated `findWildPath` calls find them; None when one of them fails. */
  function ReadParts(path: string): (r: Option<Pattern>)
    decreases |path|
  {
    match FindWild(path)
    case Panics(_) => None
    case NoWild => Some(Lits(path))
    case Wild(wp) =>
      var after := wp.start + |wp.path|;
      if wp.regex.Some? || |wp.keys| != 1 || wp.path == "" || after > |path| then None
      else
        var part := if wp.pType == Wildcard then Rest(wp.keys[0]) else Key(wp.keys[0]);
        match ReadParts(path[after..])
        case None => None
        case Some(rest) => Some(Lits(path[..wp.start]) + [part] + rest)
  }

  /** Printing a supported pattern and reading it back with `findWildPath` recovers its parts. */
  lemma {:induction false} ReadBack(ps: Pattern)
    requires Good(ps)
    ensures ReadParts(Print(ps)) == Some(ps)
    decreases |ps|
  {
    var s := LitPrefix(ps);
    LitPrefixSplits(ps);
    WildOf(ps);
    if |s| == |ps| {
      assert ps[|s|..] == [] && Print(ps) == s;
      assert ps == Lits(s);
    } else {
      var p, rest := ps[|s|], ps[|s| + 1..];
      assert ps[|s|..] == [p] + rest;
      GoodSuffix(ps, |s| + 1);
      ReadBack(rest);
      ReadStep(s, p, Print(rest), rest);
      Assoc(Lits(s), [p], rest);
    }
  }

  lemma {:induction false} ReadStep(s: string, p: Part, t: string, rest: Pattern)
    requires var r := FindWild(s + (PrintPart(p) + t)); r.Wild? && Reports(r, p, s, r.wp.end)
    requires ReadParts(t) == Some(rest)
    ensures ReadParts(s + (PrintPart(p) + t)) == Some(Lits(s) + [p] + rest)
  {
    CutPart(s, PrintPart(p), t);
  }

  lemma {:induction false} CutPart(s: string, p: string, t: string)
    ensures var path := s + (p + t); path[..|s|] == s && path[|s| + |p|..] == t && |s| + |p| <= |path|
  {
  }

  /** Different supported patterns print differently. */
  lemma {:induction false} PrintInjective(a: Pattern, b: Pattern)
    requires Good(a) && Good(b) && Print(a) == Print(b)
    ensures a == b
  {
    ReadBack(a);
    ReadBack(b);
  }
}
