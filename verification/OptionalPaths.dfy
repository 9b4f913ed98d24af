/**
 Optional-parameter expansion (`GetOptionalPaths`). The scan edits the string it walks over; on
 patterns whose optional parameters fill whole segments it returns a chain of ever longer prefixes.
 */
module OptionalPaths {
  import opened Text

  // ----- the scan -------------------------------------------------------------------------------

  /** What the scan of one brace did: nothing to expand, an optional parameter to cut, or a slice out of range. */
  datatype Brace =
    | Passed(paths: seq<string>)
    | Cut(question: nat, close: nat, newPath: string, paths: seq<string>)
    | OutOfRange

  /** State of the inner loop over the text after an opening brace. */
  datatype Inside = Inside(brackets: nat, hasRegex: bool, question: Option<nat>, newPath: string, paths: seq<string>)

  /** A '?' that is not part of a regular expression: the path without the parameter is one of the results. */
  function MeetQuestion(path: string, start: nat, pos: nat, st: Inside): Inside
    requires 2 <= start <= pos < |path|
  {
    var before := path[..start - 2];
    var paths :=
      if before == "" then st.paths + ["/"]
      else if before in st.paths then st.paths
      else st.paths + [before];
    st.(question := Some(pos), newPath := st.newPath + path[..pos], paths := paths)
  }

  /** The inner loop from `pos` on, for the parameter whose body starts at `start`. */
  function ScanBrace(path: string, start: nat, pos: nat, st: Inside): (r: Brace)
    requires start <= pos <= |path| && (st.question.Some? ==> start <= st.question.value < pos)
    ensures r.Cut? ==> start <= r.question < r.close < |path|
    decreases |path| - pos
  {
    if pos == |path| then Passed(st.paths)
    else
      match path[pos]
      case '{' => ScanBrace(path, start, pos + 1, st.(brackets := st.brackets + 1))
      case '}' =>
        if st.brackets > 0 then ScanBrace(path, start, pos + 1, st.(brackets := st.brackets - 1))
        else (match st.question
              case None => Passed(st.paths)
              case Some(q) => Cut(q, pos, st.newPath + path[q + 1..pos + 1], st.paths))
      case ':' => ScanBrace(path, start, pos + 1, st.(hasRegex := true))
      case '?' =>
        if st.hasRegex then ScanBrace(path, start, pos + 1, st)
        else if start < 2 then OutOfRange
        else ScanBrace(path, start, pos + 1, MeetQuestion(path, start, pos, st))
      case _ => ScanBrace(path, start, pos + 1, st)
  }

  function Entered(paths: seq<string>): Inside { Inside(0, false, None, "", paths) }

  /** The labelled outer loop; None when a slice is out of range. It ends: each turn moves on or shortens the text. */
  function Walk(path: string, start: nat, paths: seq<string>): Option<seq<string>>
    requires start <= |path|
    decreases |path| - start
  {
    if start == |path| then Some(paths)
    else if path[start] != '{' then Walk(path, start + 1, paths)
    else
      match ScanBrace(path, start + 1, start + 1, Entered(paths))
      case OutOfRange => None
      case Passed(more) => Walk(path, start + 1, more)
      case Cut(q, close, newPath, more) => Walk(Without(path, q), close, more + [newPath])
  }

  method IncludesPath(paths: seq<string>, path: string) returns (found: bool)
    ensures found <==> path in paths
  {
    for i := 0 to |paths|
      invariant path !in paths[..i]
    {
      if paths[i] == path {
        return true;
      }
    }
    return false;
  }

  method GetOptionalPaths(original: string) returns (r: Option<seq<string>>)
    ensures r == Walk(original, 0, [])
  {
    var path, paths, start := original, [], 0;
    while start < |path|
      invariant start <= |path| && Walk(original, 0, []) == Walk(path, start, paths)
      decreases |path| - start
    {
      var c := path[start];
      start := start + 1;
      if c == '{' {
        var brace := ExpandBrace(path, start, paths);
        match brace {
          case OutOfRange => return None;
          case Passed(more) => paths := more;
          case Cut(q, close, newPath, more) =>
            path := Without(path, q);
            paths := more + [newPath];
            start := close;
        }
      }
    }
    return Some(paths);
  }

  /** The inner loop. */
  method ExpandBrace(path: string, start: nat, already: seq<string>) returns (r: Brace)
    requires start <= |path|
    ensures r == ScanBrace(path, start, start, Entered(already))
  {
    var newPath, hasRegex, question, brackets, paths := "", false, None, 0, already;
    var pos := start;
    while pos < |path|
      invariant start <= pos <= |path| && (question.Some? ==> start <= question.value < pos) && brackets >= 0
      invariant ScanBrace(path, start, start, Entered(already)) ==
        ScanBrace(path, start, pos, Inside(brackets, hasRegex, question, newPath, paths))
    {
      match path[pos] {
        case '{' => brackets := brackets + 1;
        case '}' =>
          if brackets > 0 {
            brackets := brackets - 1;
          } else if question == None {
            return Passed(paths);
          } else {
            return Cut(question.value, pos, newPath + path[question.value + 1..pos + 1], paths);
          }
        case ':' => hasRegex := true;
        case '?' =>
          if !hasRegex {
            if start < 2 {
              return OutOfRange;
            }
            question := Some(pos);
            newPath := newPath + path[..pos];
            var before := path[..start - 2];
            if before == "" {
              paths := paths + ["/"];
            } else {
              var included := IncludesPath(paths, before);
              if !included {
                paths := paths + [before];
              }
            }
          }
        case _ =>
      }
      pos := pos + 1;
    }
    return Passed(paths);
  }

  // ----- patterns ----------------------------------------------------------------------------------

  /**
   A path segment: text without optional parameters, or one optional parameter, with `tail` its regular
   expression part.
   */
  datatype Segment = Plain(text: string) | Optional(name: string, tail: string)

  /** How a parameter body is left after its '?' (or from its start): where its closing brace is. */
  function ClosesAt(s: string, pos: nat, brackets: nat, hasRegex: bool): Option<nat>
    requires pos <= |s|
    decreases |s| - pos
  {
    if pos == |s| then None
    else
      match s[pos]
      case '{' => ClosesAt(s, pos + 1, brackets + 1, hasRegex)
      case '}' => if brackets > 0 then ClosesAt(s, pos + 1, brackets - 1, hasRegex) else Some(pos)
      case ':' => ClosesAt(s, pos + 1, brackets, true)
      case '?' => if hasRegex then ClosesAt(s, pos + 1, brackets, hasRegex) else None
      case _ => ClosesAt(s, pos + 1, brackets, hasRegex)
  }

  /** Every brace of the text closes inside it, before any '?' outside a regular expression. */
  predicate NothingOptional(text: string) {
    forall i :: 0 <= i < |text| && text[i] == '{' ==> ClosesAt(text, i + 1, 0, false).Some?
  }

  predicate PlainName(name: string) {
    forall c :: c in name ==> c != '{' && c != '}' && c != ':' && c != '?'
  }

  predicate GoodSegment(s: Segment) {
    match s
    case Plain(text) => NothingOptional(text)
    case Optional(name, tail) => PlainName(name) && ClosesAt(tail + "}", 0, 0, false) == Some(|tail|)
  }

  predicate GoodSegments(segs: seq<Segment>) { forall i :: 0 <= i < |segs| ==> GoodSegment(segs[i]) }

  /** A segment as written, with the '?' of an optional parameter or without. */
  function ShowSegment(s: Segment, marked: bool): (t: string)
    ensures t != "" && t[0] == '/'
  {
    match s
    case Plain(text) => "/" + text
    case Optional(name, tail) => "/{" + name + (if marked then "?" else "") + tail + "}"
  }

  function Show(segs: seq<Segment>, marked: bool): (t: string)
    ensures segs != [] ==> t != "" && t[0] == '/'
    ensures |t| >= |segs|
  {
    if segs == [] then "" else ShowSegment(segs[0], marked) + Show(segs[1..], marked)
  }

  lemma {:induction false} ShowConcat(a: seq<Segment>, b: seq<Segment>, marked: bool)
    ensures Show(a + b, marked) == Show(a, marked) + Show(b, marked)
  {
    if a == [] {
      assert a + b == b;
    } else {
      assert (a + b)[1..] == a[1..] + b;
      ShowConcat(a[1..], b, marked);
    }
  }

  /** The path up to the `i`-th segment: what remains when the optional parameter there is left out. */
  function Before(segs: seq<Segment>, i: nat): string
    requires i < |segs|
  {
    if i == 0 then "/" else Show(segs[..i], false)
  }

  function Through(segs: seq<Segment>, i: nat): string
    requires i < |segs|
  {
    Show(segs[..i + 1], false)
  }

  /** The paths of the optional parameters among the first `n` segments, shortest first, none twice. */
  ghost predicate IsChain(paths: seq<string>, segs: seq<Segment>, n: nat)
    requires n <= |segs|
  {
    Lengthening(paths) && forall p :: p in paths <==> Offered(segs, n, p)
  }

  predicate Lengthening(paths: seq<string>) {
    forall i, j :: 0 <= i < j < |paths| ==> |paths[i]| < |paths[j]|
  }

  ghost predicate OffersPath(segs: seq<Segment>, i: nat, n: nat, p: string)
    requires n <= |segs|
  {
    i < n && segs[i].Optional? && (p == Before(segs, i) || p == Through(segs, i))
  }

  ghost predicate Offered(segs: seq<Segment>, n: nat, p: string)
    requires n <= |segs|
  {
    exists i: nat :: OffersPath(segs, i, n, p)
  }

  // ----- what the scan does on them --------------------------------------------------------------------

  /** `part` stands at `off` in `path`. */
  predicate StandsAt(path: string, off: nat, part: string) {
    off + |part| <= |path| && forall i :: 0 <= i < |part| ==> path[off + i] == part[i]
  }

  /** A required parameter is passed over. */
  lemma {:induction false} PassesOver(path: string, start: nat, off: nat, text: string, pos: nat, st: Inside)
    requires StandsAt(path, off, text) && pos <= |text| && start <= off + pos && st.question == None
    requires ClosesAt(text, pos, st.brackets, st.hasRegex).Some?
    ensures ScanBrace(path, start, off + pos, st) == Passed(st.paths)
    decreases |text| - pos
  {
    assert path[off + pos] == text[pos];
    match text[pos]
    case '{' => PassesOver(path, start, off, text, pos + 1, st.(brackets := st.brackets + 1));
    case '}' =>
      if st.brackets > 0 { PassesOver(path, start, off, text, pos + 1, st.(brackets := st.brackets - 1)); }
    case ':' => PassesOver(path, start, off, text, pos + 1, st.(hasRegex := true));
    case _ => PassesOver(path, start, off, text, pos + 1, st);
  }

  lemma {:induction false} WalkOverText(path: string, off: nat, text: string, pos: nat, paths: seq<string>)
    requires StandsAt(path, off, text) && pos <= |text| && NothingOptional(text)
    ensures Walk(path, off + pos, paths) == Walk(path, off + |text|, paths)
    decreases |text| - pos
  {
    if pos < |text| {
      assert path[off + pos] == text[pos];
      if text[pos] == '{' {
        PassesOver(path, off + pos + 1, off, text, pos + 1, Entered(paths));
      }
      WalkOverText(path, off, text, pos + 1, paths);
    }
  }

  /** A plain segment is walked over without a result. */
  lemma {:induction false} WalkOverPlain(done: string, text: string, rest: string, paths: seq<string>)
    requires NothingOptional(text)
    ensures var path := done + ("/" + text) + rest; Walk(path, |done|, paths) == Walk(path, |done| + 1 + |text|, paths)
  {
    var path := done + ("/" + text) + rest;
    assert path[|done|] == '/';
    assert path == (done + "/") + (text + rest);
    assert StandsAt(path, |done| + 1, text);
    WalkOverText(path, |done| + 1, text, 0, paths);
  }

  lemma {:induction false} ScanOverName(path: string, start: nat, pos: nat, stop: nat, st: Inside)
    requires start <= pos <= stop <= |path| && st.question == None
    requires forall k :: pos <= k < stop ==> path[k] != '{' && path[k] != '}' && path[k] != ':' && path[k] != '?'
    ensures ScanBrace(path, start, pos, st) == ScanBrace(path, start, stop, st)
    decreases stop - pos
  {
    if pos < stop { ScanOverName(path, start, pos + 1, stop, st); }
  }

  /** From the '?' on, the parameter is cut where it closes. */
  lemma {:induction false} ScanOverTail(path: string, start: nat, off: nat, tail: string, pos: nat, q: nat, st: Inside)
    requires StandsAt(path, off, tail + "}") && pos <= |tail| && start <= q < off && st.question == Some(q)
    requires ClosesAt(tail + "}", pos, st.brackets, st.hasRegex) == Some(|tail|)
    ensures off + |tail| < |path|
    ensures ScanBrace(path, start, off + pos, st) ==
      Cut(q, off + |tail|, st.newPath + path[q + 1..off + |tail| + 1], st.paths)
    decreases |tail| - pos
  {
    var s := tail + "}";
    assert path[off + pos] == s[pos];
    if pos < |tail| {
      match s[pos]
      case '{' => ScanOverTail(path, start, off, tail, pos + 1, q, st.(brackets := st.brackets + 1));
      case '}' => ScanOverTail(path, start, off, tail, pos + 1, q, st.(brackets := st.brackets - 1));
      case ':' => ScanOverTail(path, start, off, tail, pos + 1, q, st.(hasRegex := true));
      case _ => ScanOverTail(path, start, off, tail, pos + 1, q, st);
    }
  }

  /** The results after an optional parameter at the end of `done`. */
  function Extended(paths: seq<string>, done: string, through: string): seq<string> {
    (if done == "" then paths + ["/"] else if done in paths then paths else paths + [done]) + [through]
  }

  lemma {:induction false} ScanOptional(done: string, name: string, tail: string, rest: string, paths: seq<string>)
    requires PlainName(name) && ClosesAt(tail + "}", 0, 0, false) == Some(|tail|)
    ensures var path := done + ("/{" + name + "?" + tail + "}") + rest; var q := |done| + 2 + |name|;
      && path[|done|] == '/' && path[|done| + 1] == '{' && q + 1 + |tail| < |path|
      && ScanBrace(path, |done| + 2, |done| + 2, Entered(paths)) ==
           Cut(q, q + 1 + |tail|, path[..q] + path[q + 1..q + 2 + |tail|],
             Extended(paths, done, "")[..|Extended(paths, done, "")| - 1])
  {
    Laid(done, name, tail, rest);
    ScanFrom(done + ("/{" + name + "?" + tail + "}") + rest, done, name, tail, paths);
  }

  lemma {:induction false} ScanFrom(path: string, done: string, name: string, tail: string, paths: seq<string>)
    requires ClosesAt(tail + "}", 0, 0, false) == Some(|tail|) && |done| + 3 + |name| <= |path|
    requires path[..|done|] == done && path[|done| + 2 + |name|] == '?'
    requires StandsAt(path, |done| + 3 + |name|, tail + "}")
    requires forall k :: |done| + 2 <= k < |done| + 2 + |name| ==>
      path[k] != '{' && path[k] != '}' && path[k] != ':' && path[k] != '?'
    ensures var q := |done| + 2 + |name|;
      && q + 1 + |tail| < |path|
      && ScanBrace(path, |done| + 2, |done| + 2, Entered(paths)) ==
           Cut(q, q + 1 + |tail|, path[..q] + path[q + 1..q + 2 + |tail|],
             Extended(paths, done, "")[..|Extended(paths, done, "")| - 1])
  {
    var start, q := |done| + 2, |done| + 2 + |name|;
    ScanOverName(path, start, start, q, Entered(paths));
    var st := MeetQuestion(path, start, q, Entered(paths));
    ScanOverTail(path, start, q + 1, tail, 0, q, st);
    assert "" + path[..q] == path[..q];
  }

  /** Where the pieces of an optional parameter stand. */
  lemma {:induction false} Laid(done: string, name: string, tail: string, rest: string)
    requires PlainName(name)
    ensures var path := done + ("/{" + name + "?" + tail + "}") + rest; var start := |done| + 2;
      && path[|done|] == '/' && path[|done| + 1] == '{' && path[start + |name|] == '?'
      && path[..start + |name|] == done + "/{" + name && path[start + |name| + 1..] == tail + "}" + rest
      && StandsAt(path, start + |name| + 1, tail + "}") && path[..|done|] == done
      && forall k :: start <= k < start + |name| ==>
        path[k] != '{' && path[k] != '}' && path[k] != ':' && path[k] != '?'
  {
    var path, start := done + ("/{" + name + "?" + tail + "}") + rest, |done| + 2;
    var head, end := done + "/{", tail + "}" + rest;
    assert path == head + (name + ("?" + end));
    assert path == (head + name) + ("?" + end);
    assert path == (head + name + "?") + end;
    forall k | start <= k < start + |name|
      ensures path[k] != '{' && path[k] != '}' && path[k] != ':' && path[k] != '?'
    {
      assert path[k] == name[k - start];
      assert path[k] in name;
    }
  }

  /** What is left when the '?' is taken out. */
  lemma {:induction false} CutOut(done: string, name: string, tail: string, rest: string)
    requires PlainName(name)
    ensures var path, q := done + ("/{" + name + "?" + tail + "}") + rest, |done| + 2 + |name|;
      var through := done + ("/{" + name + "" + tail + "}");
      && q + 2 + |tail| <= |path| && |through| == q + 1 + |tail|
      && path[..q] + path[q + 1..q + 2 + |tail|] == through && Without(path, q) == through + rest
  {
    var path, q := done + ("/{" + name + "?" + tail + "}") + rest, |done| + 2 + |name|;
    Laid(done, name, tail, rest);
    var head, end := done + "/{" + name, tail + "}";
    assert path[q + 1..] == end + rest;
    assert path[q + 1..q + 2 + |tail|] == path[q + 1..][..|end|] == end;
    assert done + ("/{" + name + "" + tail + "}") == head + end;
    assert head + (end + rest) == (head + end) + rest;
  }

  /** An optional parameter is cut down to a required one and yields its two paths. */
  lemma {:induction false} WalkOverOptional(done: string, name: string, tail: string, rest: string, paths: seq<string>)
    requires PlainName(name) && ClosesAt(tail + "}", 0, 0, false) == Some(|tail|)
    ensures var through := done + ("/{" + name + "" + tail + "}");
      Walk(done + ("/{" + name + "?" + tail + "}") + rest, |done|, paths) ==
        Walk(through + rest, |through|, Extended(paths, done, through))
  {
    var path, q := done + ("/{" + name + "?" + tail + "}") + rest, |done| + 2 + |name|;
    var through, more := done + ("/{" + name + "" + tail + "}"), Extended(paths, done, "");
    ScanOptional(done, name, tail, rest, paths);
    CutOut(done, name, tail, rest);
    assert more[..|more| - 1] + [through] == Extended(paths, done, through);
  }

  /** One segment of either kind. */
  lemma {:induction false} WalkOver(done: string, s: Segment, rest: string, paths: seq<string>)
    requires GoodSegment(s)
    ensures var through := done + ShowSegment(s, false);
      Walk(done + ShowSegment(s, true) + rest, |done|, paths) ==
        Walk(through + rest, |through|, if s.Plain? then paths else Extended(paths, done, through))
  {
    if s.Plain? {
      WalkOverPlain(done, s.text, rest, paths);
    } else {
      WalkOverOptional(done, s.name, s.tail, rest, paths);
    }
  }

  lemma {:induction false} ShowPrefix(segs: seq<Segment>, k: nat)
    requires k < |segs|
    ensures Show(segs[..k + 1], false) == Show(segs[..k], false) + ShowSegment(segs[k], false)
    ensures Show(segs[k..], true) == ShowSegment(segs[k], true) + Show(segs[k + 1..], true)
  {
    assert segs[..k + 1] == segs[..k] + [segs[k]] && [segs[k]][1..] == [];
    ShowConcat(segs[..k], [segs[k]], false);
    assert Show([segs[k]], false) == ShowSegment(segs[k], false) + Show([], false);
    assert segs[k..][1..] == segs[k + 1..];
  }

  /** Longer prefixes are longer texts. */
  lemma {:induction false} ShowGrows(segs: seq<Segment>, i: nat, j: nat)
    requires i < j <= |segs|
    ensures |Show(segs[..i], false)| < |Show(segs[..j], false)|
    decreases j
  {
    ShowPrefix(segs, j - 1);
    if i < j - 1 { ShowGrows(segs, i, j - 1); }
  }

  lemma {:induction false} OfferIsShort(segs: seq<Segment>, i: nat, n: nat, p: string)
    requires n <= |segs| && OffersPath(segs, i, n, p)
    ensures |p| <= |Show(segs[..n], false)|
  {
    if i + 1 < n { ShowGrows(segs, i + 1, n); }
    ShowGrows(segs, i, i + 1);
  }

  lemma {:induction false} OffersMore(segs: seq<Segment>, n: nat, p: string)
    requires n < |segs|
    ensures Offered(segs, n + 1, p) <==>
      Offered(segs, n, p) || (segs[n].Optional? && (p == Before(segs, n) || p == Through(segs, n)))
  {
    if Offered(segs, n + 1, p) {
      var i: nat :| OffersPath(segs, i, n + 1, p);
      if i < n { assert OffersPath(segs, i, n, p); }
    }
    if Offered(segs, n, p) {
      var i: nat :| OffersPath(segs, i, n, p);
      assert OffersPath(segs, i, n + 1, p);
    }
    if segs[n].Optional? && (p == Before(segs, n) || p == Through(segs, n)) {
      assert OffersPath(segs, n, n + 1, p);
    }
  }

  /** Every path so far is shorter than what follows, except the prefix itself. */
  lemma {:induction false} ChainIsShort(paths: seq<string>, segs: seq<Segment>, n: nat)
    requires n < |segs| && IsChain(paths, segs, n)
    ensures forall p :: p in paths ==> |p| <= |Before(segs, n)| && (|p| == |Before(segs, n)| ==> p == Before(segs, n))
    ensures n == 0 ==> forall p :: p in paths ==> p == ""
  {
    forall p | p in paths
      ensures |p| <= |Before(segs, n)| && (|p| == |Before(segs, n)| ==> p == Before(segs, n))
    {
      assert Offered(segs, n, p);
      var i: nat :| OffersPath(segs, i, n, p);
      OfferIsShort(segs, i, n, p);
      ShowGrows(segs, i, n);
      if i + 1 < n { ShowGrows(segs, i + 1, n); }
      if i == 0 { ShowPrefix(segs, 0); }
    }
  }

  /** A longer text extends a chain; so does a text that may already be its last. */
  lemma {:induction false} ExtendedOrder(paths: seq<string>, before: string, through: string, done: string)
    requires Lengthening(paths)
    requires forall p :: p in paths ==> |p| <= |before| && (|p| == |before| ==> p == before)
    requires |before| < |through|
    requires if done == "" then before == "/" && (forall p :: p in paths ==> p == "") else before == done
    ensures var more := Extended(paths, done, through);
      Lengthening(more) && forall p :: p in more <==> p in paths || p == before || p == through
  {
    forall i | 0 <= i < |paths|
      ensures |paths[i]| <= |before| && (before !in paths || done == "" ==> |paths[i]| < |before|)
    {
      assert paths[i] in paths;
    }
  }

  /** One segment more: nothing to add. */
  lemma {:induction false} PlainStep(paths: seq<string>, segs: seq<Segment>, n: nat)
    requires n < |segs| && IsChain(paths, segs, n) && segs[n].Plain?
    ensures IsChain(paths, segs, n + 1)
  {
    forall p
      ensures Offered(segs, n + 1, p) <==> Offered(segs, n, p)
    {
      OffersMore(segs, n, p);
    }
  }

  /** One segment more: the two paths of an optional parameter. */
  lemma {:induction false} OptionalStep(paths: seq<string>, segs: seq<Segment>, n: nat)
    requires n < |segs| && IsChain(paths, segs, n) && segs[n].Optional?
    ensures IsChain(Extended(paths, Show(segs[..n], false), Through(segs, n)), segs, n + 1)
  {
    var before, through, done := Before(segs, n), Through(segs, n), Show(segs[..n], false);
    ChainIsShort(paths, segs, n);
    assert |before| < |through| by { ShowPrefix(segs, n); }
    assert if done == "" then before == "/" && (forall p :: p in paths ==> p == "") else before == done by {
      if n > 0 { ShowGrows(segs, 0, n); }
    }
    ExtendedOrder(paths, before, through, done);
    var more := Extended(paths, done, through);
    forall p
      ensures p in more <==> Offered(segs, n + 1, p)
    {
      OffersMore(segs, n, p);
    }
  }

  /** The text and the position after `n` segments. */
  function Partly(segs: seq<Segment>, n: nat): string
    requires n <= |segs|
  {
    Show(segs[..n], false) + Show(segs[n..], true)
  }

  lemma {:induction false} PartlyAt(segs: seq<Segment>, n: nat)
    requires n < |segs|
    ensures var done, s, rest := Show(segs[..n], false), segs[n], Show(segs[n + 1..], true);
      && Partly(segs, n) == done + ShowSegment(s, true) + rest
      && Partly(segs, n + 1) == (done + ShowSegment(s, false)) + rest
      && Show(segs[..n + 1], false) == done + ShowSegment(s, false)
  {
    ShowPrefix(segs, n);
    var done, s, rest := Show(segs[..n], false), segs[n], Show(segs[n + 1..], true);
    assert done + (ShowSegment(s, true) + rest) == done + ShowSegment(s, true) + rest;
  }

  /** The results after segment `n`. */
  function After(paths: seq<string>, segs: seq<Segment>, n: nat): seq<string>
    requires n < |segs|
  {
    if segs[n].Plain? then paths else Extended(paths, Show(segs[..n], false), Through(segs, n))
  }

  lemma {:induction false} WalkSegment(segs: seq<Segment>, n: nat, paths: seq<string>)
    requires n < |segs| && GoodSegment(segs[n])
    ensures Walk(Partly(segs, n), |Show(segs[..n], false)|, paths) ==
      Walk(Partly(segs, n + 1), |Show(segs[..n + 1], false)|, After(paths, segs, n))
  {
    PartlyAt(segs, n);
    WalkOver(Show(segs[..n], false), segs[n], Show(segs[n + 1..], true), paths);
  }

  lemma {:induction false} WalkSegments(segs: seq<Segment>, n: nat, paths: seq<string>) returns (all: seq<string>)
    requires GoodSegments(segs) && n <= |segs| && IsChain(paths, segs, n)
    ensures Walk(Partly(segs, n), |Show(segs[..n], false)|, paths) == Some(all) && IsChain(all, segs, |segs|)
    decreases |segs| - n
  {
    if n == |segs| {
      assert segs[n..] == [];
      all := paths;
    } else {
      if segs[n].Plain? { PlainStep(paths, segs, n); } else { OptionalStep(paths, segs, n); }
      WalkSegment(segs, n, paths);
      all := WalkSegments(segs, n + 1, After(paths, segs, n));
    }
  }

  /**
   On a pattern whose optional parameters fill whole segments, the expansion is, for every optional
   parameter, the '?'-free path before it ("/" if it comes first) and the one through it, shortest
   first and none twice; it is empty exactly when no parameter is optional.
   */
  lemma {:induction false} Expansion(segs: seq<Segment>) returns (all: seq<string>)
    requires GoodSegments(segs)
    ensures Walk(Show(segs, true), 0, []) == Some(all) && IsChain(all, segs, |segs|)
    ensures all == [] <==> forall i :: 0 <= i < |segs| ==> segs[i].Plain?
    ensures forall p :: p in all ==> p <= Show(segs, false)
  {
    assert segs[..0] == [] && segs[0..] == segs && Partly(segs, 0) == Show(segs, true);
    assert IsChain([], segs, 0);
    all := WalkSegments(segs, 0, []);
    ChainIsEmpty(all, segs);
    forall p | p in all
      ensures p <= Show(segs, false)
    {
      ChainIsPrefix(all, segs, p);
    }
  }

  lemma {:induction false} ChainIsEmpty(all: seq<string>, segs: seq<Segment>)
    requires IsChain(all, segs, |segs|)
    ensures all == [] <==> forall i :: 0 <= i < |segs| ==> segs[i].Plain?
  {
    if i :| 0 <= i < |segs| && segs[i].Optional? {
      assert OffersPath(segs, i, |segs|, Through(segs, i));
      assert Through(segs, i) in all;
    }
    if all != [] {
      assert all[0] in all;
      var i: nat :| OffersPath(segs, i, |segs|, all[0]);
      assert segs[i].Optional?;
    }
  }

  lemma {:induction false} ChainIsPrefix(all: seq<string>, segs: seq<Segment>, p: string)
    requires IsChain(all, segs, |segs|) && p in all
    ensures p <= Show(segs, false)
  {
    var i: nat :| OffersPath(segs, i, |segs|, p);
    PrefixOfAll(segs, i);
    PrefixOfAll(segs, i + 1);
  }

  lemma {:induction false} PrefixOfAll(segs: seq<Segment>, i: nat)
    requires i <= |segs| && segs != []
    ensures Show(segs[..i], false) <= Show(segs, false) && "/" <= Show(segs, false)
  {
    assert segs == segs[..i] + segs[i..];
    ShowConcat(segs[..i], segs[i..], false);
  }
}
